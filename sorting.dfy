/** Ordered views used by the source: the ascending key order of an ordered
    map (`BTreeMap` iteration, and `sort_by_key` over distinct epochs) and the
    stable sort of `slice::sort_by_key`. */
module Sorting {

  /** Strictly ascending naturals. */
  predicate Increasing(s: seq<nat>)
  {
    forall i, j :: 0 <= i < j < |s| ==> s[i] < s[j]
  }

  /** A set holding `n` has a least element: descend from `n` while a
      smaller element exists. */
  lemma {:induction false} MinBelow(s: set<nat>, n: nat)
    requires n in s
    ensures exists m :: m in s && forall y :: y in s ==> m <= y
    decreases n
  {
    if exists y :: y in s && y < n {
      var y :| y in s && y < n;
      MinBelow(s, y);
    } else {
      assert n in s && forall y :: y in s ==> n <= y;
    }
  }

  /** Every non-empty set of naturals has a least element. */
  lemma MinExists(s: set<nat>)
    requires s != {}
    ensures exists m :: m in s && forall y :: y in s ==> m <= y
  {
    var x :| x in s;
    MinBelow(s, x);
  }

  /** The least element of a non-empty set. */
  function SetMin(s: set<nat>): (m: nat)
    requires s != {}
    ensures m in s
    ensures forall y :: y in s ==> m <= y
  {
    MinExists(s);
    var m :| m in s && forall y :: y in s ==> m <= y;
    m
  }

  /** The elements of a set listed in ascending order. */
  function AscendingKeys(s: set<nat>): (r: seq<nat>)
    ensures |r| == |s|
    ensures forall x :: x in r <==> x in s
    ensures Increasing(r)
    decreases s
  {
    if s == {} then []
    else
      var m := SetMin(s);
      var rest := AscendingKeys(s - {m});
      assert |s - {m}| == |s| - 1;
      [m] + rest
  }

  /** A strictly ascending listing of the interval lo..=hi is lo, lo+1, ..., hi. */
  lemma IntervalListing(r: seq<nat>, lo: nat, hi: nat)
    requires lo <= hi
    requires Increasing(r)
    requires forall x :: x in r <==> lo <= x <= hi
    ensures |r| == hi - lo + 1
    ensures forall i :: 0 <= i < |r| ==> r[i] == lo + i
  {
    assert lo in r;
    forall i | 0 <= i < |r| ensures r[i] == lo + i {
      IntervalPrefix(r, lo, hi, i);
    }
    IntervalPrefix(r, lo, hi, |r| - 1);
    assert hi in r;
    var j :| 0 <= j < |r| && r[j] == hi;
    assert r[j] == lo + j;
    assert r[|r| - 1] in r;
  }

  lemma {:induction false} IntervalPrefix(r: seq<nat>, lo: nat, hi: nat, i: nat)
    requires lo <= hi
    requires Increasing(r)
    requires forall x :: x in r <==> lo <= x <= hi
    requires i < |r|
    ensures r[i] == lo + i
  {
    if i == 0 {
      assert lo in r;
      var j :| 0 <= j < |r| && r[j] == lo;
      assert r[0] in r;
    } else {
      IntervalPrefix(r, lo, hi, i - 1);
      assert r[i] in r;
      assert lo + i in r;
      var j :| 0 <= j < |r| && r[j] == lo + i;
    }
  }

  /** Non-decreasing by `key`. */
  predicate SortedBy<T>(s: seq<T>, key: T -> int)
  {
    forall i, j :: 0 <= i < j < |s| ==> key(s[i]) <= key(s[j])
  }

  /** The elements of `s` whose key is `k`, in their order in `s`. */
  function WithKey<T>(s: seq<T>, key: T -> int, k: int): (r: seq<T>)
    ensures |r| <= |s|
  {
    if s == [] then []
    else WithKey(s[..|s| - 1], key, k) + (if key(s[|s| - 1]) == k then [s[|s| - 1]] else [])
  }

  /** Inserts `x` after every element whose key is at most `x`'s. */
  function InsertBy<T>(s: seq<T>, x: T, key: T -> int): seq<T>
    decreases |s|
  {
    if s == [] || key(s[|s| - 1]) <= key(x) then s + [x]
    else InsertBy(s[..|s| - 1], x, key) + [s[|s| - 1]]
  }

  /** `sort_by_key`: a stable sort, here insertion sort, whose result is the
      unique stable ordering by `key`. */
  function SortBy<T>(s: seq<T>, key: T -> int): seq<T>
    decreases |s|
  {
    if s == [] then [] else InsertBy(SortBy(s[..|s| - 1], key), s[|s| - 1], key)
  }

  lemma {:induction false} InsertByFacts<T>(s: seq<T>, x: T, key: T -> int)
    ensures multiset(InsertBy(s, x, key)) == multiset(s) + multiset{x}
    ensures |InsertBy(s, x, key)| == |s| + 1
    ensures forall y :: y in InsertBy(s, x, key) ==> y == x || y in s
    ensures SortedBy(s, key) ==> SortedBy(InsertBy(s, x, key), key)
    decreases |s|
  {
    InsertByPermutes(s, x, key);
    forall y | y in InsertBy(s, x, key) ensures y == x || y in s {
      assert y in multiset(InsertBy(s, x, key));
    }
    if SortedBy(s, key) {
      InsertBySorted(s, x, key);
    }
  }

  lemma {:induction false} InsertByPermutes<T>(s: seq<T>, x: T, key: T -> int)
    ensures multiset(InsertBy(s, x, key)) == multiset(s) + multiset{x}
    ensures |InsertBy(s, x, key)| == |s| + 1
    decreases |s|
  {
    if s != [] && key(s[|s| - 1]) > key(x) {
      var init, last := s[..|s| - 1], s[|s| - 1];
      assert s == init + [last];
      InsertByPermutes(init, x, key);
    }
  }

  lemma {:induction false} InsertBySorted<T>(s: seq<T>, x: T, key: T -> int)
    requires SortedBy(s, key)
    ensures SortedBy(InsertBy(s, x, key), key)
    decreases |s|
  {
    if s != [] && key(s[|s| - 1]) > key(x) {
      var init, last := s[..|s| - 1], s[|s| - 1];
      assert SortedBy(init, key);
      InsertBySorted(init, x, key);
      InsertedBelowLast(s, x, key);
      SortedSnoc(InsertBy(init, x, key), last, key);
    }
  }

  /** Inserting `x` below a larger-keyed last element keeps everything
      inserted into the rest at or below that element's key. */
  lemma InsertedBelowLast<T>(s: seq<T>, x: T, key: T -> int)
    requires SortedBy(s, key) && s != [] && key(s[|s| - 1]) > key(x)
    ensures forall y :: y in InsertBy(s[..|s| - 1], x, key) ==> key(y) <= key(s[|s| - 1])
  {
    var init, last := s[..|s| - 1], s[|s| - 1];
    InsertByPermutes(init, x, key);
    var t := InsertBy(init, x, key);
    forall y | y in t ensures key(y) <= key(last) {
      assert y in multiset(t);
      if y != x {
        assert y in multiset(init);
        var j :| 0 <= j < |init| && init[j] == y;
        assert s[j] == y;
      }
    }
  }

  lemma SortedSnoc<T>(t: seq<T>, last: T, key: T -> int)
    requires SortedBy(t, key)
    requires forall y :: y in t ==> key(y) <= key(last)
    ensures SortedBy(t + [last], key)
  {
    forall i, j | 0 <= i < j < |t + [last]|
      ensures key((t + [last])[i]) <= key((t + [last])[j])
    {
      if j == |t| {
        assert (t + [last])[i] in t;
      }
    }
  }

  lemma {:induction false} InsertByWithKey<T>(s: seq<T>, x: T, key: T -> int, k: int)
    ensures WithKey(InsertBy(s, x, key), key, k)
         == WithKey(s, key, k) + (if key(x) == k then [x] else [])
    decreases |s|
  {
    if s == [] || key(s[|s| - 1]) <= key(x) {
      WithKeySnoc(s, x, key, k);
    } else {
      var init, last := s[..|s| - 1], s[|s| - 1];
      InsertByWithKey(init, x, key, k);
      assert init + [last] == s;
      InsertPastWithKey(init, last, x, key, k);
    }
  }

  /** One step of the insertion: `x` moves past a larger-keyed `last`,
      which is never in `x`'s key group. */
  lemma InsertPastWithKey<T>(init: seq<T>, last: T, x: T, key: T -> int, k: int)
    requires key(x) < key(last)
    requires WithKey(InsertBy(init, x, key), key, k)
          == WithKey(init, key, k) + (if key(x) == k then [x] else [])
    ensures WithKey(InsertBy(init + [last], x, key), key, k)
         == WithKey(init + [last], key, k) + (if key(x) == k then [x] else [])
  {
    var t := InsertBy(init, x, key);
    assert (init + [last])[..|init|] == init;
    assert InsertBy(init + [last], x, key) == t + [last];
    WithKeySnoc(t, last, key, k);
    WithKeySnoc(init, last, key, k);
    AppendCommutesWithEmpty(WithKey(init, key, k), if key(x) == k then [x] else [],
                            if key(last) == k then [last] else []);
  }

  lemma AppendCommutesWithEmpty<T>(a: seq<T>, b: seq<T>, c: seq<T>)
    requires b == [] || c == []
    ensures (a + b) + c == (a + c) + b
  {
    if b == [] {
      assert a + b == a && (a + c) + b == a + c;
    } else {
      assert a + c == a && (a + b) + c == a + b;
    }
  }

  lemma WithKeySnoc<T>(s: seq<T>, y: T, key: T -> int, k: int)
    ensures WithKey(s + [y], key, k) == WithKey(s, key, k) + (if key(y) == k then [y] else [])
  {
    assert (s + [y])[..|s|] == s;
  }

  /** The sort keeps the elements. */
  lemma {:induction false} SortByPermutes<T>(s: seq<T>, key: T -> int)
    ensures multiset(SortBy(s, key)) == multiset(s)
    ensures |SortBy(s, key)| == |s|
    decreases |s|
  {
    if s != [] {
      var init := s[..|s| - 1];
      assert s == init + [s[|s| - 1]];
      SortByPermutes(init, key);
      InsertByFacts(SortBy(init, key), s[|s| - 1], key);
    }
  }

  /** The sort orders by key. */
  lemma {:induction false} SortBySorts<T>(s: seq<T>, key: T -> int)
    ensures SortedBy(SortBy(s, key), key)
    decreases |s|
  {
    if s != [] {
      SortBySorts(s[..|s| - 1], key);
      InsertByFacts(SortBy(s[..|s| - 1], key), s[|s| - 1], key);
    }
  }

  /** The sort is stable: elements with equal keys keep their relative order. */
  lemma {:induction false} SortByStable<T>(s: seq<T>, key: T -> int, k: int)
    ensures WithKey(SortBy(s, key), key, k) == WithKey(s, key, k)
    decreases |s|
  {
    if s != [] {
      SortByStable(s[..|s| - 1], key, k);
      InsertByWithKey(SortBy(s[..|s| - 1], key), s[|s| - 1], key, k);
    }
  }

  /** Sorting an already sorted sequence changes nothing. */
  lemma {:induction false} SortBySortedIsIdentity<T>(s: seq<T>, key: T -> int)
    requires SortedBy(s, key)
    ensures SortBy(s, key) == s
    decreases |s|
  {
    if s != [] {
      var init := s[..|s| - 1];
      assert SortedBy(init, key);
      SortBySortedIsIdentity(init, key);
      assert init + [s[|s| - 1]] == s;
      if |init| > 0 {
        assert key(init[|init| - 1]) <= key(s[|s| - 1]);
      }
    }
  }

  /** The entries of a map in ascending key order, as a `BTreeMap` iterates
      them. */
  function Entries<V>(m: map<nat, V>): seq<(nat, V)>
  {
    var ks := AscendingKeys(m.Keys);
    seq(|ks|, i requires 0 <= i < |ks| => assert ks[i] in ks; (ks[i], m[ks[i]]))
  }

  /** The listing holds every entry of the map once, by strictly ascending
      key. */
  lemma EntriesListing<V>(m: map<nat, V>)
    ensures var r := Entries(m);
      |r| == |m|
      && (forall i, j :: 0 <= i < j < |r| ==> r[i].0 < r[j].0)
      && (forall k :: 0 <= k < |r| ==> r[k].0 in m && r[k].1 == m[r[k].0])
      && (forall x :: x in m ==> exists k :: 0 <= k < |r| && r[k].0 == x)
  {
    var ks := AscendingKeys(m.Keys);
    var r := Entries(m);
    EntriesFollowKeys(m);
    assert |m.Keys| == |m|;
    forall x | x in m ensures exists k :: 0 <= k < |r| && r[k].0 == x {
      assert x in ks;
      var k :| 0 <= k < |ks| && ks[k] == x;
      assert r[k].0 == x;
    }
  }

  lemma EntriesFollowKeys<V>(m: map<nat, V>)
    ensures var ks, r := AscendingKeys(m.Keys), Entries(m);
      |r| == |ks| && forall k :: 0 <= k < |r| ==> r[k].0 == ks[k] && ks[k] in m && r[k].1 == m[ks[k]]
  {
    var ks := AscendingKeys(m.Keys);
    forall k | 0 <= k < |ks| ensures ks[k] in m {
      assert ks[k] in ks;
    }
  }
}
