/** Helpers shared by the mint calculator guest and its host
    (crates/povw/src/mint_calculator.rs): the work-log filter, 128-bit
    fixed-point reward weights, and the iterator that patches gaps in a
    sequence of block numbers. */
module MintCalculator {
  import opened Wrappers
  import opened Ints

  // ---------------------------------------------------------------------
  // WorkLogFilter

  /** `None` includes every work log; `Some(ids)` includes exactly `ids`. */
  datatype WorkLogFilter = WorkLogFilter(ids: Option<set<Address>>)

  function AnyFilter(): WorkLogFilter
  {
    WorkLogFilter(None)
  }

  function NoneFilter(): WorkLogFilter
  {
    WorkLogFilter(Some({}))
  }

  /** `From<&[PovwLogId]>` / `FromIterator`: exactly the given IDs. */
  function FilterFrom(ids: seq<Address>): WorkLogFilter
  {
    WorkLogFilter(Some(set id | id in ids))
  }

  function Includes(f: WorkLogFilter, id: Address): bool
  {
    match f.ids
    case None => true
    case Some(s) => id in s
  }

  /** `any()` (also the default) includes everything, `none()` nothing, and a
      filter built from a list exactly the listed IDs, so nothing when the list
      is empty. */
  lemma FilterSemantics(ids: seq<Address>, id: Address)
    ensures Includes(AnyFilter(), id)
    ensures !Includes(NoneFilter(), id)
    ensures Includes(FilterFrom(ids), id) <==> id in ids
    ensures !Includes(FilterFrom([]), id)
  {
  }

  // ---------------------------------------------------------------------
  // FixedPoint

  /** `FixedPoint::BASE`: one, in 128-bit fixed point. */
  const BASE: nat := U128_LIMIT

  /** A fixed-point value `raw / 2^128`. */
  datatype FixedPoint = FixedPoint(raw: u256)

  /** The panics of the fixed-point operations. */
  datatype Panic = MulOverflow | DivisionByZero | FractionAboveOne | AddOverflow

  /** `FixedPoint::fraction`: `num * BASE` (checked), divided by `dem`, which
      must be at most one. */
  function Fraction(num: u256, dem: u256): (r: Result<FixedPoint, Panic>)
    ensures r.Ok? ==> r.value.raw <= BASE
    ensures r.Err? ==> (r.error == MulOverflow <==> num * BASE >= U256_LIMIT)
  {
    if num * BASE >= U256_LIMIT then Err(MulOverflow)
    else if dem == 0 then Err(DivisionByZero)
    else if (num * BASE) / dem > BASE then Err(FractionAboveOne)
    else Ok(FixedPoint((num * BASE) / dem))
  }

  /** A fraction is the floor of `num * 2^128 / dem`. */
  lemma FractionIsFloor(num: u256, dem: u256)
    requires Fraction(num, dem).Ok?
    ensures var q := Fraction(num, dem).value.raw;
      q * dem <= num * BASE < (q + 1) * dem
  {
    var q := (num * BASE) / dem;
    assert num * BASE == q * dem + (num * BASE) % dem;
  }

  /** `fraction` succeeds exactly on proper fractions `num <= dem` with a
      non-zero denominator and a numerator below 2^128. */
  lemma FractionAcceptsProperFractions(num: u256, dem: u256)
    ensures Fraction(num, dem).Ok? <==> num < BASE && 0 < dem && num <= dem
  {
    if num < BASE && 0 < dem {
      assert num * BASE < U256_LIMIT by {
        MulMono(num, BASE - 1, BASE);
      }
      if num <= dem {
        MulMono(num, dem, BASE);
        DivMono(num * BASE, dem * BASE, dem);
        MulDivCancel(BASE, dem);
      } else {
        // num >= dem + 1 and dem < BASE, so num * BASE >= dem * (BASE + 1).
        MulMono(dem + 1, num, BASE);
        assert dem * (BASE + 1) <= num * BASE;
        DivMono(dem * (BASE + 1), num * BASE, dem);
        MulDivCancel(BASE + 1, dem);
      }
    } else if num >= BASE {
      MulMono(BASE, num, BASE);
    }
  }

  /** `mul_unwrap`: `raw * x` (checked), shifted right by 128 bits. */
  function MulUnwrap(f: FixedPoint, x: u256): (r: Result<u256, Panic>)
    ensures r.Err? <==> f.raw * x >= U256_LIMIT
    ensures r.Err? ==> r.error == MulOverflow
  {
    if f.raw * x >= U256_LIMIT then Err(MulOverflow) else Ok((f.raw * x) / BASE)
  }

  /** A weight of at most one never yields more than the whole. */
  lemma MulUnwrapAtMostWhole(f: FixedPoint, x: u256)
    requires f.raw <= BASE
    requires MulUnwrap(f, x).Ok?
    ensures MulUnwrap(f, x).value <= x
  {
    MulMono(f.raw, BASE, x);
    DivMono(f.raw * x, BASE * x, BASE);
    MulDivCancel(x, BASE);
  }

  /** `mul_unwrap` is the floor of `raw * x / 2^128`. */
  lemma MulUnwrapIsFloor(f: FixedPoint, x: u256)
    requires MulUnwrap(f, x).Ok?
    ensures var y := MulUnwrap(f, x).value;
      y * BASE <= f.raw * x < (y + 1) * BASE
  {
    var y := (f.raw * x) / BASE;
    assert f.raw * x == y * BASE + (f.raw * x) % BASE;
  }

  /** `Add` and `AddAssign` (`x += y` is `x = x + y` on this `Copy` value):
      the exact sum, or a panic on overflow. */
  function Add(a: FixedPoint, b: FixedPoint): (r: Result<FixedPoint, Panic>)
    ensures r.Ok? <==> a.raw + b.raw < U256_LIMIT
    ensures r.Ok? ==> r.value.raw == a.raw + b.raw
    ensures r.Err? ==> r.error == AddOverflow
  {
    if a.raw + b.raw < U256_LIMIT then Ok(FixedPoint(a.raw + b.raw)) else Err(AddOverflow)
  }

  /** The default (zero) value is the identity of `Add`. */
  lemma AddZero(a: FixedPoint)
    ensures Add(FixedPoint(0), a) == Ok(a)
  {
  }

  // ---------------------------------------------------------------------
  // PatchedIterator

  /** The output of the iterator from a state with previous value `prev` and
      remaining values `pending`: whenever the next value is more than `gap`
      above the previous one, `prev + gap` is emitted first. */
  function Patched(prev: Option<nat>, pending: seq<nat>, gap: nat): seq<nat>
    requires gap > 0
    decreases |pending|, if pending != [] && prev.Some? && pending[0] > prev.value + gap then pending[0] - prev.value else 0
  {
    if pending == [] then []
    else if prev.Some? && pending[0] > prev.value + gap then
      [prev.value + gap] + Patched(Some(prev.value + gap), pending, gap)
    else [pending[0]] + Patched(Some(pending[0]), pending[1..], gap)
  }

  /** The values inserted between `prev` and the next input `x`. */
  function Filler(prev: nat, x: nat, gap: nat): seq<nat>
    requires gap > 0
    decreases x - prev
  {
    if x > prev + gap then [prev + gap] + Filler(prev + gap, x, gap) else []
  }

  /** Each input value is emitted in order, preceded by the fillers that bridge
      the gap from the value before it. */
  lemma {:induction false} PatchedKeepsInput(prev: Option<nat>, x: nat, rest: seq<nat>, gap: nat)
    requires gap > 0
    ensures Patched(prev, [x] + rest, gap)
         == (if prev.Some? then Filler(prev.value, x, gap) else []) + [x] + Patched(Some(x), rest, gap)
    decreases if prev.Some? && x > prev.value then x - prev.value else 0
  {
    var p := [x] + rest;
    assert p[0] == x && p[1..] == rest;
    if prev.Some? && x > prev.value + gap {
      PatchedKeepsInput(Some(prev.value + gap), x, rest, gap);
    }
  }

  /** Fillers step up by exactly `gap`, stay below `x`, and leave a last step
      of at most `gap`. */
  lemma {:induction false} FillerSteps(prev: nat, x: nat, gap: nat)
    requires gap > 0
    ensures var f := Filler(prev, x, gap);
      (forall i :: 0 <= i < |f| ==> f[i] == prev + (i + 1) * gap && f[i] < x)
      && (f == [] ==> x <= prev + gap)
      && (f != [] ==> x <= f[|f| - 1] + gap)
    decreases x - prev
  {
    if x > prev + gap {
      FillerSteps(prev + gap, x, gap);
      var g := Filler(prev + gap, x, gap);
      var f := Filler(prev, x, gap);
      assert f == [prev + gap] + g;
      forall i | 0 < i < |f| ensures f[i] == prev + (i + 1) * gap {
        assert f[i] == g[i - 1];
      }
    }
  }

  /** No emitted value exceeds the one before it by more than `gap`. */
  lemma {:induction false} PatchedGapsBounded(prev: Option<nat>, pending: seq<nat>, gap: nat)
    requires gap > 0
    ensures var out := Patched(prev, pending, gap);
      (prev.Some? && out != [] ==> out[0] <= prev.value + gap)
      && forall i :: 0 < i < |out| ==> out[i] <= out[i - 1] + gap
    decreases |pending|, if pending != [] && prev.Some? && pending[0] > prev.value + gap then pending[0] - prev.value else 0
  {
    if pending != [] {
      var out := Patched(prev, pending, gap);
      if prev.Some? && pending[0] > prev.value + gap {
        PatchedGapsBounded(Some(prev.value + gap), pending, gap);
        assert out == [prev.value + gap] + Patched(Some(prev.value + gap), pending, gap);
      } else {
        PatchedGapsBounded(Some(pending[0]), pending[1..], gap);
        assert out == [pending[0]] + Patched(Some(pending[0]), pending[1..], gap);
      }
    }
  }

  /** Input with no gap larger than `gap` comes out unchanged; in particular
      the empty input gives nothing. */
  lemma {:induction false} PatchedNoGapIsIdentity(prev: Option<nat>, pending: seq<nat>, gap: nat)
    requires gap > 0
    requires prev.Some? && pending != [] ==> pending[0] <= prev.value + gap
    requires forall i :: 0 < i < |pending| ==> pending[i] <= pending[i - 1] + gap
    ensures Patched(prev, pending, gap) == pending
    decreases |pending|
  {
    if pending != [] {
      PatchedNoGapIsIdentity(Some(pending[0]), pending[1..], gap);
      assert [pending[0]] + pending[1..] == pending;
    }
  }

  /** The iterator over `iter`: `next` holds a value taken from `iter` but
      not yet emitted because a filler had to come first. */
  class PatchedIterator {
    const maxGap: nat
    var iter: seq<u64>
    var prev: Option<u64>
    var next: Option<u64>

    /** The values still to be consumed, the buffered one first. */
    function Pending(): seq<nat>
      reads this
    {
      (if next.Some? then [next.value as nat] else []) + iter
    }

    function Remaining(): seq<nat>
      requires maxGap > 0
      reads this
    {
      Patched(if prev.Some? then Some(prev.value as nat) else None, Pending(), maxGap)
    }

    constructor (iter: seq<u64>, maxGap: nat)
      requires maxGap > 0
      ensures this.maxGap == maxGap && this.iter == iter
      ensures prev == None && next == None
      ensures Remaining() == Patched(None, iter, maxGap)
    {
      this.maxGap := maxGap;
      this.iter := iter;
      prev := None;
      next := None;
      new;
      assert Pending() == iter;
    }

    /** `Iterator::next`: the next value of the patched sequence, if any. */
    method Next() returns (item: Option<u64>)
      requires maxGap > 0
      modifies this
      ensures item.None? <==> old(Pending()) == []
      ensures item.None? ==> unchanged(this)
      ensures item.Some? ==> old(Remaining()) == [item.value as nat] + Remaining()
    {
      ghost var pending := Pending();
      var n: u64;
      if next.Some? {
        n := next.value;
        next := None;
      } else if iter == [] {
        return None;
      } else {
        n := iter[0];
        iter := iter[1..];
      }
      assert pending == [n as nat] + Pending();
      assert pending[0] == n as nat && pending[1..] == Pending();
      if prev.Some? && n as nat > prev.value as nat + maxGap {
        next := Some(n);
        assert Pending() == pending;
        n := prev.value + maxGap as u64;
      }
      prev := Some(n);
      item := Some(n);
    }

    /** `collect()`: every remaining value of the patched sequence. */
    method Collect() returns (out: seq<u64>)
      requires maxGap > 0
      modifies this
      ensures seq(|out|, i requires 0 <= i < |out| => out[i] as nat) == old(Remaining())
      ensures Pending() == []
    {
      out := [];
      ghost var start := Remaining();
      while true
        invariant seq(|out|, i requires 0 <= i < |out| => out[i] as nat) + Remaining() == start
        decreases |Remaining()|
      {
        var item := Next();
        if item.None? {
          break;
        }
        out := out + [item.value];
      }
    }
  }

  /** The gap patching shown in the source's own examples, for a gap of 10. */
  lemma PatchedExamples()
    ensures Patched(None, [], 10) == []
    ensures Patched(None, [1], 10) == [1]
    ensures Patched(None, [1, 5, 20], 10) == [1, 5, 15, 20]
    ensures Patched(None, [1, 5, 20, 25, 50], 10) == [1, 5, 15, 20, 25, 35, 45, 50]
  {
  }
}
