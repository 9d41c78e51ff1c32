/** Human-readable number formatting of the indexer API
    (crates/lambdas/indexer-api/src/utils.rs): thousands separators, ZKC
    amounts and cycle counts. */
module ApiUtils {
  import opened Wrappers
  import opened Ints
  import opened Decimal

  /** Wei per ZKC: the token has 18 decimals. */
  const WEI_PER_ZKC: nat := 1_000_000_000_000_000_000

  /** A string split into groups of three characters from the right, the
      groups separated by commas. */
  function Commas(t: string): string
    decreases |t|
  {
    if |t| <= 3 then t else Commas(t[..|t| - 3]) + "," + t[|t| - 3..]
  }

  /** The string with every comma deleted. */
  function RemoveCommas(s: string): string
  {
    if s == [] then [] else (if s[0] == ',' then [] else [s[0]]) + RemoveCommas(s[1..])
  }

  /** Putting one more character in front of a grouped string of
      `3 * groups + rest` characters adds a comma exactly when the groups
      already there are full. */
  lemma {:induction false} CommasCons(ch: char, t: string, groups: nat, rest: nat)
    requires |t| == 3 * groups + rest && rest < 3
    ensures Commas([ch] + t) == if groups > 0 && rest == 0 then [ch, ','] + Commas(t) else [ch] + Commas(t)
    decreases groups
  {
    var u := [ch] + t;
    if |t| >= 3 {
      var t' := t[..|t| - 3];
      var tail := t[|t| - 3..];
      assert u[..|u| - 3] == [ch] + t';
      assert u[|u| - 3..] == tail;
      var front := Commas([ch] + t');
      assert Commas(u) == front + "," + tail;
      assert |t'| == 3 * (groups - 1) + rest;
      CommasCons(ch, t', groups - 1, rest);
      if |t| > 3 {
        var ct := Commas(t');
        assert Commas(t) == ct + "," + tail;
        var mark := if groups - 1 > 0 && rest == 0 then [ch, ','] else [ch];
        assert front == mark + ct;
        Regroup(mark, ct, tail);
      } else {
        assert t' == [] && tail == t;
        assert front == [ch];
        CommaAfter(ch, t);
      }
    } else {
      assert Commas(t) == t;
      assert Commas(u) == u;
    }
  }

  lemma Regroup(m: string, c: string, tail: string)
    ensures (m + c) + "," + tail == m + (c + "," + tail)
  {
  }

  lemma CommaAfter(ch: char, t: string)
    ensures [ch] + "," + t == [ch, ','] + t
    ensures [ch] + ([','] + t) == [ch, ','] + t
  {
  }

  /** One iteration of `GroupThousands`: the character taken next, with a
      comma after it when three characters have gone by since the last one,
      in front of the grouped suffix, groups the longer suffix. */
  lemma PrependGrouped(s: string, i: nat, count: nat, groups: nat)
    requires i < |s| && count <= 3 && (count == 0 <==> i == 0)
    requires (i == 0 && groups == 0) || i == 3 * groups + count
    ensures var ch, done := s[|s| - 1 - i], s[|s| - i..];
      Commas(s[|s| - (i + 1)..]) == if count == 3 then [ch] + ([','] + Commas(done)) else [ch] + Commas(done)
  {
    var ch, done := s[|s| - 1 - i], s[|s| - i..];
    assert s[|s| - (i + 1)..] == [ch] + done;
    if count == 3 {
      CommasCons(ch, done, groups + 1, 0);
      CommaAfter(ch, Commas(done));
    } else if i == 0 {
      CommasCons(ch, done, 0, 0);
    } else {
      CommasCons(ch, done, groups, count);
    }
  }

  /** The loop shared by `format_with_commas` and `format_with_commas_u256`:
      walk the characters from the end, putting each in front of the result
      and a comma before every fourth one. */
  method GroupThousands(s: string) returns (result: string)
    ensures result == Commas(s)
  {
    result := "";
    var count := 0;
    var i := 0;
    ghost var groups := 0;
    while i < |s|
      invariant 0 <= i <= |s|
      invariant result == Commas(s[|s| - i..])
      invariant 0 <= count <= 3 && (count == 0 <==> i == 0)
      invariant (i == 0 && groups == 0) || i == 3 * groups + count
    {
      var ch := s[|s| - 1 - i];
      PrependGrouped(s, i, count, groups);
      if count == 3 {
        result := [','] + result;
        count := 0;
        groups := groups + 1;
      }
      result := [ch] + result;
      count := count + 1;
      i := i + 1;
    }
    assert s[|s| - i..] == s;
  }

  /** `format_with_commas`. */
  method FormatWithCommas(num: u64) returns (r: string)
    ensures r == Commas(ToDecimal(num))
  {
    r := GroupThousands(ToDecimal(num));
  }

  /** `format_with_commas_u256`. */
  method FormatWithCommasU256(num: u256) returns (r: string)
    ensures r == Commas(ToDecimal(num))
  {
    r := GroupThousands(ToDecimal(num));
  }

  lemma {:induction false} RemoveCommasAppend(a: string, b: string)
    ensures RemoveCommas(a + b) == RemoveCommas(a) + RemoveCommas(b)
    decreases |a|
  {
    if a != [] {
      assert (a + b)[0] == a[0];
      assert (a + b)[1..] == a[1..] + b;
      RemoveCommasAppend(a[1..], b);
    } else {
      assert a + b == b;
    }
  }

  lemma {:induction false} RemoveCommasOfDigits(t: string)
    requires AllDigits(t)
    ensures RemoveCommas(t) == t
    decreases |t|
  {
    if t != [] {
      RemoveCommasOfDigits(t[1..]);
    }
  }

  /** Deleting the commas from a grouped digit string gives the digits back. */
  lemma {:induction false} CommasRemoved(t: string)
    requires AllDigits(t)
    ensures RemoveCommas(Commas(t)) == t
    decreases |t|
  {
    if |t| <= 3 {
      RemoveCommasOfDigits(t);
    } else {
      var t', tail := t[..|t| - 3], t[|t| - 3..];
      DigitsSplit(t, |t| - 3);
      CommasRemoved(t');
      RemoveCommasAppend(Commas(t') + ",", tail);
      RemoveCommasAppend(Commas(t'), ",");
      RemoveCommasOfDigits(tail);
      assert RemoveCommas(",") == [];
      assert RemoveCommas(Commas(t') + ",") == t';
      assert t' + tail == t;
      calc {
        RemoveCommas(Commas(t));
        RemoveCommas(Commas(t') + "," + tail);
        RemoveCommas(Commas(t') + ",") + RemoveCommas(tail);
        t' + tail;
      }
    }
  }

  /** The shape of a grouped digit string: it gains one comma per full group
      after the first, and a position holds a comma exactly when it is a
      multiple of four characters from the end. So the leading group has one
      to three digits and every other group exactly three. */
  lemma {:induction false} CommasShape(t: string)
    requires |t| >= 1 && AllDigits(t)
    ensures |Commas(t)| == |t| + (|t| - 1) / 3
    ensures forall i :: 0 <= i < |Commas(t)| ==> (Commas(t)[i] == ',' <==> (|Commas(t)| - i) % 4 == 0)
    decreases |t|
  {
    var c := Commas(t);
    if |t| > 3 {
      var t' := t[..|t| - 3];
      CommasShape(t');
      var c', d := Commas(t'), t[|t| - 3..];
      assert c == c' + "," + d;
      DigitsSplit(t, |t| - 3);
      CommaGroupAppend(c', d);
    } else {
      forall i | 0 <= i < |c|
        ensures c[i] == ',' <==> (|c| - i) % 4 == 0
      {
        assert IsDigit(t[i]);
      }
    }
  }

  lemma DigitsSplit(t: string, n: nat)
    requires n <= |t| && AllDigits(t)
    ensures AllDigits(t[..n]) && AllDigits(t[n..])
  {
    assert forall i :: 0 <= i < n ==> t[..n][i] == t[i];
    assert forall i :: 0 <= i < |t| - n ==> t[n..][i] == t[n + i];
  }

  /** A comma and a group of three digits after a grouped string keep every
      comma at a multiple of four characters from the end. */
  lemma CommaGroupAppend(c': string, d: string)
    requires forall i :: 0 <= i < |c'| ==> (c'[i] == ',' <==> (|c'| - i) % 4 == 0)
    requires |d| == 3 && AllDigits(d)
    ensures var c := c' + "," + d;
      forall i :: 0 <= i < |c| ==> (c[i] == ',' <==> (|c| - i) % 4 == 0)
  {
    var c := c' + "," + d;
    forall i | 0 <= i < |c|
      ensures c[i] == ',' <==> (|c| - i) % 4 == 0
    {
      if i < |c'| {
        assert c[i] == c'[i];
        ShiftByFour(|c'| - i);
      } else if i > |c'| {
        assert c[i] == d[i - |c'| - 1];
        assert IsDigit(d[i - |c'| - 1]);
      }
    }
  }

  lemma ShiftByFour(x: int)
    ensures (x + 4) % 4 == x % 4
  {
  }

  /** Numbers below one thousand get no comma. */
  lemma SmallNumbersHaveNoComma(n: nat)
    requires n < 1000
    ensures Commas(ToDecimal(n)) == ToDecimal(n)
  {
    assert Pow10(3) == 1000;
    ToDecimalLength(n, 3);
  }

  /** What `format_zkc` and `format_cycles` print: the parsed value divided
      by the unit's scale, grouped and followed by the unit; text that does not
      parse prints as zero. */
  function AmountText(text: string, divisor: nat, unit: string): string
    requires divisor > 0
  {
    match ParseU256(text)
    case Ok(v) => Commas(ToDecimal(v / divisor)) + " " + unit
    case Err(_) => "0 " + unit
  }

  /** `format_zkc`. */
  method FormatZkc(weiStr: string) returns (r: string)
    ensures r == AmountText(weiStr, WEI_PER_ZKC, "ZKC")
  {
    match ParseU256(weiStr)
    case Ok(wei) =>
      var formatted := FormatWithCommasU256(wei / WEI_PER_ZKC);
      r := formatted + " ZKC";
    case Err(_) =>
      r := "0 ZKC";
  }

  /** `format_cycles`: cycle counts are shown unscaled. */
  method FormatCycles(cyclesStr: string) returns (r: string)
    ensures r == AmountText(cyclesStr, 1, "cycles")
  {
    match ParseU256(cyclesStr)
    case Ok(cycles) =>
      var formatted := FormatWithCommasU256(cycles);
      r := formatted + " cycles";
    case Err(_) =>
      r := "0 cycles";
  }

  /** Reading a printed amount back: the text before the unit, with commas
      deleted, is the decimal rendering of the value divided by the scale
      (whole ZKC for `format_zkc`, the value itself for `format_cycles`). */
  lemma AmountTextReadsBack(text: string, divisor: nat, unit: string)
    requires divisor > 0 && ParseU256(text).Ok?
    ensures var r := AmountText(text, divisor, unit);
      |r| > |unit| &&
      r[|r| - |unit| - 1..] == " " + unit &&
      RemoveCommas(r[..|r| - |unit| - 1]) == ToDecimal(ParseU256(text).value / divisor)
  {
    var d := ToDecimal(ParseU256(text).value / divisor);
    assert AmountText(text, divisor, unit) == Commas(d) + " " + unit;
    CommasRemoved(d);
    SplitAtUnit(Commas(d), unit);
  }

  /** The text before a unit suffix is what preceded it. */
  lemma SplitAtUnit(digits: string, unit: string)
    ensures var r := digits + " " + unit;
      |r| > |unit| && r[|r| - |unit| - 1..] == " " + unit && r[..|r| - |unit| - 1] == digits
  {
    var r := digits + " " + unit;
    assert r[..|digits|] == digits;
    assert r[|digits|..] == " " + unit;
  }

  /** Text that does not parse prints like the amount zero. */
  lemma UnparsableIsZero(text: string, divisor: nat, unit: string)
    requires divisor > 0 && ParseU256(text).Err?
    ensures AmountText(text, divisor, unit) == AmountText("0", divisor, unit)
  {
    assert ToDecimal(0) == "0";
    ParseToDecimal(0);
  }

  /** Printing the rendering of a value as cycles shows that value. */
  lemma CyclesUnscaled(v: u256)
    ensures AmountText(ToDecimal(v), 1, "cycles") == Commas(ToDecimal(v)) + " cycles"
  {
    ParseToDecimal(v);
  }
}
