/** Fixed-width unsigned integers of the source (`u64`, alloy's `U256`) and the
    arithmetic the source applies to them. `U256` operators (`+`, `*`) wrap
    modulo 2^256; `saturating_sub` truncates at zero. */
module Ints {

  const U64_LIMIT: nat := 0x1_0000_0000_0000_0000
  const U128_LIMIT: nat := 0x1_0000_0000_0000_0000_0000_0000_0000_0000
  const U256_LIMIT: nat := 0x1_0000_0000_0000_0000_0000_0000_0000_0000_0000_0000_0000_0000_0000_0000_0000_0000

  type u64 = x: nat | x < U64_LIMIT
  type u256 = x: nat | x < U256_LIMIT

  /** Ethereum addresses and work-log IDs are 160-bit values; the model uses
      their identity, their numeric order and their hexadecimal text. */
  type Address = nat

  /** `U256 + U256`: wraps modulo 2^256. */
  function WrappingAdd(a: u256, b: u256): (r: u256)
    ensures a + b < U256_LIMIT ==> r == a + b
    ensures a + b >= U256_LIMIT ==> r == a + b - U256_LIMIT
  {
    if a + b < U256_LIMIT then a + b else a + b - U256_LIMIT
  }

  /** `U256 * U256`: wraps modulo 2^256. */
  function WrappingMul(a: u256, b: u256): u256
  {
    (a * b) % U256_LIMIT
  }

  /** A product that fits is not wrapped. */
  lemma WrappingMulExact(a: u256, b: u256)
    requires a * b < U256_LIMIT
    ensures WrappingMul(a, b) == a * b
  {
  }

  /** `saturating_sub`: the difference, or zero when `b` exceeds `a`. */
  function SaturatingSub(a: nat, b: nat): (r: nat)
    ensures r <= a
    ensures b <= a ==> r + b == a
    ensures a <= b ==> r == 0
  {
    if b <= a then a - b else 0
  }

  /** `x as i64` on a `u64`: values of 2^63 and above wrap to negatives. */
  function AsI64(x: u64): (r: int)
    ensures -0x8000_0000_0000_0000 <= r < 0x8000_0000_0000_0000
    ensures (r - x) % U64_LIMIT == 0
  {
    if x < 0x8000_0000_0000_0000 then x else x - U64_LIMIT
  }

  /** Reading an `i64` back as `u64` gives the original value. */
  lemma AsI64ReadsBack(x: u64)
    ensures AsI64(x) % U64_LIMIT == x
  {
  }

  function Min(a: nat, b: nat): (r: nat)
    ensures r <= a && r <= b
    ensures r == a || r == b
  {
    if a <= b then a else b
  }

  lemma WrappingAddIsModular(a: u256, b: u256)
    ensures WrappingAdd(a, b) == (a + b) % U256_LIMIT
  {
  }

  /** Equal sums wrap to equal values. */
  lemma WrapCongruent(p: int, q: int)
    requires p == q
    ensures p % U256_LIMIT == q % U256_LIMIT
  {
  }

  /** Adding whole multiples of 2^256 does not change the wrapped value. */
  lemma {:induction false} ModShift(x: nat, k: nat)
    ensures (x + k * U256_LIMIT) % U256_LIMIT == x % U256_LIMIT
  {
    if k > 0 {
      ModShift(x, k - 1);
      assert x + k * U256_LIMIT == (x + (k - 1) * U256_LIMIT) + U256_LIMIT;
    }
  }

  /** Wrapping a partial sum first does not change the wrapped total. */
  lemma ModAbsorb(a: nat, b: nat)
    ensures (a % U256_LIMIT + b) % U256_LIMIT == (a + b) % U256_LIMIT
  {
    var q := a / U256_LIMIT;
    assert a + b == (a % U256_LIMIT + b) + q * U256_LIMIT;
    ModShift(a % U256_LIMIT + b, q);
  }

  /** Adding to a wrapped sum wraps the exact sum. */
  lemma ModAddStep(s: nat, x: u256)
    ensures WrappingAdd(s % U256_LIMIT, x) == (s + x) % U256_LIMIT
  {
    var q := s / U256_LIMIT;
    var rem := s % U256_LIMIT;
    assert s == q * U256_LIMIT + rem;
    if rem + x < U256_LIMIT {
      assert s + x == q * U256_LIMIT + (rem + x);
    } else {
      assert s + x == (q + 1) * U256_LIMIT + (rem + x - U256_LIMIT);
    }
  }

  /** Facts about products and floor division of naturals. */
  lemma MulMono(a: nat, b: nat, p: nat)
    requires a <= b
    ensures a * p <= b * p
  {
  }

  lemma DivMono(a: nat, b: nat, d: nat)
    requires a <= b && d > 0
    ensures a / d <= b / d
  {
    var qa, qb := a / d, b / d;
    assert a == qa * d + a % d;
    assert b == qb * d + b % d;
    if qa > qb {
      MulMono(qb + 1, qa, d);
      assert false;
    }
  }

  lemma MulDivCancel(x: nat, d: nat)
    requires d > 0
    ensures (d * x) / d == x
  {
    var q := (d * x) / d;
    var r := (d * x) % d;
    assert d * x == q * d + r;
    assert 0 <= r < d;
    if q < x {
      MulMono(q + 1, x, d);
      assert false;
    } else if q > x {
      MulMono(x + 1, q, d);
      assert false;
    }
  }

  lemma FloorMul(x: nat, d: nat)
    requires d > 0
    ensures (x / d) * d <= x
  {
    assert x == (x / d) * d + x % d;
  }

}
