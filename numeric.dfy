/**
 * Go's fixed-width integers and IEEE doubles, as the rest of the model uses them.
 *
 * Integers are mathematical integers restricted to the 64-bit ranges; Go's silent
 * two's-complement wrap-around is written out by Wrap64. Doubles are kept as their
 * bit pattern and their arithmetic is a parameter (FloatArith): nothing in the model
 * depends on how rounding is done, only on which field receives which result.
 */
module Numeric {

  const TwoTo63: int := 0x8000_0000_0000_0000
  const TwoTo64: int := 0x1_0000_0000_0000_0000

  /** Go's int64. */
  type Int64 = x: int | -TwoTo63 <= x < TwoTo63

  /** Go's uint64. */
  type UInt64 = x: int | 0 <= x < TwoTo64

  function Abs(x: int): nat {
    if x < 0 then -x else x
  }

  /** The int64 that a Go computation yields for the mathematical result x (two's-complement wrap). */
  function Wrap64(x: int): (r: Int64)
    ensures (r - x) % TwoTo64 == 0
    ensures -TwoTo63 <= x < TwoTo63 ==> r == x
  {
    var m := (x + TwoTo63) % TwoTo64;
    assert x + TwoTo63 == TwoTo64 * ((x + TwoTo63) / TwoTo64) + m;
    m - TwoTo63
  }

  /** Wrapping after each addition is the same as wrapping the total once. */
  lemma WrapAdd(a: int, b: int)
    ensures Wrap64(Wrap64(a) + b) == Wrap64(a + b)
  {
    var w := Wrap64(a);
    var k := (w - a) / TwoTo64;
    assert w - a == k * TwoTo64;
    assert (w + b + TwoTo63) == (a + b + TwoTo63) + k * TwoTo64;
    ModShift(a + b + TwoTo63, k);
  }

  lemma ModShift(x: int, k: int)
    decreases Abs(k)
    ensures (x + k * TwoTo64) % TwoTo64 == x % TwoTo64
  {
    if k > 0 {
      ModShift(x, k - 1);
      assert x + k * TwoTo64 == (x + (k - 1) * TwoTo64) + TwoTo64;
    } else if k < 0 {
      ModShift(x, k + 1);
      assert x + k * TwoTo64 == (x + (k + 1) * TwoTo64) - TwoTo64;
    }
  }

  /** Go's integer division `a / b`: the quotient truncated toward zero. */
  function TruncDiv(a: int, b: int): (q: int)
    requires b != 0
  {
    if (a < 0) == (b < 0) then Abs(a) / Abs(b) else -(Abs(a) / Abs(b))
  }

  /**
   * The defining property of truncated division in the Go specification:
   * a == q * b + r with |r| < |b|, and r is zero or has the sign of a.
   */
  lemma TruncDivRemainder(a: int, b: int)
    requires b != 0
    ensures var q := TruncDiv(a, b); var r := a - q * b;
      Abs(r) < Abs(b) && (r == 0 || (r < 0) == (a < 0))
  {
    var qa := Abs(a) / Abs(b);
    var ra := Abs(a) % Abs(b);
    assert Abs(a) == qa * Abs(b) + ra;
    var q := TruncDiv(a, b);
    if (a < 0) == (b < 0) {
      assert q == qa;
      if a >= 0 {
        assert a - q * b == ra;
      } else {
        assert q * b == -(qa * Abs(b));
        assert a - q * b == -ra;
      }
    } else {
      assert q == -qa;
      if a >= 0 {
        assert q * b == qa * Abs(b);
        assert a - q * b == ra;
      } else {
        assert q * b == -(qa * Abs(b));
        assert a - q * b == -ra;
      }
    }
  }

  /** Multiplying by f and then dividing by f (Go semantics) is the identity when the product does not overflow. */
  lemma MultiplyThenDivide(v: Int64, f: Int64)
    requires f != 0
    requires -TwoTo63 <= v * f < TwoTo63
    ensures Wrap64(TruncDiv(Wrap64(v * f), f)) == v
  {
    assert Wrap64(v * f) == v * f;
    MulDivExact(v, f);
  }

  lemma MulDivExact(v: int, f: int)
    requires f != 0
    ensures TruncDiv(v * f, f) == v
  {
    var p := v * f;
    assert Abs(p) == Abs(v) * Abs(f) by {
      if v < 0 && f < 0 { assert p == (-v) * (-f); }
      else if v < 0 { assert -p == (-v) * f; }
      else if f < 0 { assert -p == v * (-f); }
    }
    MulDiv(Abs(v), Abs(f));
  }

  lemma {:induction false} MulDiv(q: nat, d: nat)
    requires d > 0
    ensures (q * d) / d == q
  {
    if q > 0 {
      MulDiv(q - 1, d);
      var a := (q - 1) * d;
      assert q * d == a + d;
      DivAddDivisor(a, d);
    }
  }

  lemma DivAddDivisor(a: int, d: int)
    requires d > 0
    ensures (a + d) / d == a / d + 1
  {
    var q, r := a / d, a % d;
    var q', r' := (a + d) / d, (a + d) % d;
    assert a == d * q + r;
    assert a + d == d * q' + r';
    var k := q' - q - 1;
    assert d * k == r - r' by {
      assert d * q' + r' == d * q + r + d;
      assert d * k == d * q' - d * q - d;
    }
  }

  /** An IEEE-754 binary64 value, kept as its bit pattern. */
  datatype Float64 = Float64(bits: bv64)

  /** +0.0, the zero value of a Go float64. */
  const FloatZero: Float64 := Float64(0)

  /** 1.0. */
  const FloatOne: Float64 := Float64(0x3FF0_0000_0000_0000)

  /**
   * The floating-point operations the source performs, supplied from outside the model:
   * `+`, `*` and `/` on float64, Go's conversion float64(int64), and int64(float64).
   */
  datatype FloatArith = FloatArith(
    add: (Float64, Float64) -> Float64,
    mul: (Float64, Float64) -> Float64,
    div: (Float64, Float64) -> Float64,
    fromInt: Int64 -> Float64,
    toInt: Float64 -> Int64)
}
