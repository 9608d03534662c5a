/**
  Column values after numeric coercion. A pandas float column holds either a
  number or NaN; the model keeps numbers as exact reals and writes NaN (and the
  infinities a zero denominator would produce) as `Undefined`. Arithmetic
  propagates `Undefined` the way NaN propagates through element-wise pandas
  arithmetic.
 */
module Num {

  datatype Num = Undefined | Defined(value: real)

  /** Element-wise `+`: NaN in either operand gives NaN. */
  function Add(a: Num, b: Num): (r: Num)
    ensures r.Defined? <==> a.Defined? && b.Defined?
  {
    if a.Defined? && b.Defined? then Defined(a.value + b.value) else Undefined
  }

  /** Element-wise `*`: NaN in either operand gives NaN. */
  function Mul(a: Num, b: Num): (r: Num)
    ensures r.Defined? <==> a.Defined? && b.Defined?
  {
    if a.Defined? && b.Defined? then Defined(a.value * b.value) else Undefined
  }

  /** Division; a zero divisor gives `Undefined` instead of inf or NaN. */
  function Div(a: Num, b: Num): (r: Num)
    ensures r.Defined? <==> a.Defined? && b.Defined? && b.value != 0.0
  {
    if a.Defined? && b.Defined? && b.value != 0.0 then Defined(a.value / b.value) else Undefined
  }

  /** A defined quotient multiplied back by the divisor gives the dividend; a defined product divided back gives the factor. */
  lemma DivMulInverse(a: Num, b: Num)
    ensures Div(a, b).Defined? ==> Div(a, b).value * b.value == a.value
    ensures Mul(a, b).Defined? && b.value != 0.0 ==> Div(Mul(a, b), b) == a
  {
  }

  /** `x ** 2` */
  function Square(a: Num): Num {
    Mul(a, a)
  }

  lemma SquareNonNegative(x: real)
    ensures 0.0 <= x * x
  {
    if x < 0.0 {
      assert x * x == (-x) * (-x);
    }
  }

  /** The relation a square-root function must satisfy on every non-negative real. */
  ghost predicate IsSqrt(sqrt: real -> real) {
    forall a: real :: 0.0 <= a ==> 0.0 <= sqrt(a) && sqrt(a) * sqrt(a) == a
  }

  /**
    `x ** 0.5`. The square root itself is supplied by `sqrt`, which stands for
    the floating-point power of the runtime; a negative argument gives NaN.
   */
  function Root(sqrt: real -> real, a: Num): (r: Num)
    requires IsSqrt(sqrt)
    ensures r.Defined? <==> a.Defined? && 0.0 <= a.value
    ensures r.Defined? ==> 0.0 <= r.value && r.value * r.value == a.value
  {
    if a.Defined? && 0.0 <= a.value then Defined(sqrt(a.value)) else Undefined
  }

  /** Non-negative square roots are unique, so no choice of `sqrt` changes the model. */
  lemma RootUnique(r: real, s: real)
    requires 0.0 <= r && 0.0 <= s
    requires r * r == s * s
    ensures r == s
  {
    var d, t := r - s, r + s;
    assert d * t == 0.0;
    if t != 0.0 {
      assert d == (d * t) / t;
    }
  }

  lemma RootOfZero(sqrt: real -> real)
    requires IsSqrt(sqrt)
    ensures sqrt(0.0) == 0.0
  {
    var v := sqrt(0.0);
    assert 0.0 <= v && v * v == 0.0;
    RootUnique(v, 0.0);
  }

  /** sqrt(k^2 * a) == k * sqrt(a) for non-negative k and a. */
  lemma RootOfScaled(sqrt: real -> real, k: real, a: real, b: real)
    requires IsSqrt(sqrt)
    requires 0.0 <= k && 0.0 <= a && b == k * k * a
    ensures sqrt(b) == k * sqrt(a)
  {
    var s := sqrt(a);
    assert 0.0 <= s && s * s == a;
    assert 0.0 <= b;
    var t := sqrt(b);
    assert 0.0 <= t && t * t == b;
    assert (k * s) * (k * s) == k * k * (s * s);
    RootUnique(t, k * s);
  }

  lemma SquareMonotone(x: real, y: real)
    requires 0.0 <= x <= y
    ensures x * x <= y * y
  {
    assert x * x <= x * y;
    assert x * y <= y * y;
  }

  /** A non-negative root of s lies strictly between lo and hi when s does between their squares. */
  lemma RootBracket(v: real, s: real, lo: real, hi: real)
    requires 0.0 <= lo && 0.0 <= hi && 0.0 <= v && v * v == s
    requires lo * lo < s < hi * hi
    ensures lo < v < hi
  {
    if v <= lo {
      SquareMonotone(v, lo);
    }
    if hi <= v {
      SquareMonotone(hi, v);
    }
  }
}
