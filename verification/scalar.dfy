/**
 The scalar helpers of the library: `abs`, `sign`, `lerp`, `clamp` and the
 integer `factorial`. Floating-point numbers are modelled by exact reals and
 Python's unbounded integers by `int`.
 */
module Scalar {

  /** `abs(x)`: x when x >= 0, otherwise -x. */
  function Abs(x: real): (r: real)
    ensures r >= 0.0
    ensures r == x || r == -x
    ensures r == 0.0 <==> x == 0.0
  {
    if x >= 0.0 then x else -x
  }

  /** `sign(x)`: the integer 1, -1 or 0 as x is positive, negative or zero. */
  function Sign(x: real): (r: int)
    ensures r == -1 || r == 0 || r == 1
    ensures r as real * x == Abs(x)
    ensures r as real * Abs(x) == x
    ensures r == 0 <==> x == 0.0
  {
    if x > 0.0 then 1
    else if x < 0.0 then -1
    else 0
  }

  /** `lerp(a, b, t)`: linear interpolation, not clamped, so a t outside
      [0, 1] extrapolates. */
  function Lerp(a: real, b: real, t: real): (r: real)
    ensures t == 0.0 ==> r == a
    ensures t == 1.0 ==> r == b
    ensures r == (1.0 - t) * a + t * b
  {
    a + (b - a) * t
  }

  /** For t in [0, 1] the interpolated value lies between the two end points. */
  lemma LerpBetween(a: real, b: real, t: real)
    requires 0.0 <= t <= 1.0
    ensures a <= b ==> a <= Lerp(a, b, t) <= b
    ensures b <= a ==> b <= Lerp(a, b, t) <= a
  {
    if a <= b {
      LerpUp(a, b, t);
    }
    if b <= a {
      LerpDown(a, b, t);
    }
  }

  lemma LerpUp(a: real, b: real, t: real)
    requires 0.0 <= t <= 1.0 && a <= b
    ensures a <= Lerp(a, b, t) <= b
  {
    var d := b - a;
    MulBetween(d, t);
    assert Lerp(a, b, t) == a + d * t;
  }

  lemma LerpDown(a: real, b: real, t: real)
    requires 0.0 <= t <= 1.0 && b <= a
    ensures b <= Lerp(a, b, t) <= a
  {
    var d := a - b;
    MulBetween(d, t);
    NegMul(d, t);
    assert b - a == -d;
    assert Lerp(a, b, t) == a + (-d) * t;
  }

  /** A non-negative quantity scaled by a factor in [0, 1] stays in [0, d]. */
  lemma MulBetween(d: real, t: real)
    requires d >= 0.0 && 0.0 <= t <= 1.0
    ensures 0.0 <= d * t <= d
  {
    assert d * t <= d * 1.0;
  }

  lemma NegMul(d: real, t: real)
    ensures (-d) * t == -(d * t)
  {
  }

  /** Python's two-argument `min`: the first argument unless the second is
      strictly smaller. */
  function Min(x: real, y: real): real {
    if y < x then y else x
  }

  /** Python's two-argument `max`: the first argument unless the second is
      strictly larger. */
  function Max(x: real, y: real): real {
    if y > x then y else x
  }

  /** `clamp(x, min_val, max_val)` is `max(min_val, min(x, max_val))`. The
      bounds are not validated: when lo > hi the result is always lo. */
  function Clamp(x: real, lo: real, hi: real): (r: real)
    ensures lo <= hi ==> lo <= r <= hi
    ensures lo <= x <= hi ==> r == x
    ensures lo <= hi && x < lo ==> r == lo
    ensures lo <= hi && hi < x ==> r == hi
    ensures hi < lo ==> r == lo
  {
    Max(lo, Min(x, hi))
  }

  /** Clamping twice with the same bounds is clamping once, whatever their
      order (with hi < lo both sides are lo). */
  lemma ClampIdempotent(x: real, lo: real, hi: real)
    ensures Clamp(Clamp(x, lo, hi), lo, hi) == Clamp(x, lo, hi)
  {
  }

  /** Clamping is monotone in its argument, whatever the bounds. */
  lemma ClampMonotone(x: real, y: real, lo: real, hi: real)
    requires x <= y
    ensures Clamp(x, lo, hi) <= Clamp(y, lo, hi)
  {
  }

  /** The product 2 * 3 * ... * n; 1 for every n <= 1 (the loop in
      `factorial` runs over an empty range then). */
  function Fact(n: int): (r: int)
    ensures r >= 1
    ensures r >= n
    decreases n
  {
    if n <= 1 then 1 else n * Fact(n - 1)
  }

  /** `factorial(n)`: starts from 1 and multiplies in i for i = 2 .. n. */
  method Factorial(n: int) returns (r: int)
    ensures r == Fact(n)
    ensures r >= 1
  {
    r := 1;
    var i := 2;
    while i <= n
      invariant 2 <= i
      invariant i <= n + 1 || i == 2
      invariant r == Fact(i - 1)
    {
      r := r * i;
      i := i + 1;
    }
  }

  /** factorial(0) = factorial(1) = 1 and factorial(n) = n * factorial(n - 1)
      for n >= 2. */
  lemma FactRecurrence(n: int)
    ensures Fact(0) == 1 && Fact(1) == 1
    ensures n >= 2 ==> Fact(n) == n * Fact(n - 1)
  {
  }

  /** Every k in [1, n] divides factorial(n): the cofactor q is returned. */
  lemma {:induction false} FactDivisible(n: int, k: int) returns (q: int)
    requires 1 <= k <= n
    ensures Fact(n) == k * q
    decreases n
  {
    if k == n {
      q := Fact(n - 1);
    } else {
      var q' := FactDivisible(n - 1, k);
      q := n * q';
      calc {
        Fact(n);
        n * Fact(n - 1);
        n * (k * q');
        { MulCommutes(n, k, q'); }
        k * (n * q');
      }
    }
  }

  lemma MulCommutes(a: int, b: int, c: int)
    ensures a * (b * c) == b * (a * c)
  {
  }

  lemma MulAtLeast(n: int, f: int)
    requires n >= 1 && f >= 0
    ensures n * f >= f
  {
    assert n * f == f + (n - 1) * f;
  }

  /** factorial is non-decreasing. */
  lemma {:induction false} FactMonotone(m: int, n: int)
    requires m <= n
    ensures Fact(m) <= Fact(n)
    decreases n - m
  {
    if m < n {
      FactMonotone(m, n - 1);
      if n > 1 {
        MulAtLeast(n, Fact(n - 1));
      }
    }
  }
}
