/**
 The vector layer of the library. A vector is a Python list of floats,
 modelled as a sequence of exact reals whose dimension is its length.
 Every binary operation that goes through `dot` fails with `InvalidArgument`
 when the two lengths differ; `cross` accepts only 3-vectors.
 */
module Vectors {
  import opened Results
  import Scalar

  type Vector = seq<real>

  const DotSizeError := InvalidArgument("dot: vectors must be the same size")
  const CrossDimensionError := InvalidArgument("cross: only for 3D vectors")

  /** The sum of pairwise products, accumulated from the first pair to the
      last as Python's `sum` over the zipped pairs does. */
  function Inner(a: Vector, b: Vector): real
    requires |a| == |b|
    decreases |a|
  {
    if |a| == 0 then 0.0
    else Inner(a[..|a| - 1], b[..|b| - 1]) + a[|a| - 1] * b[|b| - 1]
  }

  /** k * v, element by element. */
  function Scale(k: real, v: Vector): (r: Vector)
    ensures |r| == |v|
    ensures forall i :: 0 <= i < |v| ==> r[i] == k * v[i]
  {
    seq(|v|, i requires 0 <= i < |v| => k * v[i])
  }

  /** v - c * n, element by element. */
  function SubScaled(v: Vector, c: real, n: Vector): (r: Vector)
    requires |v| == |n|
    ensures |r| == |v|
    ensures forall i :: 0 <= i < |v| ==> r[i] == v[i] - c * n[i]
  {
    seq(|v|, i requires 0 <= i < |v| => v[i] - c * n[i])
  }

  /** `dot(a, b)`: fails exactly when the lengths differ, otherwise returns
      the sum of the pairwise products. */
  function Dot(a: Vector, b: Vector): (r: Result<real>)
    ensures r.Failure? <==> |a| != |b|
    ensures r.Failure? ==> r.error == DotSizeError
    ensures r.Ok? ==> r.value == Inner(a, b)
  {
    if |a| != |b| then Failure(DotSizeError)
    else Ok(Inner(a, b))
  }

  /** `project(v, n)`: dot(v, n) times n. The source expects n to be of unit
      length but does not check it. */
  function Project(v: Vector, n: Vector): (r: Result<Vector>)
    ensures r.Failure? <==> |v| != |n|
    ensures r.Failure? ==> r.error == DotSizeError
    ensures r.Ok? ==> |r.value| == |n|
    ensures r.Ok? ==> forall i :: 0 <= i < |n| ==> r.value[i] == Dot(v, n).value * n[i]
  {
    var k :- Dot(v, n);
    Ok(Scale(k, n))
  }

  /** `reject(v, n)`: v minus its projection onto n, pairing the two lists
      element by element (both have v's length once `dot` has succeeded). */
  function Reject(v: Vector, n: Vector): (r: Result<Vector>)
    ensures r.Failure? <==> |v| != |n|
    ensures r.Failure? ==> r.error == DotSizeError
    ensures r.Ok? ==> |r.value| == |v|
    ensures r.Ok? ==> forall i :: 0 <= i < |v| ==> r.value[i] + Project(v, n).value[i] == v[i]
  {
    var p :- Project(v, n);
    Ok(seq(|v|, i requires 0 <= i < |v| && |p| == |v| => v[i] - p[i]))
  }

  /** `reflect(v, n)`: v minus 2 * dot(v, n) times n. */
  function Reflect(v: Vector, n: Vector): (r: Result<Vector>)
    ensures r.Failure? <==> |v| != |n|
    ensures r.Failure? ==> r.error == DotSizeError
    ensures r.Ok? ==> |r.value| == |v|
    ensures r.Ok? ==> forall i :: 0 <= i < |v| ==>
              r.value[i] == v[i] - 2.0 * Dot(v, n).value * n[i]
  {
    var d :- Dot(v, n);
    var k := 2.0 * d;
    Ok(seq(|v|, i requires 0 <= i < |v| && |n| == |v| => v[i] - k * n[i]))
  }

  /** `cross(a, b)`: the 3-dimensional cross product; any other dimension of
      either operand fails. */
  function Cross(a: Vector, b: Vector): (r: Result<Vector>)
    ensures r.Failure? <==> !(|a| == 3 && |b| == 3)
    ensures r.Failure? ==> r.error == CrossDimensionError
    ensures r.Ok? ==> |r.value| == 3
  {
    if |a| == 3 && |b| == 3 then
      Ok([ a[1] * b[2] - a[2] * b[1],
           a[2] * b[0] - a[0] * b[2],
           a[0] * b[1] - a[1] * b[0] ])
    else
      Failure(CrossDimensionError)
  }

  /** `clamp_vec(v, lo, hi)`: `clamp` applied to every element. */
  function ClampVec(v: Vector, lo: real, hi: real): (r: Vector)
    ensures |r| == |v|
    ensures forall i :: 0 <= i < |v| ==> r[i] == Scalar.Clamp(v[i], lo, hi)
    ensures lo <= hi ==> forall i :: 0 <= i < |v| ==> lo <= r[i] <= hi
  {
    seq(|v|, i requires 0 <= i < |v| => Scalar.Clamp(v[i], lo, hi))
  }

  // ---------------------------------------------------------------------
  // Algebra of the inner product
  // ---------------------------------------------------------------------

  /** The inner product is symmetric. */
  lemma {:induction false} InnerSymmetric(a: Vector, b: Vector)
    requires |a| == |b|
    ensures Inner(a, b) == Inner(b, a)
    decreases |a|
  {
    if |a| > 0 {
      InnerSymmetric(a[..|a| - 1], b[..|b| - 1]);
    }
  }

  /** The inner product is linear in its first argument under scaling. */
  lemma {:induction false} InnerScaleLeft(k: real, a: Vector, b: Vector)
    requires |a| == |b|
    ensures Inner(Scale(k, a), b) == k * Inner(a, b)
    decreases |a|
  {
    if |a| > 0 {
      var m := |a| - 1;
      ScalePrefix(k, a, m);
      InnerScaleLeft(k, a[..m], b[..m]);
      calc {
        Inner(Scale(k, a), b);
        Inner(Scale(k, a[..m]), b[..m]) + (k * a[m]) * b[m];
        k * Inner(a[..m], b[..m]) + (k * a[m]) * b[m];
        { MulAssoc(k, a[m], b[m]); }
        k * (Inner(a[..m], b[..m]) + a[m] * b[m]);
      }
    }
  }

  lemma ScalePrefix(k: real, a: Vector, m: nat)
    requires m <= |a|
    ensures Scale(k, a)[..m] == Scale(k, a[..m])
  {
    forall i | 0 <= i < m
      ensures Scale(k, a)[..m][i] == Scale(k, a[..m])[i]
    {
    }
  }

  lemma MulAssoc(k: real, x: real, y: real)
    ensures (k * x) * y == k * (x * y)
  {
  }

  /** a - b, element by element. */
  function Sub(a: Vector, b: Vector): (r: Vector)
    requires |a| == |b|
    ensures |r| == |a|
    ensures forall i :: 0 <= i < |a| ==> r[i] == a[i] - b[i]
  {
    seq(|a|, i requires 0 <= i < |a| => a[i] - b[i])
  }

  lemma SubPrefix(a: Vector, b: Vector, m: nat)
    requires |a| == |b| && m <= |a|
    ensures Sub(a, b)[..m] == Sub(a[..m], b[..m])
  {
    forall i | 0 <= i < m
      ensures Sub(a, b)[..m][i] == Sub(a[..m], b[..m])[i]
    {
    }
  }

  /** The inner product distributes over a difference in its first argument. */
  lemma {:induction false} InnerSubLeft(a: Vector, b: Vector, w: Vector)
    requires |a| == |b| == |w|
    ensures Inner(Sub(a, b), w) == Inner(a, w) - Inner(b, w)
    decreases |a|
  {
    if |a| > 0 {
      var m := |a| - 1;
      SubPrefix(a, b, m);
      InnerSubLeft(a[..m], b[..m], w[..m]);
      SubMulStep(a[m], b[m], w[m]);
    }
  }

  lemma SubMulStep(x: real, y: real, z: real)
    ensures (x - y) * z == x * z - y * z
  {
  }

  /** The inner product of v - c * n with w is v.w - c * (n.w). */
  lemma InnerSubScaled(v: Vector, c: real, n: Vector, w: Vector)
    requires |v| == |n| == |w|
    ensures Inner(SubScaled(v, c, n), w) == Inner(v, w) - c * Inner(n, w)
  {
    assert SubScaled(v, c, n) == Sub(v, Scale(c, n));
    InnerSubLeft(v, Scale(c, n), w);
    InnerScaleLeft(c, n, w);
  }

  /** The inner product of a vector with itself is never negative. */
  lemma {:induction false} InnerSelfNonNegative(v: Vector)
    ensures Inner(v, v) >= 0.0
    decreases |v|
  {
    if |v| > 0 {
      InnerSelfNonNegative(v[..|v| - 1]);
      SquareNonNegative(v[|v| - 1]);
    }
  }

  lemma SquareNonNegative(x: real)
    ensures x * x >= 0.0
  {
  }

  /** `dot` is symmetric, failure included. */
  lemma DotSymmetric(a: Vector, b: Vector)
    ensures Dot(a, b) == Dot(b, a)
  {
    if |a| == |b| {
      InnerSymmetric(a, b);
    }
  }

  /** The worked example: dot([1, 2, 3], [4, 5, 6]) = 1*4 + 2*5 + 3*6 = 32,
      and dot([1, 2], [1]) fails. */
  lemma DotExamples()
    ensures Dot([1.0, 2.0, 3.0], [4.0, 5.0, 6.0]) == Ok(32.0)
    ensures Dot([1.0, 2.0], [1.0]) == Failure(DotSizeError)
  {
    Inner3([1.0, 2.0, 3.0], [4.0, 5.0, 6.0]);
  }

  // ---------------------------------------------------------------------
  // Projection, rejection and reflection
  // ---------------------------------------------------------------------

  /** Rejection is v - dot(v, n) * n. */
  lemma RejectIsSubScaled(v: Vector, n: Vector)
    requires |v| == |n|
    ensures Reject(v, n) == Ok(SubScaled(v, Inner(v, n), n))
  {
    var r := Reject(v, n).value;
    var s := SubScaled(v, Inner(v, n), n);
    forall i | 0 <= i < |v|
      ensures r[i] == s[i]
    {
      assert r[i] + Project(v, n).value[i] == v[i];
    }
    assert r == s;
  }

  /** Reflection is v - 2 * dot(v, n) * n. */
  lemma ReflectIsSubScaled(v: Vector, n: Vector)
    requires |v| == |n|
    ensures Reflect(v, n) == Ok(SubScaled(v, 2.0 * Inner(v, n), n))
  {
    var r := Reflect(v, n).value;
    var s := SubScaled(v, 2.0 * Inner(v, n), n);
    forall i | 0 <= i < |v|
      ensures r[i] == s[i]
    {
    }
    assert r == s;
  }

  /** Reflection is rejection minus projection: v - 2p = (v - p) - p. */
  lemma ReflectIsRejectMinusProject(v: Vector, n: Vector)
    ensures Reflect(v, n).Ok? <==> Reject(v, n).Ok? && Project(v, n).Ok?
    ensures Reflect(v, n).Ok? ==> forall i :: 0 <= i < |v| ==>
              Reflect(v, n).value[i] == Reject(v, n).value[i] - Project(v, n).value[i]
  {
  }

  /** For a unit n, projecting a projection changes nothing. */
  lemma ProjectIdempotent(v: Vector, n: Vector)
    requires Inner(n, n) == 1.0
    ensures Project(v, n).Ok? ==> Project(Project(v, n).value, n) == Project(v, n)
  {
    if |v| == |n| {
      var k := Inner(v, n);
      InnerScaleLeft(k, n, n);
      assert Inner(Scale(k, n), n) == k;
    }
  }

  /** For a unit n, the rejection is orthogonal to n. */
  lemma RejectOrthogonal(v: Vector, n: Vector)
    requires Inner(n, n) == 1.0
    ensures Reject(v, n).Ok? ==> Dot(Reject(v, n).value, n) == Ok(0.0)
  {
    if |v| == |n| {
      RejectIsSubScaled(v, n);
      InnerSubScaled(v, Inner(v, n), n, n);
    }
  }

  /** For a unit n, reflecting twice gives back the original vector. */
  lemma ReflectInvolution(v: Vector, n: Vector)
    requires Inner(n, n) == 1.0
    ensures Reflect(v, n).Ok? ==> Reflect(Reflect(v, n).value, n) == Ok(v)
  {
    if |v| == |n| {
      var k := Inner(v, n);
      var w := SubScaled(v, 2.0 * k, n);
      ReflectIsSubScaled(v, n);
      InnerSubScaled(v, 2.0 * k, n, n);
      assert Inner(w, n) == -k;
      ReflectIsSubScaled(w, n);
      assert SubScaled(w, 2.0 * -k, n) == v;
    }
  }

  /** For a unit n, reflection preserves the squared length dot(v, v). */
  lemma ReflectPreservesLength(v: Vector, n: Vector)
    requires Inner(n, n) == 1.0
    ensures Reflect(v, n).Ok? ==> Inner(Reflect(v, n).value, Reflect(v, n).value) == Inner(v, v)
  {
    if |v| == |n| {
      var k := Inner(v, n);
      var c := 2.0 * k;
      var w := SubScaled(v, c, n);
      ReflectIsSubScaled(v, n);
      InnerSubScaled(v, c, n, w);
      InnerSymmetric(v, w);
      InnerSymmetric(n, w);
      InnerSubScaled(v, c, n, v);
      InnerSubScaled(v, c, n, n);
      InnerSymmetric(n, v);
      assert Inner(w, v) == Inner(v, v) - c * k;
      assert Inner(w, n) == k - c;
      calc {
        Inner(w, w);
        Inner(v, w) - c * Inner(n, w);
        Inner(v, v) - c * k - c * (k - c);
        { ExpandReflect(Inner(v, v), k); }
        Inner(v, v);
      }
    }
  }

  lemma ExpandReflect(s: real, k: real)
    ensures s - (2.0 * k) * k - (2.0 * k) * (k - 2.0 * k) == s
  {
  }

  // ---------------------------------------------------------------------
  // Cross product
  // ---------------------------------------------------------------------

  /** The inner product of two 3-vectors, written out. */
  lemma Inner3(a: Vector, b: Vector)
    requires |a| == 3 && |b| == 3
    ensures Inner(a, b) == a[0] * b[0] + a[1] * b[1] + a[2] * b[2]
  {
    var a2, b2 := a[..2], b[..2];
    var a1, b1 := a2[..1], b2[..1];
    assert Inner(a, b) == Inner(a2, b2) + a[2] * b[2];
    assert Inner(a2, b2) == Inner(a1, b1) + a[1] * b[1];
    assert Inner(a1, b1) == Inner(a1[..0], b1[..0]) + a[0] * b[0];
    assert Inner(a1[..0], b1[..0]) == 0.0;
  }

  /** cross(a, b) = -cross(b, a), and both fail together. */
  lemma CrossAntiSymmetric(a: Vector, b: Vector)
    ensures Cross(a, b).Ok? <==> Cross(b, a).Ok?
    ensures Cross(a, b).Ok? ==> Cross(a, b).value == Scale(-1.0, Cross(b, a).value)
  {
  }

  /** cross(a, a) is the zero vector for every 3-vector a. */
  lemma CrossSelfZero(a: Vector)
    requires |a| == 3
    ensures Cross(a, a) == Ok([0.0, 0.0, 0.0])
  {
  }

  /** The cross product is orthogonal to both operands. */
  lemma CrossOrthogonal(a: Vector, b: Vector)
    requires |a| == 3 && |b| == 3
    ensures Dot(Cross(a, b).value, a) == Ok(0.0)
    ensures Dot(Cross(a, b).value, b) == Ok(0.0)
  {
    var c := Cross(a, b).value;
    assert c[0] == a[1] * b[2] - a[2] * b[1];
    assert c[1] == a[2] * b[0] - a[0] * b[2];
    assert c[2] == a[0] * b[1] - a[1] * b[0];
    Inner3(c, a);
    Inner3(c, b);
    TripleProductZero(a[0], a[1], a[2], b[0], b[1], b[2]);
    TripleProductZero(b[0], b[1], b[2], a[0], a[1], a[2]);
    assert Inner(c, a) == 0.0;
    assert Inner(c, b) == 0.0;
  }

  /** The scalar triple product with a repeated vector vanishes. */
  lemma TripleProductZero(x0: real, x1: real, x2: real, y0: real, y1: real, y2: real)
    ensures (x1 * y2 - x2 * y1) * x0 + (x2 * y0 - x0 * y2) * x1 + (x0 * y1 - x1 * y0) * x2 == 0.0
    ensures (y1 * x2 - y2 * x1) * x0 + (y2 * x0 - y0 * x2) * x1 + (y0 * x1 - y1 * x0) * x2 == 0.0
  {
  }

  /** The basis example: cross([1, 0, 0], [0, 1, 0]) = [0, 0, 1]; a
      2-vector operand fails. */
  lemma CrossExamples()
    ensures Cross([1.0, 0.0, 0.0], [0.0, 1.0, 0.0]) == Ok([0.0, 0.0, 1.0])
    ensures Cross([1.0, 0.0], [0.0, 1.0, 0.0]) == Failure(CrossDimensionError)
  {
  }

  // ---------------------------------------------------------------------
  // Clamping a vector
  // ---------------------------------------------------------------------

  /** Clamping a vector twice is clamping it once, for any bounds. */
  lemma ClampVecIdempotent(v: Vector, lo: real, hi: real)
    ensures ClampVec(ClampVec(v, lo, hi), lo, hi) == ClampVec(v, lo, hi)
  {
  }

  /** A vector whose every element already lies in [lo, hi] is unchanged. */
  lemma ClampVecInRange(v: Vector, lo: real, hi: real)
    requires forall i :: 0 <= i < |v| ==> lo <= v[i] <= hi
    ensures ClampVec(v, lo, hi) == v
  {
  }
}
