# vecmath, modelled in Dafny

This project models the part of the `vecmath` Python library whose
behaviour can be stated exactly over reals and integers. That covers three
layers:

- the vector operations `dot`, `project`, `reject`, `reflect`, `cross` and
  `clamp_vec`;
- the scalar helpers `abs`, `sign`, `lerp`, `clamp` and `factorial`;
- the `Array` container, a thin wrapper over a Python list.

Python floats are modelled by exact `real`s. Python's unbounded integers are
modelled by `int`. A vector is a `seq<real>`, and its dimension is its length.
Exceptions become a `Result` value. `ValueError` is `InvalidArgument`, which
carries the library's exact message. An `IndexError` from the underlying list
is `OutOfRange`.

Files:

- `results.dfy`, module `Results`: the `Error` kinds and the
  failure-compatible `Result`.
- `scalar.dfy`, module `Scalar`: `Abs`, `Sign`, `Lerp`, `Clamp`, the
  reference product `Fact`, and the loop `Factorial`.
- `vectors.dfy`, module `Vectors`: the inner product `Inner`, with `Dot`,
  `Project`, `Reject`, `Reflect`, `Cross` and `ClampVec`, and the algebra
  relating them.
- `container.dfy`, module `Container`: `Array` with `Get`, `Set`, `Append`,
  `PopAt`, `Pop` and `Length`. These follow Python's integer index rules
  for lists, including negative indices.

Each vector operation is related to an independent statement of its meaning:

- Projection onto a unit vector is idempotent.
- The rejection is orthogonal to the unit vector.
- Reflecting twice is the identity, and reflection keeps the squared length.
- The cross product is anti-symmetric and orthogonal to both operands.

`dot` sums the pairwise products from the first pair to the last, as
Python's `sum` does. Over exact reals the order of summation does not change
the result.

`clamp` is defined twice in `vecmath/vecmath.py`, at lines 194 and 240. Both
bodies are identical, and the later one is the one in effect. The model has
one `Clamp`.

The library's usage script has comments that disagree with the code. The
model follows the code in each case:

- The comment after `pop()` shows `[1, 2, 3]`. The code leaves `[1, 42, 3]`,
  because index 1 was set to 42 before (`Container.UsageScenario`).
- The comment gives the message "dot: vectors must have the same length".
  The code raises "dot: vectors must be the same size" (`Vectors.DotSizeError`).

## Model

| member | source | states |
|---|---|---|
| Vectors.Dot | vecmath/vecmath.py:95-101 | fails with the "same size" message exactly when the lengths differ; otherwise it is the sum of pairwise products |
| Vectors.DotExamples | tests/tests.py:6-35 | dot([1,2,3],[4,5,6]) = 32, and dot([1,2],[1]) fails with the "same size" message |
| Vectors.DotSymmetric | vecmath/vecmath.py:95-101 | dot(a,b) = dot(b,a), failure included |
| Vectors.InnerSymmetric | vecmath/vecmath.py:101 | the sum of pairwise products is symmetric in its operands |
| Vectors.InnerScaleLeft | vecmath/vecmath.py:101 | scaling the first operand by k scales the sum of products by k |
| Vectors.InnerSubLeft | vecmath/vecmath.py:101 | the sum of products distributes over a difference: (a - b)·w = a·w - b·w |
| Vectors.InnerSubScaled | vecmath/vecmath.py:101 | the sum of products is linear: (v - c·n)·w = v·w - c·(n·w) |
| Vectors.InnerSelfNonNegative | vecmath/vecmath.py:101 | dot(v,v) is never negative |
| Vectors.Project | vecmath/vecmath.py:123-127 | fails exactly when dot fails; otherwise it has n's length and element i is dot(v,n)·n[i] |
| Vectors.ProjectIdempotent | vecmath/vecmath.py:123-127 | for a unit n, as the source's comment requires, projecting a projection changes nothing |
| Vectors.Reject | vecmath/vecmath.py:130-132 | fails exactly when dot fails; otherwise it has v's length and reject[i] + project[i] = v[i] |
| Vectors.RejectIsSubScaled | vecmath/vecmath.py:130-132 | the rejection equals v - dot(v,n)·n |
| Vectors.RejectOrthogonal | vecmath/vecmath.py:123-132 | for a unit n, dot(reject(v,n), n) = 0 |
| Vectors.Reflect | vecmath/vecmath.py:198-200 | fails exactly when dot fails; otherwise it keeps v's length and element i is v[i] - 2·dot(v,n)·n[i] |
| Vectors.ReflectIsSubScaled | vecmath/vecmath.py:198-200 | the reflection equals v - 2·dot(v,n)·n |
| Vectors.ReflectIsRejectMinusProject | vecmath/vecmath.py:198-200 | reflect succeeds exactly when reject and project do, and reflect[i] = reject[i] - project[i] |
| Vectors.ReflectInvolution | vecmath/vecmath.py:198-200 | for a unit n, reflecting twice returns the original vector |
| Vectors.ReflectPreservesLength | vecmath/vecmath.py:198-200 | for a unit n, dot(r,r) = dot(v,v) where r is the reflection of v |
| Vectors.Cross | vecmath/vecmath.py:139-146 | fails with the "only for 3D" message unless both operands have length 3; otherwise the result has length 3 |
| Vectors.Inner3 | vecmath/vecmath.py:101 | for 3-vectors, dot is a0·b0 + a1·b1 + a2·b2 |
| Vectors.CrossAntiSymmetric | vecmath/vecmath.py:139-146 | cross(a,b) and cross(b,a) fail together; otherwise cross(a,b) = -cross(b,a) |
| Vectors.CrossSelfZero | vecmath/vecmath.py:139-146 | cross(a,a) = [0,0,0] for every 3-vector a |
| Vectors.CrossOrthogonal | vecmath/vecmath.py:139-146 | cross(a,b) is orthogonal to both a and b |
| Vectors.CrossExamples | vecmath/vecmath.py:139-146 | cross([1,0,0],[0,1,0]) = [0,0,1], and a 2-vector operand fails |
| Vectors.ClampVec | vecmath/vecmath.py:244-245 | keeps the length and clamps each element independently; with lo ≤ hi every element lies in [lo,hi] |
| Vectors.ClampVecIdempotent | vecmath/vecmath.py:244-245 | clamping a vector twice equals clamping it once, for any bounds |
| Vectors.ClampVecInRange | vecmath/vecmath.py:244-245 | a vector already inside [lo,hi] is unchanged |
| Scalar.Clamp | vecmath/vecmath.py:240-241 | with lo ≤ hi the result lies in [lo,hi]; it is x when x is inside, lo below, hi above; with hi < lo it is always lo |
| Scalar.ClampIdempotent | vecmath/vecmath.py:194-195 | clamping twice equals clamping once, for any bounds |
| Scalar.ClampMonotone | vecmath/vecmath.py:194-195 | clamp is non-decreasing in x for any bounds |
| Scalar.Abs | vecmath/vecmath.py:207-208 | the result is non-negative, equals x or -x, and is zero exactly when x is |
| Scalar.Sign | vecmath/vecmath.py:223-229 | returns only -1, 0 or 1; sign(x)·x = abs(x) and sign(x)·abs(x) = x; zero exactly at 0 |
| Scalar.Lerp | vecmath/vecmath.py:219-220 | lerp(a,b,0) = a and lerp(a,b,1) = b; the result is the affine combination (1-t)·a + t·b |
| Scalar.LerpBetween | vecmath/vecmath.py:219-220 | for t in [0,1] the result lies between a and b |
| Scalar.Fact | vecmath/vecmath.py:149-153 | the product 2·…·n is at least 1 and at least n |
| Scalar.Factorial | vecmath/vecmath.py:149-153 | the loop over i = 2..n computes exactly Fact(n), which is at least 1 |
| Scalar.FactRecurrence | vecmath/vecmath.py:149-153 | factorial(0) = factorial(1) = 1 and factorial(n) = n·factorial(n-1) for n ≥ 2 |
| Scalar.FactDivisible | vecmath/vecmath.py:149-153 | every k in [1,n] divides factorial(n), and the cofactor is returned |
| Scalar.FactMonotone | vecmath/vecmath.py:149-153 | factorial is non-decreasing |
| Container.Position | vecmath/vecmath.py:26-30 | a Python index is valid exactly when -len ≤ i < len; a negative index counts from the end |
| Container.Get | vecmath/vecmath.py:26-27 | fails with OutOfRange exactly on an invalid index; otherwise returns the element at the denoted position |
| Container.Set | vecmath/vecmath.py:29-30 | fails with OutOfRange exactly on an invalid index; otherwise keeps the length, writes v at the denoted position and changes nothing else |
| Container.Append | vecmath/vecmath.py:35-36 | the length grows by one, v is last, and the old contents are a prefix |
| Container.PopAt | vecmath/vecmath.py:38-39 | fails with OutOfRange exactly on an invalid index; otherwise returns the element there and removes only that position |
| Container.Pop | vecmath/vecmath.py:38-39 | the default index -1: fails on an empty array; otherwise returns the last element and drops it |
| Container.LengthAfterUpdates | vecmath/vecmath.py:29-39 | `len(arr)` (`Length`, lines 32-33) is unchanged by set, grows by one on append, shrinks by one on a successful pop |
| Container.GetAfterSet | vecmath/vecmath.py:26-30 | after arr[i] = v, arr[i] reads v |
| Container.GetAfterSetOther | vecmath/vecmath.py:26-30 | after arr[i] = v, an index at any other position reads as before |
| Container.SetToCurrent | vecmath/vecmath.py:26-30 | writing back the value just read leaves the array unchanged |
| Container.AppendThenPop | vecmath/vecmath.py:35-39 | append(v) then pop() returns v and restores the previous contents |
| Container.GetAfterAppend | vecmath/vecmath.py:26-36 | after append(v), index -1 reads v and every old non-negative index reads as before |
| Container.PopAtThenInsert | vecmath/vecmath.py:38-39 | re-inserting the popped element at its position rebuilds the original array |
| Container.UsageScenario | tests/tests.py:20-29 | the usage script: y[1] reads 2, setting y[1] = 42 then append(4) gives [1,42,3,4], and pop() returns 4 and leaves [1,42,3] |

## Left out

- `float64`, `float32` and `float16`, and the constants `pi`, `tau`, `eps` and `e` (vecmath/vecmath.py:4-16): IEEE-754 rounding through `struct` packing. Exact reals cannot express it.
- `sin`, `cos`, `tan`, `exp`, `log`, `atan`, `atan2`, `acos` and `angle`: their results are truncated series approximations. Their domain guards (`log` on x <= 0, `acos` outside [-1, 1], `atan2` at x = y = 0) and the special value acos(1) = 0.0 are trivial, and are left out with them.
- `degrees` and `radians` (vecmath/vecmath.py:211-216): they scale x by the float constant `pi`, which is left out.
- Slice indices (`arr[a:b]`, and `arr[a:b] = xs`, which can change the length): `__getitem__` and `__setitem__` hand any index to the list, but only integer indices are modelled.
- `sqrt`, `norm`, `normalize`, `distance` and `pow`: they rely on Python's `**` on floats. Exact reals have no fractional power. `Vectors.ReflectPreservesLength` states the length property on the squared norm `dot(v, v)` instead.
- IEEE-754 rounding, NaN and infinities: every proved property holds of exact reals only. Over Python floats `lerp(1e20, 1.0, 1)` is 0.0 rather than b, and `ProjectIdempotent`, `RejectOrthogonal` and `ReflectInvolution` hold only approximately. `sign(nan)` is 0, and `min`/`max` on NaN depend on argument order; neither case exists over reals.
- Array identity and aliasing: an `Array` is modelled as a value, so two Python names bound to one `Array`, each seeing the other's `append`, `pop` or `arr[i] = v`, are not modelled.
- `minv` and `maxv`: variadic wrappers over the built-in `min` and `max`, with nothing to state.
- `Array.__repr__`: rendering the contents as a string.
- The `Array` constructor's copy of its argument (`list(values)`): values have no aliasing, so the copy is the identity.
- Python's dynamic typing: `Array<T>` holds one element type, and the numeric functions take reals only, not a mix of ints and floats. `Sign` returns an `int`, as the source does.
- A check that `n` is normalized in `project`: the source only says so in a comment and never checks it, so the model does not check it either. Only the lemmas about unit vectors assume that dot(n, n) = 1.
