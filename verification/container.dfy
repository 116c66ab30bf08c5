/**
 The `Array` container: a thin wrapper over a Python list. The mutable
 object is modelled as a value; every operation that mutates the list
 returns the new `Array`. Integer indices follow Python's list rules: an index i
 is valid when -len <= i < len, and a negative index counts from the end.
 A bad index is the `OutOfRange` error.
 */
module Container {
  import opened Results

  datatype Array<T> = Array(values: seq<T>)

  /** `len(arr)`. */
  function Length<T>(a: Array<T>): nat {
    |a.values|
  }

  /** The position a Python index denotes in a list of length len, if any. */
  function Position(i: int, len: nat): (r: Slot)
    ensures r.At? <==> -(len as int) <= i < len
    ensures r.At? ==> 0 <= r.pos < len
    ensures r.At? && i >= 0 ==> r.pos == i
    ensures r.At? && i < 0 ==> r.pos == len + i
  {
    if 0 <= i < len then At(i)
    else if -(len as int) <= i < 0 then At(len + i)
    else NoSlot
  }

  /** The position an index denotes, or none when the index is invalid. */
  datatype Slot = NoSlot | At(pos: nat)

  /** `arr[i]`. */
  function Get<T>(a: Array<T>, i: int): (r: Result<T>)
    ensures r.Ok? <==> -|a.values| <= i < |a.values|
    ensures r.Failure? ==> r.error == OutOfRange
    ensures r.Ok? && i >= 0 ==> r.value == a.values[i]
    ensures r.Ok? && i < 0 ==> r.value == a.values[|a.values| + i]
  {
    match Position(i, |a.values|)
    case NoSlot => Failure(OutOfRange)
    case At(k) => Ok(a.values[k])
  }

  /** `arr[i] = v`: replaces the element at i and nothing else. */
  function Set<T>(a: Array<T>, i: int, v: T): (r: Result<Array<T>>)
    ensures r.Ok? <==> -|a.values| <= i < |a.values|
    ensures r.Failure? ==> r.error == OutOfRange
    ensures r.Ok? ==> |r.value.values| == |a.values|
    ensures r.Ok? ==> forall j :: 0 <= j < |a.values| ==>
              r.value.values[j] == if Position(i, |a.values|) == At(j) then v else a.values[j]
  {
    match Position(i, |a.values|)
    case NoSlot => Failure(OutOfRange)
    case At(k) => Ok(Array(a.values[k := v]))
  }

  /** `arr.append(v)`. */
  function Append<T>(a: Array<T>, v: T): (r: Array<T>)
    ensures |r.values| == |a.values| + 1
    ensures r.values[|a.values|] == v
    ensures r.values[..|a.values|] == a.values
  {
    Array(a.values + [v])
  }

  /** `arr.pop(i)`: removes the element at i and returns it together with
      the shortened array. An empty array has no valid index. */
  function PopAt<T>(a: Array<T>, i: int): (r: Result<(T, Array<T>)>)
    ensures r.Ok? <==> -|a.values| <= i < |a.values|
    ensures r.Failure? ==> r.error == OutOfRange
    ensures r.Ok? ==> Get(a, i) == Ok(r.value.0)
    ensures r.Ok? ==> |r.value.1.values| == |a.values| - 1
    ensures r.Ok? ==> var k := Position(i, |a.values|).pos;
              r.value.1.values == a.values[..k] + a.values[k + 1..]
  {
    match Position(i, |a.values|)
    case NoSlot => Failure(OutOfRange)
    case At(k) => Ok((a.values[k], Array(a.values[..k] + a.values[k + 1..])))
  }

  /** `arr.pop()`: the default index -1 removes the last element. */
  function Pop<T>(a: Array<T>): (r: Result<(T, Array<T>)>)
    ensures r.Ok? <==> |a.values| > 0
    ensures r.Failure? ==> r.error == OutOfRange
    ensures r.Ok? ==> r.value.0 == a.values[|a.values| - 1]
    ensures r.Ok? ==> r.value.1.values == a.values[..|a.values| - 1]
  {
    PopAt(a, -1)
  }

  /** `len` after each update: unchanged by `arr[i] = v`, one more after
      `append`, one fewer after a successful `pop`. */
  lemma LengthAfterUpdates<T>(a: Array<T>, i: int, v: T)
    ensures Set(a, i, v).Ok? ==> Length(Set(a, i, v).value) == Length(a)
    ensures Length(Append(a, v)) == Length(a) + 1
    ensures PopAt(a, i).Ok? ==> Length(PopAt(a, i).value.1) == Length(a) - 1
  {
  }

  /** After `arr[i] = v`, reading index i gives v. */
  lemma GetAfterSet<T>(a: Array<T>, i: int, v: T)
    requires -|a.values| <= i < |a.values|
    ensures Set(a, i, v).Ok?
    ensures Get(Set(a, i, v).value, i) == Ok(v)
  {
  }

  /** After `arr[i] = v`, every index denoting another position reads as
      before. */
  lemma GetAfterSetOther<T>(a: Array<T>, i: int, j: int, v: T)
    requires -|a.values| <= i < |a.values|
    requires Position(i, |a.values|) != Position(j, |a.values|)
    ensures Get(Set(a, i, v).value, j) == Get(a, j)
  {
  }

  /** Writing back the value just read leaves the array as it was. */
  lemma SetToCurrent<T>(a: Array<T>, i: int)
    requires -|a.values| <= i < |a.values|
    ensures Set(a, i, Get(a, i).value) == Ok(a)
  {
    var k := Position(i, |a.values|).pos;
    assert a.values[k := a.values[k]] == a.values;
  }

  /** `append(v)` followed by `pop()` returns v and restores the array. */
  lemma AppendThenPop<T>(a: Array<T>, v: T)
    ensures Pop(Append(a, v)) == Ok((v, a))
  {
  }

  /** After `append(v)` the new element is readable at index -1 and every
      old non-negative index still reads as before (a negative index now
      counts from the new last element). */
  lemma GetAfterAppend<T>(a: Array<T>, v: T, i: int)
    ensures Get(Append(a, v), -1) == Ok(v)
    ensures 0 <= i < |a.values| ==> Get(Append(a, v), i) == Get(a, i)
  {
  }

  /** Popping at i and re-inserting the removed element at the same
      position gives back the original array. */
  lemma PopAtThenInsert<T>(a: Array<T>, i: int)
    requires -|a.values| <= i < |a.values|
    ensures var k := Position(i, |a.values|).pos;
            var (x, rest) := PopAt(a, i).value;
            rest.values[..k] + [x] + rest.values[k..] == a.values
  {
    var k := Position(i, |a.values|).pos;
    var (x, rest) := PopAt(a, i).value;
    assert rest.values[..k] == a.values[..k];
    assert rest.values[k..] == a.values[k + 1..];
    assert a.values == a.values[..k] + [a.values[k]] + a.values[k + 1..];
  }

  /** The sequence of calls in the library's usage script:
      Array([1, 2, 3]); y[1] reads 2; y[1] = 42; append(4) gives
      [1, 42, 3, 4]; pop() returns 4 and leaves [1, 42, 3]. */
  lemma UsageScenario()
    ensures Get(Array([1, 2, 3]), 1) == Ok(2)
    ensures Set(Array([1, 2, 3]), 1, 42) == Ok(Array([1, 42, 3]))
    ensures Append(Array([1, 42, 3]), 4) == Array([1, 42, 3, 4])
    ensures Pop(Array([1, 42, 3, 4])) == Ok((4, Array([1, 42, 3])))
  {
    assert [1, 2, 3][1 := 42] == [1, 42, 3];
    assert [1, 42, 3, 4][..3] == [1, 42, 3];
  }
}
