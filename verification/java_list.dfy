/** The few operations of java.util.List (backed by an ArrayList) that the Silk
    adapter relies on, stated over immutable sequences. Positions are Java `int`
    indices, so they may be negative; an index outside `[0, size)` is reported as
    the library's IndexOutOfBoundsException instead of being excluded by a
    precondition.
 */
module JavaList {

  /** java.lang.IndexOutOfBoundsException, with the index asked for and the size
      of the list at that moment. */
  datatype IndexError = IndexOutOfBounds(index: int, size: nat)

  /** Either the value a list operation produced or the exception it threw. */
  datatype Result<+T> = Ok(value: T) | Err(error: IndexError)

  /** The exception ArrayList raises for index `i` on a list `s`. */
  function OutOfRange<T>(s: seq<T>, i: int): IndexError
  {
    IndexOutOfBounds(i, |s|)
  }

  /** `list.get(i)`: the element at position `i`, or the out-of-range error. */
  function Get<T>(s: seq<T>, i: int): (r: Result<T>)
    ensures r.Ok? <==> 0 <= i < |s|
    ensures r.Ok? ==> r.value == s[i]
    ensures r.Err? ==> r.error == OutOfRange(s, i)
  {
    if 0 <= i < |s| then Ok(s[i]) else Err(OutOfRange(s, i))
  }

  /** `list.remove(i)`: the list without its element at position `i`; the
      elements before `i` keep their positions and those after it move down by
      one. Out of range, the list is left as it was and the error is returned. */
  function RemoveAt<T>(s: seq<T>, i: int): (r: Result<seq<T>>)
    ensures r.Ok? <==> 0 <= i < |s|
    ensures r.Ok? ==> |r.value| == |s| - 1
    ensures r.Ok? ==> forall j :: 0 <= j < i ==> r.value[j] == s[j]
    ensures r.Ok? ==> forall j :: i <= j < |r.value| ==> r.value[j] == s[j + 1]
    ensures r.Ok? ==> multiset(r.value) + multiset{s[i]} == multiset(s)
    ensures r.Err? ==> r.error == OutOfRange(s, i)
  {
    if 0 <= i < |s| then
      assert s == s[..i] + [s[i]] + s[i + 1..];
      Ok(s[..i] + s[i + 1..])
    else
      Err(OutOfRange(s, i))
  }

  /** `Collections.addAll(list, elements)`: appends the elements one `add` at a
      time, in array order. The result is the list followed by all of them. */
  function AddEach<T>(s: seq<T>, xs: seq<T>): (r: seq<T>)
    ensures |r| == |s| + |xs|
    ensures r[..|s|] == s && r[|s|..] == xs
    decreases |xs|
  {
    if |xs| == 0 then s else AddEach(s + [xs[0]], xs[1..])
  }

  /** Adding the elements one at a time is the same as concatenating them. */
  lemma AddEachIsConcat<T>(s: seq<T>, xs: seq<T>)
    ensures AddEach(s, xs) == s + xs
  {
  }
}
