/** SilkAdapter as a state machine driven by its owner: every public method is a
    call, a call takes the adapter from one state to the next and gives the
    caller a response (nothing, a value, or the exception it threw), and a trace
    of calls is run from left to right.
 */
module AdapterTrace {
  import opened JavaList
  import S = SilkAdapter

  /** One call of a public method of the adapter. */
  datatype Call<T> =
    | Add(item: T)
    | AddArray(elements: seq<T>)
    | SetArray(elements: seq<T>)
    | SetList(elements: seq<T>)
    | Remove(index: int)
    | Clear
    | ResetChanged
    | IsChanged
    | GetItems
    | GetCount
    | GetItem(index: int)
    | GetItemId(index: int)
    | Contains(item: T)

  /** What the caller gets back. */
  datatype Response<T> =
    | Returned
    | Flag(flag: bool)
    | Count(count: nat)
    | Item(item: T)
    | Id(id: int)
    | Items(items: seq<T>)
    | Thrown(error: IndexError)

  datatype Transition<T> = Transition(state: S.State<T>, response: Response<T>)

  datatype Execution<T> = Execution(state: S.State<T>, responses: seq<Response<T>>)

  /** The calls that change the items and raise the flag. */
  predicate IsMutator<T>(c: Call<T>)
  {
    c.Add? || c.AddArray? || c.SetArray? || c.SetList? || c.Remove? || c.Clear?
  }

  /** The calls that only read the state. */
  predicate IsQuery<T>(c: Call<T>)
  {
    !IsMutator(c) && !c.ResetChanged?
  }

  /** One call. `contains` is the subclass's implementation of the abstract
      `contains(T)` hook, which sees the items and the candidate. */
  function Step<T>(a: S.State<T>, c: Call<T>, contains: (seq<T>, T) -> bool): (t: Transition<T>)
    ensures IsQuery(c) ==> t.state == a
    ensures IsMutator(c) ==> t.state.changed
    ensures c.ResetChanged? ==> !t.state.changed && t.state.items == a.items
    ensures t.response.Thrown? <==> (c.Remove? || c.GetItem?) && !(0 <= c.index < |a.items|)
    ensures t.state.notifications
            == a.notifications + (if IsMutator(c) && !t.response.Thrown? then 1 else 0)
  {
    match c
    case Add(x) => Transition(S.Add(a, x), Returned)
    case AddArray(xs) => Transition(S.AddArray(a, xs), Returned)
    case SetArray(xs) => Transition(S.SetArray(a, xs), Returned)
    case SetList(xs) => Transition(S.SetList(a, xs), Returned)
    case Remove(i) =>
      (match S.Remove(a, i)
       case Done(b) => Transition(b, Returned)
       case Threw(e, b) => Transition(b, Thrown(e)))
    case Clear => Transition(S.Clear(a), Returned)
    case ResetChanged => Transition(S.ResetChanged(a), Returned)
    case IsChanged => Transition(a, Flag(S.IsChanged(a)))
    case GetItems => Transition(a, Items(S.GetItems(a)))
    case GetCount => Transition(a, Count(S.GetCount(a)))
    case GetItem(i) =>
      (match S.GetItem(a, i)
       case Ok(x) => Transition(a, Item(x))
       case Err(e) => Transition(a, Thrown(e)))
    case GetItemId(i) => Transition(a, Id(S.GetItemId(a, i)))
    case Contains(x) => Transition(a, Flag(contains(a.items, x)))
  }

  /** Runs a trace of calls, one response per call. */
  function Execute<T>(a: S.State<T>, calls: seq<Call<T>>, contains: (seq<T>, T) -> bool): (e: Execution<T>)
    ensures |e.responses| == |calls|
    decreases |calls|
  {
    if |calls| == 0 then Execution(a, [])
    else
      var before := Execute(a, calls[..|calls| - 1], contains);
      var t := Step(before.state, calls[|calls| - 1], contains);
      Execution(t.state, before.responses + [t.response])
  }

  // ----- Reference definitions the runs are compared with -----

  /** The number of calls that notified the list view: mutators that did not
      throw. */
  function Notifying<T>(calls: seq<Call<T>>, responses: seq<Response<T>>): nat
    requires |calls| == |responses|
    decreases |calls|
  {
    if |calls| == 0 then 0
    else
      var n := |calls| - 1;
      Notifying(calls[..n], responses[..n])
      + (if IsMutator(calls[n]) && !responses[n].Thrown? then 1 else 0)
  }

  /** No `resetChanged()` among the calls after position `j`. */
  ghost predicate NoResetAfter<T>(calls: seq<Call<T>>, j: int)
  {
    forall k :: 0 <= k < |calls| && j < k ==> !calls[k].ResetChanged?
  }

  /** The documented meaning of the flag: some mutator ran after the last
      `resetChanged()`, or the flag was already up and nothing reset it. */
  ghost predicate ChangedSinceReset<T>(changed0: bool, calls: seq<Call<T>>)
  {
    || (exists j :: 0 <= j < |calls| && IsMutator(calls[j]) && NoResetAfter(calls, j))
    || (changed0 && NoResetAfter(calls, -1))
  }

  /** The calls that only append: `add(T)` and `add(T[])`. */
  predicate IsAppend<T>(c: Call<T>)
  {
    c.Add? || c.AddArray?
  }

  /** Everything a trace appends, in call order. */
  function Appended<T>(calls: seq<Call<T>>): seq<T>
    decreases |calls|
  {
    if |calls| == 0 then []
    else
      var n := |calls| - 1;
      Appended(calls[..n])
      + (match calls[n]
         case Add(x) => [x]
         case AddArray(xs) => xs
         case _ => [])
  }

  // ----- Properties of whole traces -----

  /** Every successful mutator notifies exactly once; resets, queries and a
      `remove` that threw notify nothing. */
  lemma {:induction false} ExecuteNotifications<T>(a: S.State<T>, calls: seq<Call<T>>, contains: (seq<T>, T) -> bool)
    ensures var e := Execute(a, calls, contains);
      e.state.notifications == a.notifications + Notifying(calls, e.responses)
    decreases |calls|
  {
    if |calls| > 0 {
      var n := |calls| - 1;
      var before := Execute(a, calls[..n], contains);
      ExecuteNotifications(a, calls[..n], contains);
      var e := Execute(a, calls, contains);
      assert e.responses[..n] == before.responses;
    }
  }

  /** How the last call of a trace decides the flag's meaning. */
  lemma ChangedSinceResetLast<T>(changed0: bool, calls: seq<Call<T>>)
    requires |calls| > 0
    ensures var n := |calls| - 1;
      && (calls[n].ResetChanged? ==> !ChangedSinceReset(changed0, calls))
      && (IsMutator(calls[n]) ==> ChangedSinceReset(changed0, calls))
      && (IsQuery(calls[n]) ==>
            (ChangedSinceReset(changed0, calls) <==> ChangedSinceReset(changed0, calls[..n])))
  {
  }

  /** `isChanged()` is true after a trace exactly when some mutator ran after
      the last `resetChanged()`, or when it was true before and nothing reset
      it. A `remove` that threw still counts as a mutator. */
  lemma {:induction false} ExecuteChanged<T>(a: S.State<T>, calls: seq<Call<T>>, contains: (seq<T>, T) -> bool)
    ensures S.IsChanged(Execute(a, calls, contains).state) <==> ChangedSinceReset(a.changed, calls)
    decreases |calls|
  {
    if |calls| > 0 {
      var n := |calls| - 1;
      ExecuteChanged(a, calls[..n], contains);
      ChangedSinceResetLast(a.changed, calls);
    }
  }

  /** A trace of `add` calls leaves the old items followed by everything added,
      in call order. */
  lemma {:induction false} ExecuteAppends<T>(a: S.State<T>, calls: seq<Call<T>>, contains: (seq<T>, T) -> bool)
    requires forall j :: 0 <= j < |calls| ==> IsAppend(calls[j])
    ensures Execute(a, calls, contains).state.items == a.items + Appended(calls)
    ensures S.GetCount(Execute(a, calls, contains).state) == S.GetCount(a) + |Appended(calls)|
    decreases |calls|
  {
    if |calls| > 0 {
      var n := |calls| - 1;
      var p := calls[..n];
      assert forall j :: 0 <= j < |p| ==> p[j] == calls[j];
      ExecuteAppends(a, p, contains);
      var before := Execute(a, p, contains).state;
      var after := Execute(a, calls, contains).state;
      assert after == Step(before, calls[n], contains).state;
      var added := if calls[n].Add? then [calls[n].item] else calls[n].elements;
      assert Appended(calls) == Appended(p) + added;
      if calls[n].Add? {
        assert after == S.Add(before, calls[n].item);
      } else {
        assert after == S.AddArray(before, calls[n].elements);
        AddEachIsConcat(before.items, calls[n].elements);
      }
      assert after.items == before.items + added;
      ConcatAssoc(a.items, Appended(p), added);
    }
  }

  lemma ConcatAssoc<T>(x: seq<T>, y: seq<T>, z: seq<T>)
    ensures x + (y + z) == (x + y) + z
  {
  }

  /** No call of an `add` trace throws: every response is a plain return. */
  lemma {:induction false} ExecuteAppendsReturn<T>(a: S.State<T>, calls: seq<Call<T>>, contains: (seq<T>, T) -> bool)
    requires forall j :: 0 <= j < |calls| ==> IsAppend(calls[j])
    ensures forall j :: 0 <= j < |calls| ==> Execute(a, calls, contains).responses[j] == Returned
    decreases |calls|
  {
    if |calls| > 0 {
      var n := |calls| - 1;
      var before := Execute(a, calls[..n], contains);
      ExecuteAppendsReturn(a, calls[..n], contains);
      var e := Execute(a, calls, contains);
      assert e.responses == before.responses + [Step(before.state, calls[n], contains).response];
      forall j | 0 <= j < |calls|
        ensures e.responses[j] == Returned
      {
        if j < n { assert e.responses[j] == before.responses[j]; }
      }
    }
  }

  /** Queries never change the adapter: a trace of them leaves the state as it
      was. */
  lemma {:induction false} ExecuteQueriesArePure<T>(a: S.State<T>, calls: seq<Call<T>>, contains: (seq<T>, T) -> bool)
    requires forall j :: 0 <= j < |calls| ==> IsQuery(calls[j])
    ensures Execute(a, calls, contains).state == a
    decreases |calls|
  {
    if |calls| > 0 {
      var n := |calls| - 1;
      ExecuteQueriesArePure(a, calls[..n], contains);
    }
  }

  /** The documented walk-through: add [A, B], reset, query the flag, remove
      the first item, then set [X, Y, Z]. */
  lemma Walkthrough(contains: (seq<char>, char) -> bool)
    ensures var calls := [AddArray(['A', 'B']), ResetChanged, IsChanged, Remove(0),
                          SetArray(['X', 'Y', 'Z'])];
      var e := Execute(S.New(), calls, contains);
      && Execute(S.New(), calls[..1], contains).state.items == ['A', 'B']
      && Execute(S.New(), calls[..1], contains).state.changed
      && e.responses[2] == Flag(false)
      && Execute(S.New(), calls[..4], contains).state.items == ['B']
      && Execute(S.New(), calls[..4], contains).state.changed
      && e.state.items == ['X', 'Y', 'Z']
      && e.state.notifications == 3
  {
    var calls := [AddArray(['A', 'B']), ResetChanged, IsChanged, Remove(0),
                  SetArray(['X', 'Y', 'Z'])];
    var e0 := S.New<char>();
    var e1 := Execute(e0, calls[..1], contains);
    assert calls[..1][..0] == [] && calls[..1][0] == AddArray(['A', 'B']);
    assert Execute(e0, calls[..1][..0], contains).state == e0;
    AddEachIsConcat(e0.items, ['A', 'B']);
    assert e1.state.items == ['A', 'B'];
    var e2 := Execute(e0, calls[..2], contains);
    assert calls[..2][..1] == calls[..1];
    var e3 := Execute(e0, calls[..3], contains);
    assert calls[..3][..2] == calls[..2];
    var e4 := Execute(e0, calls[..4], contains);
    assert calls[..4][..3] == calls[..3];
    assert e4.state.items == ['B'];
    var e := Execute(e0, calls, contains);
    assert calls[..4] == calls[..|calls| - 1];
    assert e.responses[..4] == e4.responses;
    assert e.responses[2] == e4.responses[2] == e3.responses[2];
  }
}
