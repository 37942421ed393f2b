/** The item-list state of SilkAdapter<T>: an ordered list of items, the
    "changed since last reset" flag, and the change notifications the adapter has
    sent to its list view (`notifyDataSetChanged`), counted rather than performed.

    Every mutator follows the source's statement order: raise the flag, change
    the list, notify. A list operation that throws therefore leaves the flag
    raised and skips the notification.
 */
module SilkAdapter {
  import opened JavaList

  /** The adapter's observable state. */
  datatype State<T> = State(items: seq<T>, changed: bool, notifications: nat)

  /** The outcome of a mutator that can throw: the state after it returned, or
      the exception together with the state the adapter was left in. */
  datatype Outcome<T> =
    | Done(state: State<T>)
    | Threw(error: IndexError, state: State<T>)

  // The three steps every mutator is made of.

  function MarkChanged<T>(a: State<T>): State<T>
  {
    a.(changed := true)
  }

  function WithItems<T>(a: State<T>, items: seq<T>): State<T>
  {
    a.(items := items)
  }

  function Notify<T>(a: State<T>): State<T>
  {
    a.(notifications := a.notifications + 1)
  }

  /** A freshly constructed adapter: an empty ArrayList and a lowered flag. */
  function New<T>(): (a: State<T>)
    ensures GetCount(a) == 0 && !IsChanged(a) && a.notifications == 0
  {
    State([], false, 0)
  }

  /** `add(T)`: the item becomes the new last element. */
  function Add<T>(a: State<T>, x: T): (r: State<T>)
    ensures |r.items| == |a.items| + 1
    ensures r.items[..|a.items|] == a.items && r.items[|a.items|] == x
    ensures r.changed && r.notifications == a.notifications + 1
  {
    Notify(WithItems(MarkChanged(a), a.items + [x]))
  }

  /** `add(T[])`: the array's elements are appended one by one, in array order. */
  function AddArray<T>(a: State<T>, xs: seq<T>): (r: State<T>)
    ensures |r.items| == |a.items| + |xs|
    ensures forall i :: 0 <= i < |a.items| ==> r.items[i] == a.items[i]
    ensures forall i :: 0 <= i < |xs| ==> r.items[|a.items| + i] == xs[i]
    ensures r.changed && r.notifications == a.notifications + 1
  {
    var marked := MarkChanged(a);
    Notify(WithItems(marked, AddEach(marked.items, xs)))
  }

  /** `set(List<T>)`: the list is cleared and then given the new elements. */
  function SetList<T>(a: State<T>, xs: seq<T>): (r: State<T>)
    ensures r.items == xs
    ensures r.changed && r.notifications == a.notifications + 1
  {
    var marked := MarkChanged(a);
    var cleared := WithItems(marked, []);
    Notify(WithItems(cleared, cleared.items + xs))
  }

  /** `set(T[])`: delegates to `set(List<T>)` on a list view of the array. */
  function SetArray<T>(a: State<T>, xs: seq<T>): (r: State<T>)
    ensures |r.items| == |xs| && forall i :: 0 <= i < |xs| ==> r.items[i] == xs[i]
    ensures r.changed && r.notifications == a.notifications + 1
  {
    SetList(a, xs)
  }

  /** `remove(int)`: drops the element at the index. An index outside
      `[0, count)` makes the list throw after the flag was already raised, so the
      items stay as they were, the flag is up and no notification is sent. */
  function Remove<T>(a: State<T>, i: int): (o: Outcome<T>)
    ensures o.state.changed
    ensures o.Done? <==> 0 <= i < |a.items|
    ensures o.Done? ==> o.state.items == a.items[..i] + a.items[i + 1..]
    ensures o.Done? ==> o.state.notifications == a.notifications + 1
    ensures o.Threw? ==> o.error == IndexOutOfBounds(i, |a.items|)
    ensures o.Threw? ==> o.state.items == a.items && o.state.notifications == a.notifications
  {
    var marked := MarkChanged(a);
    match RemoveAt(marked.items, i)
    case Ok(rest) =>
      assert rest == a.items[..i] + a.items[i + 1..];
      Done(Notify(WithItems(marked, rest)))
    case Err(e) => Threw(e, marked)
  }

  /** `clear()`: empties the list; it notifies even when the list was empty. */
  function Clear<T>(a: State<T>): (r: State<T>)
    ensures |r.items| == 0
    ensures r.changed && r.notifications == a.notifications + 1
  {
    Notify(WithItems(MarkChanged(a), []))
  }

  /** `resetChanged()`: lowers the flag and touches nothing else. */
  function ResetChanged<T>(a: State<T>): (r: State<T>)
    ensures !IsChanged(r)
    ensures r.items == a.items && r.notifications == a.notifications
  {
    a.(changed := false)
  }

  /** `isChanged()`: whether a mutator ran since the last reset. */
  function IsChanged<T>(a: State<T>): bool
  {
    a.changed
  }

  /** `getItems()`: the items, as a value (the live-reference aliasing of the
      source is not modelled). */
  function GetItems<T>(a: State<T>): seq<T>
  {
    a.items
  }

  /** `getCount()`: the number of items. */
  function GetCount<T>(a: State<T>): (n: nat)
    ensures forall i :: 0 <= i < n <==> GetItem(a, i).Ok?
  {
    |a.items|
  }

  /** `getItem(int)`: the item at the index, or the list's out-of-range error. */
  function GetItem<T>(a: State<T>, i: int): (r: Result<T>)
    ensures r.Ok? <==> 0 <= i < |a.items|
    ensures r.Ok? ==> r.value == a.items[i]
    ensures r.Err? ==> r.error == IndexOutOfBounds(i, |a.items|)
  {
    Get(a.items, i)
  }

  /** `getItemId(int)`: the row id is the position itself, widened to `long`;
      any index is accepted. */
  function GetItemId<T>(a: State<T>, i: int): (id: int)
  {
    i
  }

  // ----- What the accessors observe after each mutator -----

  /** After `add(x)` the count grows by one, the old items keep their
      positions and `x` is found at the old count. */
  lemma AddObserved<T>(a: State<T>, x: T)
    ensures GetCount(Add(a, x)) == GetCount(a) + 1
    ensures GetItem(Add(a, x), GetCount(a)) == Ok(x)
    ensures forall i :: 0 <= i < GetCount(a) ==> GetItem(Add(a, x), i) == GetItem(a, i)
    ensures IsChanged(Add(a, x))
  {
  }

  /** `add(T[])` is the same as adding the elements one by one with `add(T)`,
      except that it notifies once instead of once per element. */
  lemma {:induction false} AddArrayIsRepeatedAdd<T>(a: State<T>, xs: seq<T>)
    ensures AddArray(a, xs).items == AddRepeatedly(a, xs).items
    ensures AddArray(a, xs).notifications == a.notifications + 1
    ensures AddRepeatedly(a, xs).notifications == a.notifications + |xs|
    decreases |xs|
  {
    if |xs| > 0 {
      var b := Add(a, xs[0]);
      AddArrayIsRepeatedAdd(b, xs[1..]);
      assert b.items == a.items + [xs[0]];
      assert xs == [xs[0]] + xs[1..];
      AddEachIsConcat(a.items, xs);
      AddEachIsConcat(b.items, xs[1..]);
    } else {
      AddEachIsConcat(a.items, xs);
    }
  }

  /** Repeated single adds, the reference `add(T[])` is compared with. */
  function AddRepeatedly<T>(a: State<T>, xs: seq<T>): State<T>
    decreases |xs|
  {
    if |xs| == 0 then a else AddRepeatedly(Add(a, xs[0]), xs[1..])
  }

  /** `add` of an empty array leaves the items alone but still raises the flag
      and notifies. */
  lemma AddEmptyArrayStillNotifies<T>(a: State<T>)
    ensures AddArray(a, []).items == a.items
    ensures IsChanged(AddArray(a, [])) && AddArray(a, []).notifications == a.notifications + 1
  {
  }

  /** `set` forgets the previous items: two adapters that differ only in their
      items end in the same state after the same `set`. */
  lemma SetForgetsPrevious<T>(a: State<T>, b: State<T>, xs: seq<T>)
    requires a.notifications == b.notifications
    ensures SetList(a, xs) == SetList(b, xs)
  {
  }

  /** Calling `set(xs)` twice leaves the same items as calling it once. */
  lemma SetIdempotent<T>(a: State<T>, xs: seq<T>)
    ensures SetList(SetList(a, xs), xs).items == SetList(a, xs).items
    ensures IsChanged(SetList(SetList(a, xs), xs))
  {
  }

  /** `set(T[])` and `set(List<T>)` leave the same state. */
  lemma SetArrayIsSetList<T>(a: State<T>, xs: seq<T>)
    ensures SetArray(a, xs) == SetList(a, xs)
  {
  }

  /** After a successful `remove(i)` the count drops by one, the items before
      `i` stay in place, the later ones shift down, and exactly one copy of the
      removed item is gone. */
  lemma RemoveObserved<T>(a: State<T>, i: int)
    requires 0 <= i < GetCount(a)
    ensures Remove(a, i).Done?
    ensures GetCount(Remove(a, i).state) == GetCount(a) - 1
    ensures forall j :: 0 <= j < i ==> GetItem(Remove(a, i).state, j) == GetItem(a, j)
    ensures forall j :: i <= j < GetCount(a) - 1 ==> GetItem(Remove(a, i).state, j) == GetItem(a, j + 1)
    ensures multiset(Remove(a, i).state.items) + multiset{a.items[i]} == multiset(a.items)
  {
  }

  /** Removing the last item undoes an `add`: the items return to what they
      were. */
  lemma RemoveUndoesAdd<T>(a: State<T>, x: T)
    ensures Remove(Add(a, x), GetCount(a)).Done?
    ensures Remove(Add(a, x), GetCount(a)).state.items == a.items
  {
  }

  /** A `remove` out of range fails for exactly the indices outside
      `[0, count)` and changes nothing except the flag. */
  lemma RemoveOutOfRange<T>(a: State<T>, i: int)
    requires i < 0 || i >= GetCount(a)
    ensures Remove(a, i) == Threw(IndexOutOfBounds(i, GetCount(a)), MarkChanged(a))
    ensures GetItems(Remove(a, i).state) == GetItems(a)
    ensures IsChanged(Remove(a, i).state)
  {
  }

  /** `clear()` on an empty adapter changes no item but still notifies. */
  lemma ClearEmptyStillNotifies<T>(a: State<T>)
    requires GetCount(a) == 0
    ensures GetItems(Clear(a)) == GetItems(a)
    ensures Clear(a).notifications == a.notifications + 1
    ensures IsChanged(Clear(a))
  {
  }

  /** `clear()` is `set` of the empty list. */
  lemma ClearIsSetEmpty<T>(a: State<T>)
    ensures Clear(a) == SetList(a, [])
  {
  }

  /** Resetting twice is resetting once, and a reset is undone by no query. */
  lemma ResetIdempotent<T>(a: State<T>)
    ensures ResetChanged(ResetChanged(a)) == ResetChanged(a)
    ensures !IsChanged(ResetChanged(a))
  {
  }

  /** Row ids are positions: two in-range rows have the same id only when they
      are the same row, and ids do not follow items when the list changes —
      after removing the first item, id 0 reports what id 1 reported before. */
  lemma IdsArePositions<T>(a: State<T>, i: int, j: int)
    requires 0 <= i < GetCount(a) && 0 <= j < GetCount(a)
    ensures GetItemId(a, i) == GetItemId(a, j) <==> i == j
    ensures GetCount(a) >= 2 ==>
      var r := Remove(a, 0).state;
      GetItem(r, GetItemId(r, 0)) == GetItem(a, GetItemId(a, 1))
  {
  }
}
