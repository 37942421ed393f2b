# Silk list adapter, modelled in Dafny

Silk's `SilkAdapter<T>` is an abstract Android `BaseAdapter`. It keeps the rows
of a list view as an ordered `List<T>` together with an `isChanged` flag. Its
mutators are `add(T)`, `add(T[])`, `set(T[])`, `set(List<T>)`, `remove(int)`
and `clear()`. Each one raises the flag, changes the list and then calls
`notifyDataSetChanged()` once. `resetChanged()` lowers the flag. The accessors
`getCount`, `getItem`, `getItemId`, `getItems` and `isChanged` only read.

This project models that state machine with immutable values:

- `java_list.dfy`, module `JavaList`: the `java.util.List` operations the
  adapter uses. These are `Collections.addAll` (one `add` per element), the
  `remove(int)` that throws, and the `get(int)` that throws. An
  out-of-range index gives `IndexOutOfBounds(index, size)`, the model of
  `IndexOutOfBoundsException`.
- `silk_adapter.dfy`, module `SilkAdapter`: the state
  `State(items, changed, notifications)`. Each Java method is one function.
  Each mutator is built from three steps in source order: mark changed,
  change the items, notify. `remove` returns an `Outcome`, either `Done(state)`
  or `Threw(error, state)`. The exception is thrown after the flag was raised,
  so a failed `remove` leaves the flag up and sends no notification.
- `adapter_trace.dfy`, module `AdapterTrace`: every public method is a `Call`,
  and a call gives a `Response` (a plain return, a value, or the exception).
  `Step` runs one call and `Execute` runs a trace of calls. The lemmas here
  compare runs with reference definitions: what the flag means, how many
  notifications were sent, and what a trace of adds leaves behind.

`notifyDataSetChanged()` only redraws the host list view, so the model counts
its calls in `notifications` and does nothing else. The subclass hook
`contains(T)` has no implementation in the repository. It is a parameter
`contains: (seq<T>, T) -> bool` of `Step` and `Execute`.

## Model

| member | source | states |
|---|---|---|
| `JavaList.AddEach` | src/com/afollestad/silk/adapters/SilkAdapter.java:72 | appending an array one element at a time keeps the old list as the prefix and the array, in order, as the suffix |
| `JavaList.AddEachIsConcat` | src/com/afollestad/silk/adapters/SilkAdapter.java:72 | the one-at-a-time append gives the same list as concatenating the array |
| `JavaList.RemoveAt` | src/com/afollestad/silk/adapters/SilkAdapter.java:103 | `remove(int)` succeeds exactly for indices in `[0, size)`; then the earlier elements stay, the later ones move down by one and exactly one copy of the removed element is gone; otherwise the error carries the index and size |
| `JavaList.Get` | src/com/afollestad/silk/adapters/SilkAdapter.java:130 | `get(int)` gives the element exactly for in-range indices and the out-of-range error otherwise |
| `SilkAdapter.New` | src/com/afollestad/silk/adapters/SilkAdapter.java:23-30 | a new adapter has no items, a lowered flag and no notifications |
| `SilkAdapter.Add` | src/com/afollestad/silk/adapters/SilkAdapter.java:61-65 | `add(x)` keeps the old items as a prefix, puts `x` last, grows the count by one, raises the flag and notifies once |
| `SilkAdapter.AddArray` | src/com/afollestad/silk/adapters/SilkAdapter.java:70-74 | `add(T[])` keeps every old item in place, puts the array's elements after them in array order, raises the flag and notifies once |
| `SilkAdapter.SetList` | src/com/afollestad/silk/adapters/SilkAdapter.java:86-91 | `set(List)` leaves exactly the given items, whatever was there before, raises the flag and notifies once |
| `SilkAdapter.SetArray` | src/com/afollestad/silk/adapters/SilkAdapter.java:79-81 | `set(T[])` leaves the array's elements, position by position, raises the flag and notifies once |
| `SilkAdapter.Remove` | src/com/afollestad/silk/adapters/SilkAdapter.java:101-105 | `remove(i)` succeeds exactly when `0 <= i < count` and then drops item `i` and notifies once; otherwise it throws the out-of-range error, keeps the items and sends no notification; in both cases the flag is up |
| `SilkAdapter.Clear` | src/com/afollestad/silk/adapters/SilkAdapter.java:110-114 | `clear()` leaves no items, raises the flag and notifies once |
| `SilkAdapter.ResetChanged` | src/com/afollestad/silk/adapters/SilkAdapter.java:151-153 | `resetChanged()` makes `isChanged()` false and keeps the items and the notification count |
| `SilkAdapter.GetCount` | src/com/afollestad/silk/adapters/SilkAdapter.java:123-126 | the count is exactly the number of indices at which `getItem` succeeds |
| `SilkAdapter.GetItem` | src/com/afollestad/silk/adapters/SilkAdapter.java:128-131 | `getItem(i)` gives item `i` for in-range indices and throws the out-of-range error otherwise |
| `SilkAdapter.AddObserved` | src/com/afollestad/silk/adapters/SilkAdapter.java:61-65 | after `add(x)`, `getCount` is one more, `getItem(old count)` is `x`, every earlier `getItem` is unchanged, and `isChanged()` is true |
| `SilkAdapter.AddArrayIsRepeatedAdd` | src/com/afollestad/silk/adapters/SilkAdapter.java:61-74 | `add(T[])` leaves the same items as calling `add(T)` once per element, but it notifies once instead of once per element |
| `SilkAdapter.AddEmptyArrayStillNotifies` | src/com/afollestad/silk/adapters/SilkAdapter.java:70-74 | adding an empty array keeps the items but still raises the flag and notifies |
| `SilkAdapter.SetForgetsPrevious` | src/com/afollestad/silk/adapters/SilkAdapter.java:86-91 | two adapters with the same notification count end in the same state after the same `set`, whatever their items and flags were |
| `SilkAdapter.SetIdempotent` | src/com/afollestad/silk/adapters/SilkAdapter.java:86-91 | calling `set(s)` twice leaves the same items as calling it once |
| `SilkAdapter.SetArrayIsSetList` | src/com/afollestad/silk/adapters/SilkAdapter.java:79-91 | `set(T[])` and `set(List)` on the same elements leave the same state |
| `SilkAdapter.RemoveObserved` | src/com/afollestad/silk/adapters/SilkAdapter.java:101-105 | after an in-range `remove(i)`, `getCount` is one less, `getItem(j)` is unchanged for `j < i` and is the old `getItem(j + 1)` from `i` on, and the multiset of items loses exactly one copy of the removed item |
| `SilkAdapter.RemoveUndoesAdd` | src/com/afollestad/silk/adapters/SilkAdapter.java:101-105 | removing at the old count right after `add(x)` succeeds and gives back the items from before the add |
| `SilkAdapter.RemoveOutOfRange` | src/com/afollestad/silk/adapters/SilkAdapter.java:101-105 | an out-of-range `remove` throws the out-of-range error and leaves the earlier state with only the flag raised |
| `SilkAdapter.ClearEmptyStillNotifies` | src/com/afollestad/silk/adapters/SilkAdapter.java:110-114 | `clear()` on an empty adapter keeps the count at zero but still raises the flag and notifies |
| `SilkAdapter.ClearIsSetEmpty` | src/com/afollestad/silk/adapters/SilkAdapter.java:110-114 | `clear()` leaves the same state as `set` of an empty list |
| `SilkAdapter.ResetIdempotent` | src/com/afollestad/silk/adapters/SilkAdapter.java:151-160 | resetting twice is the same as resetting once, and `isChanged()` then reads false |
| `SilkAdapter.IdsArePositions` | src/com/afollestad/silk/adapters/SilkAdapter.java:133-136 | in-range row ids match exactly when the rows are the same; ids do not follow items, because after removing the first item, id 0 shows what id 1 showed before |
| `AdapterTrace.Step` | src/com/afollestad/silk/adapters/SilkAdapter.java:61-160 | queries keep the state; every mutator raises the flag, even one that throws; a reset lowers the flag and keeps the items; a call throws exactly when it is a `remove` or `getItem` with an out-of-range index; the notification count goes up by one exactly for a mutator that did not throw |
| `AdapterTrace.ExecuteNotifications` | src/com/afollestad/silk/adapters/SilkAdapter.java:61-114 | after any trace, the notifications sent are exactly the mutator calls that did not throw |
| `AdapterTrace.ChangedSinceResetLast` | src/com/afollestad/silk/adapters/SilkAdapter.java:147-160 | a trailing reset makes the flag's meaning false, a trailing mutator makes it true, and a trailing query leaves it as it was |
| `AdapterTrace.ExecuteChanged` | src/com/afollestad/silk/adapters/SilkAdapter.java:147-160 | after any trace, `isChanged()` is true exactly when a mutator ran after the last `resetChanged()`, or when the flag was up before and nothing reset it |
| `AdapterTrace.ExecuteAppends` | src/com/afollestad/silk/adapters/SilkAdapter.java:61-74 | a trace of `add` calls leaves the old items followed by every added element in call order, and the count grows by the number added |
| `AdapterTrace.ExecuteAppendsReturn` | src/com/afollestad/silk/adapters/SilkAdapter.java:61-74 | no call of an `add` trace throws |
| `AdapterTrace.ExecuteQueriesArePure` | src/com/afollestad/silk/adapters/SilkAdapter.java:119-136 | a trace of queries (`getItems`, `getCount`, `getItem`, `getItemId`, `isChanged`, `contains`) leaves the adapter unchanged |
| `AdapterTrace.Walkthrough` | src/com/afollestad/silk/adapters/SilkAdapter.java:61-114 | from a new adapter, `add([A, B])` gives `[A, B]` with the flag up; after a reset, `isChanged()` answers false; `remove(0)` gives `[B]` with the flag up; `set([X, Y, Z])` gives `[X, Y, Z]`, and three notifications were sent |

## Left out

- `getView`, `getContext`, `getLayout` and `onViewCreated`: view inflation and recycling use Android toolkit classes (`LayoutInflater`, `View`, `ViewGroup`, `Context`) that are not part of this model.
- `contains`: it is abstract and has no implementation, so it is a parameter of `Step`, not a definition.
- `notifyDataSetChanged`: the host redraw it triggers is not modelled; only the number of calls is counted.
- `getItems`: the model returns the items as a value. The source returns the live `ArrayList`, so a caller can change the adapter without raising the flag, and `set(getItems())` empties the list, because `clear()` runs before `addAll` on the same list. This aliasing is not modelled, and `set`'s argument is always an independent sequence.
- Null arguments: `add(null array)`, `set(null)` and `set((T[]) null)` throw `NullPointerException` in the source. In the model an array or list is always a sequence.
- `SilkAdapter.GetCount`: the count is an unbounded `nat`. `ArrayList` cannot hold more than `Integer.MAX_VALUE` elements, and the model does not state that cap.
- Threads: the class has no concurrency of its own, and UI-thread confinement is the host's concern.
