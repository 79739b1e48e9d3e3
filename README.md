# Mutable and immutable list ADT, modelled in Dafny

This project models a generic, zero-indexed list library that comes in two
capability classes:

- a **mutable list** (`MutableListADTImpl`) with observers and in-place mutators;
- an **immutable list** (`ImmutableListADTImpl`) with observers only, built
  through a **Builder**.

Both wrap a private backing sequence store (`ListADTImpl`, whose source is not
part of this model). The library promises four things:

- the observers `getSize` and `get` never change anything, and `get` rejects an
  invalid index;
- `map` returns a new list of the same capability class, with the same length
  and order, each element converted;
- `getImmutableList`, `getMutableList` and `Builder.build` copy element by
  element into a store of their own, so later mutation of one list is never
  visible through another;
- the mutators insert at the front, at the back or at an index, and remove the
  first instance of a value.

Files and modules:

- `list_spec.dfy`, module `ListSpec`: the abstract behaviour of the two
  capability interfaces `CommonListADT` and `ListADT`, as functions on the
  sequence a list holds, with the lemmas about them. The `Result` and
  `ListError` types stand for `get`'s `IllegalArgumentException`.
- `list_store.dfy`, module `Store`: class `ListStore`, the backing store. It
  holds the element sequence directly, and each of its operations meets the
  `ListADT` contract.
- `lists.dfy`, module `ListAdt`: classes `MutableList`, `ImmutableList` and
  `Builder`. They are one module because the two list classes refer to each
  other through the conversions.
  - Each class has a `const list` field (the repository's `private final`
    field) and a `Contents()` view.
  - Each list's `Repr()` is the list object and its store.
  - Every method that hands out a list ensures `fresh(r.Repr())`: the result
    shares no storage with anything that existed before the call.
  - The mutators of `MutableList` have `modifies list`, so they can change
    nothing but that list's own store.
  - No public method of `ImmutableList` has a `modifies` clause. The modelled
    immutability guarantee is exactly this fact.
- `list_clients.dfy`, module `ListClients`: callers that show, from the
  contracts alone, that copies are isolated and that builds are snapshots.

The loops follow the source:

- `ImmutableList.Map`, `ImmutableList.GetMutableList`,
  `MutableList.GetImmutableList` and `Builder.Build` each run an index loop over
  `get`, appending to a fresh list.
- Their invariants say that the copy so far is the source's prefix, or its
  mapped prefix.

## Model

| member | source | states |
|---|---|---|
| `ListSpec.InsertAt` | src/listadt/ListADT.java:27-34 | inserting at `index` gives a list one longer in which `b` occupies `index`, elements before it are unchanged and elements from `index` on move back by one |
| `ListSpec.FirstIndex` | src/listadt/ListADT.java:36-41 | the position of the first instance of a present value: it holds the value and no earlier position does |
| `ListSpec.RemoveFirst` | src/listadt/ListADT.java:36-41 | removing an absent value changes nothing; removing a present value shortens the list by exactly one |
| `ListSpec.RemoveFirstAt` | src/listadt/ListADT.java:36-41 | removal deletes exactly the element at the first matching position; the elements before and after it keep their order |
| `ListSpec.RemoveFirstMultiset` | src/listadt/ListADT.java:36-41 | removal takes out one instance of the value and no other element (multiset difference) |
| `ListSpec.RemoveUndoesInsert` | src/listadt/ListADT.java:27-41 | inserting `b` at `index` and then removing `b` restores the list, when no earlier position holds `b` |
| `ListSpec.MapSeq` | src/listadt/CommonListADT.java:30-39 | the mapped list has the same length, and element `i` is the converter applied to element `i` |
| `Store.ListStore.constructor` | src/listadt/MutableListADTImpl.java:17-19 | a new backing store is empty |
| `Store.ListStore.GetSize` | src/listadt/CommonListADT.java:14-19 | the size is the number of elements held, never negative |
| `Store.ListStore.Get` | src/listadt/CommonListADT.java:21-28 | for `0 <= index < size`, returns the element at that position; otherwise returns the invalid-index error; changes nothing |
| `Store.ListStore.AddFront` | src/listadt/ListADT.java:12-17 | the new contents are `b` followed by the old contents |
| `Store.ListStore.AddBack` | src/listadt/ListADT.java:19-25 | the new contents are the old contents followed by `b`, so `b` is last |
| `Store.ListStore.Add` | src/listadt/ListADT.java:27-34 | the new contents are the old contents with `b` inserted at `index` |
| `Store.ListStore.Remove` | src/listadt/ListADT.java:36-41 | the new contents are the old contents without their first instance of `b` |
| `Store.ListStore.Map` | src/listadt/ListADT.java:43-53 | returns a fresh store holding the element-wise image of this one |
| `ListAdt.MutableList.constructor` | src/listadt/MutableListADTImpl.java:17-19 | a new mutable list is empty and owns a fresh store |
| `ListAdt.MutableList.Wrap` | src/listadt/MutableListADTImpl.java:26-28 | the list wraps exactly the store it is given |
| `ListAdt.MutableList.AddFront` | src/listadt/MutableListADTImpl.java:30-33 | prepends `b`, so size grows by one and `b` is at index 0; only this list's store changes |
| `ListAdt.MutableList.AddBack` | src/listadt/MutableListADTImpl.java:35-38 | appends `b`, so `b` is at index `size - 1`; only this list's store changes |
| `ListAdt.MutableList.Add` | src/listadt/MutableListADTImpl.java:40-43 | for `0 <= index <= size`, inserts `b` at `index` and shifts the later elements back by one |
| `ListAdt.MutableList.Remove` | src/listadt/MutableListADTImpl.java:45-48 | deletes only the first occurrence of `b`; no change when `b` is absent |
| `ListAdt.MutableList.GetSize` | src/listadt/MutableListADTImpl.java:50-53 | returns the number of elements; changes nothing |
| `ListAdt.MutableList.Get` | src/listadt/MutableListADTImpl.java:55-58 | returns the element at a valid index and the invalid-index error otherwise; changes nothing |
| `ListAdt.MutableList.Map` | src/listadt/MutableListADTImpl.java:60-64 | returns a new mutable list over a fresh store with the converted elements in order; the source is unchanged |
| `ListAdt.MutableList.GetImmutableList` | src/listadt/MutableListADTImpl.java:66-76 | returns a new immutable list over a fresh store with identical contents; the source is unchanged |
| `ListAdt.ImmutableList.constructor` | src/listadt/ImmutableListADTImpl.java:27-29 | a new immutable list is empty and owns a fresh store |
| `ListAdt.ImmutableList.Wrap` | src/listadt/ImmutableListADTImpl.java:20-22 | the list wraps exactly the store it is given |
| `ListAdt.ImmutableList.AddBack` | src/listadt/ImmutableListADTImpl.java:37-39 | the private append adds `element` at the end of the list's own store |
| `ListAdt.ImmutableList.GetSize` | src/listadt/ImmutableListADTImpl.java:41-44 | returns the number of elements; changes nothing |
| `ListAdt.ImmutableList.Get` | src/listadt/ImmutableListADTImpl.java:46-49 | returns the element at a valid index and the invalid-index error otherwise; changes nothing |
| `ListAdt.ImmutableList.Map` | src/listadt/ImmutableListADTImpl.java:51-61 | returns a new immutable list over a fresh store, of the same length, whose element `i` is the converter applied to element `i`; the source is unchanged |
| `ListAdt.ImmutableList.GetMutableList` | src/listadt/ImmutableListADTImpl.java:63-73 | returns a new mutable list over a fresh store with the same elements in the same order; the source is unchanged |
| `ListAdt.Builder.constructor` | src/listadt/ImmutableListADTImpl.java:93-95 | a new builder has an empty buffer of its own |
| `ListAdt.Builder.Add` | src/listadt/ImmutableListADTImpl.java:103-106 | appends `element` to the accumulated contents and returns the same builder |
| `ListAdt.Builder.Build` | src/listadt/ImmutableListADTImpl.java:113-121 | returns an immutable list over a fresh store whose contents equal the buffer's at the moment of the call |
| `ListClients.ConversionRoundTrip` | src/listadt/MutableListADT.java:13-19 | mutable to immutable and back keeps the elements in order; later mutation of the original or of the copy is invisible everywhere else |
| `ListClients.ImmutableCopyIsolation` | src/listadt/ImmutableListADT.java:14-20 | the mutable copy of an immutable list can be edited without changing the immutable list |
| `ListClients.BuilderSnapshot` | src/listadt/ImmutableListADTImpl.java:113-121 | build `[a, b]`, add `c`, build again: the first list still holds `[a, b]`, the second holds `[a, b, c]`, and they do not share a store |
| `ListClients.EditSession` | src/listadt/ListADT.java:12-41 | on an empty list, `addBack(1)`, `addBack(2)`, `addFront(0)` give `[0, 1, 2]`; `remove(1)` gives `[0, 2]`; `get(5)` is the invalid-index error |

The interfaces `ImmutableListADT` (src/listadt/ImmutableListADT.java:5-31) and
`MutableListADT` (src/listadt/MutableListADT.java:5-30) are not separate Dafny
types. Their contracts are the contracts of `ImmutableList` and `MutableList`
above:

- `map` returns a list of the same class;
- the conversions are copies;
- `ImmutableList` has no public mutator.

One detail of the code is not reproduced:

- src/listadt/MutableListADTImpl.java:68 names the builder type as
  `ImmutableListADT.Builder`, but `Builder` is nested in `ImmutableListADTImpl`.
- The model uses that class's builder, which is what the line evidently means.

## Left out

- `ListADTImpl`: its source is not part of this model. `Store.ListStore` stands
  for it, holding a `seq` in place of linked nodes. Its contracts come from the
  `ListADT` and `CommonListADT` documentation, so node bookkeeping and the cost
  of each operation are not modelled.
- `Store.ListStore.Add`: out-of-range `add(index, b)` is excluded by the
  precondition `0 <= index <= size`. What the unseen store does outside that
  range is not modelled.
- `Store.ListStore.Remove`: removing an absent value is modelled as a no-op.
  This is an assumption about the unseen store, not something the shown code
  states.
- The four Java interfaces as abstract types: there is no dynamic dispatch
  through `CommonListADT`, `ListADT`, `ImmutableListADT` or `MutableListADT`.
  Their contracts sit on the concrete classes.
- Privacy: Dafny has no private members, so the `list` fields and the `Wrap`
  constructors are not hidden. The model relies on their being used only as in
  the source (`Wrap` only on a store that was just allocated).
- `ImmutableList.AddBack` has a `modifies` clause. It is private in the source
  and called only on lists not yet handed out: the result of `map` and a
  builder's buffer.
- The unchecked cast in `MutableListADTImpl.map`: the store's `Map` is modelled
  as returning a store of the target element type directly.
- The converter is a total, pure Dafny function `T -> R`. Side effects and
  exceptions inside a Java `Function` are not modelled.
- Element equality in `remove` is Dafny value equality. Java's `equals` is not
  modelled.
- Integer width: sizes and indices are unbounded integers. Lists longer than
  2^31 - 1 elements, where a Java `int` size would overflow, are not modelled.
- The loops read the size once before iterating, while the source calls
  `getSize()` on every pass. The source list does not change during these
  loops, so both read the same value.
- `toString` on both list classes delegates to the unseen store and has no
  stated format.
- Concurrency: the library is single-threaded, with single ownership.
