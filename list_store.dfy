/** The backing sequence store that both list variants wrap (`ListADTImpl` in the
    repository).  Its node structure is not part of this model: the store is its
    sequence of elements, and each operation is stated against the `ListADT`
    contract it implements.
 */
module Store {
  import opened ListSpec

  class ListStore<T(==)> {
    /** The elements held, index 0 first. */
    var items: seq<T>

    /** A new, empty store. */
    constructor ()
      ensures items == []
    {
      items := [];
    }

    /** The number of elements currently held. */
    method GetSize() returns (n: int)
      ensures n == |items|
      ensures n >= 0
    {
      n := |items|;
    }

    /** The element at 0-based position `index`, or the invalid-index error when
        `index < 0` or `index >= size`.  Nothing changes. */
    method Get(index: int) returns (r: Result<T>)
      ensures 0 <= index < |items| ==> r == Ok(items[index])
      ensures !(0 <= index < |items|) ==> r == Err(InvalidIndex(index))
    {
      if 0 <= index < |items| {
        r := Ok(items[index]);
      } else {
        r := Err(InvalidIndex(index));
      }
    }

    /** Puts `b` at index 0. */
    method AddFront(b: T)
      modifies this
      ensures items == [b] + old(items)
    {
      items := [b] + items;
    }

    /** Makes `b` the last element. */
    method AddBack(b: T)
      modifies this
      ensures items == old(items) + [b]
    {
      items := items + [b];
    }

    /** Inserts `b` so that it occupies `index`. */
    method Add(index: int, b: T)
      requires 0 <= index <= |items|
      modifies this
      ensures items == InsertAt(old(items), index, b)
    {
      items := InsertAt(items, index, b);
    }

    /** Removes the first instance of `b`; no change when `b` is absent. */
    method Remove(b: T)
      modifies this
      ensures items == RemoveFirst(old(items), b)
    {
      items := RemoveFirst(items, b);
    }

    /** A fresh store holding the element-wise image of this one. */
    method Map<R(==)>(f: T -> R) returns (r: ListStore<R>)
      ensures fresh(r)
      ensures r.items == MapSeq(items, f)
    {
      r := new ListStore<R>();
      r.items := MapSeq(items, f);
    }
  }
}
