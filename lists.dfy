/** The two capability classes of list and the builder of immutable lists.

    Each list owns exactly one backing `ListStore` (`list`, fixed at construction
    like the repository's `private final` field).  A mutable list changes its own
    store and nothing else; an immutable list has no public operation that
    changes anything.  Every operation that yields a list of the other class, or
    a mapped list, returns a list over a store allocated by that call, so no two
    lists handed to a caller ever share a store.
 */
module ListAdt {
  import opened ListSpec
  import opened Store

  /** A list offering both observers and in-place mutators (`MutableListADTImpl`). */
  class MutableList<T(==)> {
    const list: ListStore<T>

    /** The elements of the list, index 0 first. */
    function Contents(): seq<T>
      reads list
    {
      list.items
    }

    /** The objects this list owns. */
    function Repr(): set<object> {
      {this, list}
    }

    /** A new, empty list over a store of its own. */
    constructor ()
      ensures fresh(list)
      ensures Contents() == []
    {
      list := new ListStore<T>();
    }

    /** The list over an already-built store; private in the repository and used
        only by `Map`, on a store that no one else holds. */
    constructor Wrap(store: ListStore<T>)
      ensures list == store
    {
      list := store;
    }

    method AddFront(b: T)
      modifies list
      ensures Contents() == [b] + old(Contents())
    {
      list.AddFront(b);
    }

    method AddBack(b: T)
      modifies list
      ensures Contents() == old(Contents()) + [b]
    {
      list.AddBack(b);
    }

    method Add(index: int, b: T)
      requires 0 <= index <= |Contents()|
      modifies list
      ensures Contents() == InsertAt(old(Contents()), index, b)
    {
      list.Add(index, b);
    }

    method Remove(b: T)
      modifies list
      ensures Contents() == RemoveFirst(old(Contents()), b)
    {
      list.Remove(b);
    }

    method GetSize() returns (n: int)
      ensures n == |Contents()|
    {
      n := list.GetSize();
    }

    method Get(index: int) returns (r: Result<T>)
      ensures 0 <= index < |Contents()| ==> r == Ok(Contents()[index])
      ensures !(0 <= index < |Contents()|) ==> r == Err(InvalidIndex(index))
    {
      r := list.Get(index);
    }

    /** A new mutable list, over a new store, of the converted elements. */
    method Map<R(==)>(f: T -> R) returns (r: MutableList<R>)
      ensures fresh(r.Repr())
      ensures r.Contents() == MapSeq(Contents(), f)
    {
      var mapped := list.Map(f);
      r := new MutableList<R>.Wrap(mapped);
    }

    /** An immutable copy, made by feeding every element, index 0 upward, to a
        fresh builder. */
    method GetImmutableList() returns (r: ImmutableList<T>)
      ensures fresh(r.Repr())
      ensures r.Contents() == Contents()
    {
      var builder := new Builder<T>();
      var n := GetSize();
      var i := 0;
      while i < n
        invariant 0 <= i <= n
        invariant builder.Contents() == Contents()[..i]
      {
        var e := Get(i);
        var same := builder.Add(e.value);
        assert Contents()[..i + 1] == Contents()[..i] + [Contents()[i]];
        i := i + 1;
      }
      assert Contents()[..n] == Contents();
      r := builder.Build();
    }
  }

  /** A list offering only observers after it has been handed out
      (`ImmutableListADTImpl`). */
  class ImmutableList<T(==)> {
    const list: ListStore<T>

    /** The elements of the list, index 0 first. */
    function Contents(): seq<T>
      reads list
    {
      list.items
    }

    /** The objects this list owns. */
    function Repr(): set<object> {
      {this, list}
    }

    /** A new, empty immutable list. */
    constructor ()
      ensures fresh(list)
      ensures Contents() == []
    {
      list := new ListStore<T>();
    }

    /** The list over an already-built store; private in the repository and used
        only by `Builder.Build`, on the copy it has just made. */
    constructor Wrap(store: ListStore<T>)
      ensures list == store
    {
      list := store;
    }

    /** Appends during construction; private in the repository and called only
        on a list that has not yet been handed out (the result of `Map`, the
        buffer of a `Builder`). */
    method AddBack(element: T)
      modifies list
      ensures Contents() == old(Contents()) + [element]
    {
      list.AddBack(element);
    }

    method GetSize() returns (n: int)
      ensures n == |Contents()|
    {
      n := list.GetSize();
    }

    method Get(index: int) returns (r: Result<T>)
      ensures 0 <= index < |Contents()| ==> r == Ok(Contents()[index])
      ensures !(0 <= index < |Contents()|) ==> r == Err(InvalidIndex(index))
    {
      r := list.Get(index);
    }

    /** A new immutable list of the converted elements, filled by appending the
        image of each element, index 0 upward. */
    method Map<R(==)>(f: T -> R) returns (r: ImmutableList<R>)
      ensures fresh(r.Repr())
      ensures r.Contents() == MapSeq(Contents(), f)
    {
      r := new ImmutableList<R>();
      var n := GetSize();
      var i := 0;
      while i < n
        invariant 0 <= i <= n
        invariant fresh(r) && fresh(r.list)
        invariant r.Contents() == MapSeq(Contents()[..i], f)
      {
        var e := Get(i);
        r.AddBack(f(e.value));
        i := i + 1;
      }
      assert Contents()[..n] == Contents();
    }

    /** A mutable copy over a new store, filled element by element. */
    method GetMutableList() returns (r: MutableList<T>)
      ensures fresh(r.Repr())
      ensures r.Contents() == Contents()
    {
      r := new MutableList<T>();
      var n := GetSize();
      var i := 0;
      while i < n
        invariant 0 <= i <= n
        invariant fresh(r) && fresh(r.list)
        invariant r.Contents() == Contents()[..i]
      {
        var e := Get(i);
        r.AddBack(e.value);
        assert Contents()[..i + 1] == Contents()[..i] + [Contents()[i]];
        i := i + 1;
      }
      assert Contents()[..n] == Contents();
    }
  }

  /** Staged construction of an immutable list: elements accumulate in a private
      buffer, and each `Build` hands out a copy of the buffer as it is then. */
  class Builder<T(==)> {
    const list: ImmutableList<T>

    /** The elements accumulated so far, in call order. */
    function Contents(): seq<T>
      reads list.list
    {
      list.Contents()
    }

    /** A builder with an empty buffer of its own. */
    constructor ()
      ensures fresh(list) && fresh(list.list)
      ensures Contents() == []
    {
      list := new ImmutableList<T>();
    }

    /** Appends `element` to the buffer and returns this same builder. */
    method Add(element: T) returns (self: Builder<T>)
      modifies list.list
      ensures self == this
      ensures Contents() == old(Contents()) + [element]
    {
      list.AddBack(element);
      self := this;
    }

    /** A new immutable list over a new store holding a copy of the buffer. */
    method Build() returns (r: ImmutableList<T>)
      ensures fresh(r.Repr())
      ensures r.Contents() == Contents()
    {
      var copy := new ListStore<T>();
      var n := list.GetSize();
      var i := 0;
      while i < n
        invariant 0 <= i <= n
        invariant fresh(copy)
        invariant copy.items == Contents()[..i]
      {
        var e := list.Get(i);
        copy.AddBack(e.value);
        assert Contents()[..i + 1] == Contents()[..i] + [Contents()[i]];
        i := i + 1;
      }
      assert Contents()[..n] == Contents();
      r := new ImmutableList<T>.Wrap(copy);
    }
  }
}
