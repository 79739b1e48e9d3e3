/** The abstract behaviour promised by the two capability interfaces, stated on the
    sequence of elements a list holds.

    `CommonListADT` promises the observers: the size, positional `get` with an
    invalid-index error, and a structure-preserving `map`.  `ListADT` adds the
    in-place mutators: insertion at the front, at the back or at an index, and
    removal of the first instance of a value.  The classes in modules `Store` and
    `ListAdt` state their contracts in terms of the functions here.
 */
module ListSpec {

  /** The one error the lists signal: an index outside the valid range
      (Java's `IllegalArgumentException` from `get`). */
  datatype ListError = InvalidIndex(index: int)

  datatype Result<T> = Ok(value: T) | Err(error: ListError)

  /** The sequence with `b` placed so that it occupies position `index`; the
      elements at `index` and beyond move back by one. */
  function InsertAt<T>(s: seq<T>, index: nat, b: T): (r: seq<T>)
    requires index <= |s|
    ensures |r| == |s| + 1
    ensures r[index] == b
    ensures forall j :: 0 <= j < index ==> r[j] == s[j]
    ensures forall j :: index < j < |r| ==> r[j] == s[j - 1]
  {
    s[..index] + [b] + s[index..]
  }

  /** The position of the first instance of `b` in `s`. */
  function FirstIndex<T(==)>(s: seq<T>, b: T): (k: nat)
    requires b in s
    ensures k < |s| && s[k] == b
    ensures forall j :: 0 <= j < k ==> s[j] != b
  {
    if s[0] == b then 0 else 1 + FirstIndex(s[1..], b)
  }

  /** `s` with its first instance of `b` taken out, scanning from the front;
      `s` itself when `b` does not occur. */
  function RemoveFirst<T(==)>(s: seq<T>, b: T): (r: seq<T>)
    ensures b !in s ==> r == s
    ensures b in s ==> |r| == |s| - 1
  {
    if s == [] then []
    else
      assert s == [s[0]] + s[1..];
      if s[0] == b then s[1..] else [s[0]] + RemoveFirst(s[1..], b)
  }

  /** The element-wise image of `s` under `f`, in index order. */
  function MapSeq<T, R>(s: seq<T>, f: T -> R): (r: seq<R>)
    ensures |r| == |s|
    ensures forall i :: 0 <= i < |s| ==> r[i] == f(s[i])
  {
    if s == [] then [] else [f(s[0])] + MapSeq(s[1..], f)
  }

  /** Removal takes out exactly the element at the first matching position:
      everything before it and everything after it keeps its order. */
  lemma {:induction false} RemoveFirstAt<T>(s: seq<T>, b: T)
    requires b in s
    ensures RemoveFirst(s, b) == s[..FirstIndex(s, b)] + s[FirstIndex(s, b) + 1..]
  {
    if s[0] != b {
      var t := s[1..];
      assert b in t by { assert s == [s[0]] + t; }
      var k := FirstIndex(t, b);
      assert FirstIndex(s, b) == k + 1;
      RemoveFirstAt(t, b);
      calc {
        RemoveFirst(s, b);
        [s[0]] + RemoveFirst(t, b);
        [s[0]] + (t[..k] + t[k + 1..]);
        { assert s[..k + 1] == [s[0]] + t[..k]; assert s[k + 2..] == t[k + 1..]; }
        s[..k + 1] + s[k + 2..];
      }
    }
  }

  /** Removal takes out exactly one instance of `b` when there is one, and no
      other element. */
  lemma {:induction false} RemoveFirstMultiset<T>(s: seq<T>, b: T)
    ensures multiset(RemoveFirst(s, b)) == multiset(s) - multiset{b}
  {
    if s != [] {
      assert s == [s[0]] + s[1..];
      if s[0] != b {
        RemoveFirstMultiset(s[1..], b);
      }
    }
  }

  /** Removing a value just inserted undoes the insertion, as long as no earlier
      position already held that value. */
  lemma {:induction false} RemoveUndoesInsert<T>(s: seq<T>, index: nat, b: T)
    requires index <= |s|
    requires b !in s[..index]
    ensures RemoveFirst(InsertAt(s, index, b), b) == s
  {
    var t := InsertAt(s, index, b);
    assert FirstIndex(t, b) == index by {
      forall j | 0 <= j < index ensures t[j] != b {
        assert t[j] == s[..index][j];
      }
    }
    RemoveFirstAt(t, b);
    assert t[..index] == s[..index];
    assert t[index + 1..] == s[index..];
    assert s[..index] + s[index..] == s;
  }
}
