/** Callers of the list classes, showing what their contracts let a client
    conclude without looking inside: copies made by the conversions and by the
    builder never see later mutations, and a short editing session has the
    expected outcome.
 */
module ListClients {
  import opened ListSpec
  import opened ListAdt

  /** Mutable to immutable and back again keeps the elements and their order;
      mutating the original or the round-tripped copy afterwards changes neither
      the other one nor the immutable list in between. */
  method ConversionRoundTrip<T(==)>(m: MutableList<T>, x: T) returns (im: ImmutableList<T>, back: MutableList<T>)
    modifies m.list
    ensures im.Contents() == old(m.Contents())
    ensures back.Contents() == [x] + old(m.Contents())
    ensures m.Contents() == old(m.Contents()) + [x]
  {
    im := m.GetImmutableList();
    back := im.GetMutableList();
    m.AddBack(x);
    back.AddFront(x);
  }

  /** A mutable copy of an immutable list can be edited freely: the immutable
      list keeps its elements, and removal takes out only the first (front) x. */
  method ImmutableCopyIsolation<T(==)>(im: ImmutableList<T>, x: T) returns (copy: MutableList<T>)
    ensures im.Contents() == old(im.Contents())
    ensures copy.Contents() == im.Contents() + [x]
  {
    copy := im.GetMutableList();
    copy.AddFront(x);
    copy.AddBack(x);
    copy.Remove(x);
  }

  /** Two builds of one builder are independent snapshots: the first is not
      affected by an element added after it was built. */
  method BuilderSnapshot<T(==)>(a: T, b: T, c: T) returns (first: ImmutableList<T>, second: ImmutableList<T>)
    ensures first.Contents() == [a, b]
    ensures second.Contents() == [a, b, c]
    ensures first.list != second.list
  {
    var builder := new Builder<T>();
    var chained := builder.Add(a);
    chained := chained.Add(b);
    first := builder.Build();
    chained := builder.Add(c);
    second := builder.Build();
  }

  /** Appending 1 and 2 and then prepending 0 to an empty list gives [0, 1, 2];
      removing 1 leaves [0, 2]; position 5 is then out of range. */
  method EditSession() returns (built: seq<int>, afterRemove: seq<int>, outOfRange: Result<int>)
    ensures built == [0, 1, 2]
    ensures afterRemove == [0, 2]
    ensures outOfRange == Err(InvalidIndex(5))
  {
    var m := new MutableList<int>();
    m.AddBack(1);
    m.AddBack(2);
    m.AddFront(0);
    built := m.Contents();
    m.Remove(1);
    afterRemove := m.Contents();
    outOfRange := m.Get(5);
  }
}
