/**
 * Properties that span several calls on vectors and iterators, stated as
 * client methods that make the calls and promise the combined effect.
 */
module Properties {
  import opened Sequences
  import opened Growth
  import opened Iterators
  import opened Vectors

  /**
   * Twenty pushes onto a new empty vector, then insert(5, 99), then erase(0):
   * one reallocation to 32 slots, 99 lands at index 5 with the old element 5
   * after it, and erasing the front leaves the old element 1 in front.
   */
  method AppendInsertEraseScenario() returns (size: nat, capacity: nat, at5: int, at6: int, sizeAfterErase: nat, front: int, span: int)
    ensures size == 20 && capacity == 2 * AdditionalCapacity
    ensures at5 == 99 && at6 == 5
    ensures sizeAfterErase == 20 && front == 1
    ensures span == 20
  {
    var v := new Vector<int>(0);
    var k := 0;
    while k < 20
      invariant 0 <= k <= 20
      invariant fresh(v) && fresh(v.storage) && v.Valid()
      invariant v.Elements() == seq(k, j => j)
      invariant v.storageLength == CapacityAfterPushes(0, AdditionalCapacity, k)
    {
      PushesCompose(0, AdditionalCapacity, k, 1);
      v.PushBack(k);
      k := k + 1;
    }
    TwentyPushesFromEmpty();
    size, capacity := v.Size(), v.Capacity();

    var inserted := v.Insert(5, 99);
    at5, at6 := v.Get(5), v.Get(6);

    var erased := v.Erase(0);
    sizeAfterErase := v.Size();
    front := v.Front().value;

    var first := v.Begin();
    var last := v.End();
    span := last.Difference(first);
  }

  /** Inserting a value and erasing it again at the same index restores the elements. */
  method InsertThenErase<T(0)>(v: Vector<T>, index: nat, value: T)
    requires v.Valid() && index <= v.length
    modifies v, v.storage
    ensures v.Valid() && v.Elements() == old(v.Elements())
  {
    var inserted := v.Insert(index, value);
    RemoveAfterInsert(old(v.Elements()), index, value);
    var erased := v.Erase(index);
  }

  /** Swapping twice restores both vectors. */
  method SwapTwice<T(0)>(a: Vector<T>, b: Vector<T>)
    requires a.Valid() && b.Valid()
    modifies a, b
    ensures a.storage == old(a.storage) && a.length == old(a.length) && a.storageLength == old(a.storageLength)
    ensures b.storage == old(b.storage) && b.length == old(b.length) && b.storageLength == old(b.storageLength)
  {
    a.Swap(b);
    a.Swap(b);
  }

  /** Assigning a two-element vector to a one-element vector leaves one element. */
  method AssignKeepsShortLength() returns (assignedSize: nat, sourceSize: nat, kept: int)
    ensures assignedSize == 1 && sourceSize == 2 && kept == 10
  {
    var target := new Vector<int>(0);
    target.PushBack(7);
    var source := new Vector<int>(0);
    source.PushBack(10);
    source.PushBack(20);
    target.Assign(source);
    assignedSize, sourceSize := target.Size(), source.Size();
    kept := target.Get(0);
  }

  /** `(it + n) - it == n`. */
  method PlusThenDifference<T>(it: VectorIterator<T>, n: int) returns (d: int)
    ensures d == n
  {
    var moved := Plus(it, n);
    d := moved.Difference(it);
  }

  /** `it + n` and `n + it` stand at the same position and equal each other. */
  method PlusCommutes<T>(it: VectorIterator<T>, n: int) returns (same: bool)
    ensures same
  {
    var right := Plus(it, n);
    var left := PlusLeft(n, it);
    same := right.Equal(left) && right.start == left.start;
  }

  /** Prefix `++` followed by prefix `--` returns the iterator to where it was. */
  method IncrementThenDecrement<T>(it: VectorIterator<T>)
    modifies it
    ensures it.current == old(it.current) && it.start == old(it.start)
  {
    var self := it.PreIncrement();
    self := it.PreDecrement();
  }

  /** `+= n` followed by `-= n` returns the iterator to where it was. */
  method AddThenSubtract<T>(it: VectorIterator<T>, n: int)
    modifies it
    ensures it.current == old(it.current) && it.start == old(it.start)
  {
    var self := it.AddAssign(n);
    self := it.SubAssign(n);
  }

  /** Postfix `++` followed by postfix `--` returns the iterator to where it was. */
  method PostIncrementThenDecrement<T>(it: VectorIterator<T>)
    modifies it
    ensures it.current == old(it.current) && it.start == old(it.start)
  {
    it.PostIncrement();
    it.PostDecrement();
  }

  /** On an iterator that has not moved, `it[n]` is `*(it + n)`. */
  method IndexIsDerefOfSum<T>(it: VectorIterator<T>, n: int) returns (indexed: T, reached: T)
    requires it.start == it.current && 0 <= it.start + n < it.buffer.Length
    ensures indexed == reached
  {
    indexed := it.Index(n);
    var moved := Plus(it, n);
    reached := moved.Deref();
  }

  /** Once the iterator has moved, `it[n]` still counts from where it was built. */
  method IndexAfterMove<T>(it: VectorIterator<T>, step: int, n: int) returns (before: T, after: T)
    requires 0 <= it.start + n < it.buffer.Length
    modifies it
    ensures before == after
  {
    before := it.Index(n);
    var self := it.AddAssign(step);
    after := it.Index(n);
  }
}
