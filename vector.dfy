/**
 * The growable array: a buffer of `storageLength` slots of which the first
 * `length` hold the live elements. Every reallocation except Clear goes
 * through ResizeStorage, which copies the live prefix into a fresh buffer;
 * Clear replaces the buffer directly.
 */
module Vectors {
  import opened Errors
  import opened Sequences
  import opened Growth
  import opened Iterators

  class Vector<T(0)> {
    /** The owned buffer; its slots past `length` are allocated but dead. */
    var storage: array<T>
    /** The number of live elements. */
    var length: nat
    /** The number of allocated slots. */
    var storageLength: nat

    /** The object invariant: the live elements fit in a buffer of exactly `storageLength` slots. */
    ghost predicate Valid()
      reads this
    {
      length <= storageLength && storageLength == storage.Length
    }

    /** The abstract value: the live elements in order. */
    ghost function Elements(): seq<T>
      reads this, storage
      requires Valid()
    {
      storage[..length]
    }

    /** A vector of `size` default elements with `AdditionalCapacity` spare slots. */
    constructor (size: nat)
      ensures Valid() && fresh(storage)
      ensures length == size && storageLength == size + AdditionalCapacity
    {
      storage := new T[size + AdditionalCapacity];
      length := size;
      storageLength := size + AdditionalCapacity;
    }

    /** The copy constructor: a fresh buffer of the same capacity holding the same elements. */
    constructor Copy(another: Vector<T>)
      requires another.Valid()
      ensures Valid() && fresh(storage)
      ensures Elements() == another.Elements() && storageLength == another.storageLength
    {
      var buffer := new T[another.storageLength];
      var i := 0;
      while i < another.length
        invariant 0 <= i <= another.length
        invariant buffer[..i] == another.storage[..i]
      {
        buffer[i] := another.storage[i];
        i := i + 1;
      }
      length := another.length;
      storageLength := another.storageLength;
      storage := buffer;
    }

    /** Reallocates to `newSize` slots, keeping as much of the live prefix as fits. */
    method ResizeStorage(newSize: nat)
      requires Valid()
      modifies this
      ensures Valid() && fresh(storage)
      ensures storageLength == newSize && length == Min(old(length), newSize)
      ensures Elements() == old(Elements())[..length]
    {
      var newStorage := new T[newSize];
      storageLength := newSize;
      length := Min(length, newSize);
      var i := 0;
      while i < length
        modifies newStorage
        invariant 0 <= i <= length
        invariant newStorage[..i] == storage[..i]
      {
        newStorage[i] := storage[i];
        i := i + 1;
      }
      storage := newStorage;
    }

    /**
     * `operator=` as written: the buffer is reallocated to the source's length,
     * but the live count is clamped to the smaller of the two lengths, so only
     * that many elements are copied.
     */
    method Assign(another: Vector<T>)
      requires Valid() && another.Valid()
      modifies this
      ensures Valid() && fresh(storage)
      ensures storageLength == old(another.length)
      ensures length == Min(old(length), old(another.length))
      ensures Elements() == old(another.Elements())[..length]
    {
      ghost var source := another.Elements();
      ResizeStorage(another.length);
      assert another.length == |source|;
      assert another == this ==> storage[..length] == source[..length];
      var i := 0;
      while i < length
        modifies storage
        invariant 0 <= i <= length <= another.length <= another.storage.Length
        invariant storage[..i] == source[..i]
        invariant forall k :: i <= k < length ==> another.storage[k] == source[k]
      {
        storage[i] := another.storage[i];
        i := i + 1;
      }
    }

    /** `operator=` as evidently intended: afterwards this vector holds every element of `another`. */
    method AssignAll(another: Vector<T>)
      requires Valid() && another.Valid()
      modifies this
      ensures Valid() && fresh(storage)
      ensures storageLength == old(another.length)
      ensures Elements() == old(another.Elements())
    {
      ghost var source := another.Elements();
      ResizeStorage(another.length);
      assert another == this ==> storage[..length] == source;
      length := another.length;
      var i := 0;
      while i < length
        modifies storage
        invariant 0 <= i <= length == another.length == |source| <= another.storage.Length
        invariant storage[..i] == source[..i]
        invariant forall k :: i <= k < length ==> another.storage[k] == source[k]
      {
        storage[i] := another.storage[i];
        i := i + 1;
      }
    }

    /** size(): the number of live elements. */
    function Size(): (n: nat)
      reads this, storage
      requires Valid()
      ensures n == |Elements()|
    {
      length
    }

    /** capacity(): the number of allocated slots, never fewer than the live elements. */
    function Capacity(): (n: nat)
      reads this
      requires Valid()
      ensures Size() <= n
    {
      storageLength
    }

    /** empty(): whether there are no live elements. */
    predicate Empty()
      reads this, storage
      requires Valid()
      ensures Empty() <==> Elements() == []
    {
      length == 0
    }

    /** `operator[]`: unchecked access to any allocated slot; a live slot holds that element. */
    function Get(index: nat): (r: T)
      reads this, storage
      requires Valid() && index < storageLength
      ensures index < length ==> r == Elements()[index]
    {
      storage[index]
    }

    /** at(index): the element at `index`, or a Range error exactly when `index` is not live. */
    function At(index: nat): (r: Result<T>)
      reads this, storage
      requires Valid()
      ensures r.Err? <==> index >= |Elements()|
      ensures r.Err? ==> r.error == Range
      ensures r.Ok? ==> r.value == Elements()[index]
    {
      if index >= length then Err(Range) else Ok(storage[index])
    }

    /** front(): the first element, or a Range error on an empty vector. */
    function Front(): (r: Result<T>)
      reads this, storage
      requires Valid()
      ensures r.Err? <==> Elements() == []
      ensures r.Err? ==> r.error == Range
      ensures r.Ok? ==> r.value == Elements()[0]
    {
      if length == 0 then Err(Range) else Ok(storage[0])
    }

    /** back(): the last element, or a Range error on an empty vector. */
    function Back(): (r: Result<T>)
      reads this, storage
      requires Valid()
      ensures r.Err? <==> Elements() == []
      ensures r.Err? ==> r.error == Range
      ensures r.Ok? ==> r.value == Elements()[|Elements()| - 1]
    {
      if length == 0 then Err(Range) else Ok(storage[length - 1])
    }

    /** push_back(value): appends, reallocating with the margin first when the buffer is full. */
    method PushBack(value: T)
      requires Valid()
      modifies this, storage
      ensures Valid()
      ensures Elements() == old(Elements()) + [value]
      ensures storageLength == PushCapacity(old(length), old(storageLength))
      ensures old(length) < old(storageLength) ==> storage == old(storage)
      ensures old(length) == old(storageLength) ==> fresh(storage)
    {
      if length == storageLength {
        ResizeStorage(storageLength + AdditionalCapacity);
      }
      storage[length] := value;
      length := length + 1;
    }

    /** pop_back(): a Size error on an empty vector; otherwise drops and returns the last element. */
    method PopBack() returns (r: Result<T>)
      requires Valid()
      modifies this
      ensures Valid()
      ensures storage == old(storage) && storageLength == old(storageLength)
      ensures old(length) == 0 ==> r == Err(Error.Size) && unchanged(this)
      ensures old(length) > 0 ==> r == Ok(old(Elements())[old(length) - 1])
      ensures old(length) > 0 ==> Elements() == old(Elements())[..old(length) - 1]
    {
      if length == 0 {
        return Err(Error.Size);
      }
      length := length - 1;
      r := Ok(storage[length]);
    }

    /** shrink_to_fit(): reallocates to exactly the live elements. */
    method ShrinkToFit()
      requires Valid()
      modifies this
      ensures Valid() && fresh(storage)
      ensures Elements() == old(Elements()) && storageLength == length
    {
      ResizeStorage(length);
    }

    /** clear(): a fresh buffer of `AdditionalCapacity` slots and no live elements. */
    method Clear()
      requires Valid()
      modifies this
      ensures Valid() && fresh(storage)
      ensures Elements() == [] && storageLength == AdditionalCapacity
    {
      storage := new T[AdditionalCapacity];
      storageLength := AdditionalCapacity;
      length := 0;
    }

    /**
     * resize(newSize): the live count becomes `newSize`. Within capacity the
     * buffer is kept as it is, so the newly live slots hold whatever the dead
     * slots held; beyond capacity the buffer is reallocated with the margin,
     * keeping the old elements, and the new slots are unspecified.
     */
    method Resize(newSize: nat)
      requires Valid()
      modifies this
      ensures Valid() && length == newSize
      ensures Elements()[..Min(old(length), newSize)] == old(Elements())[..Min(old(length), newSize)]
      ensures storageLength == ResizeCapacity(old(storageLength), newSize)
      ensures newSize <= old(storageLength) ==> storage == old(storage)
      ensures newSize > old(storageLength) ==> fresh(storage)
    {
      if newSize == length {
        return;
      }
      if newSize < length {
        length := newSize;
      } else if newSize <= storageLength {
        length := newSize;
      } else {
        ResizeStorage(newSize + AdditionalCapacity);
        length := newSize;
      }
    }

    /** insert(index, value): a Range error past the end; otherwise `value` goes in at `index`. */
    method Insert(index: nat, value: T) returns (r: Outcome)
      requires Valid()
      modifies this, storage
      ensures Valid()
      ensures index > old(length) ==> r == Fail(Range) && unchanged(this) && unchanged(storage)
      ensures index <= old(length) ==> r == Pass && Elements() == InsertAt(old(Elements()), index, value)
      ensures index <= old(length) ==> storageLength == PushCapacity(old(length), old(storageLength))
      ensures storageLength == old(storageLength) ==> storage == old(storage)
      ensures storageLength != old(storageLength) ==> fresh(storage)
    {
      if index > length {
        return Fail(Range);
      }
      r := Pass;
      ghost var before := Elements();
      if index == length {
        PushBack(value);
        assert before + [value] == InsertAt(before, index, value);
        return;
      }
      if length == storageLength {
        ResizeStorage(storageLength + AdditionalCapacity);
      }
      PlaceOne(index, value);
    }

    /** The shifting of the one-element insert, once the buffer has a free slot. */
    method PlaceOne(index: nat, value: T)
      requires Valid() && index <= length < storageLength
      modifies this, storage
      ensures Valid() && storage == old(storage) && storageLength == old(storageLength)
      ensures Elements() == InsertAt(old(Elements()), index, value)
    {
      ghost var before := storage[..length];
      ShiftTailRight(index, 1);
      ghost var shifted := storage[..];
      storage[index] := value;
      length := length + 1;
      assert storage[..] == shifted[index := value];
      assert Elements() == before[..index] + [value] + before[index..];
    }

    /**
     * insert(index, source, count): a Range error past the end; otherwise the
     * first `count` elements of `source` go in at `index`, after one
     * reallocation if they do not fit. Inserting no elements changes nothing.
     */
    method InsertBlock(index: nat, source: array<T>, count: nat) returns (r: Outcome)
      requires Valid() && count <= source.Length && source != storage
      modifies this, storage
      ensures Valid()
      ensures index > old(length) ==> r == Fail(Range) && unchanged(this) && unchanged(storage)
      ensures index <= old(length) ==> r == Pass
      ensures index <= old(length) ==> Elements() == InsertAllAt(old(Elements()), index, old(source[..count]))
      ensures index <= old(length) ==> storageLength == BlockInsertCapacity(old(length), old(storageLength), count)
      ensures storageLength == old(storageLength) ==> storage == old(storage)
      ensures storageLength != old(storageLength) ==> fresh(storage)
    {
      if index > length {
        return Fail(Range);
      }
      r := Pass;
      ghost var before := Elements();
      ghost var block := source[..count];
      if count == 0 {
        assert InsertAllAt(before, index, block) == before;
        return;
      }
      if length + count > storageLength {
        ResizeStorage(length + count + AdditionalCapacity);
      }
      assert Elements() == before && source[..count] == block;
      PlaceBlock(index, source, count);
    }

    /** The shifting and copying of the block insert, once the buffer has room for the block. */
    method PlaceBlock(index: nat, source: array<T>, count: nat)
      requires Valid() && index <= length && length + count <= storageLength
      requires count <= source.Length && source != storage
      modifies this, storage
      ensures Valid() && storage == old(storage) && storageLength == old(storageLength)
      ensures Elements() == InsertAllAt(old(Elements()), index, source[..count])
    {
      ghost var before := storage[..length];
      if index < length {
        ShiftTailRight(index, count);
      }
      assert storage[index + count..length + count] == before[index..];
      CopyIn(index, source, count);
      length := length + count;
      assert storage[..index] == before[..index];
      assert storage[index + count..length] == before[index..];
      assert Elements() == storage[..index] + storage[index..index + count] + storage[index + count..length];
    }

    /**
     * The back-to-front shift loop of both inserts: the live elements from
     * `index` on move `count` slots right; the slots before `index` stay.
     */
    method ShiftTailRight(index: nat, count: nat)
      requires Valid() && index <= length && length + count <= storageLength
      modifies storage
      ensures storage[..index] == old(storage[..index])
      ensures storage[index + count..length + count] == old(storage[index..length])
    {
      ghost var initial := storage[..];
      var i := length + count;
      while i > index + count
        invariant index + count <= i <= length + count
        invariant |storage[..]| == |initial|
        invariant forall k :: 0 <= k < i && k < length ==> storage[k] == initial[k]
        invariant forall k :: i <= k < length + count ==> storage[k] == initial[k - count]
      {
        i := i - 1;
        storage[i] := storage[i - count];
      }
      assert storage[..index] == initial[..index];
      assert storage[index + count..length + count] == initial[index..length];
    }

    /** The copy loop of the block insert: the first `count` elements of `source` land at `index`. */
    method CopyIn(index: nat, source: array<T>, count: nat)
      requires Valid() && index + count <= storageLength && count <= source.Length && source != storage
      modifies storage
      ensures storage[index..index + count] == source[..count]
      ensures storage[..index] == old(storage[..index])
      ensures storage[index + count..] == old(storage[index + count..])
    {
      var j := 0;
      while j < count
        invariant 0 <= j <= count
        invariant storage[index..index + j] == source[..j]
        invariant storage[..index] == old(storage[..index])
        invariant storage[index + j..] == old(storage[index + j..])
      {
        storage[index + j] := source[j];
        j := j + 1;
      }
    }

    /** insert(index, another): the block insert of all of `another`'s elements. */
    method InsertVector(index: nat, another: Vector<T>) returns (r: Outcome)
      requires Valid() && another.Valid() && another.storage != storage
      modifies this, storage
      ensures Valid()
      ensures index > old(length) ==> r == Fail(Range) && unchanged(this) && unchanged(storage)
      ensures index <= old(length) ==> r == Pass
      ensures index <= old(length) ==> Elements() == InsertAllAt(old(Elements()), index, old(another.Elements()))
      ensures index <= old(length) ==> storageLength == BlockInsertCapacity(old(length), old(storageLength), old(another.length))
    {
      r := InsertBlock(index, another.storage, another.length);
    }

    /**
     * erase(index): a Range error past the end; at the end itself it is
     * pop_back, with pop_back's Size error on an empty vector; otherwise the
     * element at `index` goes and the rest move left. The buffer stays.
     */
    method Erase(index: nat) returns (r: Outcome)
      requires Valid()
      modifies this, storage
      ensures Valid()
      ensures storage == old(storage) && storageLength == old(storageLength)
      ensures index > old(length) ==> r == Fail(Range) && unchanged(this) && unchanged(storage)
      ensures index == old(length) == 0 ==> r == Fail(Error.Size) && unchanged(this) && unchanged(storage)
      ensures index == old(length) > 0 ==> r == Pass && Elements() == old(Elements())[..old(length) - 1]
      ensures index < old(length) ==> r == Pass && Elements() == RemoveAt(old(Elements()), index)
    {
      if index > length {
        return Fail(Range);
      }
      if index == length {
        var popped := PopBack();
        r := if popped.Ok? then Pass else Fail(popped.error);
        return;
      }
      ghost var before := storage[..length];
      var i := index;
      while i < length - 1
        modifies storage
        invariant index <= i <= length - 1
        invariant forall k :: 0 <= k < i ==> storage[k] == RemoveAt(before, index)[k]
        invariant forall k :: i <= k < length ==> storage[k] == before[k]
      {
        storage[i] := storage[i + 1];
        i := i + 1;
      }
      length := length - 1;
      r := Pass;
    }

    /**
     * erase(index, count): a Range error when the block runs past the end;
     * nothing happens for an empty block; otherwise the block goes and the
     * rest move left. The buffer stays.
     */
    method EraseRange(index: nat, count: nat) returns (r: Outcome)
      requires Valid()
      modifies this, storage
      ensures Valid()
      ensures storage == old(storage) && storageLength == old(storageLength)
      ensures index + count > old(length) ==> r == Fail(Range) && unchanged(this) && unchanged(storage)
      ensures index + count <= old(length) ==> r == Pass && Elements() == RemoveRange(old(Elements()), index, count)
    {
      if index + count > length {
        return Fail(Range);
      }
      r := Pass;
      if count == 0 {
        return;
      }
      ghost var before := storage[..length];
      var i := index;
      while i < length - count
        modifies storage
        invariant index <= i <= length - count
        invariant forall k :: 0 <= k < i ==> storage[k] == RemoveRange(before, index, count)[k]
        invariant forall k :: i <= k < length ==> storage[k] == before[k]
      {
        storage[i] := storage[i + count];
        i := i + 1;
      }
      length := length - count;
    }

    /** swap(other): the two vectors exchange buffer, live count and capacity; no element moves. */
    method Swap(other: Vector<T>)
      requires Valid() && other.Valid()
      modifies this, other
      ensures Valid() && other.Valid()
      ensures storage == old(other.storage) && length == old(other.length) && storageLength == old(other.storageLength)
      ensures other.storage == old(storage) && other.length == old(length) && other.storageLength == old(storageLength)
    {
      var buffer := storage;
      storage := other.storage;
      other.storage := buffer;

      var t := length;
      length := other.length;
      other.length := t;

      t := storageLength;
      storageLength := other.storageLength;
      other.storageLength := t;
    }

    /** begin(): an iterator anchored and standing at the first slot. */
    method Begin() returns (it: VectorIterator<T>)
      requires Valid()
      ensures fresh(it)
      ensures it.buffer == storage && it.start == 0 && it.current == 0
    {
      it := new VectorIterator(storage, 0);
    }

    /** end(): an iterator anchored and standing one past the last live element. */
    method End() returns (it: VectorIterator<T>)
      requires Valid()
      ensures fresh(it)
      ensures it.buffer == storage && it.start == length && it.current == length
    {
      it := new VectorIterator(storage, length);
    }
  }
}
