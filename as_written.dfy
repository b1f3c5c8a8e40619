/**
 * Three defective loops of the vector as the source writes them: the erase
 * shift loop statement by statement, the counts of resize's copy (length,
 * capacity and slots read), and the counter and guard of the block insert's
 * shift loop (not its stores). The vector class itself uses the corrected
 * loops; the lemmas here pin down the inputs that expose each defect.
 */
module AsWritten {
  import opened Sequences
  import opened Growth

  datatype Option<T> = None | Some(value: T)

  /**
   * The shift loop of erase(index) as written: for i from `i` while i < `len`,
   * slot i receives slot i + 1. None when a read falls outside the buffer `buf`.
   */
  function EraseShiftAsWritten<T>(buf: seq<T>, i: nat, len: nat): (r: Option<seq<T>>)
    ensures r.Some? ==> |r.value| == |buf|
    decreases len - i
  {
    if i >= len then Some(buf)
    else if i + 1 >= |buf| then None
    else EraseShiftAsWritten(buf[i := buf[i + 1]], i + 1, len)
  }

  /** On a full buffer, erasing any live element reads the slot one past its end. */
  lemma {:induction false} EraseOverreadsFullBuffer<T>(buf: seq<T>, index: nat)
    requires index < |buf|
    ensures EraseShiftAsWritten(buf, index, |buf|) == None
    decreases |buf| - index
  {
    if index + 1 < |buf| {
      EraseOverreadsFullBuffer(buf[index := buf[index + 1]], index + 1);
    }
  }

  /** With a spare slot the loop stays in the buffer and moves every later live element one place left. */
  lemma {:induction false} EraseShiftInBounds<T>(buf: seq<T>, i: nat, len: nat)
    requires i <= len < |buf|
    ensures EraseShiftAsWritten(buf, i, len).Some?
    ensures |EraseShiftAsWritten(buf, i, len).value| == |buf|
    ensures EraseShiftAsWritten(buf, i, len).value[..i] == buf[..i]
    ensures forall k :: i <= k < len ==> EraseShiftAsWritten(buf, i, len).value[k] == buf[k + 1]
    decreases len - i
  {
    if i < len {
      var next := buf[i := buf[i + 1]];
      EraseShiftInBounds(next, i + 1, len);
      assert next[..i] == buf[..i];
    }
  }

  /** Whenever the loop as written stays in the buffer, its live result is the element removed. */
  lemma EraseShiftLiveResult<T>(buf: seq<T>, index: nat, len: nat)
    requires index < len < |buf|
    ensures EraseShiftAsWritten(buf, index, len).Some?
    ensures |EraseShiftAsWritten(buf, index, len).value| == |buf|
    ensures EraseShiftAsWritten(buf, index, len).value[..len - 1] == RemoveAt(buf[..len], index)
  {
    EraseShiftInBounds(buf, index, len);
    var b := EraseShiftAsWritten(buf, index, len).value;
    assert forall k :: 0 <= k < index ==> b[k] == buf[..index][k];
  }

  /**
   * resize(newSize) as written, on `len` live elements in `cap` slots: the
   * live count, the capacity, and how many slots the copy loop of the
   * reallocation reads from the old buffer.
   */
  datatype ResizeStep = ResizeStep(length: nat, capacity: nat, copied: nat)

  function ResizeAsWritten(len: nat, cap: nat, newSize: nat): (r: ResizeStep)
    requires len <= cap
    ensures r.length <= r.capacity && r.copied <= r.length
  {
    if newSize == len then ResizeStep(len, cap, 0)
    else if newSize < len then ResizeStep(newSize, cap, 0)
    else if newSize <= cap then ResizeStep(newSize, cap, 0)
    else
      // The live count becomes newSize before the reallocation, which then
      // clamps it to the new capacity and copies that many slots.
      var newCap := newSize + AdditionalCapacity;
      ResizeStep(Min(newSize, newCap), newCap, Min(newSize, newCap))
  }

  /**
   * The copy reads past the old buffer exactly when resize grows beyond the
   * capacity; length and capacity are those of the corrected resize.
   */
  lemma ResizeOverreadsIffBeyondCapacity(len: nat, cap: nat, newSize: nat)
    requires len <= cap
    ensures ResizeAsWritten(len, cap, newSize).copied > cap <==> newSize > cap
    ensures ResizeAsWritten(len, cap, newSize).length == newSize
    ensures ResizeAsWritten(len, cap, newSize).capacity == ResizeCapacity(cap, newSize)
  {
  }

  /** `size_t` values lie below SizeLimit and wrap around on decrement past zero. */
  const SizeLimit: nat := 0x1_0000_0000_0000_0000

  function Decrement(i: nat): (r: nat)
    requires i < SizeLimit
    ensures r < SizeLimit
    ensures i > 0 ==> r + 1 == i
  {
    if i == 0 then SizeLimit - 1 else i - 1
  }

  /** Whether `for (size_t i = from; i >= bound; --i)` has stopped within `fuel` iterations. */
  predicate DownwardLoopStops(from: nat, bound: nat, fuel: nat)
    requires from < SizeLimit
    decreases fuel
  {
    from < bound || (fuel > 0 && DownwardLoopStops(Decrement(from), bound, fuel - 1))
  }

  /** With bound 0 the guard `i >= 0` of an unsigned counter never fails. */
  lemma {:induction false} ZeroBoundNeverStops(from: nat, fuel: nat)
    requires from < SizeLimit
    ensures !DownwardLoopStops(from, 0, fuel)
    decreases fuel
  {
    if fuel > 0 {
      ZeroBoundNeverStops(Decrement(from), fuel - 1);
    }
  }

  /** With a positive bound the loop stops after at most `from + 1` iterations. */
  lemma {:induction false} PositiveBoundStops(from: nat, bound: nat)
    requires 0 < bound && from < SizeLimit
    ensures DownwardLoopStops(from, bound, from + 1)
    decreases from
  {
    if from >= bound {
      PositiveBoundStops(from - 1, bound);
    }
  }

  /**
   * The shift loop of the block insert, taken when index < length: it runs
   * from length + count - 1 down to index + count.
   */
  predicate BlockShiftStops(length: nat, index: nat, count: nat, fuel: nat)
    requires index < length && length + count < SizeLimit
  {
    DownwardLoopStops(length + count - 1, index + count, fuel)
  }

  /** The block insert's shift loop stops if and only if the block is not an empty one at the front. */
  lemma BlockShiftStopsIffNotEmptyAtFront(length: nat, index: nat, count: nat)
    requires index < length && length + count < SizeLimit
    ensures index == 0 && count == 0 ==> forall fuel :: !BlockShiftStops(length, index, count, fuel)
    ensures index + count > 0 ==> BlockShiftStops(length, index, count, length + count)
  {
    if index + count == 0 {
      forall fuel: nat
        ensures !BlockShiftStops(length, index, count, fuel)
      {
        ZeroBoundNeverStops(length - 1, fuel);
      }
    } else {
      PositiveBoundStops(length + count - 1, index + count);
    }
  }
}
