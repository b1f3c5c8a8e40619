# Growable array and its random-access iterator, in Dafny

This project models a small C++ container library: `Vector<T>`, a contiguous
growable array, and `VectorIterator<T>`, the random-access iterator over it.

- `Vector<T>` owns a buffer `storage` of `storageLength` slots. The first
  `length` slots hold the live elements. Every reallocation except `clear`
  goes through one helper, `resizeStorage`, which copies the live prefix
  into a fresh buffer; `clear` replaces the buffer directly. Push and the
  one-element insert grow a full buffer by 16 slots (`additionalCapacity`),
  leaving 15 spare; block insert and resize reallocate to the size they need
  plus 16; assignment and `shrink_to_fit` size the buffer exactly. Insert and erase shift the elements in place, for one
  element or for a block. Errors are thrown as `Range` or `Size`.
- `VectorIterator<T>` is a pair of positions into a buffer: the anchor
  `start` it was built at and the position `current` it has moved to.
  Indexing counts from the anchor. Equality, difference and ordering look
  only at `current`.

Layout:

- `errors.dfy` (module `Errors`): the two error kinds and the result types
  that replace exceptions.
- `sequences.dfy` (module `Sequences`): what insert and erase mean on the
  sequence of live elements, with round-trip and equivalence lemmas.
- `growth.dfy` (module `Growth`): the capacity policy, and lemmas about
  reallocation during a run of pushes.
- `vector.dfy` (module `Vectors`): class `Vector` over an `array<T>`, with
  the fields `storage`, `length` and `storageLength`. `Valid()` is
  `length <= storageLength == storage.Length`. `Elements()` is
  `storage[..length]`. Every modifier states its new elements and capacity
  in terms of the old ones.
- `iterator.dfy` (module `Iterators`): class `VectorIterator`. The mutating
  operators `+=`, `-=`, `++` and `--` are methods. Difference, `==`, `!=`,
  indexing and the free comparison operators are functions.
- `as_written.dfy` (module `AsWritten`): the erase shift loop as written,
  the counts of resize's copy (length, capacity and slots read), and the
  counter and guard of the block insert's shift loop, with the inputs where
  they read past the buffer or where the guard never fails.
- `properties.dfy` (module `Properties`): client methods that chain several
  calls, such as the append/insert/erase scenario, swapping twice, and
  iterator round trips.

Where the code departs from what it evidently intends, the model follows the
code:

- Assignment keeps the shorter of the two lengths (see Findings).
- `resize` within capacity exposes whatever the dead slots held. They are
  not reset to default values.

## Model

| member | source | states |
|---|---|---|
| Vectors.Vector.constructor | Vector.cpp:22 | a new vector has `size` elements and `size + 16` slots, and satisfies the invariant |
| Vectors.Vector.Copy | Vector.cpp:72-76 | the copy has a fresh buffer of the same capacity holding the same elements |
| Vectors.Vector.ResizeStorage | Vector.cpp:63-71 | reallocation to `newSize` fresh slots clamps the length to `min(length, newSize)`, keeps that prefix and preserves the invariant |
| Vectors.Vector.Assign | Vector.cpp:81-87 | `operator=` as written: capacity becomes the source's length, the length becomes the smaller of the two lengths, and only that prefix of the source is copied (aliasing `a = a` included) |
| Vectors.Vector.AssignAll | Vector.cpp:81-87 | corrected assignment: afterwards the elements equal the source's elements and the capacity is the source's length |
| Vectors.Vector.Size | Vector.cpp:28 | size is the number of live elements |
| Vectors.Vector.Capacity | Vector.cpp:29 | capacity is never below size |
| Vectors.Vector.Empty | Vector.cpp:30 | empty holds exactly when there are no live elements |
| Vectors.Vector.Get | Vector.cpp:88-91 | unchecked `operator[]` reads any allocated slot, and a live slot holds that element |
| Vectors.Vector.At | Vector.cpp:92-97 | `at(i)` fails with Range exactly when `i >= size`, and otherwise gives element `i` |
| Vectors.Vector.Front | Vector.cpp:38 | `front` fails with Range exactly on an empty vector, and otherwise gives the first element |
| Vectors.Vector.Back | Vector.cpp:39 | `back` fails with Range exactly on an empty vector, and otherwise gives the last element |
| Vectors.Vector.PushBack | Vector.cpp:98-103 | elements become `old + [v]`; a full vector reallocates to exactly 16 more slots, otherwise the buffer is kept |
| Vectors.Vector.PopBack | Vector.cpp:104-108 | an empty vector gives Size and nothing changes; otherwise the old last element is returned, it is dropped, and the buffer and capacity stay |
| Vectors.Vector.ShrinkToFit | Vector.cpp:109-112 | the elements stay and the capacity becomes the size, in a fresh buffer |
| Vectors.Vector.Clear | Vector.cpp:113-118 | no elements remain, in a fresh buffer of 16 slots |
| Vectors.Vector.Resize | Vector.cpp:119-131 | the size becomes `newSize` and the surviving old elements keep their values; the capacity is unchanged up to the old capacity and `newSize + 16` beyond it, with reallocation only in that case |
| Vectors.Vector.Insert | Vector.cpp:132-146 | `i > size` gives Range and leaves the vector unchanged; otherwise the elements become `s[..i] + [v] + s[i..]` and a full vector grows by 16 slots |
| Vectors.Vector.PlaceOne | Vector.cpp:141-144 | once there is a free slot, the shift and store leave `s[..i] + [v] + s[i..]` in the same buffer |
| Vectors.Vector.InsertBlock | Vector.cpp:147-165 | `i > size` gives Range and leaves the vector unchanged; otherwise the elements become `s[..i] + a[..n] + s[i..]`; the capacity becomes `size + n + 16` exactly when the block does not fit |
| Vectors.Vector.PlaceBlock | Vector.cpp:152-163 | once the block fits, the shift and copy leave `s[..i] + a[..n] + s[i..]` in the same buffer |
| Vectors.Vector.ShiftTailRight | Vector.cpp:157-158 | the back-to-front loop of the block insert (and, with `n == 1`, of the one-element insert at lines 142-143) moves every live element from `i` on `n` slots right and leaves the slots before `i` alone |
| Vectors.Vector.CopyIn | Vector.cpp:160-161 | the copy loop puts `a[k]` at slot `i + k` and leaves every other slot alone |
| Vectors.Vector.InsertVector | Vector.cpp:166-169 | inserting a vector is the block insert of its live elements, with the same errors and capacity |
| Vectors.Vector.Erase | Vector.cpp:170-180 | `i > size` gives Range; `i == size` pops, which is Size on an empty vector; otherwise the elements become `s[..i] + s[i+1..]`; the buffer never changes and failures change nothing |
| Vectors.Vector.EraseRange | Vector.cpp:181-188 | `i + n > size` gives Range and changes nothing; otherwise the elements become `s[..i] + s[i+n..]`, which is no change for `n == 0`; the buffer never changes |
| Vectors.Vector.Swap | Vector.cpp:189-202 | the two vectors exchange buffer, size and capacity |
| Vectors.Vector.Begin | Vector.cpp:203-206 | `begin` is an iterator over the vector's buffer, anchored and standing at position 0 |
| Vectors.Vector.End | Vector.cpp:207-210 | `end` is an iterator anchored and standing at position `size` |
| Sequences.Min | Vector.cpp:66 | the clamp used by the reallocation is the smaller of its two arguments |
| Sequences.InsertAt | Vector.cpp:141-144 | element-wise meaning of a one-element insert: the prefix stays, `v` sits at `i`, and the rest move one place right |
| Sequences.InsertAllAt | Vector.cpp:157-161 | element-wise meaning of a block insert: the prefix stays, the block sits at `i..i+n`, and the rest move `n` places right |
| Sequences.RemoveAt | Vector.cpp:176-178 | element-wise meaning of a one-element erase: the prefix stays and the rest move one place left |
| Sequences.RemoveRange | Vector.cpp:185-187 | element-wise meaning of a block erase: the prefix stays and the rest move `n` places left |
| Sequences.RemoveAfterInsert | Vector.cpp:132-180 | erasing at `i` right after inserting at `i` gives back the original elements |
| Sequences.InsertAfterRemove | Vector.cpp:132-180 | inserting `s[i]` back at `i` after erasing it gives back the original elements |
| Sequences.RemoveRangeAfterInsertAll | Vector.cpp:147-188 | erasing a block right after inserting it gives back the original elements |
| Sequences.InsertEach | Vector.cpp:132-146 | inserting elements one at a time at consecutive positions adds exactly that many elements |
| Sequences.InsertThenInsertAll | Vector.cpp:147-165 | one insert at `i` followed by a block insert at `i + 1` is one block insert at `i` |
| Sequences.InsertEachIsInsertAll | Vector.cpp:147-165 | inserting elements one at a time at consecutive positions from `i` equals one block insert at `i` |
| Sequences.RemoveEach | Vector.cpp:170-180 | erasing at `i` `n` times removes exactly `n` elements |
| Sequences.RemoveEachIsRemoveRange | Vector.cpp:181-188 | erasing at `i` `n` times equals one block erase of `n` at `i` |
| Sequences.EmptyBlocksChangeNothing | Vector.cpp:184 | an empty block insert and an empty block erase leave the elements as they are |
| Growth.PushCapacity | Vector.cpp:98-103 | after a push there is room for the new element, and a vector that is not full keeps its capacity |
| Growth.BlockInsertCapacity | Vector.cpp:150-151 | after a block insert there is room for the block, and a block that fits keeps the capacity |
| Growth.ResizeCapacity | Vector.cpp:119-131 | after resize there is room for `newSize` elements, and a size within capacity keeps the capacity |
| Growth.CapacityAfterPushes | Vector.cpp:98-103 | after `k` pushes there is room for all `k` new elements |
| Growth.PushesCompose | Vector.cpp:98-103 | `j + k` pushes have the same effect on capacity as `j` pushes followed by `k` |
| Growth.NoReallocationWithinSlack | Vector.cpp:98-103 | pushing at most `capacity - size` elements never reallocates |
| Growth.ReallocationPastSlack | Vector.cpp:98-103 | the first push beyond the free slots reallocates to exactly 16 more slots |
| Growth.TwentyPushesFromEmpty | Vector.cpp:98-103 | twenty pushes onto a new empty vector end with capacity 32 |
| Iterators.VectorIterator.constructor | VectorIterator.cpp:12 | a new iterator is anchored and standing at the given position |
| Iterators.VectorIterator.Copy | VectorIterator.cpp:13 | a copy has the same buffer, anchor and position |
| Iterators.VectorIterator.AddAssign | VectorIterator.cpp:15 | `+= n` moves the position `n` forward, keeps the anchor and returns the iterator itself |
| Iterators.VectorIterator.SubAssign | VectorIterator.cpp:16 | `-= n` moves the position `n` back, keeps the anchor and returns the iterator itself |
| Iterators.VectorIterator.Minus | VectorIterator.cpp:17 | `it - n` is a new iterator `n` behind with the same anchor, and the receiver does not move |
| Iterators.VectorIterator.PreIncrement | VectorIterator.cpp:19 | prefix `++` moves one forward and returns the iterator itself |
| Iterators.VectorIterator.PreDecrement | VectorIterator.cpp:20 | prefix `--` moves one back and returns the iterator itself |
| Iterators.VectorIterator.PostIncrement | VectorIterator.cpp:21 | postfix `++` moves one forward and returns nothing |
| Iterators.VectorIterator.PostDecrement | VectorIterator.cpp:22 | postfix `--` moves one back and returns nothing |
| Iterators.Plus | VectorIterator.cpp:29-32 | `it + n` is a new iterator `n` ahead with the anchor of `it` |
| Iterators.PlusLeft | VectorIterator.cpp:34-37 | `n + it` is a new iterator `n` ahead with the anchor of `it` |
| Iterators.VectorIterator.Difference | VectorIterator.cpp:18 | `this - other` is the signed distance between the positions, zero exactly when the two are `==` (see `DifferenceAntisymmetric`) |
| Iterators.VectorIterator.Equal | VectorIterator.cpp:23 | no ensures; the body compares buffer and position, and `EqualityIgnoresAnchor` and `DifferenceAntisymmetric` state its properties |
| Iterators.VectorIterator.NotEqual | VectorIterator.cpp:24 | `!=` holds exactly when `==` does not |
| Iterators.VectorIterator.Deref | VectorIterator.cpp:25 | `*it` is `it[current - start]`, the element at the current position |
| Iterators.VectorIterator.Index | VectorIterator.cpp:26 | no ensures; the body reads the slot `n` after the anchor, and `IndexIgnoresPosition`, `IndexIsDerefOfSum` and `IndexAfterMove` state its properties |
| Iterators.Less | VectorIterator.cpp:39-42 | no ensures; the body tests `b - a > 0`, and `LessIsConverseOfGreater`, `Trichotomy` and `LessIsStrictOrder` state its properties |
| Iterators.Greater | VectorIterator.cpp:44-47 | no ensures; the body tests `a - b > 0`, and `LessIsConverseOfGreater` and `Trichotomy` state its properties |
| Iterators.LessEq | VectorIterator.cpp:49-52 | no ensures; the body negates `>`, and `NonStrictOrders` states its properties |
| Iterators.GreaterEq | VectorIterator.cpp:54-57 | no ensures; the body negates `<`, and `NonStrictOrders` states its properties |
| Iterators.DifferenceAntisymmetric | VectorIterator.cpp:18 | `a - b == -(b - a)`, and the difference is zero exactly when `a == b` |
| Iterators.EqualityIgnoresAnchor | VectorIterator.cpp:23-24 | `!=` is the negation of `==`, and iterators at the same position are equal whatever their anchors |
| Iterators.IndexIgnoresPosition | VectorIterator.cpp:26 | `it[n]` depends on the anchor only, not on where the iterator has moved |
| Iterators.LessIsConverseOfGreater | VectorIterator.cpp:39-47 | `a < b` holds exactly when `b > a` |
| Iterators.Trichotomy | VectorIterator.cpp:39-47 | exactly one of `a < b`, `a == b` and `a > b` holds |
| Iterators.LessIsStrictOrder | VectorIterator.cpp:39-42 | `<` is irreflexive and transitive |
| Iterators.NonStrictOrders | VectorIterator.cpp:49-57 | `a <= b` and `b <= a` give `a == b`, the same holds for `>=`, and `a <= b` is `b >= a` |
| AsWritten.EraseShiftAsWritten | Vector.cpp:176-177 | the erase shift loop statement by statement, None when a read leaves the buffer; a completed run keeps the buffer's length, and `EraseOverreadsFullBuffer`, `EraseShiftInBounds` and `EraseShiftLiveResult` state when it overreads and what it leaves |
| AsWritten.ResizeAsWritten | Vector.cpp:119-131 | the length, capacity and number of slots copied by resize as written; the length never exceeds the capacity and the copy never exceeds the length, and `ResizeOverreadsIffBeyondCapacity` states when the copy reads past the old buffer |
| AsWritten.DownwardLoopStops | Vector.cpp:157 | no ensures; the body says whether the unsigned counter and guard of the loop fail within `fuel` steps, and `ZeroBoundNeverStops` and `PositiveBoundStops` state its properties |
| AsWritten.BlockShiftStops | Vector.cpp:157 | no ensures; the body instantiates the counter and guard with the block insert's bounds, and `BlockShiftStopsIffNotEmptyAtFront` states its properties |
| AsWritten.EraseOverreadsFullBuffer | Vector.cpp:176-177 | on a full buffer the erase loop as written reads the slot one past the end, for every live index |
| AsWritten.EraseShiftInBounds | Vector.cpp:176-177 | with a spare slot the erase loop as written stays in the buffer and moves every later live element one place left |
| AsWritten.EraseShiftLiveResult | Vector.cpp:176-178 | when the erase loop as written stays in the buffer, its live result is the one-element erase |
| AsWritten.ResizeOverreadsIffBeyondCapacity | Vector.cpp:119-131 | resize as written reads past the old buffer exactly when it grows beyond capacity; its size and capacity match the corrected resize |
| AsWritten.Decrement | Vector.cpp:157 | the loop counter's decrement stays within `size_t` and is ordinary subtraction above zero |
| AsWritten.ZeroBoundNeverStops | Vector.cpp:157 | the guard of an unsigned downward loop with bound 0 never fails |
| AsWritten.PositiveBoundStops | Vector.cpp:157 | an unsigned downward loop with a positive bound stops within `from + 1` iterations |
| AsWritten.BlockShiftStopsIffNotEmptyAtFront | Vector.cpp:152-158 | the guard of the block insert's shift loop never fails for an empty block at index 0 of a non-empty vector, and fails in time in every other case |
| Properties.AppendInsertEraseScenario | Vector.cpp:98-180 | twenty pushes from empty give size 20 and capacity 32; insert(5, 99) puts 99 at 5 and the old 5 at 6; erase(0) leaves size 20 with 1 in front; `end - begin` is the size |
| Properties.InsertThenErase | Vector.cpp:132-180 | inserting and then erasing at the same index restores the elements |
| Properties.SwapTwice | Vector.cpp:189-202 | swapping twice restores both vectors |
| Properties.AssignKeepsShortLength | Vector.cpp:81-87 | assigning a two-element vector to a one-element vector leaves one element |
| Properties.PlusThenDifference | VectorIterator.cpp:15-32 | `(it + n) - it == n` |
| Properties.PlusCommutes | VectorIterator.cpp:29-37 | `it + n` and `n + it` are equal and have the same anchor |
| Properties.IncrementThenDecrement | VectorIterator.cpp:19-20 | prefix `++` then prefix `--` returns the iterator to where it was |
| Properties.AddThenSubtract | VectorIterator.cpp:15-16 | `+= n` then `-= n` returns the iterator to where it was |
| Properties.PostIncrementThenDecrement | VectorIterator.cpp:21-22 | postfix `++` then postfix `--` returns the iterator to where it was |
| Properties.IndexIsDerefOfSum | VectorIterator.cpp:25-32 | on an iterator that has not moved, `it[n]` is `*(it + n)` |
| Properties.IndexAfterMove | VectorIterator.cpp:15-26 | after `+=`, `it[n]` still gives the same element as before |

## Findings

| source | as written | input that shows it | evidently intended | confidence | as-written member | corrected member |
|---|---|---|---|---|---|---|
| Vector.cpp:176-177 | the shift loop of `erase(index)` runs `i` up to `length - 1` and reads `storage[i + 1]` | a full vector (`length == storageLength`) and any `index < length`: slot `storageLength` is read | stop the loop at `length - 1`; the live result is the same | not executed; high | AsWritten.EraseOverreadsFullBuffer | Vectors.Vector.Erase |
| Vector.cpp:129 | `resize` sets `length = newSize` before `resizeStorage`, whose copy loop then reads `newSize` slots of the old buffer | `storageLength == 16`, `resize(20)`: slots 16 to 19 of a 16-slot buffer are read | copy only the old live elements, then set the length | not executed; high | AsWritten.ResizeOverreadsIffBeyondCapacity | Vectors.Vector.Resize |
| Vector.cpp:157 | the shift loop of the block insert uses the guard `i >= index + insertionLength` on an unsigned `i` | `insert(0, p, 0)` on a vector with one element: the guard is `i >= 0` and never fails; `i` wraps to SIZE_MAX and the store then accesses `storage[SIZE_MAX]`, far outside the buffer, which is undefined behaviour | an empty block changes nothing | not executed; high | AsWritten.BlockShiftStopsIffNotEmptyAtFront | Vectors.Vector.InsertBlock |
| Vector.cpp:83 | `operator=` calls `resizeStorage(another.length)`, which keeps `length = min(length, another.length)`, so only that many elements are copied | assigning `[10, 20]` to `[7]` gives `[10]` | afterwards the vector equals `another` | not executed; high | Properties.AssignKeepsShortLength | Vectors.Vector.AssignAll |

`Vectors.Vector.Assign` models the assignment as written, and the Findings row
shows its effect on a concrete input. `Vectors.Vector.Erase`,
`Vectors.Vector.Resize` and `Vectors.Vector.InsertBlock` use the corrected
loops. The as-written loops are kept only in module `AsWritten`.

## Left out

- Vectors.Vector.Resize: after growing beyond capacity, the contract says nothing about the newly live slots. The source fills them by reading past the old buffer, which is undefined behaviour.
- Vectors.Vector.InsertBlock: an empty block is a no-op. On an empty block at index 0 of a non-empty vector the source's guard never fails and the shift then accesses slots far outside the buffer (undefined behaviour), and in every other case an empty block changes nothing there either (see Findings).
- Vectors.Vector.InsertBlock: the source array must not be the vector's own buffer. In the source a self-aliasing block insert goes wrong in two ways. When the block does not fit, `resizeStorage` frees the old buffer before the copy reads from it, which is a use after free. When it fits, the shift or the copy can overwrite source slots before they are read, so the result is defined but wrong: on `[a, b, c]` with room, inserting slots 0 and 1 at index 1 gives `[a, a, a, b, c]`, not `[a, a, b, b, c]`, because the copy writes slot 1 before it reads it; and on `[a, b, c, d]` inserting slots 2 and 3 at index 1 gives `[a, c, b, b, c, d]`, because the shift overwrites slot 3 first. Neither case is modelled.
- Vectors.Vector.InsertVector: requires `another` to have a different buffer from this vector, so `v.insert(i, v)` is not modelled. In the source it is the self-aliasing block insert above. With room, `insert(1, *this)` on `[a, b]` gives `[a, a, a, b]`; without room, the source buffer has been freed before it is read.
- Vectors.Vector.constructor: the default-constructed elements of `Vector(size)` are left unspecified. The model only says how many there are.
- Allocation and release (`new[]`, `delete[]`, the destructor): a fresh Dafny array stands for each new buffer, and there is nothing to free.
- Writes through the references returned by `at`, `front`, `back`, `operator[]` and iterator dereference: the model covers reading only.
- `data()`: it exposes the `storage` field, which the model uses directly.
- `cbegin` and `cend` are `begin` and `end` with read-only element access. Constness is not modelled.
- `rbegin`, `rend`, `crbegin` and `crend`: thin wrappers around `std::reverse_iterator`.
- Iterator validity across reallocation: a dangling iterator is undefined behaviour by design, and nothing tracks it at run time.
- The exception classes: a two-variant `Error` (`Range`, `Size`) in a result value replaces them.
- Machine integer widths: sizes and positions are unbounded `nat` and `int`. The `int`/`size_t` mixing in the loops is left out, and so is a possible `size_t` overflow of `index + eraseLength`. The one exception is the unsigned block-insert loop in module `AsWritten`.
- Iterators.Less, Iterators.Greater, Iterators.LessEq, Iterators.GreaterEq and Iterators.VectorIterator.Difference require both iterators to walk the same buffer. Comparing pointers into different arrays is undefined in C++.
- Iterator dereference (`Iterators.VectorIterator.Deref`) and indexing (`Iterators.VectorIterator.Index`) require a position inside the buffer. Outside it they are undefined behaviour.
- The typedef oddities of the class headers have no counterpart.
