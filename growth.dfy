/**
 * The vector's capacity policy for the operations that grow it: push and
 * the one-element insert grow a full buffer by `AdditionalCapacity` slots;
 * block insert and resize reallocate to the size they need plus
 * `AdditionalCapacity`. Assignment and shrink_to_fit size the buffer exactly
 * and are not part of this policy.
 */
module Growth {

  /** The fixed margin added when push, insert, block insert or resize reallocates. */
  const AdditionalCapacity: nat := 16

  /** Capacity after push_back (or a single insert) on `len` live elements in `cap` slots. */
  function PushCapacity(len: nat, cap: nat): (c: nat)
    requires len <= cap
    ensures len + 1 <= c
    ensures len < cap ==> c == cap
  {
    if len == cap then cap + AdditionalCapacity else cap
  }

  /** Capacity after a block insert of `n` elements on `len` live elements in `cap` slots. */
  function BlockInsertCapacity(len: nat, cap: nat, n: nat): (c: nat)
    requires len <= cap
    ensures len + n <= c
    ensures len + n <= cap ==> c == cap
  {
    if len + n > cap then len + n + AdditionalCapacity else cap
  }

  /** Capacity after resize(newSize) on a vector with `cap` slots. */
  function ResizeCapacity(cap: nat, newSize: nat): (c: nat)
    ensures newSize <= c
    ensures newSize <= cap ==> c == cap
  {
    if newSize <= cap then cap else newSize + AdditionalCapacity
  }

  /** Capacity after `k` consecutive push_back calls, starting from `len` elements in `cap` slots. */
  function CapacityAfterPushes(len: nat, cap: nat, k: nat): (c: nat)
    requires len <= cap
    ensures len + k <= c
    decreases k
  {
    if k == 0 then cap else CapacityAfterPushes(len + 1, PushCapacity(len, cap), k - 1)
  }

  /** Pushes are counted off one at a time: `j + k` pushes are `j` pushes followed by `k`. */
  lemma {:induction false} PushesCompose(len: nat, cap: nat, j: nat, k: nat)
    requires len <= cap
    ensures CapacityAfterPushes(len, cap, j + k)
         == CapacityAfterPushes(len + j, CapacityAfterPushes(len, cap, j), k)
    decreases j
  {
    if j > 0 {
      PushesCompose(len + 1, PushCapacity(len, cap), j - 1, k);
    }
  }

  /** Pushing at most `cap - len` elements never reallocates. */
  lemma {:induction false} NoReallocationWithinSlack(len: nat, cap: nat, k: nat)
    requires len + k <= cap
    ensures CapacityAfterPushes(len, cap, k) == cap
    decreases k
  {
    if k > 0 {
      NoReallocationWithinSlack(len + 1, cap, k - 1);
    }
  }

  /** The first push beyond the free slots reallocates, to exactly the margin more. */
  lemma ReallocationPastSlack(len: nat, cap: nat)
    requires len <= cap
    ensures CapacityAfterPushes(len, cap, cap - len + 1) == cap + AdditionalCapacity
  {
    PushesCompose(len, cap, cap - len, 1);
    NoReallocationWithinSlack(len, cap, cap - len);
  }

  /** A new empty vector has 16 slots; twenty pushes reallocate once, to 32 slots. */
  lemma TwentyPushesFromEmpty()
    ensures CapacityAfterPushes(0, AdditionalCapacity, 20) == 2 * AdditionalCapacity
  {
    PushesCompose(0, AdditionalCapacity, 17, 3);
    ReallocationPastSlack(0, AdditionalCapacity);
    NoReallocationWithinSlack(17, 2 * AdditionalCapacity, 3);
  }
}
