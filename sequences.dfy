/**
 * The abstract meaning of the vector's element-shifting operations, on the
 * sequence of live elements.
 */
module Sequences {

  function Min(a: nat, b: nat): (m: nat)
    ensures m <= a && m <= b && (m == a || m == b)
  {
    if a <= b then a else b
  }

  /** `s` with `v` placed at position `i`; the elements from `i` on move one place right. */
  function InsertAt<T>(s: seq<T>, i: nat, v: T): (r: seq<T>)
    requires i <= |s|
    ensures |r| == |s| + 1
    ensures forall k :: 0 <= k < i ==> r[k] == s[k]
    ensures r[i] == v
    ensures forall k :: i < k < |r| ==> r[k] == s[k - 1]
  {
    s[..i] + [v] + s[i..]
  }

  /** `s` with the block `a` placed at position `i`; the elements from `i` on move `|a|` places right. */
  function InsertAllAt<T>(s: seq<T>, i: nat, a: seq<T>): (r: seq<T>)
    requires i <= |s|
    ensures |r| == |s| + |a|
    ensures forall k :: 0 <= k < i ==> r[k] == s[k]
    ensures forall k :: 0 <= k < |a| ==> r[i + k] == a[k]
    ensures forall k :: i + |a| <= k < |r| ==> r[k] == s[k - |a|]
  {
    s[..i] + a + s[i..]
  }

  /** `s` without its element at position `i`; the elements after it move one place left. */
  function RemoveAt<T>(s: seq<T>, i: nat): (r: seq<T>)
    requires i < |s|
    ensures |r| == |s| - 1
    ensures forall k :: 0 <= k < i ==> r[k] == s[k]
    ensures forall k :: i <= k < |r| ==> r[k] == s[k + 1]
  {
    s[..i] + s[i + 1..]
  }

  /** `s` without the `n` elements from position `i`; the elements after them move `n` places left. */
  function RemoveRange<T>(s: seq<T>, i: nat, n: nat): (r: seq<T>)
    requires i + n <= |s|
    ensures |r| == |s| - n
    ensures forall k :: 0 <= k < i ==> r[k] == s[k]
    ensures forall k :: i <= k < |r| ==> r[k] == s[k + n]
  {
    s[..i] + s[i + n..]
  }

  /** Inserting the elements of `a` one at a time, at `i`, `i + 1`, `i + 2`, ... */
  function InsertEach<T>(s: seq<T>, i: nat, a: seq<T>): (r: seq<T>)
    requires i <= |s|
    ensures |r| == |s| + |a|
    decreases |a|
  {
    if a == [] then s else InsertEach(InsertAt(s, i, a[0]), i + 1, a[1..])
  }

  /** Removing the element at `i`, `n` times over. */
  function RemoveEach<T>(s: seq<T>, i: nat, n: nat): (r: seq<T>)
    requires i + n <= |s|
    ensures |r| == |s| - n
  {
    if n == 0 then s else RemoveEach(RemoveAt(s, i), i, n - 1)
  }

  /** Removing what was just inserted gives back the original sequence. */
  lemma RemoveAfterInsert<T>(s: seq<T>, i: nat, v: T)
    requires i <= |s|
    ensures RemoveAt(InsertAt(s, i, v), i) == s
  {
  }

  /** Putting back the removed element at its old position gives back the original sequence. */
  lemma InsertAfterRemove<T>(s: seq<T>, i: nat)
    requires i < |s|
    ensures InsertAt(RemoveAt(s, i), i, s[i]) == s
  {
  }

  /** Removing a block that was just inserted gives back the original sequence. */
  lemma RemoveRangeAfterInsertAll<T>(s: seq<T>, i: nat, a: seq<T>)
    requires i <= |s|
    ensures RemoveRange(InsertAllAt(s, i, a), i, |a|) == s
  {
  }

  /** Inserting elements one by one at consecutive positions equals one block insert. */
  lemma {:induction false} InsertEachIsInsertAll<T>(s: seq<T>, i: nat, a: seq<T>)
    requires i <= |s|
    ensures InsertEach(s, i, a) == InsertAllAt(s, i, a)
    decreases |a|
  {
    if a != [] {
      var x, rest := a[0], a[1..];
      assert a == [x] + rest;
      calc {
        InsertEach(s, i, a);
        InsertEach(InsertAt(s, i, x), i + 1, rest);
        { InsertEachIsInsertAll(InsertAt(s, i, x), i + 1, rest); }
        InsertAllAt(InsertAt(s, i, x), i + 1, rest);
        { InsertThenInsertAll(s, i, x, rest); }
        InsertAllAt(s, i, a);
      }
    }
  }

  /** One insert at `i` followed by a block insert right after it is one block insert at `i`. */
  lemma InsertThenInsertAll<T>(s: seq<T>, i: nat, x: T, rest: seq<T>)
    requires i <= |s|
    ensures InsertAllAt(InsertAt(s, i, x), i + 1, rest) == InsertAllAt(s, i, [x] + rest)
  {
    var t := InsertAt(s, i, x);
    assert t[..i + 1] == s[..i] + [x];
    assert t[i + 1..] == s[i..];
  }

  /** Removing one element `n` times at the same position equals removing a block of `n`. */
  lemma {:induction false} RemoveEachIsRemoveRange<T>(s: seq<T>, i: nat, n: nat)
    requires i + n <= |s|
    ensures RemoveEach(s, i, n) == RemoveRange(s, i, n)
  {
    if n > 0 {
      var t := RemoveAt(s, i);
      RemoveEachIsRemoveRange(t, i, n - 1);
      assert t[..i] == s[..i];
      assert t[i + n - 1..] == s[i + n..];
    }
  }

  /** A block insert of nothing, and a block removal of nothing, change nothing. */
  lemma EmptyBlocksChangeNothing<T>(s: seq<T>, i: nat)
    requires i <= |s|
    ensures InsertAllAt(s, i, []) == s && RemoveRange(s, i, 0) == s
  {
  }
}
