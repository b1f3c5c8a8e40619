/**
 * The vector's random-access iterator: two positions into one element block,
 * the anchor `start` it was built at and the position `current` it has
 * moved to. A position is an offset into `buffer`; positions are not
 * bounds-checked, only reading an element requires one inside the block.
 */
module Iterators {

  class VectorIterator<T> {
    /** The element block both positions point into. */
    const buffer: array<T>
    /** The position the iterator was built at; indexing counts from here. */
    var start: int
    /** The position the iterator refers to. */
    var current: int

    /** An iterator anchored and standing at `position`. */
    constructor (buffer: array<T>, position: int)
      ensures this.buffer == buffer && start == position && current == position
    {
      this.buffer := buffer;
      start := position;
      current := position;
    }

    /** The copy constructor: same block, same anchor, same position. */
    constructor Copy(other: VectorIterator<T>)
      ensures buffer == other.buffer && start == other.start && current == other.current
    {
      buffer := other.buffer;
      start := other.start;
      current := other.current;
    }

    /** `+= n`: moves the position `n` elements forward and returns the iterator itself. */
    method AddAssign(n: int) returns (self: VectorIterator<T>)
      modifies this
      ensures self == this
      ensures current == old(current) + n && start == old(start)
    {
      current := current + n;
      self := this;
    }

    /** `-= n`: moves the position `n` elements back and returns the iterator itself. */
    method SubAssign(n: int) returns (self: VectorIterator<T>)
      modifies this
      ensures self == this
      ensures current == old(current) - n && start == old(start)
    {
      current := current - n;
      self := this;
    }

    /** `- n`: a copy moved `n` elements back; the receiver does not move. */
    method Minus(n: int) returns (r: VectorIterator<T>)
      ensures fresh(r)
      ensures r.buffer == buffer && r.start == start && r.current == current - n
    {
      r := new VectorIterator.Copy(this);
      r := r.SubAssign(n);
    }

    /** Prefix `++`: one element forward, returning the iterator itself. */
    method PreIncrement() returns (self: VectorIterator<T>)
      modifies this
      ensures self == this
      ensures current == old(current) + 1 && start == old(start)
    {
      current := current + 1;
      self := this;
    }

    /** Prefix `--`: one element back, returning the iterator itself. */
    method PreDecrement() returns (self: VectorIterator<T>)
      modifies this
      ensures self == this
      ensures current == old(current) - 1 && start == old(start)
    {
      current := current - 1;
      self := this;
    }

    /** Postfix `++`: one element forward, returning nothing. */
    method PostIncrement()
      modifies this
      ensures current == old(current) + 1 && start == old(start)
    {
      current := current + 1;
    }

    /** Postfix `--`: one element back, returning nothing. */
    method PostDecrement()
      modifies this
      ensures current == old(current) - 1 && start == old(start)
    {
      current := current - 1;
    }

    /** `this - other`: the signed number of elements from `other` to `this`. */
    function Difference(other: VectorIterator<T>): (r: int)
      reads this, other
      requires buffer == other.buffer
      ensures r == 0 <==> Equal(other)
    {
      current - other.current
    }

    /** `==`: both iterators stand at the same position; the anchors play no part. */
    predicate Equal(other: VectorIterator<T>)
      reads this, other
    {
      buffer == other.buffer && current == other.current
    }

    /** `!=`: the negation of `==`, compared directly on the positions. */
    predicate NotEqual(other: VectorIterator<T>)
      reads this, other
      ensures NotEqual(other) <==> !Equal(other)
    {
      buffer != other.buffer || current != other.current
    }

    /** `*it`: the element at the current position. */
    function Deref(): (r: T)
      reads this, buffer
      requires 0 <= current < buffer.Length
      ensures r == Index(current - start)
    {
      buffer[current]
    }

    /** `it[n]`: the element `n` places after the anchor, wherever the iterator has moved. */
    function Index(n: int): T
      reads this, buffer
      requires 0 <= start + n < buffer.Length
    {
      buffer[start + n]
    }
  }

  /** `it + n`: a copy of `it` moved `n` elements forward, with the anchor of `it`. */
  method Plus<T>(it: VectorIterator<T>, n: int) returns (r: VectorIterator<T>)
    ensures fresh(r)
    ensures r.buffer == it.buffer && r.start == it.start && r.current == it.current + n
  {
    var byValue := new VectorIterator.Copy(it);
    var moved := byValue.AddAssign(n);
    r := new VectorIterator.Copy(moved);
  }

  /** `n + it`: the same as `it + n`. */
  method PlusLeft<T>(n: int, it: VectorIterator<T>) returns (r: VectorIterator<T>)
    ensures fresh(r)
    ensures r.buffer == it.buffer && r.start == it.start && r.current == it.current + n
  {
    var byValue := new VectorIterator.Copy(it);
    var moved := byValue.AddAssign(n);
    r := new VectorIterator.Copy(moved);
  }

  /** `a < b`: `b - a` is positive. */
  predicate Less<T>(a: VectorIterator<T>, b: VectorIterator<T>)
    reads a, b
    requires a.buffer == b.buffer
  {
    b.Difference(a) > 0
  }

  /** `a > b`: `a - b` is positive. */
  predicate Greater<T>(a: VectorIterator<T>, b: VectorIterator<T>)
    reads a, b
    requires a.buffer == b.buffer
  {
    a.Difference(b) > 0
  }

  /** `a <= b`: not `a > b`. */
  predicate LessEq<T>(a: VectorIterator<T>, b: VectorIterator<T>)
    reads a, b
    requires a.buffer == b.buffer
  {
    !Greater(a, b)
  }

  /** `a >= b`: not `a < b`. */
  predicate GreaterEq<T>(a: VectorIterator<T>, b: VectorIterator<T>)
    reads a, b
    requires a.buffer == b.buffer
  {
    !Less(a, b)
  }

  /** Iterator difference is antisymmetric. */
  lemma DifferenceAntisymmetric<T>(a: VectorIterator<T>, b: VectorIterator<T>)
    requires a.buffer == b.buffer
    ensures a.Difference(b) == -b.Difference(a)
    ensures a.Difference(b) == 0 <==> a.Equal(b)
  {
  }

  /** `!=` is exactly the negation of `==`, and neither looks at the anchors. */
  lemma EqualityIgnoresAnchor<T>(a: VectorIterator<T>, b: VectorIterator<T>)
    ensures a.NotEqual(b) <==> !a.Equal(b)
    ensures a.buffer == b.buffer && a.current == b.current ==> a.Equal(b)
  {
  }

  /** Two iterators anchored alike index alike, whatever their current positions. */
  lemma IndexIgnoresPosition<T>(a: VectorIterator<T>, b: VectorIterator<T>, n: int)
    requires a.buffer == b.buffer && a.start == b.start
    requires 0 <= a.start + n < a.buffer.Length
    ensures a.Index(n) == b.Index(n)
  {
  }

  /** `a < b` holds exactly when `b > a`. */
  lemma LessIsConverseOfGreater<T>(a: VectorIterator<T>, b: VectorIterator<T>)
    requires a.buffer == b.buffer
    ensures Less(a, b) <==> Greater(b, a)
  {
  }

  /** Exactly one of `a < b`, `a == b`, `a > b` holds. */
  lemma Trichotomy<T>(a: VectorIterator<T>, b: VectorIterator<T>)
    requires a.buffer == b.buffer
    ensures Less(a, b) || a.Equal(b) || Greater(a, b)
    ensures !(Less(a, b) && a.Equal(b)) && !(Less(a, b) && Greater(a, b)) && !(a.Equal(b) && Greater(a, b))
  {
  }

  /** `<` is irreflexive and transitive: a strict order on positions. */
  lemma LessIsStrictOrder<T>(a: VectorIterator<T>, b: VectorIterator<T>, c: VectorIterator<T>)
    requires a.buffer == b.buffer == c.buffer
    ensures !Less(a, a)
    ensures Less(a, b) && Less(b, c) ==> Less(a, c)
  {
  }

  /** `<=` and `>=` are antisymmetric up to `==`, and `a <= b` is `b >= a`. */
  lemma NonStrictOrders<T>(a: VectorIterator<T>, b: VectorIterator<T>)
    requires a.buffer == b.buffer
    ensures LessEq(a, b) && LessEq(b, a) ==> a.Equal(b)
    ensures GreaterEq(a, b) && GreaterEq(b, a) ==> a.Equal(b)
    ensures LessEq(a, b) <==> GreaterEq(b, a)
  {
  }
}
