/**
 * The abstract value of a DynamicArray<T>: the live elements m_data[0..m_size)
 * and the capacity m_capacity, together with one pure function per operation
 * that says how that value changes. The class in module DynamicArrays is
 * proved against these functions; the lemmas here relate several operations.
 */
module ArrayState {

  /** elems is the live prefix of the buffer, capacity the number of allocated slots. */
  datatype State<T> = State(elems: seq<T>, capacity: nat)

  /** The representation invariant m_size <= m_capacity. */
  predicate Inv<T>(s: State<T>)
  {
    |s.elems| <= s.capacity
  }

  function Min(a: nat, b: nat): (m: nat)
  {
    if a < b then a else b
  }

  function Max(a: nat, b: nat): (m: nat)
  {
    if a < b then b else a
  }

  /** The state of a default-constructed array, and of a moved-from one. */
  function Empty<T>(): (r: State<T>)
    ensures Inv(r) && r.elems == [] && r.capacity == 0
  {
    State([], 0)
  }

  /**
   * ReAlloc(n): a fresh block of exactly n slots; the size is clamped to n and
   * the retained live elements are moved over in index order.
   */
  function ReAlloc<T>(s: State<T>, n: nat): (r: State<T>)
    ensures Inv(r)
    ensures r.capacity == n
    ensures |r.elems| == Min(|s.elems|, n)
    ensures r.elems == s.elems[..|r.elems|]
    ensures n >= |s.elems| ==> r.elems == s.elems
  {
    State(s.elems[..Min(|s.elems|, n)], n)
  }

  /**
   * PushBack / EmplaceBack: grow by exactly one slot when full, then place x at
   * index size.
   */
  function PushBack<T>(s: State<T>, x: T): (r: State<T>)
    requires Inv(s)
    ensures Inv(r)
    ensures r.elems == s.elems + [x]
    ensures r.capacity == if |s.elems| < s.capacity then s.capacity else s.capacity + 1
  {
    var room := if |s.elems| >= s.capacity then ReAlloc(s, s.capacity + 1) else s;
    State(room.elems + [x], room.capacity)
  }

  /** PopBack: drops exactly the last live element; the capacity stays. */
  function PopBack<T>(s: State<T>): (r: State<T>)
    requires Inv(s) && |s.elems| > 0
    ensures Inv(r)
    ensures r.elems + [s.elems[|s.elems| - 1]] == s.elems
    ensures r.capacity == s.capacity
  {
    State(s.elems[..|s.elems| - 1], s.capacity)
  }

  /** Clear: no live elements are left; the buffer and its capacity stay. */
  function Clear<T>(s: State<T>): (r: State<T>)
    ensures Inv(r) && r.elems == [] && r.capacity == s.capacity
  {
    State([], s.capacity)
  }

  /**
   * RemoveAt(i): the element at i is gone and every later element moved one
   * slot to the front, so the others keep their relative order.
   */
  function RemoveAt<T>(s: State<T>, i: nat): (r: State<T>)
    requires Inv(s) && i < |s.elems|
    ensures Inv(r)
    ensures |r.elems| == |s.elems| - 1
    ensures forall k :: 0 <= k < i ==> r.elems[k] == s.elems[k]
    ensures forall k :: i <= k < |r.elems| ==> r.elems[k] == s.elems[k + 1]
    ensures r.capacity == s.capacity
  {
    State(s.elems[..i] + s.elems[i + 1..], s.capacity)
  }

  /**
   * Reserve(n): when n exceeds the capacity, reallocate to n slots AND make all
   * n slots live; block is the content of the fresh allocation `new T[n]`,
   * whose slots from the old size on become visible. Otherwise nothing changes.
   */
  function Reserve<T>(s: State<T>, n: nat, block: seq<T>): (r: State<T>)
    requires Inv(s)
    requires n > s.capacity ==> |block| == n
    ensures Inv(r)
    ensures n <= s.capacity ==> r == s
    ensures n > s.capacity ==>
              r.capacity == n && |r.elems| == n &&
              r.elems[..|s.elems|] == s.elems &&
              r.elems[|s.elems|..] == block[|s.elems|..]
  {
    if n > s.capacity then
      var moved := ReAlloc(s, n);
      State(moved.elems + block[|moved.elems|..], n)
    else
      s
  }

  /** ShrinkToFit: reallocate to exactly the size; the contents do not change. */
  function ShrinkToFit<T>(s: State<T>): (r: State<T>)
    requires Inv(s)
    ensures Inv(r)
    ensures r.elems == s.elems
    ensures r.capacity == |s.elems|
  {
    ReAlloc(s, |s.elems|)
  }

  /**
   * The copy constructor: an empty 0/0 array when the source capacity is 0,
   * otherwise the source's elements in a buffer of max(size, capacity) slots.
   * Under the invariant the clamp never fires and the copy equals its source.
   */
  function CopyOf<T>(s: State<T>): (r: State<T>)
    ensures Inv(r)
    ensures r.elems == (if s.capacity == 0 then [] else s.elems)
    ensures Inv(s) ==> r == s
  {
    if s.capacity == 0 then State([], 0) else State(s.elems, Max(|s.elems|, s.capacity))
  }

  /** Appending xs one PushBack at a time, in order. */
  function PushAll<T>(s: State<T>, xs: seq<T>): (r: State<T>)
    requires Inv(s)
    ensures Inv(r)
    decreases |xs|
  {
    if xs == [] then s else PushBack(PushAll(s, xs[..|xs| - 1]), xs[|xs| - 1])
  }

  /**
   * After pushing xs the live elements are the old ones followed by xs, and the
   * capacity is just large enough: growth is one slot at a time.
   */
  lemma {:induction false} PushAllEffect<T>(s: State<T>, xs: seq<T>)
    requires Inv(s)
    ensures PushAll(s, xs).elems == s.elems + xs
    ensures PushAll(s, xs).capacity == Max(s.capacity, |s.elems| + |xs|)
    decreases |xs|
  {
    if xs != [] {
      var init := xs[..|xs| - 1];
      PushAllEffect(s, init);
      assert init + [xs[|xs| - 1]] == xs;
      assert s.elems + init + [xs[|xs| - 1]] == s.elems + xs;
    }
  }

  /** N pushes onto an empty array: Size() == Capacity() == N, and the elements are the values pushed, in order. */
  lemma PushAllFromEmpty<T>(xs: seq<T>)
    ensures PushAll(Empty<T>(), xs) == State(xs, |xs|)
  {
    PushAllEffect(Empty<T>(), xs);
  }

  /** Pushing into a cleared array reuses its buffer while the values fit. */
  lemma ClearThenPushKeepsCapacity<T>(s: State<T>, xs: seq<T>)
    requires Inv(s) && |xs| <= s.capacity
    ensures PushAll(Clear(s), xs) == State(xs, s.capacity)
  {
    PushAllEffect(Clear(s), xs);
  }

  /** PopBack undoes PushBack on the contents (the capacity may have grown). */
  lemma PopBackUndoesPushBack<T>(s: State<T>, x: T)
    requires Inv(s)
    ensures PopBack(PushBack(s, x)).elems == s.elems
    ensures PopBack(PushBack(s, x)).capacity >= s.capacity
  {
  }

  /** Removing the last element is the same as PopBack. */
  lemma RemoveLastIsPopBack<T>(s: State<T>)
    requires Inv(s) && |s.elems| > 0
    ensures RemoveAt(s, |s.elems| - 1) == PopBack(s)
  {
  }

  /** The example of the tests: [1, 2, 3] with RemoveAt(1) gives [1, 3]. */
  lemma RemoveAtMiddle()
    ensures RemoveAt(State([1, 2, 3], 3), 1) == State([1, 3], 3)
  {
  }

  /** Reserving the same amount twice: the second call finds the capacity already there. */
  lemma ReserveIdempotent<T>(s: State<T>, n: nat, block: seq<T>, block2: seq<T>)
    requires Inv(s)
    requires n > s.capacity ==> |block| == n
    ensures Reserve(Reserve(s, n, block), n, block2) == Reserve(s, n, block)
  {
  }

  /**
   * Reserve(n) on an empty array: capacity n and also size n, which is what
   * the code does although a reserve would usually keep the size.
   */
  lemma ReserveOnEmpty<T>(n: nat, block: seq<T>)
    requires |block| == n
    ensures Reserve(Empty(), n, block) == State(block, n)
  {
  }

  /** ShrinkToFit is idempotent. */
  lemma ShrinkToFitIdempotent<T>(s: State<T>)
    requires Inv(s)
    ensures ShrinkToFit(ShrinkToFit(s)) == ShrinkToFit(s)
  {
  }

  /** Shrinking after a run of pushes leaves a capacity of exactly the size. */
  lemma {:induction false} ShrinkAfterPushes<T>(s: State<T>, xs: seq<T>)
    requires Inv(s)
    ensures ShrinkToFit(PushAll(s, xs)) == State(s.elems + xs, |s.elems| + |xs|)
  {
    PushAllEffect(s, xs);
  }
}
