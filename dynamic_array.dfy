/**
 * The growable array DynamicArray<T>: a heap buffer m_data of m_capacity
 * slots (null when nothing was ever allocated), of which the first m_size hold
 * live elements. Each method is proved against the pure function of module
 * ArrayState that gives its effect on the abstract value Abs().
 *
 * Elements are values: copying and moving an element are the same, and
 * destroying one (~T, delete[]) leaves nothing to observe.
 */
module DynamicArrays {
  import opened ArrayState

  class DynamicArray<T(0)> {
    var data: array?<T>
    var size: nat
    var capacity: nat

    /** m_size <= m_capacity, and the buffer has exactly m_capacity slots. */
    ghost predicate Valid()
      reads this
    {
      size <= capacity &&
      (data == null ==> capacity == 0) &&
      (data != null ==> data.Length == capacity)
    }

    /** The live elements data[0..size). */
    ghost function Elements(): seq<T>
      reads this, data
      requires Valid()
    {
      if data == null then [] else data[..size]
    }

    ghost function Abs(): State<T>
      reads this, data
      requires Valid()
    {
      State(Elements(), capacity)
    }

    /** Default constructor: no buffer, size 0, capacity 0. */
    constructor ()
      ensures Valid() && data == null
      ensures Abs() == Empty()
    {
      data := null;
      size := 0;
      capacity := 0;
    }

    /** DynamicArray(c): a buffer of c default slots, size 0, capacity c. */
    constructor WithCapacity(c: nat)
      ensures Valid() && data != null && fresh(data)
      ensures Abs() == State([], c)
    {
      data := new T[c];
      size := 0;
      capacity := c;
    }

    /**
     * Copy constructor: the same elements in a buffer of its own, with
     * capacity max(size, capacity), or no buffer at all when the source has
     * capacity 0.
     */
    constructor Copy(other: DynamicArray<T>)
      requires other.Valid()
      ensures Valid() && other.Valid()
      ensures data == null <==> other.capacity == 0
      ensures data != null ==> fresh(data)
      ensures Abs() == CopyOf(other.Abs())
    {
      if other.capacity == 0 {
        data := null;
        size := 0;
        capacity := 0;
      } else {
        var n := other.size;
        var c := if other.capacity < n then n else other.capacity;
        var src := other.data;
        var block := new T[c];
        var i := 0;
        while i < n
          invariant 0 <= i <= n <= c == block.Length
          invariant block[..i] == src[..i]
        {
          block[i] := src[i];
          i := i + 1;
        }
        data := block;
        size := n;
        capacity := c;
      }
    }

    /**
     * Move constructor: takes over the source's buffer, size and capacity and
     * leaves the source with no buffer, size 0 and capacity 0.
     */
    constructor Move(other: DynamicArray<T>)
      requires other.Valid()
      modifies other
      ensures Valid() && other.Valid()
      ensures data == old(other.data) && Abs() == old(other.Abs())
      ensures other.data == null && other.Abs() == Empty()
    {
      data := other.data;
      size := other.size;
      capacity := other.capacity;
      new;
      other.data := null;
      other.size := 0;
      other.capacity := 0;
    }

    /**
     * Copy assignment: size, capacity and elements of the source, in a fresh
     * buffer of exactly the source's capacity (no clamp, and a buffer is
     * allocated even for capacity 0). Assigning an array to itself does nothing.
     */
    method Assign(other: DynamicArray<T>)
      requires Valid() && other.Valid()
      modifies this
      ensures Valid() && other.Valid()
      ensures Abs() == old(other.Abs())
      ensures other.Abs() == old(other.Abs())
      ensures this == other ==> data == old(data)
      ensures this != other ==> data != null && fresh(data)
    {
      if this == other {
        return;
      }
      var n := other.size;
      var c := other.capacity;
      var src := other.data;
      var block := new T[c];
      var i := 0;
      while i < n
        invariant 0 <= i <= n <= c == block.Length
        invariant src != null ==> block[..i] == src[..i]
      {
        block[i] := src[i];
        i := i + 1;
      }
      data := block;
      size := n;
      capacity := c;
    }

    /**
     * Move assignment: takes over the source's buffer, size and capacity and
     * resets the source to no buffer, 0 and 0. Moving an array onto itself
     * does nothing.
     */
    method MoveAssign(other: DynamicArray<T>)
      requires Valid() && other.Valid()
      modifies this, other
      ensures Valid() && other.Valid()
      ensures data == old(other.data) && Abs() == old(other.Abs())
      ensures this != other ==> other.data == null && other.Abs() == Empty()
    {
      if this == other {
        return;
      }
      data := other.data;
      size := other.size;
      capacity := other.capacity;
      other.data := null;
      other.size := 0;
      other.capacity := 0;
    }

    /**
     * The private ReAlloc(n): a fresh block of n slots, the size clamped to n,
     * the retained elements moved over in order. initial is what the block
     * held when it was allocated; the slots past the size still hold it.
     */
    method ReAlloc(n: nat) returns (ghost initial: seq<T>)
      requires Valid()
      modifies this
      ensures Valid() && data != null && fresh(data)
      ensures Abs() == ArrayState.ReAlloc(old(Abs()), n)
      ensures |initial| == n && data[size..] == initial[size..]
    {
      var block := new T[n];
      initial := block[..];
      var src := data;
      if n < size {
        size := n;
      }
      var k := size;
      var i := 0;
      while i < k
        invariant 0 <= i <= k <= n == block.Length
        invariant data == src && size == k && k <= old(size)
        invariant (src != null && k <= src.Length) || k == 0
        invariant src != null ==> block[..i] == src[..i]
        invariant block[k..] == initial[k..]
      {
        block[i] := src[i];
        i := i + 1;
      }
      data := block;
      capacity := n;
    }

    /** PushBack(const T&): grow to capacity + 1 when full, then append x. */
    method PushBack(x: T)
      requires Valid()
      modifies this, data
      ensures Valid() && data != null && (data == old(data) || fresh(data))
      ensures old(size) < old(capacity) ==> data == old(data)
      ensures old(size) >= old(capacity) ==> fresh(data)
      ensures Abs() == ArrayState.PushBack(old(Abs()), x)
    {
      if size >= capacity {
        var _ := ReAlloc(capacity + 1);
      }
      data[size] := x;
      size := size + 1;
    }

    /** PushBack(T&&): for values, moving the argument in is copying it in. */
    method PushBackMove(x: T)
      requires Valid()
      modifies this, data
      ensures Valid() && data != null && (data == old(data) || fresh(data))
      ensures old(size) < old(capacity) ==> data == old(data)
      ensures old(size) >= old(capacity) ==> fresh(data)
      ensures Abs() == ArrayState.PushBack(old(Abs()), x)
    {
      PushBack(x);
    }

    /**
     * EmplaceBack(args...): x is the value T(args...) builds in the slot at
     * index size; the result is the index of that slot (the returned reference).
     */
    method EmplaceBack(x: T) returns (slot: nat)
      requires Valid()
      modifies this, data
      ensures Valid() && data != null && (data == old(data) || fresh(data))
      ensures old(size) < old(capacity) ==> data == old(data)
      ensures old(size) >= old(capacity) ==> fresh(data)
      ensures Abs() == ArrayState.PushBack(old(Abs()), x)
      ensures slot == old(size) && slot < size && data[slot] == x
    {
      if size >= capacity {
        var _ := ReAlloc(capacity + 1);
      }
      data[size] := x;
      slot := size;
      size := size + 1;
    }

    /** PopBack: the caller guarantees a live element; the buffer stays. */
    method PopBack()
      requires Valid() && size > 0
      modifies this
      ensures Valid() && data == old(data)
      ensures Abs() == ArrayState.PopBack(old(Abs()))
    {
      size := size - 1;
    }

    /** Clear: size 0, buffer and capacity kept. */
    method Clear()
      requires Valid()
      modifies this
      ensures Valid() && data == old(data)
      ensures Abs() == ArrayState.Clear(old(Abs()))
    {
      size := 0;
    }

    /**
     * Reserve(n): when n exceeds the capacity, reallocate to n slots and set
     * the size to n; initial is what the fresh block held, and the slots
     * from the old size on keep it. Otherwise nothing changes.
     */
    method Reserve(n: nat) returns (ghost initial: seq<T>)
      requires Valid()
      modifies this
      ensures Valid() && (data == old(data) || fresh(data))
      ensures n > old(capacity) ==> |initial| == n
      ensures n <= old(capacity) ==> data == old(data)
      ensures Abs() == ArrayState.Reserve(old(Abs()), n, initial)
    {
      initial := [];
      if n > capacity {
        initial := ReAlloc(n);
        size := n;
      }
    }

    /**
     * RemoveAt(index): shift every element after index one slot to the front,
     * then drop the last slot from the live range. The buffer stays.
     */
    method RemoveAt(index: nat)
      requires Valid() && index < size
      modifies this, data
      ensures Valid() && data == old(data)
      ensures Abs() == ArrayState.RemoveAt(old(Abs()), index)
    {
      var a := data;
      var n := size;
      var i := index;
      while i < n - 1
        invariant index <= i <= n - 1 < a.Length
        invariant data == a && size == n && capacity == old(capacity)
        invariant a[..index] == old(a[..index])
        invariant forall k :: index <= k < i ==> a[k] == old(a[k + 1])
        invariant a[i..] == old(a[i..])
      {
        a[i] := a[i + 1];
        i := i + 1;
      }
      size := n - 1;
    }

    /** ShrinkToFit: reallocate to exactly the size; the contents stay the same. */
    method ShrinkToFit()
      requires Valid()
      modifies this
      ensures Valid() && data != null && fresh(data)
      ensures Abs() == ArrayState.ShrinkToFit(old(Abs()))
    {
      var _ := ReAlloc(size);
    }

    /** operator[] const: the element at index, which the caller keeps below the size. */
    method Get(index: nat) returns (x: T)
      requires Valid() && index < size
      ensures x == Elements()[index]
    {
      x := data[index];
    }

    /** operator[], written through: only slot index changes. */
    method Set(index: nat, x: T)
      requires Valid() && index < size
      modifies data
      ensures Valid() && data == old(data)
      ensures Abs() == State(old(Elements())[index := x], old(capacity))
    {
      data[index] := x;
    }

    /** Size(): the number of live elements. */
    function Size(): (n: nat)
      reads this, data
      ensures Valid() ==> n == |Elements()|
    {
      size
    }

    /** Capacity(): the number of slots in the buffer. */
    function Capacity(): (n: nat)
      reads this
      ensures Valid() ==> n == (if data == null then 0 else data.Length)
    {
      capacity
    }
  }
}
