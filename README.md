# DynamicArray in Dafny

A model of the header-only C++ container `DynamicArray<T>`: a growable array
that owns a heap buffer `m_data` of `m_capacity` slots and keeps its live
elements in the first `m_size` of them. The model covers every member of the
class except the destructor (see "Left out"): the default, with-capacity, copy and move constructors, copy and move
assignment, `PushBack` (by copy and by move), `EmplaceBack`, `PopBack`,
`Clear`, `Reserve`, `RemoveAt`, `ShrinkToFit`, both `operator[]`, `Size`,
`Capacity` and the private `ReAlloc`.

Three modules:

- `ArrayState` (array_state.dfy): the abstract value of an array, the datatype
  `State(elems, capacity)` with the invariant `|elems| <= capacity`. It has one
  pure function per operation saying how the value changes. Lemmas relate
  several operations: a run of pushes, push then pop, reserving twice,
  shrinking after pushes.
- `DynamicArrays` (dynamic_array.dfy): the class `DynamicArray<T(0)>`. Its
  fields are `data: array?<T>` (null where the C++ pointer is `nullptr`),
  `size` and `capacity`. `Valid()` is the representation invariant: size at
  most capacity, the buffer exactly `capacity` slots long, and no buffer means
  capacity 0. `Abs()` is the abstract value. The postconditions of
  `ReAlloc`, `PushBack`, `PushBackMove`, `EmplaceBack`, `PopBack`, `Clear`,
  `Reserve`, `RemoveAt` and `ShrinkToFit` state `Abs()` after the call as the
  matching `ArrayState` function of `Abs()` before it. The constructors state
  `Abs()` directly: `Empty()`, `State([], c)` and `CopyOf(other.Abs())`; the
  move constructor states it as the source's old `Abs()`.
  Copy and move assignment state it as the source's old `Abs()`. `Set` states
  it as the old elements with one index updated. Every method also says
  whether the buffer is the old one or a fresh one. The loops of the source are loops here: the copy loops, the move loop
  of `ReAlloc` and the left shift of `RemoveAt`, each with its invariants.
- `Scenarios` (scenarios.dfy): client programs built from the unit tests in
  `Test/test.cpp`. Each states in its postcondition what its test observes.

What the code does, where its doc comments say otherwise:

- Growth adds exactly one slot (`ReAlloc(m_capacity + 1)`). The comments on
  both `PushBack` overloads say the capacity doubles. The model follows the
  code, so after N pushes onto an empty array the capacity is N.
- `Reserve(n)` with `n` above the capacity also sets the size to `n`. The slots
  from the old size up to `n` become live. They hold whatever the fresh
  allocation `new T[n]` put there.
- The copy constructor keeps the source's capacity, clamped up to its size. It
  gives a 0/0 array with no buffer when the source capacity is 0. It does not
  size the copy to exactly the source's length. Under the invariant the clamp
  never fires (`ArrayState.CopyOf`).
- Copy assignment has no clamp and always allocates. Even for capacity 0 it
  allocates an empty, non-null buffer.

## Model

| member | source | states |
|---|---|---|
| `ArrayState.ReAlloc` | DynamicArray/Sources/DynamicArray.h:330-350 | capacity becomes n; size becomes min(size, n); the live elements are the retained prefix of the old ones, all of them when n >= size |
| `ArrayState.PushBack` | DynamicArray/Sources/DynamicArray.h:151-159 | elements become old + [x]; capacity is unchanged when size < capacity, else exactly capacity + 1; invariant kept |
| `ArrayState.PopBack` | DynamicArray/Sources/DynamicArray.h:183-186 | for a non-empty array, removes exactly the last element (result + [last] == old); capacity unchanged |
| `ArrayState.RemoveAt` | DynamicArray/Sources/DynamicArray.h:245-260 | for index < size, removes one element; elements before index stay, later ones shift down by one, so relative order is kept; capacity unchanged |
| `ArrayState.Reserve` | DynamicArray/Sources/DynamicArray.h:207-214 | n <= capacity: no change; otherwise capacity n and size n, old elements in their positions, slots from the old size on taken from the fresh block |
| `ArrayState.ShrinkToFit` | DynamicArray/Sources/DynamicArray.h:267-270 | contents unchanged and capacity == size |
| `ArrayState.CopyOf` | DynamicArray/Sources/DynamicArray.h:30-60 | capacity 0 gives the empty 0/0 state; otherwise the same elements with capacity max(size, capacity); under the invariant the copy equals its source |
| `ArrayState.Empty` | DynamicArray/Sources/DynamicArray.h:14-17 | the default-constructed state, also the state a move leaves behind (lines 78-80): no elements, capacity 0, invariant holds |
| `ArrayState.Clear` | DynamicArray/Sources/DynamicArray.h:193-200 | no live elements remain; the capacity is unchanged; invariant holds |
| `ArrayState.PushAll` | Test/test.cpp:27-35 | a run of PushBack calls in order keeps the invariant |
| `ArrayState.PushAllEffect` | DynamicArray/Sources/DynamicArray.h:151-159 | after pushing xs the elements are old + xs and the capacity is max(capacity, size + \|xs\|): growth one slot at a time |
| `ArrayState.PushAllFromEmpty` | Test/test.cpp:80-88 | N pushes onto an empty array give exactly State(xs, N): Size() == Capacity() == N, and element i is the i-th value pushed |
| `ArrayState.ClearThenPushKeepsCapacity` | DynamicArray/Sources/DynamicArray.h:193-200 | after Clear, pushing up to capacity values needs no growth: the capacity does not change and the elements are exactly the values pushed |
| `ArrayState.PopBackUndoesPushBack` | DynamicArray/Sources/DynamicArray.h:183-186 | PopBack after PushBack restores the contents; the capacity may only have grown |
| `ArrayState.RemoveLastIsPopBack` | DynamicArray/Sources/DynamicArray.h:245-260 | RemoveAt(size - 1) has the same effect as PopBack |
| `ArrayState.RemoveAtMiddle` | Test/test.cpp:61-69 | [1, 2, 3] with RemoveAt(1) gives [1, 3] with capacity 3 |
| `ArrayState.ReserveIdempotent` | DynamicArray/Sources/DynamicArray.h:207-214 | a second Reserve(n) right after a first one changes nothing |
| `ArrayState.ReserveOnEmpty` | Test/test.cpp:55-59 | Reserve(n) on an empty array gives size n and capacity n, all n slots taken from the fresh block (n = 0 changes nothing) |
| `ArrayState.ShrinkToFitIdempotent` | DynamicArray/Sources/DynamicArray.h:267-270 | shrinking twice is the same as shrinking once |
| `ArrayState.ShrinkAfterPushes` | Test/test.cpp:136-143 | after pushing xs, ShrinkToFit gives capacity exactly size + \|xs\| and the same contents |
| `DynamicArrays.DynamicArray.constructor` | DynamicArray/Sources/DynamicArray.h:14-17 | no buffer, size 0, capacity 0 |
| `DynamicArrays.DynamicArray.WithCapacity` | DynamicArray/Sources/DynamicArray.h:22-25 | a fresh buffer of c slots, size 0, capacity c |
| `DynamicArrays.DynamicArray.Copy` | DynamicArray/Sources/DynamicArray.h:30-60 | abstract value CopyOf(source): equal elements in a fresh, independent buffer, or no buffer exactly when the source capacity is 0; the source is not changed |
| `DynamicArrays.DynamicArray.Move` | DynamicArray/Sources/DynamicArray.h:65-81 | takes the source's buffer, size and capacity; the source is left with no buffer, size 0, capacity 0 |
| `DynamicArrays.DynamicArray.Assign` | DynamicArray/Sources/DynamicArray.h:100-117 | the source's size, capacity and elements in a fresh non-null buffer; the source is unchanged; self-assignment keeps everything |
| `DynamicArrays.DynamicArray.MoveAssign` | DynamicArray/Sources/DynamicArray.h:126-142 | takes the source's buffer, size and capacity and resets a distinct source to null/0/0; self-move changes nothing |
| `DynamicArrays.DynamicArray.ReAlloc` | DynamicArray/Sources/DynamicArray.h:330-350 | new abstract value ArrayState.ReAlloc(old, n) in a fresh buffer; slots past the new size keep the fresh block's contents |
| `DynamicArrays.DynamicArray.PushBack` | DynamicArray/Sources/DynamicArray.h:151-159 | new abstract value ArrayState.PushBack(old, x); the same buffer when size < capacity, a fresh one (grown by one slot) when full |
| `DynamicArrays.DynamicArray.PushBackMove` | DynamicArray/Sources/DynamicArray.h:168-176 | same effect as PushBack, including the same buffer when size < capacity and a fresh one when full |
| `DynamicArrays.DynamicArray.EmplaceBack` | DynamicArray/Sources/DynamicArray.h:225-235 | same effect as PushBack, including the same buffer when size < capacity and a fresh one when full; returns the slot index old size, which now holds the constructed value |
| `DynamicArrays.DynamicArray.PopBack` | DynamicArray/Sources/DynamicArray.h:183-186 | needs size > 0; new abstract value ArrayState.PopBack(old); same buffer |
| `DynamicArrays.DynamicArray.Clear` | DynamicArray/Sources/DynamicArray.h:193-200 | size 0, same buffer, same capacity |
| `DynamicArrays.DynamicArray.Reserve` | DynamicArray/Sources/DynamicArray.h:207-214 | new abstract value ArrayState.Reserve(old, n, initial), where the ghost result initial is what the fresh allocation held; for n <= capacity the buffer is unchanged |
| `DynamicArrays.DynamicArray.RemoveAt` | DynamicArray/Sources/DynamicArray.h:245-260 | needs index < size; new abstract value ArrayState.RemoveAt(old, index) by an in-place left shift; same buffer |
| `DynamicArrays.DynamicArray.ShrinkToFit` | DynamicArray/Sources/DynamicArray.h:267-270 | new abstract value ArrayState.ShrinkToFit(old) in a fresh buffer |
| `DynamicArrays.DynamicArray.Get` | DynamicArray/Sources/DynamicArray.h:279-286 | needs index < size; returns live element number index |
| `DynamicArrays.DynamicArray.Set` | DynamicArray/Sources/DynamicArray.h:295-302 | needs index < size; writing through the reference changes only element index; size, capacity and buffer stay |
| `DynamicArrays.DynamicArray.Size` | DynamicArray/Sources/DynamicArray.h:309-312 | the number of live elements |
| `DynamicArrays.DynamicArray.Capacity` | DynamicArray/Sources/DynamicArray.h:319-322 | the length of the buffer, 0 when there is none |
| `Scenarios.PushEach` | Test/test.cpp:27-35 | pushing xs onto a new array gives Size() == Capacity() == \|xs\| and elements xs |
| `Scenarios.OneTwoThree` | Test/test.cpp:16-19 | three pushes give elements [1, 2, 3] and capacity 3 |
| `Scenarios.DefaultConstructed` | Test/test.cpp:4-7 | size 0 and capacity 0 |
| `Scenarios.ConstructedWithCapacity` | Test/test.cpp:9-13 | size 0 and capacity 10 |
| `Scenarios.PushBackThenIndex` | Test/test.cpp:80-88 | [0], [1], [2] read 1, 2, 3 |
| `Scenarios.CopyConstructed` | Test/test.cpp:15-25 | the copy has size 3 and reads 1, 2, 3 |
| `Scenarios.ClearCopyKeepsOriginal` | DynamicArray/Sources/DynamicArray.h:54-59 | changing and clearing a copy leaves the original's size 3 and elements 1, 2, 3 |
| `Scenarios.MoveConstructed` | DynamicArray/Sources/DynamicArray.h:74-80 | the moved-from array has size 0 and capacity 0; the new one has size 3 and reads 2 at [1] |
| `Scenarios.PopBackOnce` | Test/test.cpp:37-44 | size 2, capacity still 3 |
| `Scenarios.ClearAll` | Test/test.cpp:46-53 | size 0, capacity still 3 |
| `Scenarios.ReserveHundred` | Test/test.cpp:55-59 | Reserve(100) on an empty array gives size 100 and capacity 100 |
| `Scenarios.RemoveMiddle` | Test/test.cpp:61-69 | size 2, reads 1 and 3 |
| `Scenarios.PushWithinCapacityKeepsBuffer` | DynamicArray/Sources/DynamicArray.h:151-159 | three pushes into a 3-slot array never reallocate: the buffer is the one the constructor allocated, and size and capacity are 3 |
| `Scenarios.ShrinkAfterThree` | Test/test.cpp:136-143 | size 3 and capacity 3 |

## Left out

- Object lifetime is not modelled: `~T()`, placement `new` and `delete[]`. Destroying an element or a buffer has no visible effect on values, so `Clear` becomes `size := 0` and its destruct loop has no counterpart. The same goes for the element destructor called in `PopBack` and `RemoveAt`.
- Double destruction and construction over live objects are out of scope. `delete[]` on an old buffer (copy assignment, `ReAlloc`) runs `~T` on every slot of the block. That includes slots that `PopBack`, `Clear` or `RemoveAt` already destroyed, so those slots are destroyed a second time. `EmplaceBack` constructs with placement `new` over a slot that already holds a default-constructed object, without destroying that object first. These are object-lifetime hazards; they do not change the element values the model tracks.
- DynamicArrays.DynamicArray.PushBack, DynamicArrays.DynamicArray.PushBackMove, DynamicArrays.DynamicArray.EmplaceBack: an argument that refers to an element of the same array is not modelled. The source takes the element by reference (`const T&`, `T&&`, forwarding references). When the array is full, `ReAlloc` frees the old buffer before the argument is read. So `arr.PushBack(arr[0])` on a full array reads freed memory. The model takes `x` by value, read before the call, and proves the append for it.
- Elements are values, so a move is a copy. `PushBack(T&&)` delegates to `PushBack`, and moved-from slots keep their old value.
- `EmplaceBack` takes the value that `T(args...)` would build, because the element's constructor is not visible. It returns the index of the new slot in place of a reference to it.
- The mutable `operator[]` returns a reference. It is modelled as `Get` for reads through that reference and `Set` for writes.
- `size_t` is unbounded here. An overflow of `m_capacity + 1` at the top of the range is not modelled. The `_index < 0` tests on an unsigned index are always false and have no counterpart.
- The out-of-range `assert(false)` checks in `RemoveAt` and both `operator[]`, and the undefined behaviour of `PopBack` on an empty array, are preconditions. Callers must not violate them.
- Allocation failure (`std::bad_alloc`) is not modelled.
- The self-checks `this == &_other` in the copy and move constructors have no counterpart. A Dafny constructor's object is always new, so they cannot fire. The copy constructor's `delete[]` of its own still-null pointer is a no-op.
- DynamicArrays.DynamicArray.Reserve: the slots from the old size up to n hold the fresh buffer's initial contents, which Dafny leaves unspecified. `new T[n]` default-constructs them, for `int` it leaves them indeterminate, and the model does not say they equal a default value of `T`.
- Exclusive ownership of buffers is not stated as a global invariant. Each method frames exactly what it changes. Copies get fresh buffers, and a moved-from array gives up its buffer.
- `DynamicArray/Sources/VectorTest.h` is not part of this model. It is a float-valued test type whose only extra behaviour is console logging. The tests on it mostly repeat the `int` tests. The exceptions are the `Reserve` and `ShrinkToFit` tests, which check `Capacity()` where the `int` versions check `Size()` (Test/test.cpp:123, 142).
