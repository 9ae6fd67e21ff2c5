/**
 * Client programs that follow the unit tests of the array: each builds arrays
 * through the class's methods alone and states in its postcondition what
 * the corresponding test expects to observe.
 */
module Scenarios {
  import opened ArrayState
  import opened DynamicArrays

  /** After N pushes onto an empty array, Size() == Capacity() == N and [i] is the i-th value. */
  method PushEach<T(0)>(xs: seq<T>) returns (arr: DynamicArray<T>)
    ensures fresh(arr) && arr.Valid() && (arr.data == null || fresh(arr.data))
    ensures arr.Size() == |xs| && arr.Capacity() == |xs|
    ensures arr.Elements() == xs
  {
    arr := new DynamicArray<T>();
    for i := 0 to |xs|
      invariant arr.Valid() && (arr.data == null || fresh(arr.data))
      invariant arr.Abs() == PushAll(Empty(), xs[..i])
    {
      arr.PushBack(xs[i]);
      assert xs[..i + 1][..i] == xs[..i];
    }
    assert xs[..|xs|] == xs;
    PushAllFromEmpty(xs);
  }

  /** The array [1, 2, 3] as the tests build it. */
  method OneTwoThree() returns (arr: DynamicArray<int>)
    ensures fresh(arr) && arr.Valid() && arr.data != null && fresh(arr.data)
    ensures arr.Abs() == State([1, 2, 3], 3)
  {
    arr := new DynamicArray<int>();
    arr.PushBack(1);
    arr.PushBack(2);
    arr.PushBack(3);
  }

  method DefaultConstructed() returns (size: nat, capacity: nat)
    ensures size == 0 && capacity == 0
  {
    var arr := new DynamicArray<int>();
    size, capacity := arr.Size(), arr.Capacity();
  }

  method ConstructedWithCapacity() returns (size: nat, capacity: nat)
    ensures size == 0 && capacity == 10
  {
    var arr := new DynamicArray<int>.WithCapacity(10);
    size, capacity := arr.Size(), arr.Capacity();
  }

  method PushBackThenIndex() returns (a: int, b: int, c: int)
    ensures a == 1 && b == 2 && c == 3
  {
    var arr := OneTwoThree();
    a := arr.Get(0);
    b := arr.Get(1);
    c := arr.Get(2);
  }

  method CopyConstructed() returns (size: nat, a: int, b: int, c: int)
    ensures size == 3 && a == 1 && b == 2 && c == 3
  {
    var arr := OneTwoThree();
    var copy := new DynamicArray<int>.Copy(arr);
    size := copy.Size();
    a := copy.Get(0);
    b := copy.Get(1);
    c := copy.Get(2);
  }

  /** Clearing a copy leaves the original's elements and size untouched. */
  method ClearCopyKeepsOriginal() returns (copySize: nat, size: nat, a: int, b: int, c: int)
    ensures copySize == 0 && size == 3 && a == 1 && b == 2 && c == 3
  {
    var arr := OneTwoThree();
    var copy := new DynamicArray<int>.Copy(arr);
    copy.Clear();
    copy.PushBack(7);
    copy.Set(0, 8);
    copy.Clear();
    copySize := copy.Size();
    size := arr.Size();
    a := arr.Get(0);
    b := arr.Get(1);
    c := arr.Get(2);
  }

  /** Move construction empties the source and hands its contents to the destination. */
  method MoveConstructed() returns (srcSize: nat, srcCapacity: nat, size: nat, b: int)
    ensures srcSize == 0 && srcCapacity == 0 && size == 3 && b == 2
  {
    var arr := OneTwoThree();
    var moved := new DynamicArray<int>.Move(arr);
    srcSize, srcCapacity := arr.Size(), arr.Capacity();
    size := moved.Size();
    b := moved.Get(1);
  }

  method PopBackOnce() returns (size: nat, capacity: nat)
    ensures size == 2 && capacity == 3
  {
    var arr := OneTwoThree();
    arr.PopBack();
    size, capacity := arr.Size(), arr.Capacity();
  }

  method ClearAll() returns (size: nat, capacity: nat)
    ensures size == 0 && capacity == 3
  {
    var arr := OneTwoThree();
    arr.Clear();
    size, capacity := arr.Size(), arr.Capacity();
  }

  /** Reserve(100) on an empty array gives capacity 100 and, as the code does, size 100. */
  method ReserveHundred() returns (size: nat, capacity: nat)
    ensures size == 100 && capacity == 100
  {
    var arr := new DynamicArray<int>();
    ghost var initial := arr.Reserve(100);
    size, capacity := arr.Size(), arr.Capacity();
  }

  method RemoveMiddle() returns (size: nat, a: int, b: int)
    ensures size == 2 && a == 1 && b == 3
  {
    var arr := OneTwoThree();
    arr.RemoveAt(1);
    RemoveAtMiddle();
    size := arr.Size();
    a := arr.Get(0);
    b := arr.Get(1);
  }

  method ShrinkAfterThree() returns (size: nat, capacity: nat)
    ensures size == 3 && capacity == 3
  {
    var arr := OneTwoThree();
    arr.ShrinkToFit();
    size, capacity := arr.Size(), arr.Capacity();
  }

  /** Pushes into spare capacity never reallocate: the constructor's buffer stays. */
  method PushWithinCapacityKeepsBuffer() returns (same: bool, size: nat, capacity: nat)
    ensures same && size == 3 && capacity == 3
  {
    var arr := new DynamicArray<int>.WithCapacity(3);
    var buffer := arr.data;
    arr.PushBack(1);
    arr.PushBackMove(2);
    var _ := arr.EmplaceBack(3);
    same := arr.data == buffer;
    size, capacity := arr.Size(), arr.Capacity();
  }
}
