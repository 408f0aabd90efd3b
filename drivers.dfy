/** The two demonstration programs of the repository, replayed against the
    buffer classes with `int` elements (zero is 0). Each method returns what
    the program observes, and its postcondition states what it observes. */
module Drivers {
  import opened Common
  import opened FifoBuf
  import opened RingBuf

  /** Holds between the phases of the fifo demonstration: storage of 3
      slots holding the unread entries `q`. */
  ghost predicate Holding(buf: FifoBuffer<int>, q: seq<int>)
    reads buf, buf.d
  {
    buf.Valid() && buf.initialized && buf.size == 3 && buf.Unread() == q
  }

  /** The fifo demonstration: a buffer of 3 slots; popping when empty is
      refused; push/pop of a single value; after pushing 2, 3, 4 the buffer
      is full, so pushing 5 is refused and 3 entries are available; they
      pop as 2, 3, 4; 1 is pushed and popped again, then 5 and 6 are pushed
      and popped through their slots. Every count the program prints is
      returned, in the order it prints them. */
  method FifoDemo() returns (
    emptyPop: Result<int>, emptyCount: Result<int>,
    single: Result<int>, singleCounts: seq<Result<int>>, againEmptyPop: Result<int>,
    pushes: seq<Outcome>, fullCount: Result<int>,
    drained: seq<Result<int>>, drainedCount: Result<int>,
    second: Result<int>, viaSlots: seq<int>, laterCounts: seq<Result<int>>)
    ensures emptyPop == Err && emptyCount == Ok(0)
    ensures single == Ok(1) && singleCounts == [Ok(1), Ok(0)] && againEmptyPop == Err
    ensures pushes == [Success, Success, Success, Failure] && fullCount == Ok(3)
    ensures drained == [Ok(2), Ok(3), Ok(4)] && drainedCount == Ok(0)
    ensures second == Ok(1) && viaSlots == [5, 6]
    ensures laterCounts == [Ok(1), Ok(0), Ok(2), Ok(1), Ok(0)]
  {
    var buf := new FifoBuffer<int>.Empty(0);
    var _ := buf.Alloc(3);
    emptyPop, emptyCount, single, singleCounts, againEmptyPop := FifoSingle(buf);
    pushes, fullCount := FifoFill(buf);
    drained, drainedCount := FifoDrain(buf);
    second, viaSlots, laterCounts := FifoThroughSlots(buf);
    var _ := buf.Free();
  }

  /** First phase: pop on empty, count, push 1, count, pop it, count, pop on
      empty. */
  method FifoSingle(buf: FifoBuffer<int>)
    returns (emptyPop: Result<int>, emptyCount: Result<int>, single: Result<int>,
             singleCounts: seq<Result<int>>, againEmptyPop: Result<int>)
    requires Holding(buf, [])
    modifies buf, buf.d
    ensures Holding(buf, []) && buf.d == old(buf.d)
    ensures emptyPop == Err && emptyCount == Ok(0)
    ensures single == Ok(1) && singleCounts == [Ok(1), Ok(0)] && againEmptyPop == Err
  {
    emptyPop := buf.Pop();
    emptyCount := buf.Available();
    var _ := buf.Push(1);
    var afterPush := buf.Available();
    single := buf.Pop();
    var afterPop := buf.Available();
    singleCounts := [afterPush, afterPop];
    againEmptyPop := buf.Pop();
  }

  /** Second phase: push 2, 3, 4 and a refused 5, then count. */
  method FifoFill(buf: FifoBuffer<int>) returns (pushes: seq<Outcome>, fullCount: Result<int>)
    requires Holding(buf, [])
    modifies buf, buf.d
    ensures Holding(buf, [2, 3, 4]) && buf.d == old(buf.d)
    ensures pushes == [Success, Success, Success, Failure] && fullCount == Ok(3)
  {
    var p2 := buf.Push(2);
    var p3 := buf.Push(3);
    var p4 := buf.Push(4);
    var p5 := buf.Push(5);
    pushes := [p2, p3, p4, p5];
    fullCount := buf.Available();
  }

  /** Last phase: pop all three, then count. */
  method FifoDrain(buf: FifoBuffer<int>) returns (drained: seq<Result<int>>, drainedCount: Result<int>)
    requires Holding(buf, [2, 3, 4])
    modifies buf
    ensures Holding(buf, []) && buf.d == old(buf.d)
    ensures drained == [Ok(2), Ok(3), Ok(4)] && drainedCount == Ok(0)
  {
    var x := buf.Pop();
    var y := buf.Pop();
    var z := buf.Pop();
    drained := [x, y, z];
    drainedCount := buf.Available();
  }

  /** Last phase: push 1, count, pop it, count, push 5 and 6, count, pop
      both through their slots and read the slots, counting after each. */
  method FifoThroughSlots(buf: FifoBuffer<int>)
    returns (second: Result<int>, viaSlots: seq<int>, laterCounts: seq<Result<int>>)
    requires Holding(buf, [])
    modifies buf, buf.d
    ensures Holding(buf, []) && buf.d == old(buf.d)
    ensures second == Ok(1) && viaSlots == [5, 6]
    ensures laterCounts == [Ok(1), Ok(0), Ok(2), Ok(1), Ok(0)]
  {
    var _ := buf.Push(1);
    var c1 := buf.Available();
    second := buf.Pop();
    var c2 := buf.Available();
    var _ := buf.Push(5);
    var _ := buf.Push(6);
    var c3 := buf.Available();
    var s1 := buf.PopPtr();
    var v1 := buf.d[s1.value];
    var c4 := buf.Available();
    var s2 := buf.PopPtr();
    var v2 := buf.d[s2.value];
    var c5 := buf.Available();
    viaSlots := [v1, v2];
    laterCounts := [c1, c2, c3, c4, c5];
  }

  /** The ring demonstration: a buffer of 3 slots reads 0 0 0 when fresh;
      after inserting 0, 1, 2 it reads 2 1 0; after inserting 0, 1, 2, 3 it
      reads 3 2 1, both through values and through slots. */
  method RingDemo() returns (
    fresh0: seq<Result<int>>, afterThree: seq<Result<int>>,
    afterFour: seq<Result<int>>, viaSlots: seq<int>)
    ensures fresh0 == [Ok(0), Ok(0), Ok(0)]
    ensures afterThree == [Ok(2), Ok(1), Ok(0)]
    ensures afterFour == [Ok(3), Ok(2), Ok(1)]
    ensures viaSlots == [3, 2, 1]
  {
    var buf := new RingBuffer<int>.Empty(0);
    var _ := buf.Alloc(3);
    fresh0 := [buf.GetValue(0), buf.GetValue(1), buf.GetValue(2)];

    var _ := buf.Insert(0);
    var _ := buf.Insert(1);
    var _ := buf.Insert(2);
    afterThree := [buf.GetValue(0), buf.GetValue(1), buf.GetValue(2)];

    var _ := buf.Insert(0);
    var _ := buf.Insert(1);
    var _ := buf.Insert(2);
    var _ := buf.Insert(3);
    afterFour := [buf.GetValue(0), buf.GetValue(1), buf.GetValue(2)];

    var s0, s1, s2 := buf.GetValuePtr(0), buf.GetValuePtr(1), buf.GetValuePtr(2);
    viaSlots := [buf.d[s0.value], buf.d[s1.value], buf.d[s2.value]];

    var _ := buf.Free();
  }
}
