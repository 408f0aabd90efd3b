/** A bounded first-in-first-out queue of fixed capacity kept in one array.
    `tail` is the slot read next and `available` the number of unread
    entries; the unread entries are the `available` slots starting at
    `tail`, wrapping round at the end of the storage. */
module FifoBuf {
  import opened Common

  // ---------------------------------------------------------------------
  // Slot arithmetic and the abstract queue
  // ---------------------------------------------------------------------

  /** The slot a push writes into, `(tail + available) % size`, computed
      so that no intermediate value leaves the range of a C `int`. */
  function PushSlot(tail: Int32, available: Int32, size: Int32): (r: Int32)
    requires 0 <= tail < size && 0 <= available < size
    ensures 0 <= r < size
    ensures r == (tail + available) % size
  {
    ModNear(tail + available, size);
    var gap: Int32 := size - tail;
    if available < gap then tail + available else available - gap
  }

  /** The push slot exactly as `(buf->tail + buf->available) % buf->size`
      evaluates it: a 32-bit sum, then a remainder that truncates toward
      zero. */
  function PushSlotAsWritten(tail: int, available: int, size: int): (r: int)
    requires 0 < size
    ensures -size < r < size
    ensures 0 <= tail + available <= INT32_MAX ==> r == (tail + available) % size
  {
    CRem(Wrap32(tail + available), size)
  }

  /** As long as the sum fits in an `int`, the expression as written
      selects the same slot as PushSlot. */
  lemma PushSlotAsWrittenAgrees(tail: int, available: int, size: int)
    requires 0 <= tail < size <= INT32_MAX && 0 <= available < size
    requires tail + available <= INT32_MAX
    ensures PushSlotAsWritten(tail, available, size) == PushSlot(tail, available, size)
  {
  }

  /** A buffer of 2^30 + 1 slots whose tail and unread count are both 2^30
      (not full, so the push goes ahead): the sum overflows and the index
      the expression as written selects lies below the storage. */
  lemma PushSlotAsWrittenOverflows()
    ensures PushSlotAsWritten(0x4000_0000, 0x4000_0000, 0x4000_0001) == -0x3fff_ffff
  {
  }

  /** The unread entries, oldest first: `count` slots of `s` starting at
      `tail` and wrapping round at the end. */
  function Queue<T>(s: seq<T>, tail: int, count: int): (q: seq<T>)
    requires 0 <= tail < |s| && 0 <= count <= |s|
  {
    seq(count, i requires 0 <= i < count => s[(tail + i) % |s|])
  }

  /** Writing the pushed value at PushSlot appends it to the queue and
      leaves every unread entry where it was. */
  lemma QueueAfterPush<T>(s: seq<T>, tail: int, count: int, v: T)
    requires 0 <= tail < |s| <= INT32_MAX && 0 <= count < |s|
    ensures Queue(s[PushSlot(tail, count, |s|) := v], tail, count + 1) == Queue(s, tail, count) + [v]
  {
    var n := |s|;
    var slot := PushSlot(tail, count, n);
    var after := Queue(s[slot := v], tail, count + 1);
    var before := Queue(s, tail, count) + [v];
    forall i | 0 <= i < count + 1
      ensures after[i] == before[i]
    {
      ModNear(tail + i, n);
      ModNear(tail + count, n);
    }
  }

  /** A pop reads the oldest entry at `tail`; advancing `tail` by one slot
      with wrap-around and counting one fewer leaves the rest of the queue. */
  lemma QueueAfterPop<T>(s: seq<T>, tail: int, count: int)
    requires 0 <= tail < |s| && 0 < count <= |s|
    ensures Queue(s, tail, count)[0] == s[tail]
    ensures Queue(s, (tail + 1) % |s|, count - 1) == Queue(s, tail, count)[1..]
  {
    var n := |s|;
    ModNear(tail, n);
    var after := Queue(s, (tail + 1) % n, count - 1);
    var before := Queue(s, tail, count)[1..];
    forall i | 0 <= i < count - 1
      ensures after[i] == before[i]
    {
      AdvancedSlot(tail, i, n);
    }
  }

  /** Looking `i` slots past the advanced tail is looking `i + 1` slots
      past the old one. */
  lemma AdvancedSlot(tail: int, i: int, n: int)
    requires 0 <= tail < n && 0 <= i < n - 1
    ensures ((tail + 1) % n + i) % n == (tail + (i + 1)) % n
  {
    ModNear(tail + 1, n);
    ModNear(tail + 1 + i, n);
    if tail + 1 == n {
      ModNear(i, n);
    }
  }

  /** Storage after pushing every value of `xs`, in order, onto a queue of
      `count` entries starting at `tail` (none of the pushes finds the
      buffer full). */
  function PushAll<T>(s: seq<T>, tail: int, count: int, xs: seq<T>): (r: seq<T>)
    requires 0 <= tail < |s| <= INT32_MAX && 0 <= count && count + |xs| <= |s|
    ensures |r| == |s|
    decreases |xs|
  {
    if xs == [] then s
    else PushAll(s[PushSlot(tail, count, |s|) := xs[0]], tail, count + 1, xs[1..])
  }

  /** Pushing a sequence of values appends exactly that sequence. */
  lemma {:induction false} QueueAfterPushAll<T>(s: seq<T>, tail: int, count: int, xs: seq<T>)
    requires 0 <= tail < |s| <= INT32_MAX && 0 <= count && count + |xs| <= |s|
    ensures Queue(PushAll(s, tail, count, xs), tail, count + |xs|) == Queue(s, tail, count) + xs
    decreases |xs|
  {
    if xs != [] {
      var s1 := s[PushSlot(tail, count, |s|) := xs[0]];
      QueueAfterPush(s, tail, count, xs[0]);
      QueueAfterPushAll(s1, tail, count + 1, xs[1..]);
      assert Queue(s, tail, count) + [xs[0]] + xs[1..] == Queue(s, tail, count) + xs;
    }
  }

  /** The values that `count` successive pops return, starting at `tail`. */
  function Drained<T>(s: seq<T>, tail: int, count: int): (r: seq<T>)
    requires 0 <= tail < |s| && 0 <= count <= |s|
    decreases count
  {
    if count == 0 then [] else [s[tail]] + Drained(s, (tail + 1) % |s|, count - 1)
  }

  /** Popping until empty returns the unread entries in queue order. */
  lemma {:induction false} DrainedIsQueue<T>(s: seq<T>, tail: int, count: int)
    requires 0 <= tail < |s| && 0 <= count <= |s|
    ensures Drained(s, tail, count) == Queue(s, tail, count)
    decreases count
  {
    if count > 0 {
      QueueAfterPop(s, tail, count);
      DrainedIsQueue(s, (tail + 1) % |s|, count - 1);
    }
  }

  /** First in, first out: values pushed onto an empty queue come back out
      in the order they went in, whatever the storage held and wherever
      `tail` stood. */
  lemma FirstInFirstOut<T>(s: seq<T>, tail: int, xs: seq<T>)
    requires 0 <= tail < |s| <= INT32_MAX && |xs| <= |s|
    ensures Drained(PushAll(s, tail, 0, xs), tail, |xs|) == xs
  {
    QueueAfterPushAll(s, tail, 0, xs);
    DrainedIsQueue(PushAll(s, tail, 0, xs), tail, |xs|);
  }

  // ---------------------------------------------------------------------
  // The buffer (`rc_fifobuf_t`)
  // ---------------------------------------------------------------------

  class FifoBuffer<T> {
    /** The element whose bytes are all zero: what `calloc` and `memset`
        leave in every slot. */
    const zero: T
    /** The storage; null when no memory is allocated. */
    var d: array?<T>
    var size: int
    /** Slot of the next value to be read. */
    var tail: int
    /** Number of entries waiting to be read. */
    var available: int
    var initialized: bool

    /** The states reachable from `rc_fifobuf_empty`: either no storage and
        every field zero, or storage of `size >= 2` slots with the cursors
        inside it. */
    ghost predicate Valid()
      reads this
    {
      if initialized then
        d != null && d.Length == size && 2 <= size <= INT32_MAX &&
        0 <= tail < size && 0 <= available <= size
      else
        d == null && size == 0 && tail == 0 && available == 0
    }

    /** The unread entries, oldest first. */
    ghost function Unread(): seq<T>
      reads this, d
      requires Valid()
    {
      if initialized then Queue(d[..], tail, available) else []
    }

    /** `rc_fifobuf_empty` / `RC_FIFOBUF_INITIALIZER`: no storage, every
        field zero. */
    constructor Empty(zero: T)
      ensures Valid() && !initialized && Unread() == []
      ensures d == null && size == 0 && tail == 0 && available == 0
      ensures this.zero == zero
    {
      this.zero := zero;
      d := null;
      size, tail, available := 0, 0, 0;
      initialized := false;
    }

    /** `rc_fifobuf_alloc`: sizes below 2 are refused; a buffer already
        allocated at this size is left untouched; otherwise fresh
        zero-filled storage replaces whatever was there and the queue
        is empty. */
    method Alloc(n: Int32) returns (r: Outcome)
      requires Valid()
      modifies this
      ensures Valid()
      ensures r == if n < 2 then Failure else Success
      ensures n < 2 || (old(initialized) && old(size) == n) ==>
        d == old(d) && size == old(size) && tail == old(tail) &&
        available == old(available) && initialized == old(initialized) &&
        Unread() == old(Unread())
      ensures 2 <= n && !(old(initialized) && old(size) == n) ==>
        fresh(d) && initialized && size == n && tail == 0 && available == 0 &&
        (forall i :: 0 <= i < n ==> d[i] == zero) && Unread() == []
    {
      if n < 2 {
        return Failure;
      }
      if initialized && size == n && d != null {
        return Success;
      }
      size, tail, available, initialized := 0, 0, 0, false;
      var z := zero;
      d := new T[n](_ => z);
      size, initialized := n, true;
      r := Success;
    }

    /** `rc_fifobuf_free`: from any state, back to the empty state; so a
        second call finds the empty state and leaves it as it is. */
    method Free() returns (r: Outcome)
      modifies this
      ensures r == Success
      ensures Valid() && !initialized && Unread() == []
      ensures d == null && size == 0 && tail == 0 && available == 0
    {
      d := null;
      size, tail, available := 0, 0, 0;
      initialized := false;
      r := Success;
    }

    /** `rc_fifobuf_reset`: refused without storage; otherwise every slot
        becomes zero and the queue is emptied, the capacity unchanged. */
    method Reset() returns (r: Outcome)
      requires Valid()
      modifies this, d
      ensures Valid()
      ensures r == if old(initialized) then Success else Failure
      ensures d == old(d) && size == old(size) && initialized == old(initialized)
      ensures r.Failure? ==> tail == old(tail) && available == old(available)
      ensures r.Success? ==>
        tail == 0 && available == 0 && forall i :: 0 <= i < size ==> d[i] == zero
      ensures Unread() == []
    {
      if !initialized {
        return Failure;
      }
      // memset: zero every slot of the storage
      var a := d;
      var i := 0;
      while i < a.Length
        invariant 0 <= i <= a.Length
        invariant forall j :: 0 <= j < i ==> a[j] == zero
        modifies a
      {
        a[i] := zero;
        i := i + 1;
      }
      tail, available := 0, 0;
      r := Success;
    }

    /** `rc_fifobuf_available`: the number of unread entries, refused
        without storage. */
    function Available(): (r: Result<int>)
      reads this, d
      requires Valid()
      ensures r.Ok? <==> initialized
      ensures r.Ok? ==> r.value == |Unread()| && 0 <= r.value <= size
    {
      if !initialized then Err else Ok(available)
    }

    /** `rc_fifobuf_push`: refused without storage or when full, with
        nothing changed; otherwise the value is written into the slot just
        past the last unread entry and becomes the newest entry, with
        `tail` and every other slot unchanged. */
    method Push(v: T) returns (r: Outcome)
      requires Valid()
      modifies this, d
      ensures Valid()
      ensures r == if old(initialized) && old(available) != old(size) then Success else Failure
      ensures d == old(d) && size == old(size) && tail == old(tail) && initialized == old(initialized)
      ensures r.Failure? ==> available == old(available) && (d != null ==> d[..] == old(d[..]))
      ensures r.Success? ==>
        available == old(available) + 1 &&
        d[..] == old(d[..])[(tail + old(available)) % size := v]
      ensures Unread() == if r.Success? then old(Unread()) + [v] else old(Unread())
    {
      if !initialized {
        return Failure;
      }
      if available == size {
        return Failure;
      }
      var slot := PushSlot(tail, available, size);
      QueueAfterPush(d[..], tail, available, v);
      d[slot] := v;
      available := available + 1;
      r := Success;
    }

    /** `rc_fifobuf_pop_ptr`: refused without storage or when empty, with
        nothing changed; otherwise yields the slot of the oldest unread
        entry (the one at `tail`) and removes that entry from the queue. */
    method PopPtr() returns (r: Result<int>)
      requires Valid()
      modifies this
      ensures Valid()
      ensures r.Ok? <==> old(initialized) && old(available) != 0
      ensures d == old(d) && size == old(size) && initialized == old(initialized)
      ensures r.Err? ==> tail == old(tail) && available == old(available)
      ensures r.Ok? ==>
        r.value == old(tail) && available == old(available) - 1 &&
        tail == (old(tail) + 1) % size
      ensures r.Err? <==> old(Unread()) == []
      ensures r.Ok? ==>
        0 <= r.value < size && d[r.value] == old(Unread())[0] &&
        Unread() == old(Unread())[1..]
      ensures r.Err? ==> Unread() == old(Unread())
    {
      if !initialized {
        return Err;
      }
      if available == 0 {
        return Err;
      }
      QueueAfterPop(d[..], tail, available);
      r := Ok(tail);
      available := available - 1;
      tail := (tail + 1) % size;
    }

    /** `rc_fifobuf_pop`: as PopPtr, but yields the value itself. */
    method Pop() returns (r: Result<T>)
      requires Valid()
      modifies this
      ensures Valid()
      ensures r.Ok? <==> old(initialized) && old(available) != 0
      ensures d == old(d) && size == old(size) && initialized == old(initialized)
      ensures r.Err? ==> tail == old(tail) && available == old(available)
      ensures r.Ok? ==>
        r.value == d[old(tail)] && available == old(available) - 1 &&
        tail == (old(tail) + 1) % size
      ensures r.Err? <==> old(Unread()) == []
      ensures r.Ok? ==> r.value == old(Unread())[0] && Unread() == old(Unread())[1..]
      ensures r.Err? ==> Unread() == old(Unread())
    {
      var slot := PopPtr();
      if slot.Err? {
        return Err;
      }
      r := Ok(d[slot.value]);
    }
  }
}
