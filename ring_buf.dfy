/** A fixed-capacity history buffer that overwrites its oldest value.
    `index` is the slot of the most recently inserted value; looking back
    `position` steps reads the slot `position` places before it, wrapping
    round at the start of the storage. Every slot holds data from the
    moment of allocation (zero until overwritten). */
module RingBuf {
  import opened Common

  // ---------------------------------------------------------------------
  // Slot arithmetic and the abstract history
  // ---------------------------------------------------------------------

  /** The slot an insert writes into: the one after `index`, back to 0
      past the end. */
  function Advance(index: int, size: int): (r: int)
    requires 0 <= index < size
    ensures 0 <= r < size
    ensures r == (index + 1) % size
  {
    ModNear(index + 1, size);
    var next := index + 1;
    if next >= size then 0 else next
  }

  /** The slot `position` steps behind `index`, adding `size` when the
      difference is negative. */
  function LookBackSlot(index: int, position: int, size: int): (r: int)
    requires 0 <= index < size && 0 <= position < size
    ensures 0 <= r < size
    ensures r == (index - position) % size
  {
    ModNear(index - position, size);
    var slot := index - position;
    if slot < 0 then slot + size else slot
  }

  /** The retained values, newest first: entry `k` is the value inserted
      `k` inserts ago. */
  function History<T>(s: seq<T>, index: int): (h: seq<T>)
    requires 0 <= index < |s|
  {
    seq(|s|, k requires 0 <= k < |s| => s[LookBackSlot(index, k, |s|)])
  }

  /** An insert makes the new value position 0 and moves every retained
      value one step further back; the oldest one drops out. */
  lemma HistoryAfterInsert<T>(s: seq<T>, index: int, v: T)
    requires 0 <= index < |s|
    ensures History(s[Advance(index, |s|) := v], Advance(index, |s|)) == [v] + History(s, index)[..|s| - 1]
  {
    var n := |s|;
    var next := Advance(index, n);
    var after := History(s[next := v], next);
    var before := [v] + History(s, index)[..n - 1];
    forall k | 0 <= k < n
      ensures after[k] == before[k]
    {
      if k > 0 {
        assert LookBackSlot(next, k, n) == LookBackSlot(index, k - 1, n) != next;
      }
    }
  }

  /** Storage and index after inserting every value of `vs`, in order. */
  function InsertAll<T>(s: seq<T>, index: int, vs: seq<T>): (r: (seq<T>, int))
    requires 0 <= index < |s|
    ensures |r.0| == |s| && 0 <= r.1 < |s|
    decreases |vs|
  {
    if vs == [] then (s, index)
    else
      var next := Advance(index, |s|);
      InsertAll(s[next := vs[0]], next, vs[1..])
  }

  /** The values of `s` in the opposite order. */
  function Reversed<T>(s: seq<T>): (r: seq<T>)
  {
    seq(|s|, i requires 0 <= i < |s| => s[|s| - 1 - i])
  }

  /** After inserting up to `size` values, the newest of them are looked
      up first, in reverse order of insertion, followed by what was there
      before, shifted back. */
  lemma {:induction false} HistoryAfterInsertAll<T>(s: seq<T>, index: int, vs: seq<T>)
    requires 0 <= index < |s| && |vs| <= |s|
    ensures History(InsertAll(s, index, vs).0, InsertAll(s, index, vs).1)
         == Reversed(vs) + History(s, index)[..|s| - |vs|]
    decreases |vs|
  {
    var n := |s|;
    if vs == [] {
      assert History(s, index)[..n] == History(s, index);
    } else {
      var next := Advance(index, n);
      var s1 := s[next := vs[0]];
      HistoryAfterInsert(s, index, vs[0]);
      HistoryAfterInsertAll(s1, next, vs[1..]);
      assert Reversed(vs) == Reversed(vs[1..]) + [vs[0]];
      assert History(s1, next)[..n - |vs| + 1] == [vs[0]] + History(s, index)[..n - |vs|];
    }
  }

  /** Filling a buffer with `size` values leaves exactly those values,
      newest first: position 0 holds the last one inserted and position
      `size - 1` the first. */
  lemma FullCycle<T>(s: seq<T>, index: int, vs: seq<T>)
    requires 0 <= index < |s| && |vs| == |s|
    ensures History(InsertAll(s, index, vs).0, InsertAll(s, index, vs).1) == Reversed(vs)
    ensures History(InsertAll(s, index, vs).0, InsertAll(s, index, vs).1)[0] == vs[|vs| - 1]
    ensures History(InsertAll(s, index, vs).0, InsertAll(s, index, vs).1)[|s| - 1] == vs[0]
  {
    HistoryAfterInsertAll(s, index, vs);
    assert Reversed(vs) + History(s, index)[..0] == Reversed(vs);
  }

  // ---------------------------------------------------------------------
  // The buffer (`rc_ringbuf_t`)
  // ---------------------------------------------------------------------

  class RingBuffer<T> {
    /** The element whose bytes are all zero: what `calloc` and `memset`
        leave in every slot. */
    const zero: T
    /** The storage; null when no memory is allocated. */
    var d: array?<T>
    var size: int
    /** Slot of the most recently inserted value. */
    var index: int
    var initialized: bool

    /** The states reachable from `rc_ringbuf_empty`: either no storage and
        every field zero, or storage of `size >= 2` slots with `index`
        inside it. */
    ghost predicate Valid()
      reads this
    {
      if initialized then
        d != null && d.Length == size && 2 <= size <= INT32_MAX && 0 <= index < size
      else
        d == null && size == 0 && index == 0
    }

    /** The values a look-back can reach, newest first. */
    ghost function Retained(): seq<T>
      reads this, d
      requires Valid()
    {
      if initialized then History(d[..], index) else []
    }

    /** `rc_ringbuf_empty` / `RC_RINGBUF_INITIALIZER`: no storage, every
        field zero. */
    constructor Empty(zero: T)
      ensures Valid() && !initialized && Retained() == []
      ensures d == null && size == 0 && index == 0
      ensures this.zero == zero
    {
      this.zero := zero;
      d := null;
      size, index := 0, 0;
      initialized := false;
    }

    /** `rc_ringbuf_alloc`: sizes below 2 are refused; a buffer already
        allocated at this size is left untouched; otherwise fresh
        zero-filled storage replaces whatever was there, so every
        position looks back to a zero. */
    method Alloc(n: Int32) returns (r: Outcome)
      requires Valid()
      modifies this
      ensures Valid()
      ensures r == if n < 2 then Failure else Success
      ensures n < 2 || (old(initialized) && old(size) == n) ==>
        d == old(d) && size == old(size) && index == old(index) &&
        initialized == old(initialized) && Retained() == old(Retained())
      ensures 2 <= n && !(old(initialized) && old(size) == n) ==>
        fresh(d) && initialized && size == n && index == 0 &&
        (forall i :: 0 <= i < n ==> d[i] == zero) &&
        |Retained()| == n && (forall k :: 0 <= k < n ==> Retained()[k] == zero)
    {
      if n < 2 {
        return Failure;
      }
      if initialized && size == n && d != null {
        return Success;
      }
      size, index, initialized := 0, 0, false;
      var z := zero;
      d := new T[n](_ => z);
      size, initialized := n, true;
      r := Success;
    }

    /** `rc_ringbuf_free`: from any state, back to the empty state; so a
        second call finds the empty state and leaves it as it is. */
    method Free() returns (r: Outcome)
      modifies this
      ensures r == Success
      ensures Valid() && !initialized && Retained() == []
      ensures d == null && size == 0 && index == 0
    {
      d := null;
      size, index := 0, 0;
      initialized := false;
      r := Success;
    }

    /** `rc_ringbuf_reset`: refused without storage; otherwise every slot
        becomes zero and `index` goes back to 0, the capacity unchanged. */
    method Reset() returns (r: Outcome)
      requires Valid()
      modifies this, d
      ensures Valid()
      ensures r == if old(initialized) then Success else Failure
      ensures d == old(d) && size == old(size) && initialized == old(initialized)
      ensures r.Failure? ==> index == old(index)
      ensures r.Success? ==>
        index == 0 && (forall i :: 0 <= i < size ==> d[i] == zero) &&
        |Retained()| == size && (forall k :: 0 <= k < size ==> Retained()[k] == zero)
    {
      if !initialized {
        return Failure;
      }
      // memset: zero every slot of the storage
      var a := d;
      var i := 0;
      while i < a.Length
        invariant 0 <= i <= a.Length
        invariant forall j :: 0 <= j < i ==> a[j] == zero
        modifies a
      {
        a[i] := zero;
        i := i + 1;
      }
      index := 0;
      r := Success;
    }

    /** `rc_ringbuf_insert`: refused without storage; otherwise `index`
        advances by one slot with wrap-around and the value is written
        there, every other slot unchanged; the value becomes position 0 and
        everything retained moves one step back. */
    method Insert(v: T) returns (r: Outcome)
      requires Valid()
      modifies this, d
      ensures Valid()
      ensures r == if old(initialized) then Success else Failure
      ensures d == old(d) && size == old(size) && initialized == old(initialized)
      ensures r.Failure? ==> index == old(index)
      ensures r.Success? ==>
        index == (old(index) + 1) % size && d[..] == old(d[..])[index := v]
      ensures r.Success? ==> Retained() == [v] + old(Retained())[..size - 1]
    {
      if !initialized {
        return Failure;
      }
      var next := Advance(index, size);
      HistoryAfterInsert(d[..], index, v);
      d[next] := v;
      index := next;
      r := Success;
    }

    /** `rc_ringbuf_get_value_ptr`: refused without storage or when
        `position` is outside `[0, size - 1]`; otherwise the slot holding
        the value inserted `position` inserts ago. */
    function GetValuePtr(position: Int32): (r: Result<int>)
      reads this, d
      requires Valid()
      ensures r.Ok? <==> initialized && 0 <= position < size
      ensures r.Ok? ==>
        0 <= r.value < size && r.value == (index - position) % size &&
        d[r.value] == Retained()[position]
    {
      if position < 0 || position > size - 1 || !initialized then Err
      else Ok(LookBackSlot(index, position, size))
    }

    /** `rc_ringbuf_get_value`: as GetValuePtr, but yields the value. */
    function GetValue(position: Int32): (r: Result<T>)
      reads this, d
      requires Valid()
      ensures r.Ok? <==> initialized && 0 <= position < size
      ensures r.Ok? ==>
        r.value == d[(index - position) % size] && r.value == Retained()[position]
    {
      match GetValuePtr(position)
      case Err => Err
      case Ok(slot) => Ok(d[slot])
    }
  }
}
