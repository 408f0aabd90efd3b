# rc_structures ring and fifo buffers, modelled in Dafny

The repository provides two fixed-capacity circular buffers, each a C
struct holding a pointer to heap storage, a capacity and integer cursors:

- `rc_ringbuf_t` (`ring_buf.h`), an overwrite-oldest history buffer.
  `index` is the slot of the newest value. Insert advances `index` with
  wrap-around and writes there. `get_value(position)` looks back
  `position` inserts without removing anything. Storage starts
  zero-filled, so every position holds data (zero) from the moment of
  allocation.
- `rc_fifobuf_t` (`fifo_buf.h`), a bounded queue. `tail` is the slot read
  next and `available` the number of unread entries. Push writes just
  past the last unread entry and fails when full. Pop reads at `tail`
  and fails when empty.

Both share a life cycle: an empty struct (`*_empty`, `*_INITIALIZER`),
`*_alloc(size)` (refuses `size < 2`, does nothing if already allocated
at that size, otherwise fresh zero-filled storage), `*_reset` (zero the
storage and the cursors), and `*_free` (back to the empty struct from
any state).

The model follows the C code's imperative form:

- `common.dfy` (module `Common`): the `Outcome` (0 / -1) and `Result`
  (0 / -1 plus an out-parameter) datatypes. It also holds the range of a
  C `int` and the two pieces of C arithmetic the model spells out:
  32-bit wrap-around and the truncating `%`.
- `fifo_buf.dfy` (module `FifoBuf`): class `FifoBuffer<T>`, with the
  struct's fields, a nullable array standing for the heap pointer, and
  one method per C function. Beside it are the pure functions that
  specify it: `PushSlot`, and `Queue`, the abstract queue of unread
  entries (`d[tail], d[(tail+1)%size], …`, `available` of them). The
  lemmas show that a push appends to that queue, that a pop removes its
  head, and that the buffer is first-in-first-out.
- `ring_buf.dfy` (module `RingBuf`): class `RingBuffer<T>` in the same
  way. Its pure functions are `Advance` (the insert slot), `LookBackSlot`
  (the look-back slot) and `History`, the abstract sequence of retained
  values, newest first. The lemmas show that an insert puts the new value
  at position 0 and shifts the rest back by one, and that `size` inserts
  leave exactly those values in reverse order.
- `drivers.dfy` (module `Drivers`): the two demonstration programs,
  replayed against the classes with `int` elements. Their postconditions
  state the values the programs print.

The element type is a type parameter. Each buffer carries a `zero: T`
constant for the all-zero-bytes element that `calloc` and `memset`
produce. `calloc` becomes a fresh array filled with `zero`. `memset`
becomes a loop over the array. The `_ptr` variants return the slot index
whose address the C code hands out. Every operation other than `free`
requires `Valid()`, the invariant of the states reachable from the empty
struct: either no storage and every field zero, or storage of
`2 <= size <= INT_MAX` slots with the cursors inside it. `free` works from
any state.

Where the comments and the code disagree, the model follows the code:

- test_fifo_buf.c:75 says a push onto the full buffer "should return 0".
  fifo_buf.h:203 returns -1, so `Push` fails and the driver expects
  `Failure`.
- The doc comment above `rc_fifobuf_pop` and `rc_fifobuf_pop_ptr`
  (fifo_buf.h:213-225 and 252-264) describes the ring buffer's
  look-back. The model follows the code, which removes the oldest unread
  entry.
- test_ring_buf.c:62 and :67 say "put 1,2,3" and "put 1,2,3,4". The
  loops at :61 and :66 insert 0,1,2 and 0,1,2,3. The expected contents
  it prints (2 1 0, then 3 2 1) match the loops, and so does `RingDemo`.

## Model

| member | source | states |
|---|---|---|
| `FifoBuf.FifoBuffer.Empty` | fifo_buf.h:46-68 | the empty struct: no storage, size, tail and available 0, not initialized, nothing unread |
| `FifoBuf.FifoBuffer.Alloc` | fifo_buf.h:83-112 | fails iff size < 2, with nothing changed; already allocated at that size: succeeds, fields and unread entries preserved; otherwise fresh storage of `size` zero slots, tail = available = 0, queue empty; the invariant is kept |
| `FifoBuf.FifoBuffer.Free` | fifo_buf.h:124-134 | from any state, succeeds and leaves the empty state, so a second call changes nothing |
| `FifoBuf.FifoBuffer.Reset` | fifo_buf.h:144-160 | fails iff uninitialized; otherwise every slot is zero, tail = available = 0, same storage and size, queue empty |
| `FifoBuf.FifoBuffer.Available` | fifo_buf.h:162-174 | fails iff uninitialized; otherwise the number of unread entries, between 0 and size |
| `FifoBuf.FifoBuffer.Push` | fifo_buf.h:188-211 | fails iff uninitialized or available == size, with nothing changed; otherwise writes the value at (tail+available)%size, available + 1, tail and every other slot unchanged, and the value is appended to the unread queue |
| `FifoBuf.FifoBuffer.Pop` | fifo_buf.h:226-250 | fails iff the unread queue is empty (or uninitialized), with nothing changed; otherwise returns d[tail], the head of the queue, with available - 1, tail = (tail+1)%size, and the rest of the queue still unread |
| `FifoBuf.FifoBuffer.PopPtr` | fifo_buf.h:265-289 | as Pop, returning the slot `tail` that holds the head of the queue |
| `FifoBuf.PushSlot` | fifo_buf.h:205-206 | the push slot lies in [0, size) and equals (tail+available) mod size; its inputs, every intermediate value and its result are typed `Int32`, so it never leaves the range of an int |
| `FifoBuf.PushSlotAsWritten` | fifo_buf.h:206 | the C expression as written: 32-bit wrap-around of tail+available, then the remainder truncated toward zero; the result lies strictly between -size and size, and is (tail+available) mod size while the sum is non-negative and fits in an int |
| `FifoBuf.PushSlotAsWrittenAgrees` | fifo_buf.h:206 | while tail+available fits in an int, the C expression selects the same slot as PushSlot |
| `FifoBuf.PushSlotAsWrittenOverflows` | fifo_buf.h:206 | for size 2^30+1 and tail = available = 2^30 the C expression yields -(2^30-1), an index below the storage |
| `FifoBuf.QueueAfterPush` | fifo_buf.h:205-209 | writing at the push slot appends the value to the unread queue and leaves every unread entry in place |
| `FifoBuf.QueueAfterPop` | fifo_buf.h:243-248 | the slot at tail holds the head of the queue; advancing tail with wrap-around and decrementing the count leaves the rest of the queue |
| `FifoBuf.AdvancedSlot` | fifo_buf.h:248 | `i` slots past the advanced tail is `i + 1` slots past the old tail, modulo size |
| `FifoBuf.QueueAfterPushAll` | fifo_buf.h:205-209 | pushing a sequence of values (room permitting) appends exactly that sequence to the queue |
| `FifoBuf.DrainedIsQueue` | fifo_buf.h:243-248 | popping until empty returns the unread entries in queue order |
| `FifoBuf.FirstInFirstOut` | fifo_buf.h:205-248 | values pushed onto an empty queue are popped in the order they were pushed, whatever the storage held and wherever tail stood |
| `RingBuf.RingBuffer.Empty` | ring_buf.h:48-69 | the empty struct: no storage, size and index 0, not initialized, nothing retained |
| `RingBuf.RingBuffer.Alloc` | ring_buf.h:84-112 | fails iff size < 2, with nothing changed; already allocated at that size: succeeds, fields and contents preserved; otherwise fresh storage of `size` zero slots with index 0, so every position 0..size-1 reads zero |
| `RingBuf.RingBuffer.Free` | ring_buf.h:124-134 | from any state, succeeds and leaves the empty state, so a second call changes nothing |
| `RingBuf.RingBuffer.Reset` | ring_buf.h:144-159 | fails iff uninitialized; otherwise every slot is zero and index = 0, same storage and size, every position reads zero |
| `RingBuf.RingBuffer.Insert` | ring_buf.h:173-192 | fails iff uninitialized, with nothing changed; otherwise index = (index+1)%size, the value is written there, every other slot is unchanged, and the value becomes position 0 with every retained value one position further back |
| `RingBuf.RingBuffer.GetValue` | ring_buf.h:207-228 | fails iff uninitialized or position is outside [0, size-1]; otherwise returns d[(index - position) mod size], the value inserted `position` inserts ago; nothing changes |
| `RingBuf.RingBuffer.GetValuePtr` | ring_buf.h:243-264 | same failures; otherwise the slot (index - position) mod size, which holds the value inserted `position` inserts ago |
| `RingBuf.Advance` | ring_buf.h:185-187 | the insert slot lies in [0, size) and equals (index+1) mod size |
| `RingBuf.LookBackSlot` | ring_buf.h:223-225 | the look-back slot lies in [0, size) and equals (index - position) mod size |
| `RingBuf.HistoryAfterInsert` | ring_buf.h:185-190 | after an insert, position 0 holds the new value and position k+1 the value previously at k; the oldest drops out |
| `RingBuf.HistoryAfterInsertAll` | ring_buf.h:161-192 | after inserting up to `size` values, they are looked back in reverse order of insertion, followed by the older values shifted back |
| `RingBuf.FullCycle` | test_ring_buf.c:60-68 | after `size` inserts the buffer holds exactly those values, newest first: position 0 is the last inserted, position size-1 the first |
| `Drivers.FifoDemo` | test_fifo_buf.c:45-109 | with size 3: pop on empty fails, available 0; push 1, available 1, pop gives 1, available 0; pop on empty fails; 2,3,4 pushed, pushing 5 fails, available 3; pops give 2,3,4, available 0; push 1, available 1, pop gives 1, available 0; push 5 and 6, available 2; pops through slots read 5 (available 1) then 6 (available 0) |
| `Drivers.FifoSingle` | test_fifo_buf.c:54-69 | pop on empty fails, available 0; push 1, available 1; pop gives 1, available 0; a further pop fails |
| `Drivers.FifoFill` | test_fifo_buf.c:72-78 | pushes of 2,3,4 succeed, the fourth push fails, available is 3 |
| `Drivers.FifoDrain` | test_fifo_buf.c:80-83 | three pops give 2, 3, 4 and available is 0 |
| `Drivers.FifoThroughSlots` | test_fifo_buf.c:86-103 | push 1, available 1; pop gives 1, available 0; push 5 and 6, available 2; the pops through slots read 5, available 1, then 6, available 0 |
| `Drivers.RingDemo` | test_ring_buf.c:47-73 | with size 3: fresh reads 0 0 0; after inserting 0,1,2 reads 2 1 0; after inserting 0,1,2,3 reads 3 2 1, the same through slots |

## Findings

| source | as written | input that shows it | evidently intended | confidence | as-written member | corrected member |
|---|---|---|---|---|---|---|
| fifo_buf.h:206 | `(buf->tail + buf->available) % buf->size` adds two `int`s before reducing | size 2^30+1, tail = available = 2^30 (reachable: push and pop 2^30 values, then push 2^30 more; the buffer is not full). The sum exceeds INT_MAX. With 32-bit wrap-around and C's truncating `%`, the write index is -(2^30-1). | the slot (tail + available) mod size, always inside the storage | low: it needs over 2^30 slots, and signed overflow is undefined behaviour, so the wrap-around is assumed; not executed | `FifoBuf.PushSlotAsWrittenOverflows` | `FifoBuf.PushSlot` |

## Left out

- NULL `buf` pointers: a class reference is never null, so the
  `buf==NULL` branches of every function are not modelled.
- `calloc` failure (fifo_buf.h:104-107, ring_buf.h:104-107): allocation
  always succeeds and yields a fresh array. `free` is the dropping of the
  reference.
- `fprintf(stderr, …)` diagnostics and the `likely`/`unlikely` hints:
  output and compiler hints, with no effect on state or results.
- The `-1.0f` sentinels in the int-returning get/pop functions: every
  failure is the single `Err` / `Failure` result.
- The `_ptr` variants' aliasing: they return the slot index, not a
  pointer that stays live into the storage.
- `#define FIFOBUF_TYPE` / `RINGBUF_TYPE` genericity: it becomes a type
  parameter `T` with a `zero: T` constant. test_fifo_buf.c leaves its
  `#define FIFOBUF_TYPE int` commented out; the model uses `int`, as the
  driver's `%d` output implies.
- Struct contents that never went through `*_empty` or `*_INITIALIZER`:
  every operation but `free` requires `Valid()`, the invariant of the
  reachable states. The C functions accept any bytes and misbehave on
  garbage.
- `RingBuf.RingBuffer.GetValuePtr` tests the position before the
  initialized flag, like the C code, but as one condition. Both failures
  give the same result, so the order is not observable.
- The `initialized` flag is a `bool` rather than an `int`. The C code only
  ever stores 0 or 1 in it.
- The `printf` output of the two test drivers: the drivers are modelled
  only through the values they print.
