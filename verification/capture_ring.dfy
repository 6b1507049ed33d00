/** The concurrent capture ring of driver/gc573_capture.c as atomic steps.

    Three parties interleave freely: the FPGA writes queued slots, the interrupt
    handler reads the status, acknowledges it and decodes it under the engine lock,
    and the worker waits for a slot, copies it and queues it again.  A stop request
    may arrive at any time.

    The environment contract is: hardware starts at the slot after the last one it
    reported, takes queued slots in cyclic order (waiting at an unqueued slot or
    passing over it), overwrites a slot only while it is queued, and at each
    completion takes the slot out of the queue, reports it in 0x300 and raises
    interrupt bit 1, which only the acknowledgement clears.
 */
module CaptureRing {
  import opened Bytes
  import opened DmaRing

  /** What a slot's memory holds: frames are numbered in the order of completion. */
  datatype Content = Unwritten | Torn | Frame(number: nat)

  /** The kernel's completion object: `complete` adds one, a wait takes one, and
      `complete_all` makes every later wait succeed. */
  datatype Completion = Count(n: nat) | Permanent {
    function Complete(): Completion {
      if Count? then Count(n + 1) else this
    }
    function Take(): Completion {
      if Count? && n > 0 then Count(n - 1) else this
    }
    predicate Ready() {
      Permanent? || n > 0
    }
  }

  datatype Handler = Idle | Entered | StatusRead(status: nat) | Acked(status: nat)

  datatype Worker =
    | Ready | Waiting(slot: nat) | Woken(slot: nat) | Copying(slot: nat) | Releasing(slot: nat)
    | Failed | IrqOff | Drained

  datatype Hardware = Hardware(
    queue: set<nat>, cursor: nat, writing: Option<nat>, status: nat,
    irqBit: bool, irqEnabled: bool, frames: nat, memory: seq<Content>)

  datatype Driver = Driver(
    pending: set<nat>, next: nat, done: seq<Completion>, consume: nat, completedBank: nat,
    started: bool, ringActive: bool, stopping: bool)

  /** Absolute positions, kept only to state properties; no step depends on them.
      Position p is the p-th slot from `start` in cyclic order. */
  datatype History = History(
    start: nat, finished: nat, reported: nat, consumed: nat, released: nat, holes: set<nat>)

  /** `writingAt` is the position being overwritten, `seen` the completions counted
      by the handler's last status read. */
  datatype State = State(
    hw: Hardware, driver: Driver, handler: Handler, worker: Worker,
    output: seq<Content>, h: History, writingAt: nat, seen: nat)

  const ALL_SLOTS := {0, 1, 2, 3}
  const NONE_DONE := [Count(0), Count(0), Count(0), Count(0)]

  // ---------------------------------------------------------------- steps

  /** cap_enable: every completion is fresh, nothing is queued, interrupt cleared. */
  ghost predicate Init(s: State) {
    && s.hw.queue == {} && s.hw.writing == None && !s.hw.irqBit && s.hw.irqEnabled
    && s.hw.status <= SLOTS && s.hw.cursor == s.hw.status % SLOTS
    && s.hw.frames == 0 && |s.hw.memory| == SLOTS
    && s.driver.pending == {} && s.driver.next == 0 && s.driver.done == NONE_DONE
    && !s.driver.started && s.driver.ringActive
    && s.handler == Idle && s.worker == Worker.Ready && s.output == []
    && s.h == History(s.hw.cursor, 0, 0, 0, 0, {})
  }

  /** Hardware takes the first queued slot at or after its cursor and starts to
      overwrite it. */
  ghost predicate HwBegin(s: State, s': State) {
    exists skip ::
      && 0 <= skip < SLOTS && HwBeginAt(s, s', skip)
  }

  ghost predicate HwBeginAt(s: State, s': State, skip: nat) {
    var slot := SlotOf(s.hw.cursor, skip);
    && s.hw.writing == None && slot in s.hw.queue && |s.hw.memory| == SLOTS
    && (forall k :: 0 <= k < skip ==> SlotOf(s.hw.cursor, k) !in s.hw.queue)
    && s' == s.(hw := s.hw.(writing := Some(slot), memory := s.hw.memory[slot := Torn]),
                writingAt := s.h.finished + skip)
  }

  /** The frame is complete: status and interrupt bit are raised together. */
  ghost predicate HwEnd(s: State, s': State) {
    && s.hw.writing.Some? && s.hw.writing.value < |s.hw.memory|
    && var slot := s.hw.writing.value;
       s' == s.(hw := s.hw.(queue := s.hw.queue - {slot}, cursor := (slot + 1) % SLOTS, writing := None,
                            status := slot + 1, irqBit := true, frames := s.hw.frames + 1,
                            memory := s.hw.memory[slot := Frame(s.hw.frames)]),
                h := s.h.(finished := s.writingAt + 1))
  }

  /** cap_interrupt finds bit 1 set in 0x10. */
  ghost predicate IrqEnter(s: State, s': State) {
    && s.handler == Idle && s.hw.irqEnabled && s.hw.irqBit
    && s' == s.(handler := Entered)
  }

  /** ... reads 0x300 ... */
  ghost predicate IrqReadStatus(s: State, s': State) {
    && s.handler == Entered
    && s' == s.(handler := StatusRead(s.hw.status), seen := s.h.finished)
  }

  /** ... and only then acknowledges, which also clears the bit of any completion
      that came in between. */
  ghost predicate IrqAck(s: State, s': State) {
    && s.handler.StatusRead?
    && s' == s.(handler := Acked(s.handler.status), hw := s.hw.(irqBit := false))
  }

  /** The locked decode: complete() on every slot the status reveals. */
  ghost predicate IrqDecode(s: State, s': State) {
    && s.handler.Acked? && s.driver.ringActive && s.driver.next < SLOTS && |s.driver.done| == SLOTS
    && var done := Completed(s.driver.pending, s.driver.next, s.handler.status);
       s' == s.(handler := Idle, driver := Decoded(s.driver, s.handler.status),
                h := s.h.(reported := if done == {} then s.h.reported else s.seen))
  }

  function Decoded(d: Driver, status: nat): Driver
    requires d.next < SLOTS
  {
    var done := Completed(d.pending, d.next, status);
    d.(pending := d.pending - done, next := if done == {} then d.next else status % SLOTS,
       done := CompleteEach(d.done, done))
  }

  function Armed(d: Driver, status: nat): Driver {
    var first := status % SLOTS;
    d.(consume := first, next := first, pending := ALL_SLOTS, started := true)
  }

  function Accepted(d: Driver, slot: nat): Driver {
    d.(completedBank := slot, consume := (slot + 1) % SLOTS)
  }

  function Refilled(d: Driver, slot: nat): Driver
    requires slot < |d.done|
  {
    d.(done := d.done[slot := Count(0)], pending := d.pending + {slot})
  }

  function CompleteEach(done: seq<Completion>, slots: set<nat>): (r: seq<Completion>)
    ensures |r| == |done|
    ensures forall i :: 0 <= i < |done| ==> r[i] == if i in slots then done[i].Complete() else done[i]
  {
    seq(|done|, i requires 0 <= i < |done| => if i in slots then done[i].Complete() else done[i])
  }

  /** First cap_ring_transfer: queue all four slots from the one after the last status. */
  ghost predicate Arm(s: State, s': State) {
    && s.worker == Worker.Ready && !s.driver.started && !s.driver.stopping
    && s' == s.(driver := Armed(s.driver, s.hw.status), hw := s.hw.(queue := ALL_SLOTS),
                worker := Waiting(s.hw.status % SLOTS))
  }

  ghost predicate Wait(s: State, s': State) {
    && s.worker == Worker.Ready && s.driver.started && !s.driver.stopping
    && s' == s.(worker := Waiting(s.driver.consume))
  }

  ghost predicate Wake(s: State, s': State) {
    && s.worker.Waiting? && s.worker.slot < |s.driver.done| && s.driver.done[s.worker.slot].Ready()
    && var slot := s.worker.slot;
       s' == s.(worker := Woken(slot), driver := s.driver.(done := s.driver.done[slot := s.driver.done[slot].Take()]))
  }

  /** The stop flag is checked again after the wait; only then is the slot taken. */
  ghost predicate Accept(s: State, s': State) {
    && s.worker.Woken? && !s.driver.stopping
    && s' == s.(worker := Copying(s.worker.slot), driver := Accepted(s.driver, s.worker.slot),
                h := s.h.(consumed := s.h.consumed + 1))
  }

  /** cap_copy of the completed bank into the caller's buffer. */
  ghost predicate Copy(s: State, s': State) {
    && s.worker.Copying? && s.driver.completedBank < |s.hw.memory|
    && s' == s.(worker := Releasing(s.driver.completedBank), output := s.output + [s.hw.memory[s.driver.completedBank]])
  }

  /** cap_ring_refill's early return leaves this slot out of the queue for good. */
  ghost predicate SkipRefill(s: State, s': State) {
    && s.worker.Releasing?
    && s' == s.(worker := Worker.Ready,
                h := s.h.(released := s.h.released + 1, holes := s.h.holes + {s.h.released + SLOTS}))
  }

  /** cap_ring_refill under the engine lock. */
  ghost predicate Refill(s: State, s': State) {
    && s.worker.Releasing? && s.worker.slot < |s.driver.done|
    && var slot := s.worker.slot;
       s' == s.(worker := Worker.Ready,
                driver := Refilled(s.driver, slot),
                hw := s.hw.(queue := s.hw.queue + {slot}),
                h := s.h.(released := s.h.released + 1))
  }

  /** The same when 0x304 was read earlier than it is written back: the bits that were
      set at the read are all set again. */
  ghost predicate RefillFrom(s: State, s': State, snapshot: set<nat>) {
    && s.worker.Releasing? && s.worker.slot < |s.driver.done|
    && s' == s.(worker := Worker.Ready, driver := Refilled(s.driver, s.worker.slot),
                hw := s.hw.(queue := snapshot + {s.worker.slot}),
                h := s.h.(released := s.h.released + 1))
  }

  /** Lost input, time-out, stop request or guard failure before any copy. */
  ghost predicate Fail(s: State, s': State) {
    && (s.worker.Ready? || s.worker.Waiting? || s.worker.Woken? || s.worker.Copying?)
    && s' == s.(worker := Failed)
  }

  /** cap_stop_streaming: the flag first, complete_all afterwards. */
  ghost predicate Stop(s: State, s': State) {
    s' == s.(driver := s.driver.(stopping := true))
  }

  ghost predicate WakeAll(s: State, s': State) {
    && s.driver.stopping
    && s' == s.(driver := s.driver.(done := [Permanent, Permanent, Permanent, Permanent]))
  }

  /** cap_stop masks the interrupt ... */
  ghost predicate MaskIrq(s: State, s': State) {
    && s.worker == Failed
    && s' == s.(worker := IrqOff, hw := s.hw.(irqEnabled := false))
  }

  /** ... waits for a running handler, then stops the ring and the hardware. */
  ghost predicate Drain(s: State, s': State) {
    && s.worker == IrqOff && s.handler == Idle
    && s' == s.(worker := Drained, driver := s.driver.(ringActive := false),
                hw := s.hw.(queue := {}, writing := None))
  }

  /** Recovery after signal loss starts over with cap_enable. */
  ghost predicate Restart(s: State, s': State) {
    s.worker == Drained && Init(s')
  }

  ghost predicate Next(s: State, s': State) {
    || HwBegin(s, s') || HwEnd(s, s')
    || IrqEnter(s, s') || IrqReadStatus(s, s') || IrqAck(s, s') || IrqDecode(s, s')
    || Arm(s, s') || Wait(s, s') || Wake(s, s') || Accept(s, s') || Copy(s, s')
    || SkipRefill(s, s') || Refill(s, s') || Fail(s, s')
    || Stop(s, s') || WakeAll(s, s') || MaskIrq(s, s') || Drain(s, s') || Restart(s, s')
  }

  ghost predicate StepAt(run: seq<State>, i: nat)
    requires i + 1 < |run|
  {
    Next(run[i], run[i + 1])
  }

  /** A run: any interleaving whatsoever, of any length. */
  ghost predicate Run(run: seq<State>) {
    && |run| > 0 && Init(run[0])
    && forall i :: 0 <= i < |run| - 1 ==> StepAt(run, i)
  }

  // ------------------------------------------------------------ invariant

  /** The slot at absolute position p: one after the slot at position p - 1. */
  function Slot(start: nat, p: nat): (s: nat)
    ensures s < SLOTS
  {
    if p == 0 then start % SLOTS
    else var before := Slot(start, p - 1); if before + 1 == SLOTS then 0 else before + 1
  }

  /** Position p has been handed to the hardware. */
  ghost predicate Queued(h: History, p: nat) {
    p < h.released + SLOTS && p !in h.holes
  }

  /** No slot before position p was left out of the queue. */
  ghost predicate Gapless(h: History, p: nat) {
    forall k :: k in h.holes ==> p <= k
  }

  /** Who is ahead of whom: a slot is queued, finished, reported, consumed, released. */
  ghost predicate Order(h: History) {
    && h.start < SLOTS
    && h.released <= h.consumed <= h.reported <= h.finished <= h.released + SLOTS
    && h.consumed <= h.released + 1
    && (forall k :: k in h.holes ==> k < h.released + SLOTS)
    && Gapless(h, h.reported)
  }

  /** Up to the first slot left out, positions and frames are counted alike. */
  ghost predicate FrameShape(h: History, frames: nat) {
    && (Gapless(h, h.finished) ==> frames == h.finished)
    && forall p: nat :: p <= h.finished && Gapless(h, p) ==> p <= frames
  }

  ghost predicate CursorShape(h: History, status: nat, cursor: nat) {
    && status <= SLOTS && cursor == status % SLOTS == Slot(h.start, h.finished)
    && (0 < h.finished ==> status == Slot(h.start, h.finished - 1) + 1)
  }

  /** The slot being overwritten is queued, and only unqueued ones were passed over. */
  ghost predicate WritingShape(h: History, writing: Option<nat>, at: nat) {
    writing.Some? ==>
      && h.finished <= at < h.finished + SLOTS && Queued(h, at)
      && writing.value == Slot(h.start, at)
      && forall k :: h.finished <= k < at ==> !Queued(h, k)
  }

  ghost predicate QueueShape(h: History, queue: set<nat>) {
    forall p :: h.finished <= p < h.finished + SLOTS ==> (Slot(h.start, p) in queue <==> Queued(h, p))
  }

  ghost predicate PendingShape(h: History, pending: set<nat>, next: nat) {
    && next == Slot(h.start, h.reported)
    && forall p :: h.reported <= p < h.reported + SLOTS ==> (Slot(h.start, p) in pending <==> Queued(h, p))
  }

  /** Finished frames that the worker has not let go are intact. */
  ghost predicate MemoryShape(h: History, memory: seq<Content>) {
    && |memory| == SLOTS
    && forall p :: h.released <= p < h.finished && Gapless(h, p + 1) ==> memory[Slot(h.start, p)] == Frame(p)
  }

  predicate GivenUp(s: State) {
    s.driver.stopping || s.worker.Failed? || s.worker.IrqOff?
  }

  /** One count for every slot reported and not yet waited for.  A woken worker has
      used its count up already; one that has given up never waits again. */
  ghost predicate CountShape(h: History, done: seq<Completion>, givenUp: bool, woken: bool) {
    var taken := h.consumed + if woken then 1 else 0;
    && |done| == SLOTS
    && (!givenUp ==>
          && taken <= h.reported
          && forall p :: taken <= p < taken + SLOTS ==>
               done[Slot(h.start, p)] == Count(if p < h.reported then 1 else 0))
  }

  /** A raised bit means unreported completions; during the handler's work it means
      completions after its status read. */
  ghost predicate HandlerShape(h: History, handler: Handler, irqBit: bool, seen: nat) {
    && (handler.Idle? && irqBit ==> h.reported < h.finished)
    && (handler.Entered? ==> h.reported < h.finished)
    && (handler.StatusRead? || handler.Acked? ==>
          h.reported < seen <= h.finished && handler.status == Slot(h.start, seen - 1) + 1)
    && (handler.Acked? && irqBit ==> seen < h.finished)
  }

  ghost predicate WorkerShape(h: History, worker: Worker, consume: nat, completedBank: nat) {
    && consume == Slot(h.start, h.consumed)
    && (worker.Ready? || worker.Waiting? || worker.Woken? ==> h.consumed == h.released)
    && (worker.Waiting? || worker.Woken? ==> worker.slot == Slot(h.start, h.consumed))
    && (worker.Copying? || worker.Releasing? ==>
          && h.consumed == h.released + 1
          && worker.slot == completedBank == Slot(h.start, h.consumed - 1))
  }

  /** The worker's copies so far are exactly frames 0, 1, 2, ... */
  ghost predicate InOrder(output: seq<Content>) {
    forall i :: 0 <= i < |output| ==> output[i] == Frame(i)
  }

  ghost predicate OutputShape(h: History, worker: Worker, output: seq<Content>) {
    && InOrder(output)
    && (worker.Ready? || worker.Waiting? || worker.Woken? || worker.Releasing? ==> |output| == h.consumed)
    && (worker.Copying? ==> |output| + 1 == h.consumed)
  }

  /** Before the first transfer nothing has moved. */
  ghost predicate Unstarted(s: State) {
    && s.h == History(s.hw.cursor, 0, 0, 0, 0, {}) && s.output == []
    && s.hw.queue == {} && s.hw.writing == None && s.driver.pending == {} && s.hw.frames == 0
    && !s.hw.irqBit && s.handler == Idle
    && |s.hw.memory| == SLOTS && s.hw.status <= SLOTS && s.hw.cursor == s.hw.status % SLOTS
    && |s.driver.done| == SLOTS && (!s.driver.stopping ==> s.driver.done == NONE_DONE)
    && (s.worker.Ready? || s.worker.Failed? || s.worker.IrqOff?)
    && s.driver.ringActive && !s.driver.started
  }

  ghost predicate Started(s: State) {
    && s.driver.started && s.driver.ringActive && !s.worker.Drained?
    && Order(s.h)
    && FrameShape(s.h, s.hw.frames)
    && CursorShape(s.h, s.hw.status, s.hw.cursor)
    && WritingShape(s.h, s.hw.writing, s.writingAt)
    && QueueShape(s.h, s.hw.queue)
    && PendingShape(s.h, s.driver.pending, s.driver.next)
    && MemoryShape(s.h, s.hw.memory)
    && CountShape(s.h, s.driver.done, GivenUp(s), s.worker.Woken?)
    && HandlerShape(s.h, s.handler, s.hw.irqBit, s.seen)
    && WorkerShape(s.h, s.worker, s.driver.consume, s.driver.completedBank)
    && OutputShape(s.h, s.worker, s.output)
  }

  ghost predicate Stopped(s: State) {
    && s.worker == Drained && s.handler == Idle && InOrder(s.output)
    && s.hw.queue == {} && s.hw.writing == None && !s.hw.irqEnabled && !s.driver.ringActive
  }

  ghost predicate Inv(s: State) {
    Started(s) || Unstarted(s) || Stopped(s)
  }
}
