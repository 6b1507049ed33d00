/** Every step of the capture ring keeps the invariant, so every run delivers the
    frames in order, whole, and never shares a slot between hardware and copy. */
module CaptureRingSafety {
  import opened DmaRing
  import opened Bytes
  import opened CaptureRing

  // ------------------------------------------------------- ring geometry

  lemma NextResidue(n: nat)
    ensures (n + 1) % 4 == if n % 4 + 1 == 4 then 0 else n % 4 + 1
  {
  }

  lemma {:induction false} SlotIsCyclic(start: nat, p: nat)
    ensures Slot(start, p) == SlotOf(start, p)
  {
    if p > 0 {
      SlotIsCyclic(start, p - 1);
      NextResidue(start + p - 1);
    }
  }

  /** Positions share a slot exactly when they are whole laps apart. */
  lemma SlotGeometry(start: nat)
    ensures forall p: nat, q: nat {:trigger Slot(start, p), Slot(start, q)} ::
              p < q <= p + SLOTS ==> (Slot(start, p) == Slot(start, q) <==> q == p + SLOTS)
  {
    forall p: nat, q: nat | p < q <= p + SLOTS
      ensures Slot(start, p) == Slot(start, q) <==> q == p + SLOTS
    {
      SlotIsCyclic(start, p);
      SlotIsCyclic(start, q);
    }
  }

  /** Counting slots from position p gives the same ring. */
  lemma SlotFrom(start: nat, p: nat)
    ensures forall k: nat {:trigger SlotOf(Slot(start, p), k)} :: SlotOf(Slot(start, p), k) == Slot(start, p + k)
  {
    forall k: nat ensures SlotOf(Slot(start, p), k) == Slot(start, p + k) {
      SlotIsCyclic(start, p);
      SlotIsCyclic(start, p + k);
    }
  }

  // ------------------------------------------------------ hardware steps

  lemma WritingStarts(h: History, queue: set<nat>, cursor: nat, status: nat, skip: nat)
    requires Order(h) && CursorShape(h, status, cursor) && QueueShape(h, queue)
    requires skip < SLOTS && SlotOf(cursor, skip) in queue
    requires forall k :: 0 <= k < skip ==> SlotOf(cursor, k) !in queue
    ensures WritingShape(h, Some(SlotOf(cursor, skip)), h.finished + skip)
  {
    SlotFrom(h.start, h.finished);
    forall k | h.finished <= k < h.finished + skip ensures !Queued(h, k) {
      assert SlotOf(cursor, k - h.finished) !in queue;
    }
    assert SlotOf(cursor, skip) == Slot(h.start, h.finished + skip);
  }

  /** Only slots outside the window that software still owns are overwritten. */
  lemma MemoryKept(h: History, memory: seq<Content>, at: nat, value: Content)
    requires Order(h) && MemoryShape(h, memory) && h.finished <= at < h.released + SLOTS
    ensures MemoryShape(h, memory[Slot(h.start, at) := value])
  {
    SlotGeometry(h.start);
    forall p | h.released <= p < h.finished && Gapless(h, p + 1)
      ensures memory[Slot(h.start, at) := value][Slot(h.start, p)] == Frame(p)
    {
      assert Slot(h.start, p) != Slot(h.start, at);
    }
  }

  lemma HwBeginKeeps(s: State, s': State)
    requires Started(s) && HwBegin(s, s')
    ensures Started(s')
  {
    var skip: nat :| skip < SLOTS && HwBeginAt(s, s', skip);
    WritingStarts(s.h, s.hw.queue, s.hw.cursor, s.hw.status, skip);
    assert Queued(s.h, s'.writingAt) && s'.hw.writing.value == Slot(s.h.start, s'.writingAt);
    MemoryKept(s.h, s.hw.memory, s'.writingAt, Torn);
    hide Order, FrameShape, CursorShape, WritingShape, QueueShape, PendingShape, MemoryShape, CountShape,
         HandlerShape, WorkerShape, OutputShape;
  }

  lemma FinishOrder(h: History, h': History, at: nat, slot: nat, frames: nat)
    requires Order(h) && FrameShape(h, frames) && WritingShape(h, Some(slot), at)
    requires h' == h.(finished := at + 1)
    ensures Order(h') && CursorShape(h', slot + 1, (slot + 1) % SLOTS)
    ensures FrameShape(h', frames + 1)
    ensures Gapless(h', h'.finished) ==> at == h.finished == frames
  {
    assert Slot(h.start, at + 1) == if Slot(h.start, at) + 1 == SLOTS then 0 else Slot(h.start, at) + 1;
    if h.finished < at {
      assert !Queued(h, h.finished);
    }
    forall p: nat | p <= h'.finished && Gapless(h', p) ensures p <= frames + 1 {
      assert Gapless(h, p);
      assert p > h.finished ==> Gapless(h, h.finished);
    }
  }

  lemma FinishQueue(h: History, h': History, at: nat, slot: nat, queue: set<nat>)
    requires Order(h) && QueueShape(h, queue) && WritingShape(h, Some(slot), at)
    requires h' == h.(finished := at + 1)
    ensures QueueShape(h', queue - {slot})
  {
    SlotGeometry(h.start);
    forall p | at + 1 <= p < at + 1 + SLOTS
      ensures Slot(h'.start, p) in queue - {slot} <==> Queued(h', p)
    {
      if p < h.finished + SLOTS {
        assert Slot(h.start, p) != Slot(h.start, at);
        assert Queued(h, p) == Queued(h', p);
      } else {
        assert Slot(h.start, p) == Slot(h.start, p - SLOTS);
        assert p - SLOTS == at || !Queued(h, p - SLOTS);
      }
    }
  }

  lemma FinishMemory(h: History, h': History, at: nat, slot: nat, memory: seq<Content>, frames: nat)
    requires Order(h) && FrameShape(h, frames) && WritingShape(h, Some(slot), at) && MemoryShape(h, memory)
    requires h' == h.(finished := at + 1)
    ensures MemoryShape(h', memory[slot := Frame(frames)])
  {
    MemoryKept(h, memory, at, Frame(frames));
    FinishOrder(h, h', at, slot, frames);
    var m := memory[slot := Frame(frames)];
    forall k | h.finished <= k < at ensures k in h.holes {
      assert !Queued(h, k);
    }
    forall p | h'.released <= p < h'.finished && Gapless(h', p + 1) ensures m[Slot(h'.start, p)] == Frame(p) {
      assert h.finished <= p < at ==> p in h.holes;
      assert p < h.finished ==> Gapless(h, p + 1);
    }
  }

  lemma FinishRest(h: History, h': History, at: nat, handler: Handler, irqBit: bool, seen: nat)
    requires Order(h) && HandlerShape(h, handler, irqBit, seen) && h.finished <= at
    requires h' == h.(finished := at + 1)
    ensures HandlerShape(h', handler, true, seen)
  {
  }

  /** Predicates about software say nothing of the hardware's position. */
  lemma FinishSoftware(s: State, h': History)
    requires Started(s) && h' == s.h.(finished := h'.finished)
    ensures PendingShape(h', s.driver.pending, s.driver.next)
    ensures CountShape(h', s.driver.done, GivenUp(s), s.worker.Woken?)
    ensures WorkerShape(h', s.worker, s.driver.consume, s.driver.completedBank)
    ensures OutputShape(h', s.worker, s.output)
  {
    hide Order, FrameShape, CursorShape, WritingShape, QueueShape, MemoryShape, HandlerShape;
    forall p | h'.reported <= p < h'.reported + SLOTS
      ensures Slot(h'.start, p) in s.driver.pending <==> Queued(h', p)
    {
      assert Queued(s.h, p) == Queued(h', p);
    }
  }

  lemma HwEndKeeps(s: State, s': State)
    requires Started(s) && HwEnd(s, s')
    ensures Started(s')
  {
    var slot := s.hw.writing.value;
    assert s.h.finished <= s.writingAt by {
      hide Order, FrameShape, CursorShape, QueueShape, PendingShape, MemoryShape, CountShape, HandlerShape,
           WorkerShape, OutputShape;
    }
    hide Order, FrameShape, CursorShape, WritingShape, QueueShape, PendingShape, MemoryShape, CountShape,
         HandlerShape, WorkerShape, OutputShape;
    FinishOrder(s.h, s'.h, s.writingAt, slot, s.hw.frames);
    FinishQueue(s.h, s'.h, s.writingAt, slot, s.hw.queue);
    FinishMemory(s.h, s'.h, s.writingAt, slot, s.hw.memory, s.hw.frames);
    FinishRest(s.h, s'.h, s.writingAt, s.handler, s.hw.irqBit, s.seen);
    FinishSoftware(s, s'.h);
    assert WritingShape(s'.h, None, s'.writingAt);
  }

  // ------------------------------------------------------- handler steps

  lemma HandlerMoves(s: State, s': State)
    requires HandlerShape(s.h, s.handler, s.hw.irqBit, s.seen) && CursorShape(s.h, s.hw.status, s.hw.cursor)
    requires IrqEnter(s, s') || IrqReadStatus(s, s') || IrqAck(s, s')
    ensures HandlerShape(s'.h, s'.handler, s'.hw.irqBit, s'.seen)
  {
    hide CursorShape, Slot;
    CursorAtStatus(s.h, s.hw.status, s.hw.cursor);
  }

  lemma IrqStepsKeep(s: State, s': State)
    requires Started(s) && (IrqEnter(s, s') || IrqReadStatus(s, s') || IrqAck(s, s'))
    ensures Started(s')
  {
    hide Order, FrameShape, CursorShape, WritingShape, QueueShape, PendingShape, MemoryShape, CountShape,
         HandlerShape, WorkerShape, OutputShape;
    HandlerMoves(s, s');
  }

  lemma CursorAtStatus(h: History, status: nat, cursor: nat)
    requires CursorShape(h, status, cursor)
    ensures 0 < h.finished ==> status == Slot(h.start, h.finished - 1) + 1
  {
  }

  ghost predicate Decodable(h: History, pending: set<nat>, next: nat, status: nat, seen: nat) {
    && Order(h) && PendingShape(h, pending, next)
    && h.reported < seen <= h.finished && status == Slot(h.start, seen - 1) + 1
  }

  lemma DecodeGapless(h: History, pending: set<nat>, next: nat, status: nat, seen: nat)
    requires Decodable(h, pending, next, status, seen) && Gapless(h, seen)
    ensures var done := Completed(pending, next, status);
      done == Span(next, seen - h.reported) && done != {} && status % SLOTS == Slot(h.start, seen)
  {
    hide SlotOf, Slot, Span, Completed;
    var count := seen - h.reported;
    SlotIsCyclic(h.start, h.reported);
    SlotIsCyclic(h.start, seen - 1);
    SlotIsCyclic(h.start, seen);
    SpanMembers(next, count);
    SlotFrom(h.start, h.reported);
    forall x | x in Span(next, count) ensures x in pending {
      var k :| 0 <= k < count && x == SlotOf(next, k);
      assert x == Slot(h.start, h.reported + k) && Queued(h, h.reported + k);
    }
    DecodeExact(pending, h.start, h.reported, count, status);
    assert SlotOf(next, 0) in Span(next, count);
  }

  lemma DecodeAtHole(h: History, pending: set<nat>, next: nat, status: nat, seen: nat)
    requires Decodable(h, pending, next, status, seen) && !Gapless(h, seen)
    ensures Completed(pending, next, status) == {}
  {
    var hole :| hole in h.holes && hole < seen;
    assert !Queued(h, hole);
    SlotIsCyclic(h.start, h.reported);
    SlotIsCyclic(h.start, seen - 1);
    SlotIsCyclic(h.start, hole);
    DecodeStopsAtHole(pending, h.start, h.reported, seen - h.reported, status, hole - h.reported);
  }

  /** The locked decode yields exactly the completions up to the status read, unless
      a slot among them was never queued again: then it yields nothing. */
  lemma DecodeYields(h: History, pending: set<nat>, next: nat, status: nat, seen: nat)
    requires Decodable(h, pending, next, status, seen)
    ensures var done := Completed(pending, next, status);
      if Gapless(h, seen)
      then done == Span(next, seen - h.reported) && done != {} && status % SLOTS == Slot(h.start, seen)
      else done == {}
  {
    if Gapless(h, seen) {
      DecodeGapless(h, pending, next, status, seen);
    } else {
      DecodeAtHole(h, pending, next, status, seen);
    }
  }

  lemma DecodedSlots(h: History, done: set<nat>, next: nat, seen: nat)
    requires next == Slot(h.start, h.reported) && h.reported <= seen <= h.reported + SLOTS
    requires done == Span(next, seen - h.reported)
    ensures forall p :: h.reported <= p < h.reported + SLOTS ==> (Slot(h.start, p) in done <==> p < seen)
  {
    SlotGeometry(h.start);
    SlotFrom(h.start, h.reported);
    SpanMembers(next, seen - h.reported);
    forall p | h.reported <= p < h.reported + SLOTS
      ensures Slot(h.start, p) in done <==> p < seen
    {
      assert Slot(h.start, p) == SlotOf(next, p - h.reported);
      if Slot(h.start, p) in done {
        var k :| 0 <= k < seen - h.reported && Slot(h.start, p) == SlotOf(next, k);
        assert Slot(h.start, p) == Slot(h.start, h.reported + k);
      }
    }
  }

  lemma ReportPending(h: History, h': History, pending: set<nat>, next: nat, done: set<nat>, seen: nat)
    requires Order(h) && PendingShape(h, pending, next)
    requires h.reported < seen <= h.finished && done == Span(next, seen - h.reported)
    requires h' == h.(reported := seen)
    ensures PendingShape(h', pending - done, Slot(h.start, seen))
  {
    DecodedSlots(h, done, next, seen);
    SlotGeometry(h.start);
    forall p | seen <= p < seen + SLOTS
      ensures Slot(h'.start, p) in pending - done <==> Queued(h', p)
    {
      assert Queued(h', p) == Queued(h, p);
      if h.reported + SLOTS <= p {
        assert Slot(h.start, p) == Slot(h.start, p - SLOTS);
      }
    }
  }

  lemma ReportCounts(h: History, h': History, next: nat, done: set<nat>, seen: nat,
                     counts: seq<Completion>, givenUp: bool, woken: bool)
    requires Order(h) && CountShape(h, counts, givenUp, woken)
    requires woken ==> h.consumed == h.released
    requires next == Slot(h.start, h.reported)
    requires h.reported < seen <= h.finished && done == Span(next, seen - h.reported)
    requires h' == h.(reported := seen)
    ensures CountShape(h', CompleteEach(counts, done), givenUp, woken)
  {
    DecodedSlots(h, done, next, seen);
    SlotGeometry(h.start);
    var taken := h.consumed + if woken then 1 else 0;
    if !givenUp {
      forall p | taken <= p < taken + SLOTS
        ensures CompleteEach(counts, done)[Slot(h'.start, p)] == Count(if p < seen then 1 else 0)
      {
        if p < h.reported {
          assert Slot(h.start, p) == Slot(h.start, p + SLOTS);
          assert h.reported <= p + SLOTS < h.reported + SLOTS;
        }
      }
    }
  }

  lemma ReportRest(s: State, h': History)
    requires Started(s) && s.handler.Acked? && Gapless(s.h, s.seen) && h' == s.h.(reported := s.seen)
    ensures Order(h') && FrameShape(h', s.hw.frames) && CursorShape(h', s.hw.status, s.hw.cursor)
    ensures HandlerShape(h', Idle, s.hw.irqBit, s.seen)
  {
    hide WritingShape, QueueShape, PendingShape, MemoryShape, CountShape, WorkerShape, OutputShape;
    assert forall p :: Gapless(s.h, p) == Gapless(h', p);
  }

  /** The queue, the memory and the worker do not depend on what was reported. */
  lemma ReportFrame(s: State, h': History)
    requires Started(s) && h' == s.h.(reported := h'.reported)
    ensures WritingShape(h', s.hw.writing, s.writingAt) && QueueShape(h', s.hw.queue)
    ensures MemoryShape(h', s.hw.memory)
    ensures WorkerShape(h', s.worker, s.driver.consume, s.driver.completedBank)
    ensures OutputShape(h', s.worker, s.output)
  {
    hide Order, FrameShape, CursorShape, PendingShape, CountShape, HandlerShape;
    assert forall p :: Queued(s.h, p) == Queued(h', p);
    assert forall p :: Gapless(s.h, p) == Gapless(h', p);
  }

  lemma HandlerSaw(s: State)
    requires Started(s) && s.handler.Acked?
    ensures s.h.reported < s.seen <= s.h.finished && s.handler.status == Slot(s.h.start, s.seen - 1) + 1
    ensures s.driver.next == Slot(s.h.start, s.h.reported)
    ensures s.worker.Woken? ==> s.h.consumed == s.h.released
    ensures s.hw.irqBit ==> s.h.reported < s.h.finished
    ensures Decodable(s.h, s.driver.pending, s.driver.next, s.handler.status, s.seen)
  {
    hide FrameShape, CursorShape, WritingShape, QueueShape, MemoryShape, CountShape, OutputShape;
  }

  lemma IrqDecodeKeeps(s: State, s': State)
    requires Started(s) && IrqDecode(s, s')
    ensures Started(s')
  {
    hide SlotOf, Slot, Gapless, Decodable, Completed, Span, CompleteEach, Order, FrameShape, CursorShape,
         WritingShape, QueueShape, PendingShape, MemoryShape, CountShape, HandlerShape, WorkerShape,
         OutputShape;
    {
      hide Started;
      HandlerSaw(s);
      DecodeYields(s.h, s.driver.pending, s.driver.next, s.handler.status, s.seen);
    }
    if Gapless(s.h, s.seen) {
      ReportKeeps(s, s');
    } else {
      assert s.driver.pending - {} == s.driver.pending;
      assert CompleteEach(s.driver.done, {}) == s.driver.done;
      NoReport(s.h, s.handler, s.hw.irqBit, s.seen);
    }
  }

  lemma ReportKeeps(s: State, s': State)
    requires Started(s) && IrqDecode(s, s') && Gapless(s.h, s.seen)
    ensures Started(s')
  {
    hide SlotOf, Slot, Gapless, Decodable, Completed, Span, CompleteEach, Order, FrameShape, CursorShape,
         WritingShape, QueueShape, PendingShape, MemoryShape, CountShape, HandlerShape, WorkerShape,
         OutputShape;
    var done := Completed(s.driver.pending, s.driver.next, s.handler.status);
    {
      hide Started;
      HandlerSaw(s);
      DecodeYields(s.h, s.driver.pending, s.driver.next, s.handler.status, s.seen);
      ReportRest(s, s'.h);
      ReportFrame(s, s'.h);
    }
    ReportPending(s.h, s'.h, s.driver.pending, s.driver.next, done, s.seen);
    ReportCounts(s.h, s'.h, s.driver.next, done, s.seen, s.driver.done, GivenUp(s), s.worker.Woken?);
  }

  lemma NoReport(h: History, handler: Handler, irqBit: bool, seen: nat)
    requires HandlerShape(h, handler, irqBit, seen) && handler.Acked?
    ensures HandlerShape(h, Idle, irqBit, seen)
  {
  }

  // -------------------------------------------------------- worker steps

  lemma ArmKeeps(s: State, s': State)
    requires Unstarted(s) && Arm(s, s')
    ensures Started(s')
  {
    var h := s'.h;
    assert forall p {:trigger Queued(h, p)} :: 0 <= p < SLOTS ==> Queued(h, p);
    assert forall p {:trigger Slot(h.start, p)} :: Slot(h.start, p) in ALL_SLOTS;
    if !s'.driver.stopping {
      assert forall p: nat {:trigger Slot(h.start, p)} :: s'.driver.done[Slot(h.start, p)] == Count(0);
    }
  }

  /** Taking the count of the slot waited for leaves every other count alone. */
  lemma WakeCounts(h: History, done: seq<Completion>, givenUp: bool)
    requires Order(h) && CountShape(h, done, givenUp, false)
    requires done[Slot(h.start, h.consumed)].Ready()
    ensures var slot := Slot(h.start, h.consumed);
      CountShape(h, done[slot := done[slot].Take()], givenUp, true)
  {
    SlotGeometry(h.start);
    var slot := Slot(h.start, h.consumed);
    var done' := done[slot := done[slot].Take()];
    if !givenUp {
      forall p | h.consumed + 1 <= p < h.consumed + 1 + SLOTS
        ensures done'[Slot(h.start, p)] == Count(if p < h.reported then 1 else 0)
      {
      }
    }
  }

  lemma WaitingFor(s: State)
    requires Started(s) && (s.worker.Waiting? || s.worker.Woken?)
    ensures s.worker.slot == Slot(s.h.start, s.h.consumed) && s.h.consumed == s.h.released
    ensures |s.driver.done| == SLOTS
  {
    hide Order, FrameShape, CursorShape, WritingShape, QueueShape, PendingShape, MemoryShape, HandlerShape,
         OutputShape;
  }

  lemma WorkerMoves(h: History, from: Worker, to: Worker, consume: nat, bank: nat, output: seq<Content>)
    requires WorkerShape(h, from, consume, bank) && OutputShape(h, from, output)
    requires (from.Ready? && to == Waiting(consume)) || (from.Waiting? && to == Woken(from.slot)) || to.Failed? || to.IrqOff?
    ensures WorkerShape(h, to, consume, bank) && OutputShape(h, to, output)
  {
  }

  lemma NoMoreCounts(h: History, done: seq<Completion>, givenUp: bool, woken: bool)
    requires CountShape(h, done, givenUp, woken)
    ensures CountShape(h, done, true, false)
  {
  }

  lemma WaitStepsKeep(s: State, s': State)
    requires Started(s) && (Wait(s, s') || Wake(s, s') || Fail(s, s') || MaskIrq(s, s'))
    ensures Started(s')
  {
    if Wake(s, s') {
      WaitingFor(s);
    }
    if Fail(s, s') {
      NoMoreCounts(s.h, s.driver.done, GivenUp(s), s.worker.Woken?);
    }
    hide Order, FrameShape, CursorShape, WritingShape, QueueShape, PendingShape, MemoryShape, CountShape,
         HandlerShape, WorkerShape, OutputShape;
    if Wake(s, s') {
      WakeCounts(s.h, s.driver.done, GivenUp(s));
    }
    WorkerMoves(s.h, s.worker, s'.worker, s.driver.consume, s.driver.completedBank, s.output);
  }

  lemma StopStepsKeep(s: State, s': State)
    requires Started(s) && (Stop(s, s') || WakeAll(s, s'))
    ensures Started(s')
  {
    NoMoreCounts(s.h, s.driver.done, GivenUp(s), s.worker.Woken?);
    assert CountShape(s'.h, s'.driver.done, true, s'.worker.Woken?);
    hide Order, FrameShape, CursorShape, WritingShape, QueueShape, PendingShape, MemoryShape, CountShape,
         HandlerShape, WorkerShape, OutputShape;
  }

  /** A worker that is woken without a stop request has a reported, undisturbed frame. */
  lemma AcceptKeeps(s: State, s': State)
    requires Started(s) && Accept(s, s')
    ensures Started(s')
  {
    var h, h' := s.h, s'.h;
    WaitingFor(s);
    assert Order(h') && CountShape(h', s'.driver.done, GivenUp(s'), false) by {
      hide FrameShape, CursorShape, WritingShape, QueueShape, PendingShape, MemoryShape, HandlerShape,
           WorkerShape, OutputShape;
    }
    assert WorkerShape(h', s'.worker, s'.driver.consume, s'.driver.completedBank) && OutputShape(h', s'.worker, s'.output) by {
      hide Order, FrameShape, CursorShape, WritingShape, QueueShape, PendingShape, MemoryShape, HandlerShape,
           CountShape;
      assert Slot(h.start, h.consumed + 1) == if Slot(h.start, h.consumed) + 1 == SLOTS then 0 else Slot(h.start, h.consumed) + 1;
    }
    ConsumeFrame(s, h');
    hide Order, FrameShape, CursorShape, WritingShape, QueueShape, PendingShape, MemoryShape, CountShape,
         HandlerShape, WorkerShape, OutputShape;
  }

  /** The hardware and the decoder do not depend on what was consumed. */
  lemma ConsumeFrame(s: State, h': History)
    requires Started(s) && h' == s.h.(consumed := h'.consumed)
    ensures FrameShape(h', s.hw.frames) && CursorShape(h', s.hw.status, s.hw.cursor)
    ensures WritingShape(h', s.hw.writing, s.writingAt) && QueueShape(h', s.hw.queue)
    ensures PendingShape(h', s.driver.pending, s.driver.next) && MemoryShape(h', s.hw.memory)
    ensures HandlerShape(h', s.handler, s.hw.irqBit, s.seen)
  {
    hide Order, CountShape, WorkerShape, OutputShape;
    assert forall p :: Queued(s.h, p) == Queued(h', p);
    assert forall p :: Gapless(s.h, p) == Gapless(h', p);
  }

  /** While the worker copies, the slot holds the next frame and is out of the
      hardware's hands. */
  lemma CopiedSlotIsOwned(s: State)
    requires Started(s) && s.worker.Copying?
    ensures s.worker.slot == s.driver.completedBank == Slot(s.h.start, s.h.released) < |s.hw.memory|
    ensures s.worker.slot !in s.hw.queue && s.hw.writing != Some(s.worker.slot)
    ensures s.hw.memory[s.worker.slot] == Frame(|s.output|)
  {
    var h := s.h;
    SlotGeometry(h.start);
    assert h.released < h.finished <= h.released + SLOTS && Gapless(h, h.released + 1) && |s.output| == h.released by {
      hide FrameShape, CursorShape, WritingShape, QueueShape, PendingShape, MemoryShape, HandlerShape, CountShape;
    }
    assert Slot(h.start, h.released) == Slot(h.start, h.released + SLOTS);
    assert !Queued(h, h.released + SLOTS);
    assert s.worker.slot == s.driver.completedBank == Slot(h.start, h.released) by {
      hide Order, FrameShape, CursorShape, WritingShape, QueueShape, PendingShape, MemoryShape, HandlerShape,
           CountShape, OutputShape;
    }
    hide Order, FrameShape, CursorShape, PendingShape, CountShape, HandlerShape, WorkerShape, OutputShape;
  }

  lemma CopyKeeps(s: State, s': State)
    requires Started(s) && Copy(s, s')
    ensures Started(s')
  {
    CopiedSlotIsOwned(s);
    assert WorkerShape(s'.h, s'.worker, s'.driver.consume, s'.driver.completedBank) && OutputShape(s'.h, s'.worker, s'.output) by {
      hide Order, FrameShape, CursorShape, WritingShape, QueueShape, PendingShape, MemoryShape, HandlerShape,
           CountShape;
    }
    hide Order, FrameShape, CursorShape, WritingShape, QueueShape, PendingShape, MemoryShape, CountShape,
         HandlerShape, WorkerShape, OutputShape;
  }

  // ------------------------------------------------------- release steps

  /** The worker lets go of its slot: the next position on it is queued, or a hole. */
  ghost predicate Releases(h: History, h': History, refill: bool) {
    && h.released < h.consumed
    && h' == h.(released := h.released + 1, holes := if refill then h.holes else h.holes + {h.released + SLOTS})
  }

  lemma ReleaseQueued(h: History, h': History, refill: bool)
    requires Order(h) && Releases(h, h', refill)
    ensures forall p {:trigger Queued(h', p)} :: Queued(h', p) <==> Queued(h, p) || (refill && p == h.released + SLOTS)
    ensures forall p {:trigger Gapless(h', p)} :: Gapless(h', p) ==> Gapless(h, p)
    ensures forall p: nat {:trigger Gapless(h', p)} :: p <= h.released + SLOTS ==> (Gapless(h', p) <==> Gapless(h, p))
  {
    assert forall k :: k in h.holes ==> k in h'.holes;
  }

  /** Putting a released slot into a set keyed by slots adds exactly its next position. */
  lemma ReleaseSlots(h: History, h': History, refill: bool, slots: set<nat>, from: nat)
    requires Order(h) && Releases(h, h', refill)
    requires h.released < from <= h.released + SLOTS
    requires forall p :: from <= p < from + SLOTS ==> (Slot(h.start, p) in slots <==> Queued(h, p))
    ensures var slots' := if refill then slots + {Slot(h.start, h.released)} else slots;
      forall p :: from <= p < from + SLOTS ==> (Slot(h'.start, p) in slots' <==> Queued(h', p))
  {
    SlotGeometry(h.start);
    ReleaseQueued(h, h', refill);
    assert Slot(h.start, h.released) == Slot(h.start, h.released + SLOTS);
    forall p | from <= p < from + SLOTS
      ensures Slot(h.start, p) == Slot(h.start, h.released) <==> p == h.released + SLOTS
    {
      if p < h.released + SLOTS {
        assert Slot(h.start, p) != Slot(h.start, h.released + SLOTS);
      } else if h.released + SLOTS < p {
        assert Slot(h.start, h.released + SLOTS) != Slot(h.start, p);
      }
    }
  }

  lemma ReleaseHardware(h: History, h': History, refill: bool, hw: Hardware, at: nat)
    requires Order(h) && Releases(h, h', refill)
    requires FrameShape(h, hw.frames) && CursorShape(h, hw.status, hw.cursor)
    requires WritingShape(h, hw.writing, at) && QueueShape(h, hw.queue) && MemoryShape(h, hw.memory)
    ensures Order(h') && FrameShape(h', hw.frames) && CursorShape(h', hw.status, hw.cursor)
    ensures WritingShape(h', hw.writing, at) && MemoryShape(h', hw.memory)
    ensures QueueShape(h', if refill then hw.queue + {Slot(h.start, h.released)} else hw.queue)
  {
    ReleaseQueued(h, h', refill);
    ReleaseSlots(h, h', refill, hw.queue, h.finished);
    forall p | h'.released <= p < h'.finished && Gapless(h', p + 1) ensures hw.memory[Slot(h'.start, p)] == Frame(p) {
      assert Gapless(h, p + 1);
    }
  }

  lemma ReleaseCounts(h: History, h': History, refill: bool, done: seq<Completion>, givenUp: bool)
    requires Order(h) && Releases(h, h', refill) && CountShape(h, done, givenUp, false)
    ensures CountShape(h', if refill then done[Slot(h.start, h.released) := Count(0)] else done, givenUp, false)
  {
    SlotGeometry(h.start);
    if !givenUp {
      forall p | h.consumed <= p < h.consumed + SLOTS && Slot(h.start, p) == Slot(h.start, h.released)
        ensures h.reported <= p
      {
        assert p == h.released + SLOTS;
      }
    }
  }

  lemma ReleaseSoftware(s: State, h': History, refill: bool)
    requires Started(s) && s.worker.Releasing? && Releases(s.h, h', refill)
    ensures PendingShape(h', if refill then s.driver.pending + {Slot(s.h.start, s.h.released)} else s.driver.pending, s.driver.next)
    ensures HandlerShape(h', s.handler, s.hw.irqBit, s.seen)
    ensures WorkerShape(h', Worker.Ready, s.driver.consume, s.driver.completedBank)
    ensures OutputShape(h', Worker.Ready, s.output)
  {
    assert PendingShape(h', if refill then s.driver.pending + {Slot(s.h.start, s.h.released)} else s.driver.pending, s.driver.next) by {
      hide FrameShape, CursorShape, WritingShape, QueueShape, MemoryShape, CountShape, HandlerShape,
           WorkerShape, OutputShape;
      ReleaseSlots(s.h, h', refill, s.driver.pending, s.h.reported);
    }
    hide Order, FrameShape, CursorShape, WritingShape, QueueShape, PendingShape, MemoryShape, CountShape;
  }

  lemma Releasing(s: State)
    requires Started(s) && s.worker.Releasing?
    ensures s.h.released < s.h.consumed && s.worker.slot == Slot(s.h.start, s.h.released)
  {
    hide Order, FrameShape, CursorShape, WritingShape, QueueShape, PendingShape, MemoryShape, CountShape,
         HandlerShape, OutputShape;
  }

  lemma ReleaseKeeps(s: State, s': State, refill: bool)
    requires Started(s) && (if refill then Refill(s, s') else SkipRefill(s, s'))
    ensures Started(s')
  {
    Releasing(s);
    hide Order, FrameShape, CursorShape, WritingShape, QueueShape, PendingShape, MemoryShape, CountShape,
         HandlerShape, WorkerShape, OutputShape;
    ReleaseHardware(s.h, s'.h, refill, s.hw, s.writingAt);
    ReleaseCounts(s.h, s'.h, refill, s.driver.done, GivenUp(s));
    ReleaseSoftware(s, s'.h, refill);
  }

  // ------------------------------------------------------------- the runs

  lemma InitInv(s: State)
    requires Init(s)
    ensures Inv(s)
  {
  }

  lemma DrainKeeps(s: State, s': State)
    requires (Started(s) || Unstarted(s)) && MaskedWhenOff(s) && Drain(s, s')
    ensures Stopped(s')
  {
    hide Order, FrameShape, CursorShape, WritingShape, QueueShape, PendingShape, MemoryShape, CountShape,
         HandlerShape, WorkerShape;
  }

  /** The interrupt stays masked from cap_stop until the ring is set up again. */
  ghost predicate MaskedWhenOff(s: State) {
    s.worker.IrqOff? || s.worker.Drained? <==> !s.hw.irqEnabled
  }

  /** One step of any party, whichever it is. */
  lemma NextKeeps(s: State, s': State)
    requires Inv(s) && MaskedWhenOff(s) && Next(s, s')
    ensures Inv(s') && MaskedWhenOff(s')
  {
    hide Order, FrameShape, CursorShape, WritingShape, QueueShape, PendingShape, MemoryShape, CountShape,
         HandlerShape, WorkerShape, OutputShape;
    if Restart(s, s') {
      InitInv(s');
    } else if Drain(s, s') {
      DrainKeeps(s, s');
    } else if Started(s) {
      StartedNext(s, s');
    } else if Arm(s, s') {
      ArmKeeps(s, s');
    }
  }

  lemma StartedNext(s: State, s': State)
    requires Started(s) && MaskedWhenOff(s) && Next(s, s') && !Restart(s, s') && !Drain(s, s')
    ensures Started(s') && MaskedWhenOff(s')
  {
    hide Order, FrameShape, CursorShape, WritingShape, QueueShape, PendingShape, MemoryShape, CountShape,
         HandlerShape, WorkerShape, OutputShape;
    if HwBegin(s, s') {
      HwBeginKeeps(s, s');
    } else if HwEnd(s, s') {
      HwEndKeeps(s, s');
    } else if IrqEnter(s, s') || IrqReadStatus(s, s') || IrqAck(s, s') {
      IrqStepsKeep(s, s');
    } else if IrqDecode(s, s') {
      IrqDecodeKeeps(s, s');
    } else if Accept(s, s') {
      AcceptKeeps(s, s');
    } else if Copy(s, s') {
      CopyKeeps(s, s');
    } else if Refill(s, s') {
      ReleaseKeeps(s, s', true);
    } else if SkipRefill(s, s') {
      ReleaseKeeps(s, s', false);
    } else if Stop(s, s') || WakeAll(s, s') {
      StopStepsKeep(s, s');
    } else {
      WaitStepsKeep(s, s');
    }
  }

  lemma {:induction false} RunInvariant(run: seq<State>, i: nat)
    requires Run(run) && i < |run|
    ensures Inv(run[i]) && MaskedWhenOff(run[i])
  {
    if i == 0 {
      InitInv(run[0]);
    } else {
      RunInvariant(run, i - 1);
      assert StepAt(run, i - 1);
      NextKeeps(run[i - 1], run[i]);
    }
  }

  /** In every interleaving the worker's copies are exactly frames 0, 1, 2, ..., each
      whole, and a slot being copied is neither queued nor being written. */
  lemma FramesInOrder(run: seq<State>, i: nat)
    requires Run(run) && i < |run|
    ensures InOrder(run[i].output)
    ensures run[i].worker.Copying? ==>
      && run[i].worker.slot == run[i].driver.completedBank < |run[i].hw.memory|
      && run[i].worker.slot !in run[i].hw.queue && run[i].hw.writing != Some(run[i].worker.slot)
      && run[i].hw.memory[run[i].worker.slot] == Frame(|run[i].output|)
  {
    RunInvariant(run, i);
    var s := run[i];
    if s.worker.Copying? {
      CopiedSlotIsOwned(s);
    }
    hide Order, FrameShape, CursorShape, WritingShape, QueueShape, PendingShape, MemoryShape, CountShape,
         HandlerShape, WorkerShape;
  }

  /** The interrupt bit, seen by an idle or entering handler, means that hardware is
      one to four completions ahead of what was reported. */
  lemma BitMeansNews(run: seq<State>, i: nat)
    requires Run(run) && i < |run|
    ensures var s := run[i];
      s.driver.started && s.driver.ringActive && (s.handler.Entered? || (s.handler.Idle? && s.hw.irqBit))
      ==> s.driver.next == SlotOf(s.h.start, s.h.reported)
          && 1 <= s.h.finished - s.h.reported <= SLOTS
  {
    RunInvariant(run, i);
    var s := run[i];
    if Started(s) {
      SlotIsCyclic(s.h.start, s.h.reported);
      hide FrameShape, CursorShape, WritingShape, QueueShape, MemoryShape, CountShape, WorkerShape, OutputShape;
    }
  }

  /** Every decode reports exactly the slots completed up to the status read and not
      reported before, whatever was queued again in between; a completion whose own
      interrupt was acknowledged away is among them.  Only a slot that was left out
      of the queue stops it, and then it reports nothing at all. */
  ghost predicate ReportsExactly(s: State, s': State)
    requires s.handler.Acked? && s.driver.next < SLOTS
  {
    var done := Completed(s.driver.pending, s.driver.next, s.handler.status);
    && s.h.reported < s.seen <= s.h.finished && s.seen <= s.h.reported + SLOTS
    && s'.driver.pending == s.driver.pending - done
    && if Gapless(s.h, s.seen)
       then && done == Span(s.driver.next, s.seen - s.h.reported) <= s.driver.pending
            && s'.h.reported == s.seen && s'.driver.next == SlotOf(s.h.start, s.seen)
       else done == {} && s'.driver.next == s.driver.next
  }

  lemma SeenWithinLap(s: State)
    requires Started(s) && s.seen <= s.h.finished
    ensures s.seen <= s.h.reported + SLOTS
  {
    hide FrameShape, CursorShape, WritingShape, QueueShape, PendingShape, MemoryShape, CountShape,
         HandlerShape, WorkerShape, OutputShape;
  }

  lemma DecodeReports(s: State, s': State)
    requires Started(s) && IrqDecode(s, s')
    ensures ReportsExactly(s, s')
  {
    hide Started, Span, SlotOf, Slot, Gapless, Decodable, CompleteEach;
    HandlerSaw(s);
    SeenWithinLap(s);
    SlotIsCyclic(s.h.start, s.seen);
    DecodeYields(s.h, s.driver.pending, s.driver.next, s.handler.status, s.seen);
  }

  lemma DecodeReportsAll(run: seq<State>, i: nat)
    requires Run(run) && i + 1 < |run| && IrqDecode(run[i], run[i + 1])
    requires run[i].driver.started
    ensures ReportsExactly(run[i], run[i + 1])
  {
    RunInvariant(run, i);
    hide Order, FrameShape, CursorShape, WritingShape, QueueShape, PendingShape, MemoryShape, CountShape,
         HandlerShape, WorkerShape, OutputShape;
    DecodeReports(run[i], run[i + 1]);
    hide ReportsExactly, IrqDecode;
  }

  // ------------------------------------------------------------- a live run

  ghost predicate Reached(s: State) {
    exists run: seq<State> :: Run(run) && run[|run| - 1] == s
  }

  lemma ReachInit(s: State)
    requires Init(s)
    ensures Reached(s)
  {
    assert Run([s]);
  }

  lemma Reach(s: State, s': State)
    requires Reached(s) && Next(s, s')
    ensures Reached(s')
  {
    var run :| Run(run) && run[|run| - 1] == s;
    var longer := run + [s'];
    forall i | 0 <= i < |longer| - 1 ensures StepAt(longer, i) {
      if i < |run| - 1 {
        assert StepAt(run, i);
      }
    }
    assert Run(longer);
  }

  /** The cold ring armed and its first frame written. */
  function FirstFrame(): State {
    State(Hardware({1, 2, 3}, 1, None, 1, true, true, 1, [Frame(0), Unwritten, Unwritten, Unwritten]),
          Driver(ALL_SLOTS, 0, NONE_DONE, 0, 0, true, true, false),
          Idle, Waiting(0), [], History(0, 1, 0, 0, 0, {}), 0, 0)
  }

  lemma FirstFrameReached()
    ensures Reached(FirstFrame())
  {
    hide Reached;
    var blank := [Unwritten, Unwritten, Unwritten, Unwritten];
    var cold := State(Hardware({}, 0, None, 0, false, true, 0, blank),
                      Driver({}, 0, NONE_DONE, 0, 0, false, true, false),
                      Idle, Worker.Ready, [], History(0, 0, 0, 0, 0, {}), 0, 0);
    ReachInit(cold);
    var armed := cold.(driver := Armed(cold.driver, 0), hw := cold.hw.(queue := ALL_SLOTS), worker := Waiting(0));
    assert Arm(cold, armed);
    Reach(cold, armed);
    var writing := armed.(hw := armed.hw.(writing := Some(0), memory := blank[0 := Torn]));
    assert HwBeginAt(armed, writing, 0);
    Reach(armed, writing);
    assert HwEnd(writing, FirstFrame());
    Reach(writing, FirstFrame());
  }

  /** ... and reported by the interrupt handler. */
  function FirstReport(): State {
    var s := FirstFrame();
    s.(hw := s.hw.(irqBit := false), seen := 1, h := s.h.(reported := 1),
       driver := s.driver.(pending := {1, 2, 3}, next := 1, done := [Count(1), Count(0), Count(0), Count(0)]))
  }

  lemma FirstReportReached()
    ensures Reached(FirstReport())
  {
    hide Reached, Completed;
    FirstFrameReached();
    var s := FirstFrame();
    var entered := s.(handler := Entered);
    Reach(s, entered);
    var status := s.(handler := StatusRead(1), seen := 1);
    Reach(entered, status);
    var acked := s.(handler := Acked(1), seen := 1, hw := s.hw.(irqBit := false));
    Reach(status, acked);
    FirstDecode();
    assert IrqDecode(acked, FirstReport());
    Reach(acked, FirstReport());
  }

  /** ... and copied by the worker, which has not given the slot back yet. */
  function FirstCopy(): State {
    var s := FirstReport();
    s.(worker := Worker.Releasing(0), driver := Accepted(s.driver.(done := NONE_DONE), 0),
       h := s.h.(consumed := 1), output := [Frame(0)])
  }

  lemma FirstCopyReached()
    ensures Reached(FirstCopy())
  {
    hide Reached;
    FirstReportReached();
    var s := FirstReport();
    var woken := s.(worker := Woken(0), driver := s.driver.(done := NONE_DONE));
    assert Wake(s, woken);
    Reach(s, woken);
    var copying := woken.(worker := Copying(0), driver := Accepted(woken.driver, 0), h := woken.h.(consumed := 1));
    assert Accept(woken, copying);
    Reach(woken, copying);
    assert Copy(copying, FirstCopy());
    Reach(copying, FirstCopy());
  }

  /** The protocol delivers: from a cold ring a frame reaches the worker's output. */
  lemma ARunDelivers()
    ensures exists s: State :: Reached(s) && s.output == [Frame(0)]
  {
    hide Reached;
    FirstCopyReached();
  }

  lemma FirstDecode()
    ensures Completed(ALL_SLOTS, 0, 1) == {0}
  {
    DecodeExact(ALL_SLOTS, 0, 0, 1, 1);
    assert Span(0, 1) == Span(0, 0) + {0};
  }
}
