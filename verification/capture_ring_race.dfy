/** The refill of driver/gc573_capture.c:508-522 with its read and its write of the
    queue register as two steps.

    The register bits that were set at the read are all set again by the write.  When
    a slot completes in between, it goes back to the hardware before its frame was
    copied.
 */
module CaptureRingRace {
  import opened DmaRing
  import opened Bytes
  import opened CaptureRing
  import opened CaptureRingSafety

  // ------------------------------------------------------------ continuations

  ghost predicate Path(path: seq<State>) {
    && |path| > 0
    && forall i :: 0 <= i < |path| - 1 ==> StepAt(path, i)
  }

  /** Some interleaving goes from `s` to `t`. */
  ghost predicate Leads(s: State, t: State) {
    exists path: seq<State> :: Path(path) && path[0] == s && path[|path| - 1] == t
  }

  lemma Stay(s: State)
    ensures Leads(s, s)
  {
    assert Path([s]);
  }

  lemma Prepend(s: State, t: State, u: State)
    requires Next(s, t) && Leads(t, u)
    ensures Leads(s, u)
  {
    hide Next;
    var path :| Path(path) && path[0] == t && path[|path| - 1] == u;
    var longer := [s] + path;
    forall i | 0 <= i < |longer| - 1 ensures StepAt(longer, i) {
      if i > 0 {
        assert StepAt(path, i - 1);
      }
    }
    assert Path(longer) && longer[|longer| - 1] == u;
  }

  lemma Join(s: State, t: State, u: State)
    requires Leads(s, t) && Leads(t, u)
    ensures Leads(s, u)
  {
    hide Next;
    var first :| Path(first) && first[0] == s && first[|first| - 1] == t;
    var second :| Path(second) && second[0] == t && second[|second| - 1] == u;
    var both := first + second[1..];
    forall i | 0 <= i < |both| - 1 ensures StepAt(both, i) {
      if i < |first| - 1 {
        assert StepAt(first, i);
      } else {
        assert StepAt(second, i - (|first| - 1));
      }
    }
    assert Path(both) && both[|both| - 1] == u;
  }

  /** Whatever happens from here on, the copies are frames 0, 1, 2, ... */
  ghost predicate StaysInOrder(s: State) {
    forall t :: Leads(s, t) ==> InOrder(t.output)
  }

  /** Only hardware, handler and stop requests moved; the worker did not. */
  ghost predicate Meanwhile(s: State, t: State) {
    exists path: seq<State> ::
      && Path(path) && path[0] == s && path[|path| - 1] == t
      && forall i :: 0 <= i < |path| ==> path[i].worker == s.worker
  }

  // -------------------------------------------------- what keeps the order

  lemma {:induction false} PathKeeps(path: seq<State>, i: nat)
    requires Path(path) && i < |path| && Inv(path[0]) && MaskedWhenOff(path[0])
    ensures Inv(path[i]) && MaskedWhenOff(path[i])
  {
    hide Next, Inv, MaskedWhenOff;
    if i > 0 {
      PathKeeps(path, i - 1);
      assert StepAt(path, i - 1);
      NextKeeps(path[i - 1], path[i]);
    }
  }

  lemma InvInOrder(s: State)
    requires Inv(s)
    ensures InOrder(s.output)
  {
    hide Order, FrameShape, CursorShape, WritingShape, QueueShape, PendingShape, MemoryShape, CountShape,
         HandlerShape, WorkerShape;
  }

  lemma SoundStaysInOrder(s: State)
    requires Inv(s) && MaskedWhenOff(s)
    ensures StaysInOrder(s)
  {
    hide Inv, MaskedWhenOff, InOrder, Next;
    forall t | Leads(s, t) ensures InOrder(t.output) {
      var path :| Path(path) && path[0] == s && path[|path| - 1] == t;
      PathKeeps(path, |path| - 1);
      InvInOrder(t);
    }
  }

  /** A worker told to stop before its next wait copies nothing until the ring is set
      up again. */
  ghost predicate Abandoned(s: State) {
    && s.driver.stopping && InOrder(s.output) && MaskedWhenOff(s)
    && (s.worker.Ready? || s.worker.Failed? || s.worker.IrqOff? || s.worker.Drained?)
  }

  lemma {:induction false} AbandonedKeeps(path: seq<State>, i: nat)
    requires Path(path) && i < |path| && Abandoned(path[0])
    ensures Abandoned(path[i]) || (Inv(path[i]) && MaskedWhenOff(path[i]))
  {
    hide Inv;
    if i > 0 {
      AbandonedKeeps(path, i - 1);
      assert StepAt(path, i - 1);
      AbandonedStep(path[i - 1], path[i]);
    }
  }

  lemma AbandonedStep(s: State, s': State)
    requires (Abandoned(s) || (Inv(s) && MaskedWhenOff(s))) && Next(s, s')
    ensures Abandoned(s') || (Inv(s') && MaskedWhenOff(s'))
  {
    hide Inv, InOrder, Completed, CompleteEach;
    if Inv(s) && MaskedWhenOff(s) {
      NextKeeps(s, s');
    } else if Restart(s, s') {
      InitInv(s');
    }
  }

  lemma AbandonedStaysInOrder(s: State)
    requires Abandoned(s)
    ensures StaysInOrder(s)
  {
    hide Inv, InOrder, Next;
    forall t | Leads(s, t) ensures InOrder(t.output) {
      var path :| Path(path) && path[0] == s && path[|path| - 1] == t;
      AbandonedKeeps(path, |path| - 1);
      if Inv(t) {
        InvInOrder(t);
      }
    }
  }

  // ------------------------------------------------- what the delay reveals

  lemma MeanwhileStep(s: State, s': State)
    requires Started(s) && s.worker.Releasing? && s'.worker == s.worker && Next(s, s')
    ensures s'.h == s.h.(finished := s'.h.finished, reported := s'.h.reported) && s.h.finished <= s'.h.finished
    ensures s'.hw.queue <= s.hw.queue && (s'.h.finished == s.h.finished ==> s'.hw.queue == s.hw.queue)
    ensures s.hw.queue == {} ==> s'.h.finished == s.h.finished
  {
    hide Order, FrameShape, CursorShape, PendingShape, MemoryShape, CountShape,
         HandlerShape, WorkerShape, OutputShape, Completed;
  }

  lemma {:induction false} MeanwhileHistory(path: seq<State>, i: nat)
    requires Path(path) && i < |path| && Started(path[0]) && MaskedWhenOff(path[0]) && path[0].worker.Releasing?
    requires forall k :: 0 <= k < |path| ==> path[k].worker == path[0].worker
    ensures Started(path[i]) && MaskedWhenOff(path[i])
    ensures var h, h' := path[0].h, path[i].h;
      h' == h.(finished := h'.finished, reported := h'.reported) && h.finished <= h'.finished
    ensures var hw, hw' := path[0].hw, path[i].hw;
      && hw'.queue <= hw.queue && (path[i].h.finished == path[0].h.finished ==> hw'.queue == hw.queue)
      && (hw.queue == {} ==> path[i].h.finished == path[0].h.finished)
  {
    hide Next, Started, MaskedWhenOff;
    if i > 0 {
      MeanwhileHistory(path, i - 1);
      assert StepAt(path, i - 1);
      assert path[i].worker == path[i - 1].worker;
      ReleasingStarted(path[i - 1], path[i]);
      MeanwhileStep(path[i - 1], path[i]);
    }
  }

  lemma ReleasingStarted(s: State, s': State)
    requires Started(s) && MaskedWhenOff(s) && Next(s, s') && s.worker.Releasing? && s'.worker == s.worker
    ensures Started(s') && MaskedWhenOff(s')
  {
    hide Order, FrameShape, CursorShape, WritingShape, QueueShape, PendingShape, MemoryShape, CountShape,
         HandlerShape, WorkerShape, OutputShape;
    NextKeeps(s, s');
  }

  // --------------------------------------------- a run that breaks the order

  function With(s: State, extra: set<nat>): State {
    s.(hw := s.hw.(queue := s.hw.queue + extra))
  }

  /** The handler's next step. */
  function HandlerNext(s: State): State
    requires !s.handler.Idle? && s.driver.next < SLOTS
  {
    match s.handler
    case Entered => s.(handler := StatusRead(s.hw.status), seen := s.h.finished)
    case StatusRead(status) => s.(handler := Acked(status), hw := s.hw.(irqBit := false))
    case Acked(status) =>
      var done := Completed(s.driver.pending, s.driver.next, status);
      s.(handler := Idle, driver := Decoded(s.driver, status),
         h := s.h.(reported := if done == {} then s.h.reported else s.seen))
  }

  lemma HandlerSteps(s: State)
    requires !s.handler.Idle? && s.driver.next < SLOTS && s.driver.ringActive && |s.driver.done| == SLOTS
    ensures Next(s, HandlerNext(s))
  {
    hide Completed;
    var s' := HandlerNext(s);
    assert IrqReadStatus(s, s') || IrqAck(s, s') || IrqDecode(s, s');
  }

  /** The handler finishes what it is doing, whatever else is queued. */
  lemma {:induction false} Settle(s: State, extra: set<nat>) returns (t: State)
    requires Started(s) && MaskedWhenOff(s) && s.worker.Ready?
    ensures Leads(With(s, extra), With(t, extra)) && Started(t) && t.handler.Idle?
    ensures t.hw == s.hw.(irqBit := t.hw.irqBit) && t.worker == s.worker && t.output == s.output
    ensures t.h == s.h.(reported := t.h.reported) && t.driver.stopping == s.driver.stopping
    decreases match s.handler case Idle => 0 case Acked(_) => 1 case StatusRead(_) => 2 case Entered => 3
  {
    hide Order, FrameShape, CursorShape, WritingShape, QueueShape, MemoryShape, HandlerShape, WorkerShape,
         OutputShape, Leads, Completed, Next;
    if s.handler.Idle? {
      t := s;
      Stay(With(s, extra));
    } else {
      var next := HandlerNext(s);
      HandlerSteps(s);
      ReadyStarted(s, next);
      t := Settle(next, extra);
      HandlerSteps(With(s, extra));
      assert HandlerNext(With(s, extra)) == With(next, extra);
      Prepend(With(s, extra), With(next, extra), With(t, extra));
    }
  }

  lemma ReadyStarted(s: State, s': State)
    requires Started(s) && MaskedWhenOff(s) && Next(s, s') && s.worker.Ready? && s'.worker == s.worker
    ensures Started(s') && MaskedWhenOff(s')
  {
    hide Order, FrameShape, CursorShape, WritingShape, QueueShape, PendingShape, MemoryShape, CountShape,
         HandlerShape, WorkerShape, OutputShape;
    NextKeeps(s, s');
  }

  /** Hardware state that differs from `s` by further writes. */
  ghost predicate Ran(s: State, t: State) {
    && t == s.(hw := t.hw, h := s.h.(finished := t.h.finished), writingAt := t.writingAt)
    && t.hw.irqEnabled == s.hw.irqEnabled && s.hw.frames <= t.hw.frames
    && |t.hw.memory| == SLOTS
  }

  /** A queued slot is completed sooner or later, with a newer frame in it. */
  lemma {:induction false} Lap(s: State, target: nat, away: nat) returns (t: State)
    requires away < SLOTS && target == SlotOf(s.hw.cursor, away) && target in s.hw.queue && |s.hw.memory| == SLOTS
    requires s.hw.writing == None
    ensures Leads(s, t) && Ran(s, t)
    ensures t.hw.status == target + 1 && t.hw.irqBit
    ensures t.hw.memory[target].Frame? && s.hw.frames <= t.hw.memory[target].number
    decreases away
  {
    hide Leads, Next;
    var skip := 0;
    while SlotOf(s.hw.cursor, skip) !in s.hw.queue
      invariant skip <= away
      invariant forall k :: 0 <= k < skip ==> SlotOf(s.hw.cursor, k) !in s.hw.queue
      decreases away - skip
    {
      skip := skip + 1;
    }
    var slot := SlotOf(s.hw.cursor, skip);
    var begun := s.(hw := s.hw.(writing := Some(slot), memory := s.hw.memory[slot := Torn]),
                    writingAt := s.h.finished + skip);
    var ended := Ended(begun);
    HwSteps(s, begun, ended, skip);
    if skip == away {
      t := ended;
      Stay(ended);
    } else {
      SlotDiffers(s.hw.cursor, skip, away);
      t := Lap(ended, target, away - skip - 1);
    }
    Prepend(begun, ended, t);
    Prepend(s, begun, t);
  }

  function Ended(s: State): State
    requires s.hw.writing.Some? && s.hw.writing.value < |s.hw.memory|
  {
    var slot := s.hw.writing.value;
    s.(hw := s.hw.(queue := s.hw.queue - {slot}, cursor := (slot + 1) % SLOTS, writing := None,
                   status := slot + 1, irqBit := true, frames := s.hw.frames + 1,
                   memory := s.hw.memory[slot := Frame(s.hw.frames)]),
       h := s.h.(finished := s.writingAt + 1))
  }

  lemma HwSteps(s: State, begun: State, ended: State, skip: nat)
    requires skip < SLOTS && HwBeginAt(s, begun, skip) && ended == Ended(begun)
    ensures Next(s, begun) && Next(begun, ended)
  {
    assert HwBegin(s, begun);
    assert HwEnd(begun, ended);
  }

  lemma SlotDiffers(cursor: nat, skip: nat, away: nat)
    requires skip < away < SLOTS
    ensures SlotOf(cursor, skip) != SlotOf(cursor, away)
    ensures SlotOf((SlotOf(cursor, skip) + 1) % SLOTS, away - skip - 1) == SlotOf(cursor, away)
  {
  }

  lemma HandlerEnters(s: State, s': State)
    requires IrqEnter(s, s')
    ensures Next(s, s')
  {
  }

  /** One more interrupt, with the status of a slot that was completed again. */
  lemma Interrupted(s: State) returns (t: State)
    requires s.handler.Idle? && s.hw.irqBit && s.hw.irqEnabled
    requires s.driver.next < SLOTS && s.driver.ringActive && |s.driver.done| == SLOTS
    ensures Leads(s, t)
    ensures t == s.(hw := s.hw.(irqBit := false), driver := Decoded(s.driver, s.hw.status), h := t.h, seen := t.seen)
  {
    hide Leads, Next, Completed;
    var entered := s.(handler := Entered);
    HandlerEnters(s, entered);
    var read := HandlerNext(entered);
    var acked := HandlerNext(read);
    t := HandlerNext(acked);
    HandlerSteps(entered);
    HandlerSteps(read);
    HandlerSteps(acked);
    Stay(t);
    Prepend(acked, t, t);
    Prepend(read, acked, t);
    Prepend(entered, read, t);
    Prepend(s, entered, t);
  }

  /** The worker is about to take position `at`, and everything up to `last` is reported. */
  ghost predicate Deliverable(s: State, start: nat, at: nat, last: nat) {
    && s.worker == Worker.Ready && s.driver.started && !s.driver.stopping
    && s.driver.consume == Slot(start, at) && |s.output| == at <= last < at + SLOTS
    && |s.driver.done| == SLOTS == |s.hw.memory|
    && forall p :: at <= p <= last ==> s.driver.done[Slot(start, p)] == Count(1)
  }

  /** The worker takes one slot and copies it. */
  lemma TakeOne(s: State, start: nat, at: nat, last: nat) returns (t: State)
    requires Deliverable(s, start, at, last)
    ensures Leads(s, t) && t.worker.Releasing?
    ensures var slot := Slot(start, at);
      t == s.(worker := t.worker, h := t.h, output := s.output + [s.hw.memory[slot]],
              driver := Accepted(s.driver.(done := s.driver.done[slot := Count(0)]), slot))
  {
    hide Leads, Next, Slot;
    var slot := s.driver.consume;
    var waiting := s.(worker := Waiting(slot));
    var woken := s.(worker := Woken(slot), driver := s.driver.(done := s.driver.done[slot := Count(0)]));
    var copying := woken.(worker := Copying(slot), driver := Accepted(woken.driver, slot),
                          h := woken.h.(consumed := woken.h.consumed + 1));
    t := copying.(worker := Worker.Releasing(slot), output := s.output + [s.hw.memory[slot]]);
    WorkerSteps(s, waiting, woken, copying, t);
    Stay(t);
    Prepend(copying, t, t);
    Prepend(woken, copying, t);
    Prepend(waiting, woken, t);
    Prepend(s, waiting, t);
  }

  lemma WorkerSteps(s: State, waiting: State, woken: State, copying: State, copied: State)
    requires Wait(s, waiting) && Wake(waiting, woken) && Accept(woken, copying) && Copy(copying, copied)
    ensures Next(s, waiting) && Next(waiting, woken) && Next(woken, copying) && Next(copying, copied)
  {
  }

  lemma WorkerLetsGo(s: State, s': State)
    requires SkipRefill(s, s')
    ensures Next(s, s')
  {
  }

  /** The worker goes on until it has copied position `last`. */
  lemma {:induction false} Deliver(s: State, start: nat, at: nat, last: nat) returns (t: State)
    requires Deliverable(s, start, at, last)
    ensures Leads(s, t) && |t.output| == last + 1 && t.output[last] == s.hw.memory[Slot(start, last)]
    decreases last - at
  {
    hide Leads, Next;
    var taken := TakeOne(s, start, at, last);
    if at == last {
      t := taken;
    } else {
      var h := taken.h;
      var next := taken.(worker := Worker.Ready,
                         h := h.(released := h.released + 1, holes := h.holes + {h.released + SLOTS}));
      WorkerLetsGo(taken, next);
      SlotGeometry(start);
      t := Deliver(next, start, at + 1, last);
      Prepend(taken, next, t);
      Join(s, taken, t);
    }
  }

  /** What a decode makes ready when the slot of a finished position was completed again. */
  lemma AgainReported(s: State, driver: Driver, last: nat)
    requires Started(s) && s.worker.Ready? && !s.driver.stopping && Gapless(s.h, last + 1)
    requires s.h.released <= last < s.h.finished
    requires driver == if last < s.h.reported then s.driver else Decoded(s.driver, Slot(s.h.start, last) + 1)
    ensures AllReady(s.h, driver.done, last)
  {
    hide FrameShape, CursorShape, WritingShape, QueueShape, PendingShape, MemoryShape, CountShape, HandlerShape,
         WorkerShape, OutputShape, Completed, CompleteEach, Decodable, Slot, Span, AllReady;
    var h := s.h;
    ReadyCounts(s);
    if last < h.reported {
      CountedReady(h, s.driver.done, last);
    } else {
      var done := Completed(s.driver.pending, s.driver.next, Slot(h.start, last) + 1);
      ReadyDecodable(s, last);
      DecodeGapless(h, s.driver.pending, s.driver.next, Slot(h.start, last) + 1, last + 1);
      ReportCounts(h, h.(reported := last + 1), s.driver.next, done, last + 1, s.driver.done, false, false);
      CountedReady(h.(reported := last + 1), CompleteEach(s.driver.done, done), last);
      SameReady(h, h.(reported := last + 1), CompleteEach(s.driver.done, done), last);
    }
  }

  ghost predicate AllReady(h: History, done: seq<Completion>, last: nat) {
    && |done| == SLOTS
    && forall p :: h.consumed <= p <= last ==> done[Slot(h.start, p)] == Count(1)
  }

  lemma SameReady(h: History, h': History, done: seq<Completion>, last: nat)
    requires AllReady(h', done, last) && h'.consumed == h.consumed && h'.start == h.start
    ensures AllReady(h, done, last)
  {
  }

  lemma CountedReady(h: History, done: seq<Completion>, last: nat)
    requires CountShape(h, done, false, false) && last < h.reported && last < h.consumed + SLOTS
    ensures AllReady(h, done, last)
  {
  }

  lemma ReadyCounts(s: State)
    requires Started(s) && s.worker.Ready? && !s.driver.stopping
    ensures Order(s.h) && CountShape(s.h, s.driver.done, false, false)
    ensures s.h.consumed == s.h.released <= s.h.finished <= s.h.released + SLOTS && s.driver.next < SLOTS
  {
    hide FrameShape, CursorShape, WritingShape, QueueShape, MemoryShape, HandlerShape, OutputShape, CountShape;
  }

  lemma ReadyDecodable(s: State, last: nat)
    requires Started(s) && s.h.reported <= last < s.h.finished
    ensures Decodable(s.h, s.driver.pending, s.driver.next, Slot(s.h.start, last) + 1, last + 1)
    ensures s.driver.next == Slot(s.h.start, s.h.reported)
  {
    hide FrameShape, CursorShape, WritingShape, QueueShape, MemoryShape, HandlerShape, OutputShape, CountShape,
         WorkerShape;
  }

  /** Hardware finishes what it is writing and comes round to `target` again. */
  lemma ComeRound(s: State, target: nat) returns (t: State)
    requires s.hw.writing.Some? ==> s.hw.writing.value < SLOTS && s.hw.writing.value != target
    requires target in s.hw.queue && target < SLOTS && s.hw.cursor < SLOTS && |s.hw.memory| == SLOTS
    ensures Leads(s, t) && Ran(s, t)
    ensures t.hw.status == target + 1 && t.hw.irqBit
    ensures t.hw.memory[target].Frame? && s.hw.frames <= t.hw.memory[target].number
  {
    hide Leads, Next;
    var free := if s.hw.writing.Some? then Ended(s) else s;
    t := Lap(free, target, (target - free.hw.cursor) % SLOTS);
    if s.hw.writing.Some? {
      HwFinishes(s, free);
      Prepend(s, free, t);
    }
  }

  lemma HwFinishes(s: State, s': State)
    requires HwEnd(s, s')
    ensures Next(s, s')
  {
  }

  /** The slot of a finished position is not the one being written. */
  lemma FinishedIsNotWritten(h: History, writing: Option<nat>, at: nat, last: nat)
    requires WritingShape(h, writing, at) && h.released <= last < h.finished
    ensures writing.Some? ==> writing.value < SLOTS && writing.value != Slot(h.start, last)
  {
    if writing.Some? {
      SlotGeometry(h.start);
      assert Slot(h.start, last) != Slot(h.start, at);
    }
  }

  /** An idle ring in which a finished slot the worker has not copied is queued again. */
  lemma AgainBreaks(s: State, extra: set<nat>, last: nat) returns (t: State)
    requires Started(s) && s.hw.irqEnabled && s.worker.Ready? && s.handler.Idle? && !s.driver.stopping
    requires Gapless(s.h, last + 1) && s.h.released <= last < s.h.finished && Slot(s.h.start, last) in extra
    ensures Leads(With(s, extra), t) && !InOrder(t.output)
  {
    hide Order, QueueShape, PendingShape, MemoryShape, CountShape, HandlerShape, WritingShape, Leads, Next,
         Slot, Gapless, Completed;
    var u := With(s, extra);
    var target := Slot(s.h.start, last);
    FinishedIsNotWritten(s.h, s.hw.writing, s.writingAt, last);
    ReadyShape(s, last + 1);
    var lapped := ComeRound(u, target);
    t := lapped;
    if s.h.reported <= last {
      t := Interrupted(lapped);
      Join(u, lapped, t);
    }
    AgainReported(s, t.driver, last);
    var copied := Deliver(t, s.h.start, s.h.consumed, last);
    Join(u, t, copied);
    t := copied;
    assert copied.output[last] != Frame(last);
  }

  lemma ReadyShape(s: State, frames: nat)
    requires Started(s) && s.worker.Ready?
    ensures s.h.consumed == s.h.released <= s.h.finished <= s.h.released + SLOTS && |s.output| == s.h.consumed
    ensures s.driver.next < SLOTS && s.hw.cursor < SLOTS && |s.hw.memory| == SLOTS == |s.driver.done|
    ensures Gapless(s.h, frames) && frames <= s.h.finished ==> frames <= s.hw.frames
    ensures s.driver.consume == Slot(s.h.start, s.h.consumed)
  {
    hide WritingShape, QueueShape, HandlerShape;
  }

  /** What was finished during the delay was queued when the register was read. */
  lemma FinishedWasQueued(read: State, write: State)
    requires Started(read) && Started(write) && read.worker.Releasing? && Gapless(write.h, read.h.finished + 1)
    requires write.h == read.h.(finished := write.h.finished, reported := write.h.reported)
    requires read.h.finished < write.h.finished
    ensures Slot(write.h.start, read.h.finished) in read.hw.queue
    ensures write.h.released + 1 <= read.h.finished
  {
    hide FrameShape, CursorShape, WritingShape, PendingShape, MemoryShape, CountShape, HandlerShape, OutputShape;
    assert Queued(read.h, read.h.finished);
  }

  lemma LateWriteBreaks(read: State, write: State, after: State) returns (t: State)
    requires Started(read) && Started(write) && MaskedWhenOff(write) && read.worker.Releasing?
    requires write.h == read.h.(finished := write.h.finished, reported := write.h.reported)
    requires read.h.finished < write.h.finished && Gapless(write.h, read.h.finished + 1)
    requires write.hw.queue <= read.hw.queue && RefillFrom(write, after, read.hw.queue) && !write.driver.stopping
    ensures Leads(after, t) && !InOrder(t.output)
  {
    hide Order, FrameShape, CursorShape, WritingShape, QueueShape, PendingShape, MemoryShape, CountShape,
         HandlerShape, WorkerShape, OutputShape, Leads, InOrder, Slot;
    FinishedWasQueued(read, write);
    var atomic := after.(hw := write.hw.(queue := write.hw.queue + {write.worker.slot}));
    AtomicRefill(write, atomic);
    assert after.hw.queue == atomic.hw.queue + read.hw.queue;
    var settled := Settle(atomic, read.hw.queue);
    t := AgainBreaks(settled, read.hw.queue, read.h.finished);
    Join(after, With(settled, read.hw.queue), t);
  }

  lemma AtomicRefill(s: State, s': State)
    requires Started(s) && MaskedWhenOff(s) && Refill(s, s')
    ensures Started(s') && MaskedWhenOff(s')
  {
    hide Order, FrameShape, CursorShape, WritingShape, QueueShape, PendingShape, MemoryShape, CountShape,
         HandlerShape, WorkerShape, OutputShape;
    ReleaseKeeps(s, s', true);
  }

  lemma ReachedSound(s: State)
    requires Reached(s)
    ensures Inv(s) && MaskedWhenOff(s)
  {
    hide Inv, MaskedWhenOff;
    var run :| Run(run) && run[|run| - 1] == s;
    RunInvariant(run, |run| - 1);
  }

  lemma ReachedReleasing(s: State)
    requires Reached(s) && s.worker.Releasing?
    ensures Started(s) && MaskedWhenOff(s)
  {
    hide Reached, Order, FrameShape, CursorShape, WritingShape, QueueShape, PendingShape, MemoryShape, CountShape,
         HandlerShape, WorkerShape, OutputShape;
    ReachedSound(s);
  }

  // ------------------------------------------- behind a slot that was left out

  /** The ring `t` as the worker sees it: hardware stopped at `hole`, and the slots before
      it are as in `s`, out of the hands of the hardware of `s`. */
  ghost predicate Mirrors(s: State, t: State, hole: nat) {
    && Started(t) && MaskedWhenOff(t)
    && t.h == s.h.(finished := hole) && hole in s.h.holes && Gapless(s.h, hole)
    && t.driver == s.driver && t.worker == s.worker && t.output == s.output
    && t.hw.irqEnabled == s.hw.irqEnabled
    && Kept(s, t, hole)
    && Past(s.h, hole, s.hw.status) && HandlerMirrors(s, t, hole)
  }

  ghost predicate Kept(s: State, t: State, hole: nat) {
    && |s.hw.memory| == SLOTS == |t.hw.memory|
    && forall p: nat :: s.h.released <= p < hole ==>
         var slot := Slot(s.h.start, p);
         slot !in s.hw.queue && s.hw.writing != Some(slot) && s.hw.memory[slot] == t.hw.memory[slot]
  }

  /** The status names no slot that is still to be reported. */
  ghost predicate Past(h: History, hole: nat, status: nat) {
    status <= SLOTS && forall p: nat :: h.reported <= p < hole ==> Slot(h.start, p) + 1 != status
  }

  /** The handler decodes a status from before the hole, or one that tells nothing. */
  ghost predicate HandlerMirrors(s: State, t: State, hole: nat) {
    || (t.handler == s.handler && t.seen == s.seen && (s.handler.StatusRead? || s.handler.Acked?))
    || (t.handler.Idle? && (s.handler.StatusRead? || s.handler.Acked? ==> Past(s.h, hole, s.handler.status)))
  }

  /** The four positions of a lap reach every slot. */
  lemma LapCovers(start: nat, from: nat, slot: nat) returns (p: nat)
    requires slot < SLOTS
    ensures from <= p < from + SLOTS && Slot(start, p) == slot
  {
    p := from + (slot - from - start) % SLOTS;
    SlotIsCyclic(start, p);
    var q := (slot - from - start) / SLOTS;
    assert start + p == slot - 4 * q;
  }

  /** A status of no slot before the hole decodes to nothing. */
  lemma PastTellsNothing(t: State, status: nat)
    requires Started(t) && t.h.finished in t.h.holes && Past(t.h, t.h.finished, status)
    ensures t.driver.next < SLOTS && Completed(t.driver.pending, t.driver.next, status) == {}
  {
    hide FrameShape, CursorShape, WritingShape, QueueShape, MemoryShape, CountShape, HandlerShape, WorkerShape,
         OutputShape;
    var h, hole := t.h, t.h.finished;
    if status > 0 {
      var p := LapCovers(h.start, h.reported, status - 1);
      assert !Queued(h, hole);
      SlotIsCyclic(h.start, h.reported);
      SlotIsCyclic(h.start, p);
      SlotIsCyclic(h.start, hole);
      DecodeStopsAtHole(t.driver.pending, h.start, h.reported, p + 1 - h.reported, status, hole - h.reported);
    }
  }

  /** What the mirror knows of its own positions. */
  lemma MirrorOrder(t: State)
    requires Started(t)
    ensures t.h.released <= t.h.consumed <= t.h.reported <= t.h.finished && t.h.finished <= t.h.released + SLOTS
    ensures forall k :: k in t.h.holes ==> k < t.h.released + SLOTS
    ensures t.worker.Copying? ==>
              t.h.released < t.h.finished && t.driver.completedBank == Slot(t.h.start, t.h.released)
    ensures t.worker.Releasing? ==> t.worker.slot == Slot(t.h.start, t.h.released)
    ensures t.driver.started && t.driver.ringActive && !t.worker.Drained? && InOrder(t.output)
    ensures t.handler.Acked? ==> t.h.reported < t.seen
    ensures t.driver.next < SLOTS && |t.driver.done| == SLOTS && |t.hw.memory| == SLOTS
  {
    hide FrameShape, CursorShape, WritingShape, QueueShape;
  }

  ghost predicate Safe(s: State, hole: nat) {
    (Inv(s) && MaskedWhenOff(s)) || exists t :: Mirrors(s, t, hole)
  }

  /** Hardware goes on behind the hole; the mirror stands still. */
  lemma MirrorHardware(s: State, s': State, t: State, hole: nat)
    requires Mirrors(s, t, hole) && (HwBegin(s, s') || HwEnd(s, s'))
    ensures Mirrors(s', t, hole)
  {
    hide Started, MaskedWhenOff;
    MirrorOrderOf(s, t, hole);
    if HwBegin(s, s') {
      var skip: nat :| skip < SLOTS && HwBeginAt(s, s', skip);
    }
  }

  lemma MirrorOrderOf(s: State, t: State, hole: nat)
    requires Mirrors(s, t, hole)
    ensures s.h.released <= s.h.consumed <= s.h.reported <= hole < s.h.released + SLOTS
    ensures s.driver.started && s.driver.ringActive && !s.worker.Drained? && InOrder(s.output)
    ensures s.worker.Copying? ==>
              s.h.released < hole && s.driver.completedBank == Slot(s.h.start, s.h.released)
    ensures s.worker.Releasing? ==> s.worker.slot == Slot(s.h.start, s.h.released)
    ensures s.driver.next < SLOTS && |s.driver.done| == SLOTS
  {
    hide Started, Kept, Past, HandlerMirrors, InOrder;
    MirrorOrder(t);
  }

  lemma MirrorHandler(s: State, s': State, t: State, hole: nat) returns (t': State)
    requires Mirrors(s, t, hole)
    requires IrqEnter(s, s') || IrqReadStatus(s, s') || IrqAck(s, s') || IrqDecode(s, s')
    ensures Mirrors(s', t', hole)
  {
    hide Order, FrameShape, CursorShape, WritingShape, QueueShape, PendingShape, MemoryShape, CountShape,
         HandlerShape, WorkerShape, OutputShape, Completed, CompleteEach, Next, Slot, Gapless, InOrder;
    MirrorOrderOf(s, t, hole);
    MirrorOrder(t);
    if !t.handler.Idle? {
      t' := HandlerNext(t);
      HandlerSteps(t);
      SameWorkerStarted(t, t');
      if t.handler.Acked? {
        ReportedGrows(s.h, s'.h, hole, s.hw.status);
      }
    } else {
      t' := t;
      if IrqDecode(s, s') {
        PastTellsNothing(t, s.handler.status);
        assert s.driver.pending - {} == s.driver.pending;
        assert CompleteEach(s.driver.done, {}) == s.driver.done;
      }
    }
  }

  lemma ReportedGrows(h: History, h': History, hole: nat, status: nat)
    requires Past(h, hole, status) && h' == h.(reported := h'.reported) && h.reported <= h'.reported
    ensures Past(h', hole, status) && (Gapless(h, hole) ==> Gapless(h', hole))
  {
  }

  lemma SameWorkerStarted(s: State, s': State)
    requires Started(s) && MaskedWhenOff(s) && Next(s, s') && s'.worker == s.worker
    requires s'.driver.started && s'.driver.ringActive
    ensures Started(s') && MaskedWhenOff(s')
  {
    hide Order, FrameShape, CursorShape, WritingShape, QueueShape, PendingShape, MemoryShape, CountShape,
         HandlerShape, WorkerShape, OutputShape;
    NextKeeps(s, s');
  }

  /** The worker and the stop request do the same in both rings. */
  lemma MirrorWorker(s: State, s': State, t: State, hole: nat) returns (t': State)
    requires Mirrors(s, t, hole)
    requires || Wait(s, s') || Wake(s, s') || Accept(s, s') || Fail(s, s') || MaskIrq(s, s')
             || Stop(s, s') || WakeAll(s, s')
    ensures Mirrors(s', t', hole)
  {
    hide Order, FrameShape, CursorShape, WritingShape, QueueShape, PendingShape, MemoryShape, CountShape,
         HandlerShape, WorkerShape, OutputShape, Slot, Gapless, InOrder, Inv;
    MirrorOrder(t);
    t' := t.(worker := s'.worker, driver := s'.driver, hw := t.hw.(irqEnabled := s'.hw.irqEnabled),
             h := t.h.(consumed := s'.h.consumed));
    assert || Wait(t, t') || Wake(t, t') || Accept(t, t') || Fail(t, t') || MaskIrq(t, t')
           || Stop(t, t') || WakeAll(t, t');
    StartedNext(t, t');
    ConsumedKeeps(s.h, s'.h, hole, s.hw.status);
    ConsumedKeeps(s.h, s'.h, hole, if s.handler.StatusRead? || s.handler.Acked? then s.handler.status else 0);
  }

  lemma ConsumedKeeps(h: History, h': History, hole: nat, status: nat)
    requires h' == h.(consumed := h'.consumed)
    ensures Past(h', hole, status) == Past(h, hole, status) && Gapless(h', hole) == Gapless(h, hole)
  {
  }

  lemma MirrorCopy(s: State, s': State, t: State, hole: nat) returns (t': State)
    requires Mirrors(s, t, hole) && Copy(s, s')
    ensures Mirrors(s', t', hole)
  {
    hide Order, FrameShape, CursorShape, WritingShape, QueueShape, PendingShape, MemoryShape, CountShape,
         HandlerShape, WorkerShape, OutputShape, Gapless, InOrder, Inv, Slot, Past, HandlerMirrors;
    MirrorOrderOf(s, t, hole);
    MirrorOrder(t);
    t' := t.(worker := s'.worker, output := s'.output);
    assert Copy(t, t');
    StartedNext(t, t');
    HandlerOnly(s, s', t, t', hole);
  }

  lemma HandlerOnly(s: State, s': State, t: State, t': State, hole: nat)
    requires HandlerMirrors(s, t, hole) && s'.handler == s.handler && s'.seen == s.seen
    requires t'.handler == t.handler && t'.seen == t.seen
    requires s'.h.start == s.h.start && s'.h.reported == s.h.reported
    ensures HandlerMirrors(s', t', hole)
    ensures Past(s.h, hole, s.hw.status) ==> Past(s'.h, hole, s.hw.status)
  {
  }

  lemma MirrorRelease(s: State, s': State, t: State, hole: nat) returns (t': State)
    requires Mirrors(s, t, hole) && (SkipRefill(s, s') || Refill(s, s'))
    ensures Mirrors(s', t', hole)
  {
    hide Order, FrameShape, CursorShape, WritingShape, QueueShape, PendingShape, MemoryShape, CountShape,
         HandlerShape, WorkerShape, OutputShape, Gapless, InOrder, Inv, Slot, Past, HandlerMirrors, Kept;
    MirrorOrderOf(s, t, hole);
    MirrorOrder(t);
    var slots := if Refill(s, s') then {s.worker.slot} else {};
    t' := t.(worker := s'.worker, driver := s'.driver, hw := t.hw.(queue := t.hw.queue + slots),
             h := s'.h.(finished := hole));
    assert Refill(s, s') ==> Refill(t, t');
    if SkipRefill(s, s') && !Refill(s, s') {
      assert t.hw.queue + {} == t.hw.queue;
      assert SkipRefill(t, t');
    }
    StartedNext(t, t');
    HandlerOnly(s, s', t, t', hole);
    ReleasedKept(s, s', t, t', hole);
  }

  lemma ReleasedKept(s: State, s': State, t: State, t': State, hole: nat)
    requires Kept(s, t, hole) && Gapless(s.h, hole) && hole < s.h.released + SLOTS
    requires s'.h.start == s.h.start && s'.h.released == s.h.released + 1
    requires s'.h.holes == s.h.holes || s'.h.holes == s.h.holes + {s.h.released + SLOTS}
    requires s'.hw.memory == s.hw.memory && t'.hw.memory == t.hw.memory && s'.hw.writing == s.hw.writing
    requires s'.hw.queue <= s.hw.queue + {Slot(s.h.start, s.h.released)}
    ensures Kept(s', t', hole) && Gapless(s'.h, hole)
  {
    SlotGeometry(s.h.start);
    forall p: nat | s'.h.released <= p < hole ensures Slot(s.h.start, p) != Slot(s.h.start, s.h.released) {
    }
  }

  /** One step of any party. */
  lemma MirrorStep(s: State, s': State, t: State, hole: nat)
    requires Mirrors(s, t, hole) && Next(s, s')
    ensures Safe(s', hole)
  {
    hide Inv, Mirrors, Order, FrameShape, CursorShape, WritingShape, QueueShape, PendingShape, MemoryShape, CountShape,
         HandlerShape, WorkerShape, OutputShape, Gapless, InOrder, Slot, Past, HandlerMirrors, Kept, Completed,
         HwBeginAt, Started, Unstarted, Init;
    NotFresh(s, s', t, hole);
    if HwBegin(s, s') || HwEnd(s, s') {
      MirrorHardware(s, s', t, hole);
      assert Mirrors(s', t, hole);
    } else if IrqEnter(s, s') || IrqReadStatus(s, s') || IrqAck(s, s') || IrqDecode(s, s') {
      var t' := MirrorHandler(s, s', t, hole);
    } else if Copy(s, s') {
      var t' := MirrorCopy(s, s', t, hole);
    } else if SkipRefill(s, s') || Refill(s, s') {
      var t' := MirrorRelease(s, s', t, hole);
    } else if Drain(s, s') {
      MirrorDrain(s, s', t, hole);
    } else {
      var t' := MirrorWorker(s, s', t, hole);
    }
  }

  /** The ring is neither armed nor set up afresh. */
  lemma NotFresh(s: State, s': State, t: State, hole: nat)
    requires Mirrors(s, t, hole)
    ensures !Arm(s, s') && !Restart(s, s')
  {
    hide Started, Kept, Past, HandlerMirrors, InOrder, MaskedWhenOff;
    MirrorOrderOf(s, t, hole);
  }

  lemma MirrorDrain(s: State, s': State, t: State, hole: nat)
    requires Mirrors(s, t, hole) && Drain(s, s')
    ensures Inv(s') && MaskedWhenOff(s')
  {
    hide Started, Unstarted, Kept, Past, HandlerMirrors, InOrder;
    MirrorOrderOf(s, t, hole);
  }

  lemma {:induction false} PathSafe(path: seq<State>, i: nat, hole: nat)
    requires Path(path) && i < |path| && Safe(path[0], hole)
    ensures Safe(path[i], hole)
  {
    hide Next, Inv, MaskedWhenOff, Mirrors;
    if i > 0 {
      PathSafe(path, i - 1, hole);
      assert StepAt(path, i - 1);
      var s, s' := path[i - 1], path[i];
      if Inv(s) && MaskedWhenOff(s) {
        NextKeeps(s, s');
      } else {
        var t :| Mirrors(s, t, hole);
        MirrorStep(s, s', t, hole);
      }
    }
  }

  lemma SafeInOrder(s: State, hole: nat)
    requires Safe(s, hole)
    ensures InOrder(s.output)
  {
    hide Inv, MaskedWhenOff, Mirrors, InOrder;
    if Inv(s) && MaskedWhenOff(s) {
      InvInOrder(s);
    } else {
      var t :| Mirrors(s, t, hole);
      MirrorOrderOf(s, t, hole);
    }
  }

  lemma MirroredStaysInOrder(s: State, t: State, hole: nat)
    requires Mirrors(s, t, hole)
    ensures StaysInOrder(s)
  {
    hide Next, Inv, MaskedWhenOff, Mirrors, InOrder;
    forall u | Leads(s, u) ensures InOrder(u.output) {
      var path: seq<State> :| Path(path) && path[0] == s && path[|path| - 1] == u;
      PathSafe(path, |path| - 1, hole);
      SafeInOrder(u, hole);
    }
  }

  /** The mirror of a ring whose hardware has passed the hole. */
  function Rewound(s: State, hole: nat): State
    requires hole > 0
  {
    var h := s.h.(finished := hole);
    var queue := set p: nat | hole <= p < hole + SLOTS && p < h.released + SLOTS && p !in h.holes :: Slot(h.start, p);
    s.(h := h, hw := s.hw.(queue := queue, cursor := Slot(h.start, hole), writing := None,
                           status := Slot(h.start, hole - 1) + 1, irqBit := false, frames := hole),
       handler := if (s.handler.StatusRead? || s.handler.Acked?) && s.seen <= hole then s.handler else Idle)
  }

  lemma RewoundQueue(s: State, hole: nat)
    requires hole > 0
    ensures QueueShape(Rewound(s, hole).h, Rewound(s, hole).hw.queue)
  {
    var t := Rewound(s, hole);
    SlotGeometry(s.h.start);
    forall p | hole <= p < hole + SLOTS ensures Slot(s.h.start, p) in t.hw.queue <==> Queued(t.h, p) {
      if Slot(s.h.start, p) in t.hw.queue {
        var q: nat :| hole <= q < hole + SLOTS && Queued(t.h, q) && Slot(s.h.start, q) == Slot(s.h.start, p);
      }
    }
  }

  lemma RewoundHardware(s: State, hole: nat)
    requires Order(s.h) && MemoryShape(s.h, s.hw.memory) && HandlerShape(s.h, s.handler, s.hw.irqBit, s.seen)
    requires 0 < hole < s.h.finished && hole in s.h.holes && Gapless(s.h, hole)
    ensures var t := Rewound(s, hole);
      && Order(t.h) && FrameShape(t.h, t.hw.frames) && CursorShape(t.h, t.hw.status, t.hw.cursor)
      && MemoryShape(t.h, t.hw.memory) && HandlerShape(t.h, t.handler, t.hw.irqBit, t.seen)
      && WritingShape(t.h, t.hw.writing, t.writingAt)
  {
    var t := Rewound(s, hole);
    assert forall p :: Gapless(t.h, p) == Gapless(s.h, p);
  }

  lemma RewoundStarted(s: State, hole: nat)
    requires Started(s) && MaskedWhenOff(s) && 0 < hole < s.h.finished && hole in s.h.holes && Gapless(s.h, hole)
    ensures Started(Rewound(s, hole)) && MaskedWhenOff(Rewound(s, hole))
  {
    hide Order, FrameShape, CursorShape, WritingShape, QueueShape, PendingShape, MemoryShape, CountShape,
         HandlerShape, WorkerShape, OutputShape, Gapless;
    RewoundQueue(s, hole);
    RewoundHardware(s, hole);
    FinishSoftware(s, Rewound(s, hole).h);
  }

  /** Positions less than a lap apart have different slots. */
  lemma SlotsDiffer(start: nat, p: nat, q: nat)
    requires p < q < p + SLOTS
    ensures Slot(start, p) != Slot(start, q)
  {
    SlotGeometry(start);
  }

  /** What was queued at the read lies behind the hole, and none of it is still to be
      reported before it. */
  lemma StaleBehind(read: State, slots: set<nat>, p: nat)
    requires Started(read) && slots == read.hw.queue
    requires read.h.released < p < read.h.finished <= p + SLOTS
    ensures Slot(read.h.start, p) !in slots
  {
    hide Order, FrameShape, CursorShape, WritingShape, PendingShape, MemoryShape, CountShape, HandlerShape,
         WorkerShape, OutputShape;
    SlotGeometry(read.h.start);
    assert Slot(read.h.start, p) == Slot(read.h.start, p + SLOTS);
    assert !Queued(read.h, p + SLOTS);
  }

  lemma MirrorsAtWrite(read: State, atomic: State, after: State, hole: nat)
    requires Started(read) && Started(atomic) && MaskedWhenOff(atomic) && atomic.worker.Ready?
    requires atomic.h.start == read.h.start && atomic.h.released == read.h.released + 1
    requires 0 < hole <= read.h.finished < atomic.h.finished && hole in atomic.h.holes && Gapless(atomic.h, hole)
    requires after == atomic.(hw := atomic.hw.(queue := read.hw.queue + {Slot(read.h.start, read.h.released)}))
    ensures Mirrors(after, Rewound(atomic, hole), hole)
  {
    hide Order, FrameShape, CursorShape, WritingShape, QueueShape, PendingShape, MemoryShape, CountShape,
         HandlerShape, WorkerShape, OutputShape, Gapless, Slot;
    var h, t := atomic.h, Rewound(atomic, hole);
    RewoundStarted(atomic, hole);
    WindowOf(atomic);
    forall p: nat | h.released <= p < hole
      ensures Slot(h.start, p) !in after.hw.queue && after.hw.writing != Some(Slot(h.start, p))
    {
      StaleBehind(read, read.hw.queue, p);
      SlotsDiffer(h.start, read.h.released, p);
      if after.hw.writing.Some? {
        SlotsDiffer(h.start, p, atomic.writingAt);
      }
    }
    forall p: nat | h.reported <= p < hole ensures Slot(h.start, p) + 1 != after.hw.status {
      SlotsDiffer(h.start, p, h.finished - 1);
    }
    if (after.handler.StatusRead? || after.handler.Acked?) && hole < after.seen {
      forall p: nat | h.reported <= p < hole ensures Slot(h.start, p) + 1 != after.handler.status {
        SlotsDiffer(h.start, p, after.seen - 1);
      }
    }
  }

  /** The positions of a ring whose worker waits for nothing. */
  lemma WindowOf(s: State)
    requires Started(s) && s.worker.Ready?
    ensures var h := s.h;
      && h.released == h.consumed <= h.reported <= h.finished <= h.released + SLOTS
      && (forall k :: k in h.holes ==> k < h.released + SLOTS) && (forall k :: k in h.holes ==> h.reported <= k)
      && |s.hw.memory| == SLOTS && s.hw.status <= SLOTS
      && (0 < h.finished ==> s.hw.status == Slot(h.start, h.finished - 1) + 1)
      && (s.hw.writing.Some? ==>
            h.finished <= s.writingAt < h.released + SLOTS && s.hw.writing.value == Slot(h.start, s.writingAt))
      && (s.handler.StatusRead? || s.handler.Acked? ==>
            h.reported < s.seen <= h.finished && s.handler.status == Slot(h.start, s.seen - 1) + 1)
  {
    hide FrameShape, QueueShape, PendingShape, CountShape, OutputShape, Slot;
  }

  /** The first slot left out. */
  lemma FirstHole(h: History, below: nat) returns (hole: nat)
    requires !Gapless(h, below)
    ensures hole in h.holes && hole < below && Gapless(h, hole)
    decreases below
  {
    hole :| hole in h.holes && hole < below;
    if !Gapless(h, hole) {
      hole := FirstHole(h, hole);
    }
  }

  lemma BehindHoleStaysInOrder(read: State, write: State, after: State)
    requires Started(read) && Started(write) && MaskedWhenOff(write) && read.worker.Releasing?
    requires write.worker == read.worker
    requires write.h == read.h.(finished := write.h.finished, reported := write.h.reported)
    requires read.h.finished < write.h.finished && !Gapless(write.h, read.h.finished + 1)
    requires RefillFrom(write, after, read.hw.queue)
    ensures StaysInOrder(after)
  {
    hide Order, FrameShape, CursorShape, WritingShape, QueueShape, PendingShape, MemoryShape, CountShape,
         HandlerShape, WorkerShape, OutputShape, Gapless, Slot, InOrder, Mirrors, Leads, Next;
    var hole := FirstHole(write.h, read.h.finished + 1);
    CaptureRingSafety.Releasing(read);
    var atomic := after.(hw := write.hw.(queue := write.hw.queue + {write.worker.slot}));
    AtomicRefill(write, atomic);
    WindowOf(atomic);
    HoleStays(write.h, atomic.h, hole);
    MirrorsAtWrite(read, atomic, after, hole);
    MirroredStaysInOrder(after, Rewound(atomic, hole), hole);
  }

  lemma HoleStays(h: History, h': History, hole: nat)
    requires h'.holes == h.holes && Gapless(h, hole)
    ensures Gapless(h', hole)
  {
  }

  // ---------------------------------------------------------- the main result

  /** The refill's read and write of 0x304 with a delay between them, from any state a
      run can reach: every continuation copies the frames in order if and only if no slot
      completed during the delay, or the worker has been told to stop, or the position
      hardware stood at when the register was read lies at or behind a slot that an
      earlier refill left out. */
  lemma RefillRace(read: State, write: State, after: State)
    requires Reached(read) && read.worker.Releasing? && Meanwhile(read, write)
    requires RefillFrom(write, after, read.hw.queue)
    ensures StaysInOrder(after) <==>
              || write.driver.stopping || write.h.finished == read.h.finished
              || !Gapless(read.h, read.h.finished + 1)
    ensures read.hw.queue == {} ==> StaysInOrder(after)
  {
    hide Started, MaskedWhenOff, Reached, Leads, Gapless, InOrder, Next;
    ReachedReleasing(read);
    var path: seq<State> :| && Path(path) && path[0] == read && path[|path| - 1] == write
                && forall i :: 0 <= i < |path| ==> path[i].worker == read.worker;
    MeanwhileHistory(path, |path| - 1);
    SameHoles(read.h, write.h, read.h.finished + 1);
    if write.driver.stopping {
      StoppedRefill(write, after, read.hw.queue);
      AbandonedStaysInOrder(after);
    } else if write.h.finished == read.h.finished {
      assert Refill(write, after);
      AtomicRefill(write, after);
      SoundStaysInOrder(after);
    } else if Gapless(read.h, read.h.finished + 1) {
      var t := LateWriteBreaks(read, write, after);
    } else {
      BehindHoleStaysInOrder(read, write, after);
    }
  }

  lemma SameHoles(h: History, h': History, p: nat)
    requires h'.holes == h.holes
    ensures Gapless(h', p) == Gapless(h, p)
  {
  }

  lemma StoppedRefill(s: State, s': State, snapshot: set<nat>)
    requires Started(s) && MaskedWhenOff(s) && s.driver.stopping && RefillFrom(s, s', snapshot)
    ensures Abandoned(s')
  {
  }

  /** Such a delay exists: slot 1 completes while the refill of slot 0 is under way,
      and the worker copies something else than frame 1. */
  lemma ADelayBreaksTheOrder()
    ensures exists read, write, after, t ::
      && Reached(read) && Meanwhile(read, write) && RefillFrom(write, after, read.hw.queue)
      && Leads(after, t) && !InOrder(t.output)
  {
    hide Reached, Leads, InOrder, Next;
    FirstCopyReached();
    var read := FirstCopy();
    var begun := read.(hw := read.hw.(writing := Some(1), memory := read.hw.memory[1 := Torn]), writingAt := 1);
    var write := Ended(begun);
    HwSteps(read, begun, write, 0);
    MeanwhileTwo(read, begun, write);
    var after := write.(worker := Worker.Ready, driver := Refilled(write.driver, 0),
                        hw := write.hw.(queue := read.hw.queue + {0}), h := write.h.(released := 1));
    assert RefillFrom(write, after, read.hw.queue);
    RefillRace(read, write, after);
  }

  lemma MeanwhileTwo(s: State, t: State, u: State)
    requires Next(s, t) && Next(t, u) && t.worker == s.worker && u.worker == s.worker
    ensures Meanwhile(s, u)
  {
    hide Next;
    var path := [s, t, u];
    assert Path(path);
  }
}
