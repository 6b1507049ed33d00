/** The capture ring is never stuck.  Merged interrupts and interrupts lost between the
    status read and the acknowledgement leave completions unreported; from every state a run
    can reach, as long as no slot was left out and nobody gave up, the worker can still get
    the next frame, and so any number of frames.
 */
module CaptureRingProgress {
  import opened Bytes
  import opened DmaRing
  import opened CaptureRing
  import opened CaptureRingSafety

  /** A step of the running stream: nobody stops, fails, or leaves a slot out. */
  ghost predicate Calm(s: State, s': State) {
    || HwBegin(s, s') || HwEnd(s, s')
    || IrqEnter(s, s') || IrqReadStatus(s, s') || IrqAck(s, s') || IrqDecode(s, s')
    || Arm(s, s') || Wait(s, s') || Wake(s, s') || Accept(s, s') || Copy(s, s') || Refill(s, s')
  }

  ghost predicate Onward(path: seq<State>) {
    |path| > 0 && forall i: nat :: i + 1 < |path| ==> CalmAt(path, i)
  }

  ghost predicate CalmAt(path: seq<State>, i: nat)
    requires i + 1 < |path|
  {
    Calm(path[i], path[i + 1])
  }

  /** With the bit clear and no handler at work, fewer than four completions are
      unreported: the lost ones lie behind the last status read, and hardware was then
      at most four slots ahead of the worker. */
  ghost predicate FewUnreported(s: State) {
    && (s.handler.Idle? && !s.hw.irqBit ==> s.h.finished < s.h.reported + SLOTS)
    && (s.handler.Acked? && !s.hw.irqBit ==> s.h.finished < s.seen + SLOTS)
  }

  /** The ring works: it was started, nobody has given up, and no slot was left out. */
  ghost predicate Working(s: State) {
    Started(s) && MaskedWhenOff(s) && !GivenUp(s) && s.h.holes == {} && FewUnreported(s)
  }

  /** Hardware is at most four slots ahead of the worker, and a status read is news. */
  lemma Ahead(s: State)
    requires Started(s)
    ensures s.h.released <= s.h.consumed <= s.h.reported <= s.h.finished <= s.h.released + SLOTS
    ensures s.handler.StatusRead? || s.handler.Acked? ==> s.h.reported < s.seen
  {
    hide FrameShape, CursorShape, WritingShape, QueueShape, PendingShape, MemoryShape, CountShape, WorkerShape,
         OutputShape;
  }

  lemma DecodeMoves(s: State, s': State)
    requires Started(s) && s.h.holes == {} && IrqDecode(s, s')
    ensures s'.h.reported == s.seen && s'.h.holes == {}
  {
    hide Started, Span, SlotOf, Slot, Decodable, CompleteEach, Completed;
    HandlerSaw(s);
    DecodeYields(s.h, s.driver.pending, s.driver.next, s.handler.status, s.seen);
  }

  lemma FewKept(s: State, s': State)
    requires Started(s) && Next(s, s') && Started(s') && s'.h.holes == {}
    requires s.h.holes == {} && FewUnreported(s)
    ensures FewUnreported(s')
  {
    hide Order, FrameShape, CursorShape, WritingShape, QueueShape, PendingShape, MemoryShape, CountShape,
         HandlerShape, WorkerShape, OutputShape, Completed, CompleteEach;
    if IrqAck(s, s') {
      Ahead(s);
    } else if IrqDecode(s, s') {
      DecodeMoves(s, s');
    }
  }

  /** Holes stay. */
  lemma HolesStay(s: State, s': State)
    requires Started(s) && Next(s, s') && Started(s') && s'.h.holes == {}
    ensures s.h.holes == {}
  {
    hide Order, FrameShape, CursorShape, WritingShape, QueueShape, PendingShape, MemoryShape, CountShape,
         HandlerShape, WorkerShape, OutputShape, Completed, CompleteEach;
    assert SkipRefill(s, s') ==> s.h.released + SLOTS in s'.h.holes;
  }

  lemma ArmedFew(s: State, s': State)
    requires Unstarted(s) && Arm(s, s')
    ensures FewUnreported(s')
  {
  }

  lemma {:induction false} FewOnRuns(run: seq<State>, i: nat)
    requires Run(run) && i < |run| && Started(run[i]) && run[i].h.holes == {}
    ensures FewUnreported(run[i])
  {
    hide Order, FrameShape, CursorShape, WritingShape, QueueShape, PendingShape, MemoryShape, CountShape,
         HandlerShape, WorkerShape, OutputShape, FewUnreported, Completed, CompleteEach;
    if i > 0 {
      RunInvariant(run, i - 1);
      assert StepAt(run, i - 1);
      var s, s' := run[i - 1], run[i];
      if Started(s) {
        HolesStay(s, s');
        FewOnRuns(run, i - 1);
        FewKept(s, s');
      } else {
        assert Arm(s, s');
        ArmedFew(s, s');
      }
    }
  }

  lemma CalmKeeps(s: State, s': State)
    requires Working(s) && Calm(s, s')
    ensures Working(s')
  {
    hide Started, MaskedWhenOff, FewUnreported, Completed, CompleteEach;
    assert Next(s, s') && !Restart(s, s') && !Drain(s, s') by {
      CalmIsNext(s, s');
    }
    StartedNext(s, s');
    assert s'.h.holes == s.h.holes && !GivenUp(s');
    FewKept(s, s');
  }

  lemma CalmIsNext(s: State, s': State)
    requires Working(s) && Calm(s, s')
    ensures Next(s, s') && !Restart(s, s') && !Drain(s, s')
  {
    hide Order, FrameShape, CursorShape, WritingShape, QueueShape, PendingShape, MemoryShape, CountShape,
         HandlerShape, WorkerShape, OutputShape, Completed, CompleteEach, FewUnreported;
  }

  // --------------------------------------------------------- the way on

  /** How far the worker is from the next frame. */
  ghost function Distance(s: State): nat {
    match s.worker
    case Copying(_) => 0
    case Woken(_) => 1
    case Waiting(_) => if s.h.consumed < s.h.reported then 2 else 3 + ReportDistance(s)
    case Ready => 9
    case _ => 10
  }

  ghost function ReportDistance(s: State): nat {
    match s.handler
    case Acked(_) => 0
    case StatusRead(_) => 1
    case Entered => 2
    case Idle => if s.hw.irqBit then 3 else if s.hw.writing.Some? then 4 else 5
  }

  /** The handler, and behind it hardware, can always report more to a waiting worker. */
  lemma Reporting(s: State) returns (s': State)
    requires Working(s) && s.worker.Waiting? && s.h.consumed == s.h.reported
    ensures Calm(s, s') && s'.worker == s.worker && s'.output == s.output && Distance(s') < Distance(s)
  {
    hide FrameShape, PendingShape, MemoryShape, CountShape, OutputShape, Completed, CompleteEach, Slot;
    NextAndDone(s);
    match s.handler {
      case Acked(status) =>
        s' := s.(handler := Idle, driver := Decoded(s.driver, status),
                 h := s.h.(reported := if Completed(s.driver.pending, s.driver.next, status) == {}
                                       then s.h.reported else s.seen));
        assert IrqDecode(s, s');
        DecodeMoves(s, s');
      case StatusRead(status) =>
        s' := s.(handler := Acked(status), hw := s.hw.(irqBit := false));
        assert IrqAck(s, s');
      case Entered =>
        s' := s.(handler := StatusRead(s.hw.status), seen := s.h.finished);
        assert IrqReadStatus(s, s');
      case Idle =>
        if s.hw.irqBit {
          s' := s.(handler := Entered);
          assert IrqEnter(s, s');
        } else if s.hw.writing.Some? {
          s' := Ended(s);
        } else {
          s' := Begun(s);
        }
    }
  }

  lemma NextAndDone(s: State)
    requires Started(s)
    ensures s.driver.next < SLOTS && |s.driver.done| == SLOTS
  {
    hide Order, FrameShape, CursorShape, WritingShape, QueueShape, MemoryShape, HandlerShape, WorkerShape, OutputShape;
  }

  /** Hardware can finish the slot it writes. */
  lemma Ended(s: State) returns (s': State)
    requires Working(s) && s.hw.writing.Some?
    ensures HwEnd(s, s')
  {
    hide Order, FrameShape, CursorShape, QueueShape, PendingShape, CountShape, HandlerShape, WorkerShape, OutputShape;
    var slot := s.hw.writing.value;
    s' := s.(hw := s.hw.(queue := s.hw.queue - {slot}, cursor := (slot + 1) % SLOTS, writing := None,
                         status := slot + 1, irqBit := true, frames := s.hw.frames + 1,
                         memory := s.hw.memory[slot := Frame(s.hw.frames)]),
             h := s.h.(finished := s.writingAt + 1));
  }

  /** Hardware can begin: the slot behind the last completed one is queued. */
  lemma Begun(s: State) returns (s': State)
    requires Working(s) && s.worker.Waiting? && s.h.consumed == s.h.reported
    requires s.handler.Idle? && !s.hw.irqBit && s.hw.writing.None?
    ensures HwBegin(s, s') && s'.hw.writing.Some? && s' == s.(hw := s'.hw, writingAt := s'.writingAt)
    ensures s'.hw.irqBit == s.hw.irqBit
  {
    hide FrameShape, WritingShape, PendingShape, CountShape, HandlerShape, OutputShape;
    var slot := SlotOf(s.hw.cursor, 0);
    assert slot == Slot(s.h.start, s.h.finished);
    assert Queued(s.h, s.h.finished);
    s' := s.(hw := s.hw.(writing := Some(slot), memory := s.hw.memory[slot := Torn]), writingAt := s.h.finished + 0);
    assert HwBeginAt(s, s', 0);
  }

  /** The worker's own step, when it has one. */
  lemma WorkerStep(s: State) returns (s': State)
    requires Working(s) && !s.worker.Copying? && (s.worker.Waiting? ==> s.h.consumed < s.h.reported)
    ensures Calm(s, s') && s'.output == s.output && Distance(s') < Distance(s)
  {
    hide FrameShape, CursorShape, WritingShape, QueueShape, PendingShape, MemoryShape, HandlerShape, OutputShape;
    match s.worker {
      case Releasing(slot) =>
        s' := s.(worker := Worker.Ready, driver := Refilled(s.driver, slot), hw := s.hw.(queue := s.hw.queue + {slot}),
                 h := s.h.(released := s.h.released + 1));
        assert Refill(s, s');
      case Ready =>
        s' := s.(worker := Waiting(s.driver.consume));
        assert Wait(s, s');
      case Waiting(slot) =>
        assert s.driver.done[Slot(s.h.start, s.h.consumed)] == Count(1);
        s' := s.(worker := Woken(slot), driver := s.driver.(done := s.driver.done[slot := s.driver.done[slot].Take()]));
        assert Wake(s, s');
      case Woken(slot) =>
        s' := s.(worker := Copying(slot), driver := Accepted(s.driver, slot), h := s.h.(consumed := s.h.consumed + 1));
        assert Accept(s, s');
    }
  }

  lemma CopyStep(s: State) returns (s': State)
    requires Working(s) && s.worker.Copying?
    ensures Calm(s, s') && s'.output == s.output + [Frame(|s.output|)]
  {
    hide Started, Slot, SlotOf;
    CopiedSlotIsOwned(s);
    CopyBank(s);
    s' := s.(worker := Worker.Releasing(s.driver.completedBank), output := s.output + [s.hw.memory[s.driver.completedBank]]);
    assert Copy(s, s');
  }

  lemma CopyBank(s: State)
    requires Working(s) && s.worker.Copying?
    ensures s.driver.completedBank == s.worker.slot < |s.hw.memory| == SLOTS
  {
    hide Order, FrameShape, CursorShape, WritingShape, QueueShape, PendingShape, CountShape, HandlerShape, OutputShape;
  }

  /** From a working ring the worker can get the next frame. */
  lemma {:induction false} Deliver(s: State) returns (path: seq<State>)
    requires Working(s)
    ensures Onward(path) && path[0] == s && Working(path[|path| - 1])
    ensures path[|path| - 1].output == s.output + [Frame(|s.output|)]
    decreases Distance(s)
  {
    hide Working, Calm, Distance;
    var s';
    if s.worker.Copying? {
      s' := CopyStep(s);
      CalmKeeps(s, s');
      path := [s, s'];
      assert CalmAt(path, 0);
    } else {
      if s.worker.Waiting? && s.h.consumed >= s.h.reported {
        ConsumedIsReported(s);
        s' := Reporting(s);
      } else {
        s' := WorkerStep(s);
      }
      CalmKeeps(s, s');
      var rest := Deliver(s');
      path := [s] + rest;
      OnwardFrom(s, rest);
    }
  }

  lemma ConsumedIsReported(s: State)
    requires Working(s)
    ensures s.h.consumed <= s.h.reported
  {
    hide FrameShape, CursorShape, WritingShape, QueueShape, PendingShape, MemoryShape, CountShape, HandlerShape,
         WorkerShape, OutputShape;
  }

  lemma OnwardFrom(s: State, rest: seq<State>)
    requires Onward(rest) && Calm(s, rest[0])
    ensures Onward([s] + rest)
  {
    hide Calm;
    var path := [s] + rest;
    forall i: nat | i + 1 < |path| ensures CalmAt(path, i) {
      if i > 0 {
        assert CalmAt(rest, i - 1);
      }
    }
  }

  lemma OnwardJoins(first: seq<State>, second: seq<State>)
    requires Onward(first) && Onward(second) && first[|first| - 1] == second[0]
    ensures Onward(first + second[1..])
  {
    hide Calm;
    var path := first + second[1..];
    forall i: nat | i + 1 < |path| ensures CalmAt(path, i) {
      if i + 1 < |first| {
        assert CalmAt(first, i);
      } else {
        assert CalmAt(second, i + 1 - |first|);
      }
    }
  }

  /** n frames more. */
  ghost predicate Delivers(path: seq<State>, n: nat) {
    && Onward(path) && |path[|path| - 1].output| == |path[0].output| + n && path[0].output <= path[|path| - 1].output
  }

  lemma {:induction false} DeliverMany(s: State, n: nat) returns (path: seq<State>)
    requires Working(s)
    ensures Delivers(path, n) && path[0] == s && Working(path[|path| - 1])
  {
    hide Working, Onward;
    if n == 0 {
      path := [s];
      Alone(s);
    } else {
      var first := DeliverMany(s, n - 1);
      OnwardLong(first);
      var second := Deliver(first[|first| - 1]);
      OnwardLong(second);
      OnwardJoins(first, second);
      path := first + second[1..];
      LastOf(first, second);
    }
  }

  lemma Alone(s: State)
    ensures Onward([s])
  {
  }

  lemma OnwardLong(path: seq<State>)
    requires Onward(path)
    ensures |path| > 0
  {
  }

  lemma LastOf(first: seq<State>, second: seq<State>)
    requires |first| > 0 && |second| > 0 && first[|first| - 1] == second[0]
    ensures var path := first + second[1..]; path[0] == first[0] && path[|path| - 1] == second[|second| - 1]
  {
  }

  /** In every state a run can reach, once the ring was started, with no slot left out and
      nobody stopping or failing: whatever interrupts were merged or lost, the run can go on
      so that the worker copies any number of frames more. */
  lemma NeverStuck(run: seq<State>, i: nat, n: nat)
    requires Run(run) && i < |run|
    requires run[i].driver.started && run[i].driver.ringActive && !GivenUp(run[i]) && run[i].h.holes == {}
    ensures exists path: seq<State> :: Delivers(path, n) && path[0] == run[i]
  {
    hide Working, Delivers;
    RunInvariant(run, i);
    StartedIs(run[i]);
    FewOnRuns(run, i);
    WorkingIs(run[i]);
    var path := DeliverMany(run[i], n);
  }

  lemma StartedIs(s: State)
    requires Inv(s) && s.driver.started && s.driver.ringActive
    ensures Started(s)
  {
    hide Order, FrameShape, CursorShape, WritingShape, QueueShape, PendingShape, MemoryShape, CountShape,
         HandlerShape, WorkerShape, OutputShape;
  }

  lemma WorkingIs(s: State)
    requires Started(s) && MaskedWhenOff(s) && !GivenUp(s) && s.h.holes == {} && FewUnreported(s)
    ensures Working(s)
  {
    hide Started, MaskedWhenOff, FewUnreported;
  }
}
