/** One I2C transfer as the driver performs it (driver/gc573_block.c), step by step
    against the engine of module BlockEngine. */
module BlockTransfer {

  import opened Bytes
  import opened BlockEngine

  /** Since `base`, transfers of the other kind only. */
  predicate OthersOnly(base: seq<Done>, completed: seq<Done>, k: Kind) {
    && base <= completed
    && forall i: nat :: |base| <= i < |completed| ==> KindOf(completed[i].job.transfer) != k
  }

  /** The driver's own transfer, number `serial`, is the newest completion, the only one of
      its kind since `base`, and nothing is in flight. */
  predicate OwnDone(serial: nat, t: Transfer, base: seq<Done>, s: Bus) {
    && |s.completed| > |base| && s.busy.None?
    && s.completed[|s.completed| - 1].job == Job(serial, t)
    && OthersOnly(base, s.completed[..|s.completed| - 1], KindOf(t))
  }

  /** The own transfer is the only one of its kind that can be in flight, and the only one
      that can have completed since `base`. */
  predicate Ours(serial: nat, t: Transfer, base: seq<Done>, s: Bus) {
    || OwnDone(serial, t, base, s)
    || (OthersOnly(base, s.completed, KindOf(t))
        && (s.busy.Some? ==> s.busy.value == Job(serial, t) || KindOf(s.busy.value.transfer) != KindOf(t)))
  }

  predicate Tracked(serial: nat, t: Transfer, base: seq<Done>, s: Bus, armed: bool) {
    && Ours(serial, t, base, s)
    && (armed ==> OwnDone(serial, t, base, s) || !Bit(s.status, DoneBit(KindOf(t))))
    && (OwnDone(serial, t, base, s) && t.ReadOf? ==>
          s.fifo == s.completed[|s.completed| - 1].bytes && |s.fifo| == t.length)
  }

  lemma OthersNext(base: seq<Done>, s: Bus, s': Bus, k: Kind)
    requires OthersOnly(base, s.completed, k) && Evolves(s, s')
    ensures s'.completed == s.completed
            || (s.busy.Some? && s'.busy.None? && s'.completed[..|s'.completed| - 1] == s.completed
                && s'.completed[|s'.completed| - 1].job == s.busy.value)
    ensures IdleFor(s, k) ==> OthersOnly(base, s'.completed, k) && IdleFor(s', k)
  {
  }

  /** A completed transfer stays the newest: the engine does nothing by itself. */
  lemma DoneLasts(serial: nat, t: Transfer, base: seq<Done>, s: Bus, s': Bus)
    requires OwnDone(serial, t, base, s) && Evolves(s, s')
    ensures OwnDone(serial, t, base, s') && s'.completed == s.completed && s'.fifo == s.fifo && s'.busy.None?
  {
  }

  lemma NotYetDone(serial: nat, t: Transfer, base: seq<Done>, s: Bus)
    requires OthersOnly(base, s.completed, KindOf(t))
    ensures !OwnDone(serial, t, base, s)
  {
  }

  lemma TrackedStep(serial: nat, t: Transfer, base: seq<Done>, s: Bus, s': Bus, armed: bool)
    requires Tracked(serial, t, base, s, armed) && Evolves(s, s')
    ensures Tracked(serial, t, base, s', armed)
    ensures Tracked(serial, t, base, s', Observe(s'.status, armed, KindOf(t)).1)
  {
    if OwnDone(serial, t, base, s) {
      DoneLasts(serial, t, base, s, s');
    } else {
      OthersNext(base, s, s', KindOf(t));
      if s'.completed == s.completed {
        NotYetDone(serial, t, base, s');
      } else if s.busy.value != Job(serial, t) {
        NotYetDone(serial, t, base, s');
      }
    }
  }

  /** One sample of the status, possibly of a card that no longer answers. */
  lemma SampleStep(serial: nat, t: Transfer, base: seq<Done>, s: Bus, s': Bus, armed: bool, v: nat)
    requires Evolves(s, s') && (Dead(v) || v == s'.status)
    ensures var (verdict, clear) := Observe(v, armed, KindOf(t));
      Tracked(serial, t, base, s, armed) ==>
        Tracked(serial, t, base, s', clear) && (verdict == Fresh ==> OwnDone(serial, t, base, s'))
  {
    hide Evolves, OwnDone, Ours;
    if Tracked(serial, t, base, s, armed) {
      TrackedStep(serial, t, base, s, s', armed);
    }
  }

  lemma ObserveSays(v: nat, armed: bool, k: Kind)
    ensures var (verdict, clear) := Observe(v, armed, k);
      && (verdict == Fresh ==> !Dead(v) && Bit(v, DoneBit(k)) && clear)
      && (verdict == Gone ==> Dead(v))
  {
  }

  /** A start command on an engine without a transfer of the same kind. */
  lemma BeginTracks(serial: nat, t: Transfer, base: seq<Done>, before: Bus, at: Bus, begun: Bus, armed: bool)
    requires IdleFor(before, KindOf(t)) && OthersOnly(base, before.completed, KindOf(t))
    requires before.starts == serial && Evolves(before, at) && Begins(at, begun, t)
    requires armed ==> !Bit(before.status, DoneBit(KindOf(t)))
    ensures Tracked(serial, t, base, begun, armed)
  {
    OthersNext(base, before, at, KindOf(t));
    NotYetDone(serial, t, base, begun);
  }

  // -------------------------------------------- what is in flight, in any case

  function InFlight(s: Bus): nat {
    if s.busy.Some? then 1 else 0
  }

  /** With nothing started, the transfer in flight can only complete. */
  predicate Drifts(s: Bus, s': Bus) {
    && s'.starts == s.starts && s.completed <= s'.completed
    && (s'.busy.Some? ==> s'.busy == s.busy)
    && |s'.completed| + InFlight(s') == |s.completed| + InFlight(s)
  }

  /** After a call that may have started `t`, it or the transfer that was in flight before
      can still be; each of the two completes at most once. */
  predicate Flows(s: Bus, s': Bus, t: Transfer, started: bool) {
    if !started then Drifts(s, s')
    else
      && s'.starts == s.starts + 1 && s.completed <= s'.completed
      && (s'.busy.Some? ==> s'.busy == s.busy || s'.busy.value == Job(s.starts, t))
      && |s'.completed| + InFlight(s') <= |s.completed| + InFlight(s) + 1
  }

  lemma EvolvesDrifts(s: Bus, s': Bus)
    requires Evolves(s, s')
    ensures Drifts(s, s')
  {
  }

  lemma DriftsJoin(a: Bus, b: Bus, c: Bus)
    requires Drifts(a, b) && Drifts(b, c)
    ensures Drifts(a, c)
  {
  }

  lemma FlowsJoin(a: Bus, b: Bus, c: Bus, d: Bus, t: Transfer, started: bool)
    requires Drifts(a, b) && Flows(b, c, t, started) && Drifts(c, d)
    ensures Flows(a, d, t, started)
  {
  }

  lemma BeginFlows(before: Bus, at: Bus, begun: Bus, after: Bus, t: Transfer)
    requires Evolves(before, at) && Begins(at, begun, t) && Evolves(begun, after)
    ensures Flows(before, after, t, true)
  {
    EvolvesDrifts(before, at);
    EvolvesDrifts(begun, after);
  }

  lemma NoTimePasses(a: Bus)
    ensures Evolves(a, a)
  {
  }

  lemma Later(a: Bus, b: Bus, c: Bus)
    requires Evolves(a, b) && Evolves(b, c)
    ensures Evolves(a, c)
  {
  }

  /** The controller's registers in front of the engine. */
  class Engine {
    var bus: Bus
    var regs: map<nat, nat>
    var writes: seq<(nat, nat)>
    ghost var takes: seq<nat>    // one entry a FIFO byte taken: the completions so far
    ghost var answers: seq<(nat, nat)>     // every register read, with what it returned

    constructor ()
      ensures bus.busy.None? && writes == [] && takes == [] && answers == []
    {
      bus, regs, writes, takes, answers := Bus(0, 0, None, [], []), map[], [], [], [];
    }

    function Reg(r: nat): nat
      reads this
    {
      if r in regs then regs[r] else 0
    }

    /** Time passes between two accesses. */
    method Elapse()
      modifies this`bus
      ensures Evolves(old(bus), bus)
    {
      var next: Bus := *;
      if Evolves(bus, next) {
        bus := next;
      }
    }

    method ReadStatus() returns (v: nat)
      modifies this`bus, this`answers
      ensures Evolves(old(bus), bus) && (Dead(v) || v == bus.status)
      ensures answers == old(answers) + [(STATUS, v)]
    {
      Elapse();
      v := bus.status;
      if * {
        v := REMOVED;
      }
      answers := answers + [(STATUS, v)];
    }

    method ReadReg(r: nat) returns (v: nat)
      modifies this`bus, this`answers
      ensures Evolves(old(bus), bus) && (Dead(v) || v == Reg(r)) && answers == old(answers) + [(r, v)]
    {
      Elapse();
      v := Reg(r);
      if * {
        v := REMOVED;
      }
      answers := answers + [(r, v)];
    }

    /** A register whose value the model leaves open. */
    method ReadAny(r: nat) returns (v: nat)
      modifies this`bus, this`answers
      ensures Evolves(old(bus), bus) && answers == old(answers) + [(r, v)]
    {
      Elapse();
      v := *;
      answers := answers + [(r, v)];
    }

    /** Takes a byte from the receive FIFO, behind the preparing command. */
    method ReadFifo() returns (v: byte)
      requires Reg(COMMAND) == 0x10
      modifies this`bus, this`takes
      ensures takes == old(takes) + [|bus.completed|] && Drifts(old(bus), bus)
      ensures old(bus.busy).None? && old(bus.fifo) != [] ==> old(bus.fifo) == [v] + bus.fifo
    {
      Elapse();
      EvolvesDrifts(old(bus), bus);
      takes := takes + [|bus.completed|];
      if bus.fifo == [] {
        v := *;
      } else {
        v := bus.fifo[0];
        bus := bus.(fifo := bus.fifo[1..]);
      }
    }

    method Write(r: nat, v: nat)
      modifies this`bus, this`regs, this`writes
      ensures Evolves(old(bus), bus) && regs == old(regs)[r := v] && writes == old(writes) + [(r, v)]
    {
      Elapse();
      regs := regs[r := v];
      writes := writes + [(r, v)];
    }

    /** A run of writes to different registers. */
    method WriteAll(program: seq<(nat, nat)>)
      requires forall i: nat, j: nat :: i < j < |program| ==> program[i].0 != program[j].0
      modifies this`bus, this`regs, this`writes
      ensures Evolves(old(bus), bus) && writes == old(writes) + program
      ensures forall i: nat :: i < |program| ==> Reg(program[i].0) == program[i].1
      ensures forall r: nat :: (forall i: nat :: i < |program| ==> program[i].0 != r) ==> Reg(r) == old(Reg(r))
    {
      hide Quiet, Completes;
      var n := 0;
      NoTimePasses(bus);
      while n < |program|
        invariant n <= |program| && Evolves(old(bus), bus) && writes == old(writes) + program[..n]
        invariant forall i: nat :: i < n ==> Reg(program[i].0) == program[i].1
        invariant forall r: nat :: (forall i: nat :: i < n ==> program[i].0 != r) ==> Reg(r) == old(Reg(r))
      {
        ghost var was := bus;
        Write(program[n].0, program[n].1);
        Later(old(bus), was, bus);
        n := n + 1;
      }
    }

    /** The engine is prepared for a transfer with one-byte subaddress and FIFO width. */
    predicate Prepared(command: nat)
      reads this
    {
      && Reg(COMMAND) == 0x10 && Reg(SUBADDR_WIDTH) == 0 && Reg(FIFO_WIDTH) == 0
      && (command == 4 ==> Reg(LENGTH) == 1)
    }

    /** The start command: the engine takes the transfer from its registers. */
    method Start(command: nat) returns (ghost at: Bus)
      requires (command == 8 || command == 4) && Prepared(command)
      modifies this`bus, this`regs, this`writes
      ensures Evolves(old(bus), at) && regs == old(regs)[COMMAND := command]
      ensures writes == old(writes) + [(COMMAND, command)]
      ensures Begins(at, bus,
                     if command == 8 then ReadOf(old(Reg(ADDRESS)), old(Reg(SUBADDR)), old(Reg(LENGTH)))
                     else WriteOf(old(Reg(ADDRESS)), old(Reg(SUBADDR)), old(Reg(TX))))
    {
      var t := if command == 8 then ReadOf(Reg(ADDRESS), Reg(SUBADDR), Reg(LENGTH))
               else WriteOf(Reg(ADDRESS), Reg(SUBADDR), Reg(TX));
      Elapse();
      at := bus;
      if * {
        if bus.busy.Some? {
          bus := bus.(starts := bus.starts + 1);
        } else {
          bus := bus.(starts := bus.starts + 1, busy := Some(Job(bus.starts, t)));
        }
      } else {
        bus := bus.(starts := bus.starts + 1, busy := Some(Job(bus.starts, t)));
      }
      regs := regs[COMMAND := command];
      writes := writes + [(COMMAND, command)];
    }
  }

  /** A value that no card gives. */
  ghost predicate NoCard(v: nat) {
    v == 0xeeee_eeee || v == 0xffff_ffff
  }

  /** A sample that ends a wait well: the bit is set, and it was clear before, when the
      transfer was prepared or in an earlier sample. */
  ghost predicate DoneAt(s: seq<(nat, nat)>, i: nat, armed: bool, mask: nat)
    requires i < |s| && mask > 0
  {
    && !NoCard(s[i].1) && s[i].1 / mask % 2 == 1
    && (armed || exists j: nat :: j < i && s[j].1 / mask % 2 == 0)
  }

  /** How a wait ends, by its samples of the status: well or without a card at the first
      sample that says so, or out of time when none does. */
  ghost predicate Waited(s: seq<(nat, nat)>, armed: bool, mask: nat, ret: Option<Error>)
    requires mask > 0
  {
    && (forall i: nat :: i < |s| ==> s[i].0 == 0x1a4)
    && (forall i: nat :: i + 1 < |s| ==> !NoCard(s[i].1) && !DoneAt(s, i, armed, mask))
    && (ret.None? <==> s != [] && DoneAt(s, |s| - 1, armed, mask))
    && (ret == Some(ENODEV) <==> s != [] && NoCard(s[|s| - 1].1))
    && (ret.Some? ==> ret == Some(ENODEV) || ret == Some(ETIMEDOUT))
  }

  /** Samples that have not ended the wait, and whether one of them was clear. */
  ghost predicate Going(s: seq<(nat, nat)>, armed: bool, mask: nat, clear: bool)
    requires mask > 0
  {
    && (forall i: nat :: i < |s| ==> s[i].0 == 0x1a4 && !NoCard(s[i].1) && !DoneAt(s, i, armed, mask))
    && (clear <==> armed || exists j: nat :: j < |s| && s[j].1 / mask % 2 == 0)
  }

  lemma GoingStarts(armed: bool, k: Kind)
    ensures Going([], armed, DoneBit(k), armed)
  {
  }

  lemma GoingStep(s: seq<(nat, nat)>, armed: bool, k: Kind, clear: bool, v: nat)
    requires Going(s, armed, DoneBit(k), clear)
    ensures var (verdict, after) := Observe(v, clear, k);
      var more := s + [(STATUS, v)];
      match verdict
      case Waiting => Going(more, armed, DoneBit(k), after)
      case Fresh => Waited(more, armed, DoneBit(k), None)
      case Gone => Waited(more, armed, DoneBit(k), Some(ENODEV))
  {
    var mask, more := DoneBit(k), s + [(STATUS, v)];
    forall i: nat | i < |s| ensures DoneAt(more, i, armed, mask) == DoneAt(s, i, armed, mask) {
      assert more[i] == s[i];
      assert forall j: nat :: j < i ==> more[j] == s[j];
    }
    assert more[|s|] == (STATUS, v);
    assert (exists j: nat :: j < |s| && s[j].1 / mask % 2 == 0) ==> exists j: nat :: j < |s| && more[j].1 / mask % 2 == 0 by {
      if j: nat :| j < |s| && s[j].1 / mask % 2 == 0 {
        assert more[j] == s[j];
      }
    }
    assert DoneAt(more, |s|, armed, mask) <==> Observe(v, clear, k).0 == Fresh;
  }

  lemma GoingEnds(s: seq<(nat, nat)>, armed: bool, k: Kind, clear: bool)
    requires Going(s, armed, DoneBit(k), clear)
    ensures Waited(s, armed, DoneBit(k), Some(ETIMEDOUT))
  {
    if s != [] {
      assert !DoneAt(s, |s| - 1, armed, DoneBit(k));
    }
  }

  /** Samples the status until a completion, a missing card, or the time limit; the sample
      that ends the wait and the flag are what the driver keeps. */
  method Wait(e: Engine, k: Kind, status: nat, sawClear: bool,
              ghost serial: nat, ghost t: Transfer, ghost base: seq<Done>, ghost from: nat, ghost first: bool)
    returns (ret: Option<Error>, last: nat, armed: bool)
    requires KindOf(t) == k && from <= |e.answers| && Going(e.answers[from..], first, DoneBit(k), sawClear)
    modifies e`bus, e`answers
    ensures Evolves(old(e.bus), e.bus) && old(e.answers) <= e.answers
    ensures Tracked(serial, t, base, old(e.bus), sawClear) ==>
              Tracked(serial, t, base, e.bus, armed) && (ret.None? ==> OwnDone(serial, t, base, e.bus))
    ensures ret.None? ==>
              !Dead(last) && Bit(last, DoneBit(k)) && armed && |e.answers| > from && e.answers[|e.answers| - 1].1 == last
    ensures Waited(e.answers[from..], first, DoneBit(k), ret)
            && (ret.Some? ==> ret == Some(ENODEV) || ret == Some(ETIMEDOUT))
  {
    hide Tracked, Evolves, Bit, Observe, OwnDone, Going, Waited;
    var patience: nat := *;
    var observed := Waiting;
    last, armed := status, sawClear;
    NoTimePasses(e.bus);
    while patience > 0 && observed == Waiting
      invariant Evolves(old(e.bus), e.bus) && old(e.answers) <= e.answers
      invariant Tracked(serial, t, base, old(e.bus), sawClear) ==>
                  Tracked(serial, t, base, e.bus, armed) && (observed == Fresh ==> OwnDone(serial, t, base, e.bus))
      invariant observed == Fresh ==>
                  !Dead(last) && Bit(last, DoneBit(k)) && armed && |e.answers| > from && e.answers[|e.answers| - 1].1 == last
      invariant match observed
                case Waiting => Going(e.answers[from..], first, DoneBit(k), armed)
                case Fresh => Waited(e.answers[from..], first, DoneBit(k), None)
                case Gone => Waited(e.answers[from..], first, DoneBit(k), Some(ENODEV))
    {
      ghost var was, seen := e.bus, e.answers;
      last := e.ReadStatus();
      assert e.answers[from..] == seen[from..] + [(STATUS, last)];
      GoingStep(seen[from..], first, k, armed, last);
      Later(old(e.bus), was, e.bus);
      SampleStep(serial, t, base, was, e.bus, armed, last);
      ObserveSays(last, armed, k);
      var (verdict, clear) := Observe(last, armed, k);
      observed, armed := verdict, clear;
      patience := patience - 1;
    }
    if observed == Waiting {
      GoingEnds(e.answers[from..], first, k, armed);
    }
    ret := if observed == Fresh then None else if observed == Gone then Some(ENODEV) else Some(ETIMEDOUT);
  }

  predicate ReadAddress(a: nat) {
    a in {0x91, 0xa9, 0x59, 0x97, 0x71, 0x69, 0x6b, 0x6d, 0x6f, 0xd9}
  }

  predicate WriteAddress(a: nat) {
    a in {0x90, 0x58, 0x96, 0x70, 0x68, 0x6a, 0x6c, 0x6e, 0xd8}
  }

  /** Status values the driver starts or goes on from. */
  predicate Settled(status: nat, afterGpio: bool) {
    status == 0 || status == WRITE_DONE || status == READ_DONE || (afterGpio && status == 8)
  }

  /** What a finished call leaves behind.  On an engine without a transfer of the call's
      kind a success has completed last, and nothing is in flight. */
  ghost predicate Outcome(before: Bus, after: Bus, t: Transfer, started: bool, ok: bool) {
    && Flows(before, after, t, started) && (ok ==> started)
    && (IdleFor(before, KindOf(t)) ==>
          if ok then OwnDone(before.starts, t, before.completed, after)
          else if started then Ours(before.starts, t, before.completed, after)
          else OthersOnly(before.completed, after.completed, KindOf(t)) && IdleFor(after, KindOf(t)))
  }

  /** So many bytes were taken from the FIFO; on an engine that was idle before, each when
      `at` transfers had completed. */
  ghost predicate Taken(before: seq<nat>, after: seq<nat>, count: nat, at: nat, idle: bool) {
    && |after| == |before| + count && before <= after
    && (idle ==> forall i: nat :: |before| <= i < |after| ==> after[i] == at)
  }

  lemma TakenFrom(before: seq<nat>, after: seq<nat>, count: nat, at: nat, idle: bool, at': nat, idle': bool)
    requires Taken(before, after, count, at, idle) && (idle' ==> idle && at' == at)
    ensures Taken(before, after, count, at', idle')
  {
  }

  /** Takes the received bytes. */
  method Drain(e: Engine, length: nat) returns (data: seq<byte>)
    requires e.Reg(COMMAND) == 0x10
    modifies e`bus, e`takes
    ensures Taken(old(e.takes), e.takes, length, |old(e.bus.completed)|, old(e.bus.busy).None?)
    ensures |data| == length && Drifts(old(e.bus), e.bus)
    ensures old(e.bus.busy).None? && |old(e.bus.fifo)| == length ==> data == old(e.bus.fifo)
  {
    data := [];
    while |data| < length
      invariant |data| <= length && Drifts(old(e.bus), e.bus)
      invariant Taken(old(e.takes), e.takes, |data|, |old(e.bus.completed)|, old(e.bus.busy).None?)
      invariant old(e.bus.busy).None? && |old(e.bus.fifo)| == length ==> old(e.bus.fifo) == data + e.bus.fifo
    {
      ghost var was := e.bus;
      var b := e.ReadFifo();
      DriftsJoin(old(e.bus), was, e.bus);
      data := data + [b];
    }
  }

  /** From the start command to the sample that ends the wait.  `before` is the engine at
      the arming sample `prepared`. */
  method StartAndWait(e: Engine, command: nat, sampled: bool, prepared: nat, ghost before: Bus, ghost t: Transfer)
    returns (ret: Option<Error>, status: nat, armed: bool)
    requires command == (if t.ReadOf? then 8 else 4) && (t.WriteOf? ==> !sampled) && e.Prepared(command)
    requires t == if t.ReadOf? then ReadOf(e.Reg(ADDRESS), e.Reg(SUBADDR), e.Reg(LENGTH))
                  else WriteOf(e.Reg(ADDRESS), e.Reg(SUBADDR), e.Reg(TX))
    requires prepared == before.status && Evolves(before, e.bus)
    modifies e`bus, e`regs, e`writes, e`answers
    ensures e.writes == old(e.writes) + [(COMMAND, command)] && old(e.answers) <= e.answers
    ensures e.regs == old(e.regs)[COMMAND := command] && Outcome(before, e.bus, t, true, ret.None?)
    ensures IdleFor(before, KindOf(t)) ==> Tracked(before.starts, t, before.completed, e.bus, armed)
    ensures ret.None? ==>
              && !Dead(status) && Bit(status, DoneBit(KindOf(t))) && armed
              && |e.answers| > |old(e.answers)| && e.answers[|e.answers| - 1].1 == status
    ensures Waited(e.answers[|old(e.answers)|..], !Bit(prepared, DoneBit(KindOf(t))), DoneBit(KindOf(t)), ret)
    ensures ret != Some(EBUSY) && ret != Some(EINVAL)
  {
    hide Tracked, Evolves, Bit, Observe, Begins, OwnDone, Ours, OthersOnly, Flows, Going, Waited;
    ghost var from, unset := |e.answers|, !Bit(prepared, DoneBit(KindOf(t)));
    GoingStarts(unset, KindOf(t));
    assert e.answers[from..] == [];
    var k := if command == 8 then Reading else Writing;
    ghost var serial, base, loaded := before.starts, before.completed, e.bus;
    armed := !Bit(prepared, DoneBit(k));
    status := prepared;
    ghost var at := e.Start(command);
    Later(before, loaded, at);
    ghost var begun := e.bus;
    NoTimePasses(begun);
    if IdleFor(before, k) {
      NothingSince(base, k);
      BeginTracks(serial, t, base, before, at, begun, armed);
    }
    ret := None;
    var verdict := Waiting;
    if sampled {
      status := e.ReadStatus();
      assert e.answers[from..] == [] + [(STATUS, status)];
      GoingStep([], unset, k, armed, status);
      SampleStep(serial, t, base, begun, e.bus, armed, status);
      ObserveSays(status, armed, k);
      var (first, clear) := Observe(status, armed, k);
      verdict, armed := first, clear;
      if verdict == Gone {
        ret := Some(ENODEV);
      }
    }
    if verdict == Waiting {
      ghost var was := e.bus;
      ret, status, armed := Wait(e, k, status, armed, serial, t, base, from, unset);
      Later(begun, was, e.bus);
    }
    BeginFlows(before, at, begun, e.bus, t);
    if IdleFor(before, k) {
      TrackedIsOurs(serial, t, base, e.bus, armed);
    }
  }

  lemma NothingSince(base: seq<Done>, k: Kind)
    ensures OthersOnly(base, base, k)
  {
  }

  lemma TrackedIsOurs(serial: nat, t: Transfer, base: seq<Done>, s: Bus, armed: bool)
    requires Tracked(serial, t, base, s, armed)
    ensures Ours(serial, t, base, s)
  {
  }

  /** Time passes: what a call leaves behind stays as it is. */
  lemma OutcomeLasts(before: Bus, s: Bus, s': Bus, t: Transfer, started: bool, ok: bool)
    requires Outcome(before, s, t, started, ok) && Evolves(s, s')
    ensures Outcome(before, s', t, started, ok)
    ensures IdleFor(before, KindOf(t)) && ok ==>
              s.busy.None? && s'.busy.None? && s'.completed == s.completed && s'.fifo == s.fifo
  {
    hide OthersOnly, OwnDone, Flows, Ours;
    EvolvesDrifts(s, s');
    FlowsOn(before, s, s', t, started);
    if IdleFor(before, KindOf(t)) {
      if ok {
        DoneLasts(before.starts, t, before.completed, s, s');
        DoneIsIdle(before.starts, t, before.completed, s);
      } else if started {
        OursLasts(before.starts, t, before.completed, s, s');
      } else {
        OthersNext(before.completed, s, s', KindOf(t));
      }
    }
  }

  lemma FlowsOn(before: Bus, s: Bus, s': Bus, t: Transfer, started: bool)
    requires Flows(before, s, t, started) && Drifts(s, s')
    ensures Flows(before, s', t, started)
  {
  }

  lemma DoneIsIdle(serial: nat, t: Transfer, base: seq<Done>, s: Bus)
    requires OwnDone(serial, t, base, s)
    ensures s.busy.None? && Ours(serial, t, base, s)
  {
  }

  lemma OursLasts(serial: nat, t: Transfer, base: seq<Done>, s: Bus, s': Bus)
    requires Ours(serial, t, base, s) && Evolves(s, s')
    ensures Ours(serial, t, base, s')
  {
    hide Evolves, Observe, Bit;
    if OwnDone(serial, t, base, s) {
      DoneLasts(serial, t, base, s, s');
    } else {
      OthersNext(base, s, s', KindOf(t));
      EvolvesDrifts(s, s');
    }
  }

  /** What happened before the call's own transfer is of the other kind. */
  lemma OutcomeComposes(before: Bus, was: Bus, after: Bus, t: Transfer, started: bool, ok: bool)
    requires Outcome(before, was, t, false, false) && Outcome(was, after, t, started, ok)
    ensures Outcome(before, after, t, started, ok)
    ensures before.starts == was.starts
    ensures IdleFor(before, KindOf(t)) ==> IdleFor(was, KindOf(t))
  {
    hide Evolves;
    SameDrifts(after);
    FlowsJoin(before, was, after, after, t, started);
  }

  lemma SameDrifts(s: Bus)
    ensures Drifts(s, s)
  {
  }

  lemma NothingBegun(before: Bus, t: Transfer)
    ensures Outcome(before, before, t, false, false)
  {
  }

  /** The bytes of a read that completed are in the FIFO. */
  lemma ReceivedFifo(before: Bus, after: Bus, t: Transfer, armed: bool)
    requires IdleFor(before, KindOf(t)) && t.ReadOf?
    requires Tracked(before.starts, t, before.completed, after, armed) && Outcome(before, after, t, true, true)
    ensures after.busy.None? && |after.fifo| == t.length && |after.completed| > 0
    ensures after.completed[|after.completed| - 1] == Done(Job(before.starts, t), after.fifo)
  {
  }

  lemma DrainedOutcome(before: Bus, s: Bus, s': Bus, t: Transfer)
    requires Outcome(before, s, t, true, true) && Drifts(s, s')
    ensures Outcome(before, s', t, true, true)
    ensures IdleFor(before, KindOf(t)) ==> s.busy.None? && s'.busy.None? && s'.completed == s.completed
  {
    FlowsOn(before, s, s', t, true);
    assert s.busy.None? ==> s'.completed[..|s'.completed|] == s.completed;
  }

  /** On an engine without a read in flight before the call, the newest completion is the
      call's own and sent these bytes, and nothing is in flight. */
  ghost predicate Answered(before: Bus, after: Bus, t: Transfer, data: seq<byte>) {
    IdleFor(before, Reading) ==>
      && after.busy.None? && |after.completed| > |before.completed|
      && after.completed[|after.completed| - 1] == Done(Job(before.starts, t), data)
  }

  /** What a call that returns bytes leaves behind. */
  ghost predicate ReadOutcome(before: Bus, after: Bus, t: Transfer, started: bool, ok: bool, data: seq<byte>,
                              takes: seq<nat>, takes': seq<nat>)
    requires t.ReadOf?
  {
    && Outcome(before, after, t, started, ok) && |data| == (if ok then t.length else 0)
    && (if ok then Answered(before, after, t, data)
                   && Taken(takes, takes', t.length, |after.completed|, IdleFor(before, Reading))
        else takes' == takes)
  }

  lemma ReadOutcomeLasts(before: Bus, s: Bus, s': Bus, t: Transfer, started: bool, ok: bool, data: seq<byte>,
                         takes: seq<nat>, takes': seq<nat>)
    requires t.ReadOf? && ReadOutcome(before, s, t, started, ok, data, takes, takes') && Evolves(s, s')
    ensures ReadOutcome(before, s', t, started, ok, data, takes, takes')
  {
    hide Evolves, Outcome, OwnDone, Ours, OthersOnly, Flows;
    OutcomeLasts(before, s, s', t, started, ok);
  }

  lemma ReadOutcomeComposes(before: Bus, was: Bus, after: Bus, t: Transfer, started: bool, ok: bool, data: seq<byte>,
                            takes: seq<nat>, takes': seq<nat>)
    requires t.ReadOf? && Outcome(before, was, t, false, false)
    requires ReadOutcome(was, after, t, started, ok, data, takes, takes')
    ensures ReadOutcome(before, after, t, started, ok, data, takes, takes')
  {
    hide Evolves, OwnDone, Ours, Flows;
    OutcomeComposes(before, was, after, t, started, ok);
    NothingMore(before, was, t);
  }

  lemma NothingMore(before: Bus, was: Bus, t: Transfer)
    requires Outcome(before, was, t, false, false)
    ensures |before.completed| <= |was.completed| && was.starts == before.starts
    ensures IdleFor(before, KindOf(t)) ==> IdleFor(was, KindOf(t))
  {
  }

  lemma NothingRead(before: Bus, s: Bus, t: Transfer, started: bool, takes: seq<nat>)
    requires t.ReadOf? && Outcome(before, s, t, started, false)
    ensures ReadOutcome(before, s, t, started, false, [], takes, takes)
  {
    hide Outcome;
  }

  /** The bytes taken behind a completed read are its own. */
  lemma BytesRead(before: Bus, s: Bus, s': Bus, t: Transfer, armed: bool, fifo: seq<byte>, data: seq<byte>,
                  takes: seq<nat>, takes': seq<nat>)
    requires t.ReadOf? && Outcome(before, s, t, true, true) && Drifts(s, s') && |data| == t.length
    requires IdleFor(before, Reading) ==> Tracked(before.starts, t, before.completed, s, armed)
    requires s.busy.None? && |s.fifo| == t.length ==> data == s.fifo
    requires Taken(takes, takes', t.length, |s.completed|, s.busy.None?)
    ensures ReadOutcome(before, s', t, true, true, data, takes, takes')
  {
    hide Tracked, Flows, Ours, OthersOnly, Taken;
    DrainedOutcome(before, s, s', t);
    if IdleFor(before, Reading) {
      ReceivedFifo(before, s, t, armed);
      TakenFrom(takes, takes', t.length, |s.completed|, s.busy.None?, |s'.completed|, true);
    } else {
      TakenFrom(takes, takes', t.length, |s.completed|, s.busy.None?, |s'.completed|, false);
    }
  }

  lemma TrackedLasts(serial: nat, t: Transfer, base: seq<Done>, s: Bus, s': Bus, armed: bool)
    requires Tracked(serial, t, base, s, armed) && Evolves(s, s')
    ensures Tracked(serial, t, base, s', armed)
  {
    hide Evolves, OwnDone, Ours;
    TrackedStep(serial, t, base, s, s', armed);
  }

  /** A status that a read goes on from: nothing, or the end of an earlier transfer; 8 is
      what the GPIO setup leaves. */
  predicate GoesOn(status: nat, afterGpio: bool) {
    status == 0 || status == 1 || status == 4 || (afterGpio && status == 8)
  }

  /** The prepared part of a read: it programs the engine and is started exactly when the
      status then read lets it go on; the samples from the start on decide how it ends; the
      divider is given back in any case. */
  ghost predicate ReadSteps(seen: seq<(nat, nat)>, writes: seq<(nat, nat)>, afterGpio: bool, sub: nat, length: nat,
                            address: nat, divider: nat, ret: Option<Error>, started: bool)
  {
    && |seen| >= 2 && seen[0].0 == 0x1a4 && (started <==> GoesOn(seen[0].1, afterGpio))
    && |writes| >= 8 && writes[|writes| - 1] == (0x180, divider)
    && writes[..7] == [(0x180, 0x4e2), (0x184, address), (0x188, 0), (0x190, sub), (0x18c, 0), (0x194, length), (0x1a0, 0x10)]
    && ret != Some(EBUSY) && ret != Some(EINVAL)
    && if started
       then |writes| >= 10 && writes[7] == (0x1a0, 8) && writes[8] == (0x1a0, 0x10) && |seen| >= 3
            && seen[|seen| - 2].0 == 0x10 && seen[|seen| - 1].0 == 0x1a4
            && Waited(seen[1..|seen| - 2], seen[0].1 / 4 % 2 == 0, 4, ret)
       else |writes| == 8 && ret == Some(EIO)
  }

  /** A read with allowed arguments: no card, an unknown status or an enabled interrupt is
      refused without a write, by the first three values read; else it is prepared. */
  ghost predicate ReadGate(seen: seq<(nat, nat)>, writes: seq<(nat, nat)>, afterGpio: bool, sub: nat, length: nat,
                           address: nat, ret: Option<Error>, started: bool)
  {
    && |seen| >= 3 && seen[0].0 == 0x1a4 && seen[1].0 == 0x180 && seen[2].0 == 0x1c
    && if NoCard(seen[0].1) || NoCard(seen[1].1) then ret == Some(ENODEV) && !started && writes == []
       else if !GoesOn(seen[0].1, afterGpio) || seen[2].1 / 2048 % 2 == 1
       then ret == Some(EBUSY) && !started && writes == []
       else ReadSteps(seen[3..], writes, afterGpio, sub, length, address, seen[1].1, ret, started)
  }

  ghost predicate WriteSteps(seen: seq<(nat, nat)>, writes: seq<(nat, nat)>, sub: nat, value: nat,
                             address: nat, divider: nat, ret: Option<Error>, started: bool)
  {
    && |seen| >= 2 && seen[0].0 == 0x1a4 && (started <==> GoesOn(seen[0].1, false))
    && |writes| >= 8 && writes[|writes| - 1] == (0x180, divider)
    && writes[..7] == [(0x180, 0x4e2), (0x184, address), (0x188, 0), (0x190, sub), (0x1a0, 0x10), (0x18c, 0), (0x194, 1)]
    && ret != Some(EBUSY) && ret != Some(EINVAL)
    && if started
       then |writes| >= 10 && writes[7] == (0x198, value) && writes[8] == (0x1a0, 4) && |seen| >= 3
            && seen[|seen| - 2].0 == 0x10 && seen[|seen| - 1].0 == 0x1a4
            && WriteWaited(seen[1..|seen| - 2], seen[0].1 % 2 == 0, ret)
       else |writes| == 8 && ret == Some(EIO)
  }

  /** A write waits for the end of a read, allows the two interrupts of video and audio, and
      looks at the divider last. */
  ghost predicate WriteGate(seen: seq<(nat, nat)>, writes: seq<(nat, nat)>, sub: nat, value: nat,
                            address: nat, ret: Option<Error>, started: bool)
  {
    && |seen| >= 3 && seen[0].0 == 0x1a4 && seen[1].0 == 0x180 && seen[2].0 == 0x1c
    && if seen[0].1 != 4 || !(seen[2].1 == 0 || seen[2].1 == 2 || seen[2].1 == 32 || seen[2].1 == 34)
       then ret == Some(EBUSY) && !started && writes == []
       else if NoCard(seen[1].1) then ret == Some(ENODEV) && !started && writes == []
       else WriteSteps(seen[3..], writes, sub, value, address, seen[1].1, ret, started)
  }

  /** How a write's wait ends: well only when the last sample shows nothing but the end of a
      write; else a completion is an error. */
  ghost predicate WriteWaited(s: seq<(nat, nat)>, armed: bool, ret: Option<Error>) {
    if Waited(s, armed, 1, None) then ret == if s[|s| - 1].1 == 1 then None else Some(EIO)
    else ret.Some? && Waited(s, armed, 1, ret)
  }

  lemma WriteWaitIs(s: seq<(nat, nat)>, armed: bool, end: Option<Error>, ret: Option<Error>)
    requires Waited(s, armed, 1, end) && (end.None? ==> s != [])
    requires ret == if end.None? && s[|s| - 1].1 != 1 then Some(EIO) else end
    ensures WriteWaited(s, armed, ret)
  {
  }

  /** The started part of a read. */
  method Receive(e: Engine, sampled: bool, prepared: nat, ghost t: Transfer)
    returns (ret: Option<Error>, data: seq<byte>)
    requires t == ReadOf(e.Reg(ADDRESS), e.Reg(SUBADDR), e.Reg(LENGTH)) && prepared == e.bus.status
    requires e.Prepared(8)
    modifies e
    ensures ReadOutcome(old(e.bus), e.bus, t, true, ret.None?, data, old(e.takes), e.takes)
    ensures ret != Some(EBUSY) && ret != Some(EINVAL)
    ensures old(e.writes) + [(COMMAND, 8)] + [(COMMAND, 0x10)] <= e.writes && old(e.answers) <= e.answers
    ensures |e.answers| > |old(e.answers)| && e.answers[|e.answers| - 1].0 == IRQ_STATUS
    ensures Waited(e.answers[|old(e.answers)|..|e.answers| - 1], !Bit(prepared, READ_DONE), READ_DONE, ret)
  {
    hide Waited, Outcome, Tracked, Evolves, Bit, Begins, Taken, ReadOutcome, IdleFor, Drifts;
    var length := e.Reg(LENGTH);
    ghost var before, takes := e.bus, e.takes;
    NoTimePasses(before);
    var status, armed;
    ret, status, armed := StartAndWait(e, 8, sampled, prepared, before, t);
    data := [];
    ghost var was, waited := e.bus, e.answers;
    var irqs := e.ReadAny(IRQ_STATUS);
    assert e.answers[|old(e.answers)|..|e.answers| - 1] == waited[|old(e.answers)|..];
    OutcomeLasts(before, was, e.bus, t, true, ret.None?);
    ghost var read := e.bus;
    e.Write(COMMAND, 0x10);
    OutcomeLasts(before, read, e.bus, t, true, ret.None?);
    if IdleFor(before, Reading) {
      TrackedLasts(before.starts, t, before.completed, was, read, armed);
      TrackedLasts(before.starts, t, before.completed, read, e.bus, armed);
    }
    ghost var ended := e.bus;
    if ret.None? {
      data := Drain(e, length);
      BytesRead(before, ended, e.bus, t, armed, ended.fifo, data, takes, e.takes);
    } else {
      NothingRead(before, ended, t, true, takes);
    }
    was := e.bus;
    if Bit(irqs, IRQ_I2C) {
      e.Write(IRQ_STATUS, IRQ_I2C);
      ReadOutcomeLasts(before, was, e.bus, t, true, ret.None?, data, takes, e.takes);
    }
  }

  /** The started part of a write.  The arming sample lies before the data byte is handed
      over. */
  method Send(e: Engine, value: nat, prepared: nat, ghost t: Transfer) returns (ret: Option<Error>)
    requires t == WriteOf(e.Reg(ADDRESS), e.Reg(SUBADDR), value) && prepared == e.bus.status && e.Prepared(4)
    modifies e`bus, e`regs, e`writes, e`answers
    ensures Outcome(old(e.bus), e.bus, t, true, ret.None?)
    ensures ret != Some(EBUSY) && ret != Some(EINVAL)
    ensures old(e.writes) + [(TX, value)] + [(COMMAND, 4)] <= e.writes && old(e.answers) <= e.answers
    ensures |e.answers| > |old(e.answers)| && e.answers[|e.answers| - 1].0 == IRQ_STATUS
    ensures WriteWaited(e.answers[|old(e.answers)|..|e.answers| - 1], !Bit(prepared, WRITE_DONE), ret)
  {
    hide Waited, WriteWaited, Outcome, Tracked, Evolves, Bit, Begins, IdleFor;
    ghost var before := e.bus;
    e.Write(TX, value);
    var status, armed;
    ret, status, armed := StartAndWait(e, 4, false, prepared, before, t);
    ghost var was, waited, end := e.bus, e.answers, ret;
    var irqs := e.ReadAny(IRQ_STATUS);
    assert e.answers[|old(e.answers)|..|e.answers| - 1] == waited[|old(e.answers)|..];
    OutcomeLasts(before, was, e.bus, t, true, ret.None?);
    if ret.None? && (!armed || status != WRITE_DONE) {
      ret := Some(EIO);
      OutcomeWeakens(before, e.bus, t);
    }
    WriteWaitIs(waited[|old(e.answers)|..], !Bit(prepared, WRITE_DONE), end, ret);
    was := e.bus;
    if Bit(irqs, IRQ_I2C) {
      e.Write(IRQ_STATUS, IRQ_I2C);
      OutcomeLasts(before, was, e.bus, t, true, ret.None?);
    }
  }

  lemma OutcomeWeakens(before: Bus, s: Bus, t: Transfer)
    requires Outcome(before, s, t, true, true)
    ensures Outcome(before, s, t, true, false)
  {
  }

  lemma SettledGoesOn(afterGpio: bool)
    ensures forall status: nat :: Settled(status, afterGpio) == GoesOn(status, afterGpio)
    ensures forall status: nat :: Settled(status, afterGpio) ==> !Dead(status)
  {
  }

  lemma ThreeReads(was: seq<(nat, nat)>, now: seq<(nat, nat)>, a: (nat, nat), b: (nat, nat), c: (nat, nat))
    requires now == was + [a] + [b] + [c]
    ensures was <= now && now[|was|..] == [a, b, c]
    ensures forall later: seq<(nat, nat)> :: now <= later ==>
              was <= later && later[|was|..][..3] == [a, b, c] && later[|was|..][3..] == later[|now|..]
  {
  }

  lemma I2cBit(irqs: nat)
    ensures Bit(irqs, IRQ_I2C) <==> irqs / 2048 % 2 == 1
  {
  }

  /** The accesses of a prepared transfer, put together. */
  lemma StepsTogether(was: seq<(nat, nat)>, program: seq<(nat, nat)>, mid: seq<(nat, nat)>, last: (nat, nat),
                      now: seq<(nat, nat)>)
    requires now == was + program + mid + [last] && |program| == 7
    ensures was <= now && var w := now[|was|..];
      && |w| == 8 + |mid| && w[..7] == program && w[|w| - 1] == last && forall i: nat :: i < |mid| ==> w[7 + i] == mid[i]
  {
    var w := now[|was|..];
    assert w == program + mid + [last];
  }

  lemma ReadStepsHold(answers: seq<(nat, nat)>, answers'': seq<(nat, nat)>, answers': seq<(nat, nat)>,
                      writes: seq<(nat, nat)>,
                      writes': seq<(nat, nat)>, mid: seq<(nat, nat)>, status: nat, afterGpio: bool, sub: nat,
                      length: nat, address: nat, divider: nat, ret: Option<Error>, started: bool)
    requires writes' == writes + [(DIVIDER, TEST_DIVIDER), (ADDRESS, address), (SUBADDR_WIDTH, 0), (SUBADDR, sub),
                                  (FIFO_WIDTH, 0), (LENGTH, length), (COMMAND, 0x10)] + mid + [(DIVIDER, divider)]
    requires answers + [(STATUS, status)] <= answers'' <= answers' && |answers'| == |answers''| + 1
    requires answers'[|answers''|].0 == STATUS
    requires started ==>
              |answers''| >= |answers| + 2 && answers''[|answers''| - 1].0 == IRQ_STATUS
              && Waited(answers''[|answers| + 1..|answers''| - 1], !Bit(status, READ_DONE), READ_DONE, ret)
    requires started <==> GoesOn(status, afterGpio)
    requires if started then [(COMMAND, 8)] + [(COMMAND, 0x10)] <= mid else mid == [] && ret == Some(EIO)
    requires ret != Some(EBUSY) && ret != Some(EINVAL)
    ensures writes <= writes' && answers <= answers'
    ensures ReadSteps(answers'[|answers|..], writes'[|writes|..], afterGpio, sub, length, address, divider, ret, started)
  {
    hide GoesOn, Waited;
    StepsTogether(writes, [(DIVIDER, TEST_DIVIDER), (ADDRESS, address), (SUBADDR_WIDTH, 0), (SUBADDR, sub),
                           (FIFO_WIDTH, 0), (LENGTH, length), (COMMAND, 0x10)], mid, (DIVIDER, divider), writes');
    var seen := answers'[|answers|..];
    assert seen[0] == (answers + [(STATUS, status)])[|answers|];
    if started {
      assert seen[1..|seen| - 2] == answers''[|answers| + 1..|answers''| - 1];
      assert seen[|seen| - 2] == answers''[|answers''| - 1];
    }
  }

  lemma WriteStepsHold(answers: seq<(nat, nat)>, answers'': seq<(nat, nat)>, answers': seq<(nat, nat)>,
                       writes: seq<(nat, nat)>,
                       writes': seq<(nat, nat)>, mid: seq<(nat, nat)>, status: nat, sub: nat, value: nat,
                       address: nat, divider: nat, ret: Option<Error>, started: bool)
    requires writes' == writes + [(DIVIDER, TEST_DIVIDER), (ADDRESS, address), (SUBADDR_WIDTH, 0), (SUBADDR, sub),
                                  (COMMAND, 0x10), (FIFO_WIDTH, 0), (LENGTH, 1)] + mid + [(DIVIDER, divider)]
    requires answers + [(STATUS, status)] <= answers'' <= answers' && |answers'| == |answers''| + 1
    requires answers'[|answers''|].0 == STATUS
    requires started ==>
              |answers''| >= |answers| + 2 && answers''[|answers''| - 1].0 == IRQ_STATUS
              && WriteWaited(answers''[|answers| + 1..|answers''| - 1], !Bit(status, WRITE_DONE), ret)
    requires started <==> GoesOn(status, false)
    requires if started then [(TX, value)] + [(COMMAND, 4)] <= mid else mid == [] && ret == Some(EIO)
    requires ret != Some(EBUSY) && ret != Some(EINVAL)
    ensures writes <= writes' && answers <= answers'
    ensures WriteSteps(answers'[|answers|..], writes'[|writes|..], sub, value, address, divider, ret, started)
  {
    hide GoesOn, Waited;
    StepsTogether(writes, [(DIVIDER, TEST_DIVIDER), (ADDRESS, address), (SUBADDR_WIDTH, 0), (SUBADDR, sub),
                           (COMMAND, 0x10), (FIFO_WIDTH, 0), (LENGTH, 1)], mid, (DIVIDER, divider), writes');
    var seen := answers'[|answers|..];
    assert seen[0] == (answers + [(STATUS, status)])[|answers|];
    if started {
      assert seen[1..|seen| - 2] == answers''[|answers| + 1..|answers''| - 1];
      assert seen[|seen| - 2] == answers''[|answers''| - 1];
    }
  }

  /** The read behind the gates: prepare, transfer, give the divider back. */
  method PreparedRead(e: Engine, afterGpio: bool, sampled: bool, sub: nat, length: nat, address: nat, divider: nat)
    returns (ret: Option<Error>, data: seq<byte>, started: bool)
    requires divider == e.Reg(DIVIDER)
    modifies e
    ensures e.Reg(DIVIDER) == old(e.Reg(DIVIDER))
    ensures ReadOutcome(old(e.bus), e.bus, ReadOf(address, sub, length), started, ret.None?, data, old(e.takes), e.takes)
    ensures old(e.answers) <= e.answers && old(e.writes) <= e.writes
    ensures ReadSteps(e.answers[|old(e.answers)|..], e.writes[|old(e.writes)|..], afterGpio, sub, length, address,
                      divider, ret, started)
    ensures ret != Some(EBUSY) && ret != Some(EINVAL)
  {
    hide ReadSteps, Outcome, Tracked, Evolves, Bit, Begins, Taken, ReadOutcome, Answered, Settled, GoesOn, Waited;
    SettledGoesOn(afterGpio);
    ghost var t, before, takes := ReadOf(address, sub, length), e.bus, e.takes;
    ghost var writes, answers := e.writes, e.answers;
    NothingBegun(before, t);
    ret, data, started := None, [], false;
    var program := [(DIVIDER, TEST_DIVIDER), (ADDRESS, address), (SUBADDR_WIDTH, 0), (SUBADDR, sub),
                    (FIFO_WIDTH, 0), (LENGTH, length), (COMMAND, 0x10)];
    e.WriteAll(program);
    assert program[1] == (ADDRESS, address) && program[3] == (SUBADDR, sub) && program[5] == (LENGTH, length);
    assert program[2] == (SUBADDR_WIDTH, 0) && program[4] == (FIFO_WIDTH, 0) && program[6] == (COMMAND, 0x10);
    ghost var loaded := e.bus;
    var status := e.ReadStatus();
    Later(before, loaded, e.bus);
    OutcomeLasts(before, before, e.bus, t, false, false);
    ghost var prepared := e.bus;
    if !Settled(status, afterGpio) {
      ret := Some(EIO);
      NothingRead(before, prepared, t, false, takes);
    } else {
      started := true;
      ret, data := Receive(e, sampled, status, t);
      ReadOutcomeComposes(before, prepared, e.bus, t, true, ret.None?, data, takes, e.takes);
    }
    ghost var done := e.bus;
    ghost var mid := e.writes[|writes| + 7..];
    assert e.writes == writes + program + mid;
    e.Write(DIVIDER, divider);
    ghost var restored := e.bus;
    ghost var ended := e.answers;
    var cleanup := e.ReadStatus();
    Later(done, restored, e.bus);
    ReadOutcomeLasts(before, done, e.bus, t, started, ret.None?, data, takes, e.takes);
    ReadStepsHold(answers, ended, e.answers, writes, e.writes, mid, status, afterGpio, sub, length, address, divider, ret,
                  started);
  }

  /** gc573_block_identify_state.  With no read in flight before it, a read that succeeds
      returns the bytes of this very transfer, each taken from the FIFO after its
      completion, whatever write may have been in flight; a failed one takes nothing.
      Every path gives the divider back. */
  method ReadBytes(e: Engine, afterGpio: bool, sampled: bool, sub: nat, length: nat, address: nat)
    returns (ret: Option<Error>, data: seq<byte>, started: bool)
    modifies e
    ensures e.Reg(DIVIDER) == old(e.Reg(DIVIDER))
    ensures Outcome(old(e.bus), e.bus, ReadOf(address, sub, length), started, ret.None?)
    ensures |data| == if ret.None? then length else 0
    ensures ret.Some? ==> e.takes == old(e.takes)
    ensures ret.None? ==>
              Taken(old(e.takes), e.takes, length, |e.bus.completed|, IdleFor(old(e.bus), Reading))
    ensures ret.None? && IdleFor(old(e.bus), Reading) ==>
              && e.bus.busy.None? && |e.bus.completed| > |old(e.bus.completed)|
              && e.bus.completed[|e.bus.completed| - 1]
                 == Done(Job(old(e.bus.starts), ReadOf(address, sub, length)), data)
    ensures ret == Some(EINVAL) <==>
              length == 0 || length > 4 || sub > 0xff || length + sub > 256
              || address !in {0x91, 0xa9, 0x59, 0x97, 0x71, 0x69, 0x6b, 0x6d, 0x6f, 0xd9}
    ensures old(e.answers) <= e.answers && old(e.writes) <= e.writes
    ensures if ret == Some(EINVAL) then e.writes == old(e.writes) && !started
            else ReadGate(e.answers[|old(e.answers)|..], e.writes[|old(e.writes)|..], afterGpio, sub, length, address,
                          ret, started)
  {
    hide Outcome, Tracked, Evolves, Bit, Begins, Taken, ReadSteps, Settled, GoesOn;
    SettledGoesOn(afterGpio);
    ghost var t, before, takes := ReadOf(address, sub, length), e.bus, e.takes;
    ghost var answers := e.answers;
    NothingBegun(before, t);
    ret, data, started := None, [], false;
    if length == 0 || length > MAX_READ || sub > 0xff || !ReadAddress(address) || length > 256 - sub {
      ret := Some(EINVAL);
      return;
    }
    var initial := e.ReadStatus();
    ghost var first := e.bus;
    var divider := e.ReadReg(DIVIDER);
    Later(before, first, e.bus);
    ghost var second := e.bus;
    var irqs := e.ReadAny(IRQ_ENABLE);
    Later(before, second, e.bus);
    OutcomeLasts(before, before, e.bus, t, false, false);
    I2cBit(irqs);
    ThreeReads(answers, e.answers, (STATUS, initial), (DIVIDER, divider), (IRQ_ENABLE, irqs));
    if Dead(initial) || Dead(divider) {
      ret := Some(ENODEV);
      return;
    }
    if !Settled(initial, afterGpio) || Bit(irqs, IRQ_I2C) {
      ret := Some(EBUSY);
      return;
    }
    ghost var gated := e.bus;
    ret, data, started := PreparedRead(e, afterGpio, sampled, sub, length, address, divider);
    ReadOutcomeComposes(before, gated, e.bus, t, started, ret.None?, data, takes, e.takes);
  }

  predicate OnlyRuntimeIrqs(v: nat) {
    v == 0 || v == 2 || v == 0x20 || v == 0x22
  }

  lemma OutcomeIsOwn(before: Bus, after: Bus, t: Transfer, started: bool)
    requires Outcome(before, after, t, started, true) && IdleFor(before, KindOf(t))
    ensures after.busy.None? && |after.completed| > |before.completed|
    ensures after.completed[|after.completed| - 1].job == Job(before.starts, t)
  {
  }

  /** The write behind the gates: prepare, transfer, give the divider back. */
  method PreparedWrite(e: Engine, sub: nat, value: nat, address: nat, divider: nat)
    returns (ret: Option<Error>, started: bool)
    requires divider == e.Reg(DIVIDER)
    modifies e`bus, e`regs, e`writes, e`answers
    ensures e.Reg(DIVIDER) == old(e.Reg(DIVIDER))
    ensures Outcome(old(e.bus), e.bus, WriteOf(address, sub, value), started, ret.None?)
    ensures old(e.answers) <= e.answers && old(e.writes) <= e.writes
    ensures WriteSteps(e.answers[|old(e.answers)|..], e.writes[|old(e.writes)|..], sub, value, address, divider, ret,
                       started)
    ensures ret != Some(EBUSY) && ret != Some(EINVAL)
  {
    hide WriteSteps, Outcome, Tracked, Evolves, Bit, Begins, WriteWaited;
    ghost var t, before := WriteOf(address, sub, value), e.bus;
    ghost var writes, answers := e.writes, e.answers;
    NothingBegun(before, t);
    ret, started := None, false;
    var program := [(DIVIDER, TEST_DIVIDER), (ADDRESS, address), (SUBADDR_WIDTH, 0), (SUBADDR, sub),
                    (COMMAND, 0x10), (FIFO_WIDTH, 0), (LENGTH, 1)];
    e.WriteAll(program);
    assert program[1] == (ADDRESS, address) && program[3] == (SUBADDR, sub) && program[6] == (LENGTH, 1);
    assert program[2] == (SUBADDR_WIDTH, 0) && program[5] == (FIFO_WIDTH, 0) && program[4] == (COMMAND, 0x10);
    ghost var loaded := e.bus;
    var status := e.ReadStatus();
    Later(before, loaded, e.bus);
    OutcomeLasts(before, before, e.bus, t, false, false);
    ghost var prepared := e.bus;
    if status != 0 && status != READ_DONE && status != WRITE_DONE {
      ret := Some(EIO);
    } else {
      started := true;
      ret := Send(e, value, status, t);
      OutcomeComposes(before, prepared, e.bus, t, true, ret.None?);
    }
    ghost var done := e.bus;
    ghost var mid := e.writes[|writes| + 7..];
    assert e.writes == writes + program + mid;
    e.Write(DIVIDER, divider);
    ghost var restored := e.bus;
    ghost var ended := e.answers;
    var cleanup := e.ReadStatus();
    Later(done, restored, e.bus);
    OutcomeLasts(before, done, e.bus, t, started, ret.None?);
    WriteStepsHold(answers, ended, e.answers, writes, e.writes, mid, status, sub, value, address, divider, ret, started);
  }

  /** gc573_block_write_address.  With no write in flight before it, a write that succeeds
      was completed by this very transfer, whatever read may have been in flight; a write
      that fails may still have reached the slave, or may yet reach it. */
  method WriteByte(e: Engine, sub: nat, value: nat, address: nat)
    returns (ret: Option<Error>, started: bool)
    modifies e`bus, e`regs, e`writes, e`answers
    ensures e.Reg(DIVIDER) == old(e.Reg(DIVIDER))
    ensures Outcome(old(e.bus), e.bus, WriteOf(address, sub, value), started, ret.None?)
    ensures ret.None? && IdleFor(old(e.bus), Writing) ==>
              && e.bus.busy.None? && |e.bus.completed| > |old(e.bus.completed)|
              && e.bus.completed[|e.bus.completed| - 1].job == Job(old(e.bus.starts), WriteOf(address, sub, value))
    ensures ret == Some(EINVAL) <==>
              sub > 0xff || value > 0xff || address !in {0x90, 0x58, 0x96, 0x70, 0x68, 0x6a, 0x6c, 0x6e, 0xd8}
    ensures old(e.answers) <= e.answers && old(e.writes) <= e.writes
    ensures if ret == Some(EINVAL) then e.writes == old(e.writes) && !started
            else WriteGate(e.answers[|old(e.answers)|..], e.writes[|old(e.writes)|..], sub, value, address, ret, started)
  {
    hide Outcome, Tracked, Evolves, Bit, Begins, WriteSteps;
    ghost var t, before := WriteOf(address, sub, value), e.bus;
    ghost var answers := e.answers;
    NothingBegun(before, t);
    ret, started := None, false;
    if sub > 0xff || value > 0xff || !WriteAddress(address) {
      ret := Some(EINVAL);
      return;
    }
    var initial := e.ReadStatus();
    ghost var first := e.bus;
    var divider := e.ReadReg(DIVIDER);
    Later(before, first, e.bus);
    ghost var second := e.bus;
    var irqs := e.ReadAny(IRQ_ENABLE);
    Later(before, second, e.bus);
    OutcomeLasts(before, before, e.bus, t, false, false);
    ThreeReads(answers, e.answers, (STATUS, initial), (DIVIDER, divider), (IRQ_ENABLE, irqs));
    if !OnlyRuntimeIrqs(irqs) || initial != READ_DONE {
      ret := Some(EBUSY);
      return;
    }
    if Dead(divider) {
      ret := Some(ENODEV);
      return;
    }
    ghost var gated := e.bus;
    ret, started := PreparedWrite(e, sub, value, address, divider);
    OutcomeComposes(before, gated, e.bus, t, started, ret.None?);
    if ret.None? && IdleFor(before, Writing) {
      OutcomeIsOwn(before, e.bus, t, started);
    }
  }

  // ---------------------------------------------------- any number of calls

  datatype Call = ReadCall(sub: nat, length: nat, address: nat) | WriteCall(sub: nat, value: nat, address: nat)

  function Asks(c: Call): Transfer {
    match c
    case ReadCall(sub, length, address) => ReadOf(address, sub, length)
    case WriteCall(sub, value, address) => WriteOf(address, sub, value)
  }

  /** What a caller learns from a call. */
  datatype Answer = Answer(ok: bool, started: bool, data: seq<byte>)

  /** The kinds of transfer that may be in flight, as a caller can tell: one that was
      started and failed, until a call of another kind succeeds. */
  function InDoubt(doubt: set<Kind>, calls: seq<Call>, answers: seq<Answer>): set<Kind>
    requires |answers| <= |calls|
  {
    if answers == [] then doubt
    else
      var n := |answers| - 1;
      StillInDoubt(InDoubt(doubt, calls, answers[..n]), KindOf(Asks(calls[n])), answers[n])
  }

  function StillInDoubt(doubt: set<Kind>, k: Kind, a: Answer): set<Kind> {
    if a.ok && k !in doubt then {} else if a.started && !a.ok then doubt + {k} else doubt
  }

  /** How many transfers were started. */
  function Started(answers: seq<Answer>): nat {
    if answers == [] then 0
    else Started(answers[..|answers| - 1]) + if answers[|answers| - 1].started then 1 else 0
  }

  ghost predicate OnlyInDoubt(s: Bus, doubt: set<Kind>) {
    s.busy.Some? ==> KindOf(s.busy.value.transfer) in doubt
  }

  /** The transfer completed since `base`, and a read's bytes are its own. */
  ghost predicate Completed(base: seq<Done>, completed: seq<Done>, job: Job, data: seq<byte>) {
    exists i: nat :: |base| <= i < |completed| && completed[i].job == job
                     && (job.transfer.ReadOf? ==> completed[i].bytes == data)
  }

  /** Call n succeeded while no transfer of its kind was in doubt: it is its own. */
  ghost predicate Trusted(before: Bus, after: Bus, doubt: set<Kind>, calls: seq<Call>, answers: seq<Answer>, n: nat)
    requires n < |answers| <= |calls|
  {
    answers[n].ok && KindOf(Asks(calls[n])) !in InDoubt(doubt, calls, answers[..n]) ==>
      Completed(before.completed, after.completed,
                Job(before.starts + Started(answers[..n]), Asks(calls[n])), answers[n].data)
  }

  /** Any sequence of reads and writes, whatever fails in it.  A caller that remembers which
      kinds of transfer were started and failed can trust every success of another kind:
      it is the completion of this very transfer, and a success of a kind that was not in
      doubt leaves nothing in doubt. */
  method Calls(e: Engine, calls: seq<Call>, sampled: bool, ghost doubt: set<Kind>) returns (answers: seq<Answer>)
    requires OnlyInDoubt(e.bus, doubt)
    modifies e
    ensures |answers| == |calls| && OnlyInDoubt(e.bus, InDoubt(doubt, calls, answers))
    ensures forall n: nat :: n < |answers| ==> Trusted(old(e.bus), e.bus, doubt, calls, answers, n)
    ensures e.bus.starts == old(e.bus.starts) + Started(answers)
  {
    hide Outcome, OnlyInDoubt, Completed, StillInDoubt, Trusted;
    ghost var first := e.bus;
    answers := [];
    while |answers| < |calls|
      invariant |answers| <= |calls| && OnlyInDoubt(e.bus, InDoubt(doubt, calls, answers))
      invariant forall n: nat :: n < |answers| ==> Trusted(first, e.bus, doubt, calls, answers, n)
      invariant e.bus.starts == first.starts + Started(answers) && first.completed <= e.bus.completed
    {
      ghost var before, known := e.bus, answers;
      var c := calls[|answers|];
      var a := Perform(e, c, sampled);
      answers := answers + [a];
      assert answers[..|known|] == known;
      CallDoubts(before, e.bus, Asks(c), a, InDoubt(doubt, calls, known));
      forall n: nat | n < |answers| ensures Trusted(first, e.bus, doubt, calls, answers, n) {
        if n < |known| {
          TrustLasts(first, before, e.bus, doubt, calls, known, a, n);
        } else {
          NewTrust(first, before, e.bus, doubt, calls, known, a);
        }
      }
    }
  }

  /** The newest completion is the call's own when no transfer of its kind was in flight. */
  ghost predicate AnsweredCall(before: Bus, after: Bus, t: Transfer, a: Answer) {
    && Outcome(before, after, t, a.started, a.ok)
    && (a.ok && IdleFor(before, KindOf(t)) ==>
          && after.busy.None? && |after.completed| > |before.completed|
          && var done := after.completed[|after.completed| - 1];
             done.job == Job(before.starts, t) && (t.ReadOf? ==> done.bytes == a.data))
  }

  method Perform(e: Engine, c: Call, sampled: bool) returns (a: Answer)
    modifies e
    ensures AnsweredCall(old(e.bus), e.bus, Asks(c), a)
  {
    hide Outcome, Taken;
    match c {
      case ReadCall(sub, length, address) =>
        var ret, data, started := ReadBytes(e, false, sampled, sub, length, address);
        a := Answer(ret.None?, started, data);
      case WriteCall(sub, value, address) =>
        var ret, started := WriteByte(e, sub, value, address);
        a := Answer(ret.None?, started, []);
    }
  }

  lemma CallDoubts(before: Bus, after: Bus, t: Transfer, a: Answer, doubt: set<Kind>)
    requires AnsweredCall(before, after, t, a) && OnlyInDoubt(before, doubt)
    ensures OnlyInDoubt(after, StillInDoubt(doubt, KindOf(t), a))
    ensures after.starts == before.starts + (if a.started then 1 else 0) && before.completed <= after.completed
  {
    hide OwnDone, Ours, OthersOnly;
  }

  lemma TrustLasts(first: Bus, before: Bus, after: Bus, doubt: set<Kind>, calls: seq<Call>, known: seq<Answer>,
                   a: Answer, n: nat)
    requires n < |known| < |calls| && Trusted(first, before, doubt, calls, known, n)
    requires before.completed <= after.completed
    ensures Trusted(first, after, doubt, calls, known + [a], n)
  {
    hide InDoubt, Started;
    assert (known + [a])[..n] == known[..n];
  }

  lemma NewTrust(first: Bus, before: Bus, after: Bus, doubt: set<Kind>, calls: seq<Call>, known: seq<Answer>, a: Answer)
    requires |known| < |calls| && AnsweredCall(before, after, Asks(calls[|known|]), a)
    requires OnlyInDoubt(before, InDoubt(doubt, calls, known))
    requires before.starts == first.starts + Started(known) && first.completed <= before.completed
    ensures Trusted(first, after, doubt, calls, known + [a], |known|)
  {
    hide InDoubt, Started, Outcome;
    assert (known + [a])[..|known|] == known;
  }
}
