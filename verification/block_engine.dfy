/** The I2C transaction engine (driver/gc573_block.c) and the completion samplers of
    driver/gc573_pci.c.

    The engine runs one transfer at a time and reports it in a status register that the
    driver samples at moments of its own choosing.  What the hardware is trusted with is
    stated by `Evolves`: between two accesses a transfer may complete, completion bits may
    go away at any time, and a completion bit appears only when a transfer of its kind
    completes.  Old completion bits may survive the start of the next transfer.
 */
module BlockEngine {

  import opened Bytes

  const DIVIDER := 0x180
  const TEST_DIVIDER := 0x4e2
  const ADDRESS := 0x184
  const SUBADDR_WIDTH := 0x188
  const FIFO_WIDTH := 0x18c
  const SUBADDR := 0x190
  const LENGTH := 0x194
  const TX := 0x198
  const COMMAND := 0x1a0
  const STATUS := 0x1a4
  const IRQ_STATUS := 0x10
  const IRQ_ENABLE := 0x1c
  const IRQ_I2C := 0x800
  const READ_DONE := 4
  const WRITE_DONE := 1
  const MAX_READ := 4
  const MISSING := 0xeeeeeeee      // what a read returns when the card does not answer
  const REMOVED := 0xffffffff

  datatype Error = EINVAL | ENODEV | EBUSY | EIO | ETIMEDOUT

  datatype Kind = Reading | Writing

  datatype Transfer =
    | ReadOf(address: nat, sub: nat, length: nat)
    | WriteOf(address: nat, sub: nat, value: nat)

  function KindOf(t: Transfer): Kind {
    if t.ReadOf? then Reading else Writing
  }

  function DoneBit(k: Kind): (mask: nat)
    ensures mask > 0
  {
    if k == Reading then READ_DONE else WRITE_DONE
  }

  function OtherKind(k: Kind): Kind {
    if k == Reading then Writing else Reading
  }

  predicate Bit(value: nat, mask: nat)
    requires mask > 0
  {
    value / mask % 2 == 1
  }

  predicate Dead(value: nat) {
    value == MISSING || value == REMOVED
  }

  /** A transfer and the number of the start command that asked for it. */
  datatype Job = Job(serial: nat, transfer: Transfer)

  /** A completed transfer and, for a read, the bytes the slave sent. */
  datatype Done = Done(job: Job, bytes: seq<byte>)

  datatype Bus = Bus(status: nat, starts: nat, busy: Option<Job>, completed: seq<Done>, fifo: seq<byte>)

  // ------------------------------------------------- what the engine may do

  predicate NoRise(s: Bus, s': Bus, k: Kind) {
    Bit(s'.status, DoneBit(k)) ==> Bit(s.status, DoneBit(k))
  }

  predicate Quiet(s: Bus, s': Bus) {
    && s'.busy == s.busy && s'.completed == s.completed && s'.fifo == s.fifo
    && NoRise(s, s', Reading) && NoRise(s, s', Writing)
  }

  /** The transfer in flight completes; its bytes are then all the FIFO holds. */
  predicate Completes(s: Bus, s': Bus) {
    && s.busy.Some? && s'.busy.None?
    && NoRise(s, s', OtherKind(KindOf(s.busy.value.transfer)))
    && |s'.completed| == |s.completed| + 1 && s'.completed[..|s.completed|] == s.completed
    && var done := s'.completed[|s.completed|];
       && done.job == s.busy.value
       && (done.job.transfer.ReadOf? ==> |done.bytes| == done.job.transfer.length && s'.fifo == done.bytes)
       && (done.job.transfer.WriteOf? ==> s'.fifo == s.fifo)
  }

  predicate Evolves(s: Bus, s': Bus) {
    s'.starts == s.starts && (Quiet(s, s') || Completes(s, s'))
  }

  /** A start command takes effect, or is lost when another transfer is in flight. */
  predicate Begins(s: Bus, s': Bus, t: Transfer) {
    || s' == s.(starts := s.starts + 1, busy := Some(Job(s.starts, t)))
    || (s.busy.Some? && s' == s.(starts := s.starts + 1))
  }

  predicate Numbered(s: Bus) {
    s.busy.Some? ==> s.busy.value.serial < s.starts
  }

  // ------------------------------------------------------- the sampling rule

  /** What one status sample says: still waiting, completed, or no card. */
  datatype Verdict = Waiting | Fresh | Gone

  function Observe(status: nat, sawClear: bool, k: Kind): (Verdict, bool)
  {
    if Dead(status) then (Gone, sawClear)
    else if !Bit(status, DoneBit(k)) then (Waiting, true)
    else (if sawClear then Fresh else Waiting, sawClear)
  }

  /** The samples of one transfer, from the start on. */
  function Verdicts(samples: seq<nat>, sawClear: bool, k: Kind): Verdict
    decreases |samples|
  {
    if samples == [] then Waiting
    else
      var (v, clear) := Observe(samples[0], sawClear, k);
      if v == Waiting then Verdicts(samples[1..], clear, k) else v
  }

  // ----------------------------------------------------- one whole transfer

  ghost predicate Chain(s: Bus, states: seq<Bus>) {
    && (states != [] ==> Evolves(s, states[0]))
    && forall i: nat :: i + 1 < |states| ==> Evolves(states[i], states[i + 1])
  }

  /** One transfer as the engine lives it: the state whose status armed the driver, the
      state in which the start command arrives, and one state a sample. */
  ghost predicate Transaction(before: Bus, at: Bus, begun: Bus, t: Transfer, states: seq<Bus>) {
    Evolves(before, at) && Begins(at, begun, t) && Chain(begun, states)
  }

  function Statuses(states: seq<Bus>): (s: seq<nat>)
    ensures |s| == |states| && forall i :: 0 <= i < |s| ==> s[i] == states[i].status
  {
    if states == [] then [] else [states[0].status] + Statuses(states[1..])
  }

  /** Start number `serial` is the newest completion. */
  predicate OwnCompleted(serial: nat, s: Bus) {
    s.completed != [] && s.completed[|s.completed| - 1].job.serial == serial
  }

  /** The driver was armed by a clear bit before the start or saw one later, and then saw
      the bit set. */
  predicate Accepted(before: Bus, k: Kind, states: seq<Bus>) {
    Verdicts(Statuses(states), !Bit(before.status, DoneBit(k)), k) == Fresh
  }

  /** No transfer of kind k other than start number `serial` is in flight. */
  predicate NoOther(s: Bus, k: Kind, serial: nat) {
    s.busy.Some? ==> KindOf(s.busy.value.transfer) != k || s.busy.value.serial == serial
  }

  /** No transfer of kind k is in flight. */
  predicate IdleFor(s: Bus, k: Kind) {
    s.busy.Some? ==> KindOf(s.busy.value.transfer) != k
  }

  /** An armed driver's next sample shows a set bit only after its own completion. */
  predicate Guarded(serial: nat, k: Kind, s: Bus, armed: bool) {
    && NoOther(s, k, serial)
    && (armed ==> (OwnCompleted(serial, s) && s.busy.None?) || !Bit(s.status, DoneBit(k)))
  }

  lemma GuardedStep(serial: nat, k: Kind, s: Bus, s': Bus, armed: bool)
    requires Guarded(serial, k, s, armed) && Evolves(s, s')
    ensures Guarded(serial, k, s', armed) && Guarded(serial, k, s', Observe(s'.status, armed, k).1)
    ensures Observe(s'.status, armed, k).0 == Fresh ==> OwnCompleted(serial, s') && s'.busy.None?
  {
  }

  /** One sample more. */
  lemma VerdictsStep(states: seq<Bus>, armed: bool, k: Kind)
    requires states != []
    ensures var (v, clear) := Observe(states[0].status, armed, k);
      Verdicts(Statuses(states), armed, k) == if v == Waiting then Verdicts(Statuses(states[1..]), clear, k) else v
  {
    hide Observe;
    assert Statuses(states) == [states[0].status] + Statuses(states[1..]);
    assert Statuses(states)[1..] == Statuses(states[1..]);
  }

  lemma NoSamples(armed: bool, k: Kind)
    ensures Verdicts(Statuses([]), armed, k) == Waiting
  {
  }

  lemma ChainStep(s: Bus, states: seq<Bus>)
    requires Chain(s, states) && states != []
    ensures Evolves(s, states[0]) && Chain(states[0], states[1..])
  {
    hide Evolves;
  }

  lemma {:induction false} SamplesAreFresh(serial: nat, k: Kind, s: Bus, states: seq<Bus>, armed: bool)
    requires Guarded(serial, k, s, armed) && Chain(s, states) && Verdicts(Statuses(states), armed, k) == Fresh
    ensures states != [] && OwnCompleted(serial, states[|states| - 1])
    decreases |states|
  {
    hide Guarded, Chain, Verdicts, Statuses, Observe, Evolves, OwnCompleted;
    if states == [] {
      NoSamples(armed, k);
    } else {
      var s', rest := states[0], states[1..];
      ChainStep(s, states);
      VerdictsStep(states, armed, k);
      GuardedStep(serial, k, s, s', armed);
      var (v, clear) := Observe(s'.status, armed, k);
      if v == Waiting {
        SamplesAreFresh(serial, k, s', rest, clear);
      } else {
        NothingElseCompletes(serial, s', rest);
      }
    }
  }

  lemma {:induction false} NothingElseCompletes(serial: nat, s: Bus, states: seq<Bus>)
    requires OwnCompleted(serial, s) && s.busy.None? && Chain(s, states)
    ensures states != [] ==> OwnCompleted(serial, states[|states| - 1])
    decreases |states|
  {
    if states != [] {
      NothingElseCompletes(serial, states[0], states[1..]);
    }
  }

  ghost predicate AlwaysFresh(before: Bus, t: Transfer) {
    forall at: Bus, begun: Bus, states: seq<Bus> ::
      Transaction(before, at, begun, t, states) && Accepted(before, KindOf(t), states) ==>
        states != [] && OwnCompleted(before.starts, states[|states| - 1])
  }

  /** A transfer left in flight by an earlier timeout fools the sampling rule: it completes
      between the arming sample and the start, or the start is lost and the old bit falls
      and rises again. */
  lemma LateCompletionFools(before: Bus, t: Transfer)
    requires Numbered(before) && !IdleFor(before, KindOf(t))
    ensures !AlwaysFresh(before, t)
  {
    var k, job := KindOf(t), before.busy.value;
    var bytes := if job.transfer.ReadOf? then Zeros(job.transfer.length) else [];
    var late := before.(status := DoneBit(k), busy := None, completed := before.completed + [Done(job, bytes)],
                        fifo := if job.transfer.ReadOf? then bytes else before.fifo);
    assert late.completed[..|before.completed|] == before.completed;
    assert Evolves(before, late);
    if !Bit(before.status, DoneBit(k)) {
      var begun := late.(starts := late.starts + 1, busy := Some(Job(late.starts, t)));
      assert Transaction(before, late, begun, t, [begun]);
      assert Statuses([begun])[1..] == [];
      assert Accepted(before, k, [begun]);
    } else {
      var begun := before.(starts := before.starts + 1);
      var clear, set' := begun.(status := 0), late.(starts := begun.starts);
      var states := [clear, set'];
      assert Transaction(before, before, begun, t, states);
      assert Statuses(states) == [0, DoneBit(k)];
      assert Statuses(states)[1..] == [DoneBit(k)] && [DoneBit(k)][1..] == [];
      assert Accepted(before, k, states);
    }
  }

  /** Trusting the completion bit is right for every sampling of the status register
      exactly when no transfer of the same kind is in flight at the arming sample, whatever
      old completion bits are left over. */
  lemma FreshExactlyWhenIdle(before: Bus, t: Transfer)
    requires Numbered(before)
    ensures IdleFor(before, KindOf(t)) <==> AlwaysFresh(before, t)
  {
    var k := KindOf(t);
    if IdleFor(before, k) {
      forall at: Bus, begun: Bus, states: seq<Bus>
        | Transaction(before, at, begun, t, states) && Accepted(before, k, states)
        ensures states != [] && OwnCompleted(before.starts, states[|states| - 1])
      {
        var armed := !Bit(before.status, DoneBit(k));
        assert Guarded(before.starts, k, begun, armed);
        SamplesAreFresh(before.starts, k, begun, states, armed);
      }
    } else {
      LateCompletionFools(before, t);
    }
  }
}
