/** One attempt of the receiver's video programming (driver/gc573_receiver_video.c): what
    it may have written when it fails, and when a failure may be tried again.

    The clock limits, gates and phases are the driver's; the output table itself is a
    parameter, already adjusted for one or two pixel lanes.
 */
module ReceiverVideo {

  import opened Bytes
  import opened BankedDevice
  import opened Events
  import ReceiverInit

  const LATCH := 0x9a

  datatype Error = EBUS | EBUSY | ENODEV | EIO | ENOLINK | EAGAIN | ERANGE | EOPNOTSUPP

  datatype Op = Op(reg: nat, mask: bv8, value: bv8, verify: bv8)

  /** The bank the driver takes as selected, whether it read that back, and the writes
      started. */
  datatype Tracker = Tracker(bank: bv8, verified: bool, writes: nat)

  datatype Report = Report(
    phase: nat, track: Tracker,
    width: nat, height: nat, htotal: nat, vtotal: nat,
    referenceHalfKhz: nat, pixelMaxKhz: nat, clockSamples: nat, restored: bool, enabled: bool, complete: bool)

  const EMPTY := Report(0, Tracker(0, false, 0), 0, 0, 0, 0, 0, 0, 0, false, false, false)

  /** gc573_receiver_video_retryable. */
  predicate Retryable(r: Report, error: Option<Error>) {
    || (error == Some(ENOLINK) && r.phase == 1 && r.track.writes == 0)
    || (r.track.verified && r.track.bank == 0 && r.phase == 4 && (error == Some(EAGAIN) || error == Some(ERANGE)))
    || (r.track.verified && r.track.bank == 0 && r.phase == 5 && error == Some(ERANGE) && r.restored
        && r.clockSamples == 5 && 14000 <= r.referenceHalfKhz <= 24000)
  }

  // ------------------------------------------------------- harmless writes

  /** A bank selection that keeps the other bits of the register. */
  predicate SelectsBank(w: Write) {
    w.reg == SELECT && w.was.Some? && w.was.value & 0xf8 == w.value & 0xf8
  }

  /** A write of the clock latch that keeps what was read in the other bits. */
  predicate Latches(w: Write) {
    w.bank == 0 && w.reg == LATCH && w.was.Some? && w.was.value & 0x7f == w.value & 0x7f
  }

  /** Only bank selections, and latch writes if allowed, since the log was `base`. */
  ghost predicate Careful(base: seq<Write>, log: seq<Write>, latch: bool) {
    && base <= log
    && forall i: nat :: |base| <= i < |log| ==> SelectsBank(log[i]) || (latch && Latches(log[i]))
  }

  /** The newest write set the clock latch. */
  predicate LatchSet(log: seq<Write>) {
    log != [] && log[|log| - 1].reg == LATCH && log[|log| - 1].value & 0x80 == 0x80
  }

  lemma CarefulWeakens(base: seq<Write>, log: seq<Write>)
    requires Careful(base, log, false)
    ensures Careful(base, log, true)
  {
  }

  lemma CarefulStart(log: seq<Write>)
    ensures Careful(log, log, false)
  {
  }

  /** The tracked bank and the number of writes are the chip's. */
  ghost predicate Tracks(regs: Regs, log: seq<Write>, t: Tracker, base: seq<Write>) {
    && (t.verified ==> t.bank == BankOf(regs))
    && base <= log && t.writes == |log| - |base|
  }

  /** A started bank selection: logged as harmless, tracked as unverified. */
  lemma SelectLogged(regs: Regs, log: seq<Write>, t: Tracker, base: seq<Write>, was: bv8, bank: bv8, at: bv8, regs': Regs)
    requires Tracks(regs, log, t, base) && bank < 8
    ensures var log' := log + [Write(at, SELECT, Some(was), Merge(was, 7, bank))];
      && Tracks(regs', log', t.(writes := t.writes + 1, verified := false), base)
      && (forall latch: bool :: Careful(base, log, latch) ==> Careful(base, log', latch))
  {
    assert SelectsBank(Write(at, SELECT, Some(was), Merge(was, 7, bank)));
  }

  /** A bank register read back as the value written selects that bank. */
  lemma SelectVerified(regs: Regs, log: seq<Write>, t: Tracker, base: seq<Write>, was: bv8, bank: bv8)
    requires Tracks(regs, log, t, base) && bank < 8 && Get(regs, SELECT) == Merge(was, 7, bank)
    ensures Tracks(regs, log, t.(bank := bank, verified := true), base)
  {
  }

  lemma SelectObserved(regs: Regs, log: seq<Write>, t: Tracker, base: seq<Write>)
    requires Tracks(regs, log, t, base)
    ensures Tracks(regs, log, t.(bank := Get(regs, SELECT) & 7, verified := true), base)
  {
  }

  /** Any other started write leaves the bank alone. */
  lemma WriteLogged(regs: Regs, log: seq<Write>, t: Tracker, base: seq<Write>, w: Write, value: bv8)
    requires Tracks(regs, log, t, base) && w.reg != SELECT
    ensures Tracks(regs, log + [w], t.(writes := t.writes + 1), base)
    ensures Tracks(Put(regs, w.reg, value), log + [w], t.(writes := t.writes + 1), base)
  {
  }

  lemma UnverifiedLogged(regs: Regs, log: seq<Write>, t: Tracker, base: seq<Write>, w: Write, regs': Regs)
    requires Tracks(regs, log, t, base)
    ensures Tracks(regs', log + [w], t.(writes := t.writes + 1, verified := false), base)
  {
  }

  lemma LatchLogged(base: seq<Write>, log: seq<Write>, was: bv8, value: bv8)
    requires Careful(base, log, true)
    ensures Careful(base, log + [Write(0, LATCH, Some(was), Merge(was, 0x80, value))], true)
  {
    assert Latches(Write(0, LATCH, Some(was), Merge(was, 0x80, value)));
  }

  /** The newest read is of the register last written, and gave something else. */
  ghost predicate Mismatched(answers: seq<(nat, bv8)>, log: seq<Write>) {
    && answers != [] && log != []
    && answers[|answers| - 1].0 == log[|log| - 1].reg && answers[|answers| - 1].1 != log[|log| - 1].value
  }

  // ------------------------------------------------------------ bus steps

  /** The bank register is read, and reads back as before with the new bank. */
  ghost predicate Confirms(answers: seq<(nat, bv8)>, i: nat, bank: bv8)
    requires i + 2 <= |answers|
  {
    answers[i].0 == answers[i + 1].0 == 0x0f && answers[i + 1].1 == (answers[i].1 & 0xf8) | bank
  }

  lemma MergeConfirms(answers: seq<(nat, bv8)>, was: bv8, observed: bv8, bank: bv8, now: seq<(nat, bv8)>)
    requires bank < 8 && now == answers + [(SELECT, was)] + [(SELECT, observed)]
    ensures Confirms(now, |answers|, bank) <==> observed == Merge(was, 7, bank)
  {
  }

  /** rv_bank: select a bank and read it back. */
  method SelectBank(chip: Chip, t: Tracker, bank: bv8, ghost base: seq<Write>)
    returns (ret: Option<Error>, t': Tracker)
    requires bank < 8 && Tracks(chip.regs, chip.log, t, base)
    modifies chip
    ensures Tracks(chip.regs, chip.log, t', base)
    ensures ret.None? ==> t'.verified && t'.bank == bank
    ensures ret.Some? ==> ret == Some(EBUS) || ret == Some(EIO)
    ensures forall latch: bool :: Careful(base, old(chip.log), latch) ==> Careful(base, chip.log, latch)
    ensures old(chip.answers) <= chip.answers && |chip.answers| <= |old(chip.answers)| + 2
    ensures ret.None? <==>
              |chip.answers| == |old(chip.answers)| + 2 && Confirms(chip.answers, |old(chip.answers)|, bank)
    ensures chip.faults == old(chip.faults) + if ret == Some(EBUS) then 1 else 0
    ensures ret == Some(EIO) ==> Mismatched(chip.answers, chip.log)
  {
    hide Mismatched, Confirms, Careful, Merge, Tracks, BankOf, Put, Get;
    t' := t;
    var ok, was := chip.Read(SELECT);
    if !ok {
      return Some(EBUS), t';
    }
    var value := Merge(was, 7, bank);
    var started;
    ghost var regs, log := chip.regs, chip.log;
    ok, started := chip.Store(SELECT, value);
    if started {
      SelectLogged(regs, log, t', base, was, bank, BankOf(regs), chip.regs);
      t' := t'.(writes := t'.writes + 1, verified := false);
    }
    if !ok {
      return Some(EBUS), t';
    }
    var observed;
    ok, observed := chip.Read(SELECT);
    if !ok {
      return Some(EBUS), t';
    }
    MergeConfirms(old(chip.answers), was, observed, bank, chip.answers);
    if observed != value {
      MismatchIs(chip.answers, chip.log, SELECT, observed, value);
      return Some(EIO), t';
    }
    SelectVerified(chip.regs, chip.log, t', base, was, bank);
    return None, t'.(bank := bank, verified := true);
  }

  /** A write that gives an operation's bits their values. */
  predicate Sets(op: Op, w: Write) {
    w.reg == op.reg && w.value & op.mask == op.value & op.mask
  }

  lemma MergeSets(was: bv8, op: Op, w: Write)
    requires w.reg == op.reg && w.value == Merge(was, op.mask, op.value)
    ensures Sets(op, w)
  {
  }

  /** The read and the write of a masked write. */
  method StoreMasked(chip: Chip, t: Tracker, op: Op, ghost base: seq<Write>)
    returns (ok: bool, t': Tracker, value: bv8)
    requires Tracks(chip.regs, chip.log, t, base)
    modifies chip
    ensures Tracks(chip.regs, chip.log, t', base)
    ensures op.reg != SELECT ==> t' == t.(writes := t'.writes)
    ensures ok ==> chip.log != [] && Sets(op, chip.log[|chip.log| - 1]) && chip.log[|chip.log| - 1].value == value
    ensures ok ==> chip.log[|chip.log| - 1].reg == op.reg
    ensures ok ==> |chip.log| == |old(chip.log)| + 1 && old(chip.log) <= chip.log
    ensures ok ==> |chip.answers| == |old(chip.answers)| + 1 && old(chip.answers) <= chip.answers
    ensures old(chip.answers) <= chip.answers && chip.faults == old(chip.faults) + if ok then 0 else 1
    ensures op.reg == LATCH && op.mask == 0x80 && BankOf(old(chip.regs)) == 0 ==>
              (Careful(base, old(chip.log), true) ==> Careful(base, chip.log, true))
  {
    hide Careful, Merge, Tracks, BankOf, Put, Get, Sets;
    t', value := t, 0;
    var was;
    ok, was := chip.Read(op.reg);
    if !ok {
      return;
    }
    value := Merge(was, op.mask, op.value);
    var started;
    ghost var regs, log := chip.regs, chip.log;
    ok, started := chip.Store(op.reg, value);
    if !started {
      return;
    }
    ghost var w := chip.log[|log|];
    MergeSets(was, op, w);
    if op.reg == SELECT {
      UnverifiedLogged(regs, log, t', base, w, chip.regs);
    } else {
      WriteLogged(regs, log, t', base, w, value);
    }
    if op.reg == LATCH && op.mask == 0x80 && BankOf(regs) == 0 && Careful(base, log, true) {
      LatchLogged(base, log, was, op.value);
    }
    t' := t'.(writes := t'.writes + 1, verified := t'.verified && op.reg != SELECT);
  }

  lemma MismatchIs(answers: seq<(nat, bv8)>, log: seq<Write>, reg: nat, observed: bv8, value: bv8)
    requires answers != [] && answers[|answers| - 1] == (reg, observed) && observed != value
    requires log != [] && log[|log| - 1].reg == reg && log[|log| - 1].value == value
    ensures Mismatched(answers, log)
  {
  }

  lemma XorDiffers(v: bv8, w: bv8, mask: bv8)
    requires (v ^ w) & mask != 0
    ensures v != w
  {
  }

  /** rv_set: a masked write with a read-back of the bits to verify. */
  method MaskedWrite(chip: Chip, t: Tracker, op: Op, ghost base: seq<Write>)
    returns (ret: Option<Error>, t': Tracker)
    requires Tracks(chip.regs, chip.log, t, base)
    modifies chip
    ensures Tracks(chip.regs, chip.log, t', base)
    ensures ret.Some? ==> ret == Some(EBUS) || ret == Some(EIO)
    ensures op.reg != SELECT ==> t' == t.(writes := t'.writes)
    ensures ret.None? ==> chip.log != [] && Sets(op, chip.log[|chip.log| - 1])
    ensures ret.None? ==> |chip.log| == |old(chip.log)| + 1 && old(chip.log) <= chip.log
    ensures ret.None? ==> |chip.answers| == |old(chip.answers)| + 2 && old(chip.answers) <= chip.answers
    ensures old(chip.answers) <= chip.answers && chip.faults == old(chip.faults) + if ret == Some(EBUS) then 1 else 0
    ensures op.reg == LATCH && op.mask == 0x80 && BankOf(old(chip.regs)) == 0 ==>
              (Careful(base, old(chip.log), true) ==> Careful(base, chip.log, true))
    ensures ret == Some(EIO) ==> Mismatched(chip.answers, chip.log)
  {
    hide Mismatched, Careful, Merge, Tracks, BankOf, Put, Get, Sets;
    var ok, value;
    ok, t', value := StoreMasked(chip, t, op, base);
    if !ok {
      return Some(EBUS), t';
    }
    var observed;
    ok, observed := chip.Read(op.reg);
    if !ok {
      return Some(EBUS), t';
    }
    if (observed ^ value) & op.verify != 0 {
      XorDiffers(observed, value, op.verify);
      MismatchIs(chip.answers, chip.log, op.reg, observed, value);
      return Some(EIO), t';
    }
    if op.reg == SELECT {
      SelectObserved(chip.regs, chip.log, t', base);
      t' := t'.(bank := observed & 7, verified := true);
    }
    return None, t';
  }

  /** The answers of reads of registers in order. */
  ghost function Answered(regs: seq<nat>, values: seq<bv8>): (a: seq<(nat, bv8)>)
    requires |values| <= |regs|
    ensures |a| == |values| && forall k: nat :: k < |values| ==> a[k] == (regs[k], values[k])
  {
    seq(|values|, k requires 0 <= k < |values| => (regs[k], values[k]))
  }

  /** Reads of the given registers in order. */
  method ReadList(chip: Chip, regs: seq<nat>) returns (ret: Option<Error>, values: seq<bv8>)
    modifies chip`seen, chip`answers, chip`faults
    ensures |values| <= |regs| && chip.answers == old(chip.answers) + Answered(regs, values)
    ensures ret == if |values| == |regs| then None else Some(EBUS)
    ensures chip.faults == old(chip.faults) + if ret == Some(EBUS) then 1 else 0
  {
    values := [];
    assert chip.answers == old(chip.answers) + Answered(regs, values);
    while |values| < |regs|
      invariant |values| <= |regs| && chip.answers == old(chip.answers) + Answered(regs, values)
      invariant chip.faults == old(chip.faults)
    {
      var ok, v := chip.Read(regs[|values|]);
      if !ok {
        return Some(EBUS), values;
      }
      assert Answered(regs, values + [v]) == Answered(regs, values) + [(regs[|values|], v)];
      values := values + [v];
    }
    return None, values;
  }

  /** Reads of consecutive registers. */
  method ReadRun(chip: Chip, first: nat, count: nat) returns (ret: Option<Error>, values: seq<bv8>)
    modifies chip`seen, chip`answers, chip`faults
    ensures |values| <= count && chip.answers == old(chip.answers) + Answered(Run(first, count), values)
    ensures ret == if |values| == count then None else Some(EBUS)
    ensures chip.faults == old(chip.faults) + if ret == Some(EBUS) then 1 else 0
  {
    values := [];
    assert chip.answers == old(chip.answers) + Answered(Run(first, count), values);
    while |values| < count
      invariant |values| <= count && chip.answers == old(chip.answers) + Answered(Run(first, count), values)
      invariant chip.faults == old(chip.faults)
    {
      var ok, v := chip.Read(first + |values|);
      if !ok {
        return Some(EBUS), values;
      }
      assert Answered(Run(first, count), values + [v]) == Answered(Run(first, count), values) + [(first + |values|, v)];
      values := values + [v];
    }
    return None, values;
  }

  ghost function Run(first: nat, count: nat): (regs: seq<nat>)
    ensures |regs| == count && forall k: nat :: k < count ==> regs[k] == first + k
  {
    seq(count, k requires 0 <= k < count => first + k)
  }

  // ---------------------------------------------------------- the attempt

  function Byte(b: bv8): nat {
    b as nat
  }

  function Word(low: bv8, high: bv8, mask: bv8): nat {
    low as nat + 256 * ((high & mask) as nat)
  }

  lemma TrackedBank(regs: Regs, log: seq<Write>, t: Tracker, base: seq<Write>)
    requires Tracks(regs, log, t, base) && t.verified
    ensures BankOf(regs) == t.bank
  {
  }

  const CLEAR := Op(LATCH, 0x80, 0, 0x80)
  const SET := Op(LATCH, 0x80, 0x80, 0x80)

  /** The latch was cleared and set again n times since `base`. */
  ghost predicate Pulsed(base: seq<Write>, log: seq<Write>, n: nat) {
    && |log| == |base| + 2 * n && base <= log
    && forall i: nat :: i < n ==> Sets(CLEAR, log[|base| + 2 * i]) && Sets(SET, log[|base| + 2 * i + 1])
  }

  lemma PulsedOnce(base: seq<Write>, log: seq<Write>, n: nat, clear: Write, set': Write)
    requires Pulsed(base, log, n) && Sets(CLEAR, clear) && Sets(SET, set')
    ensures Pulsed(base, log + [clear] + [set'], n + 1)
  {
    hide Sets;
  }

  /** The sum of n counter samples among the reads' answers behind `from`.  A sample is six reads:
      two around each of the latch writes, and the counter's two bytes between them. */
  function SumOf(answers: seq<(nat, bv8)>, from: nat, n: nat): nat
    requires from + 6 * n <= |answers|
  {
    if n == 0 then 0
    else SumOf(answers, from, n - 1) + Word(answers[from + 6 * n - 3].1, answers[from + 6 * n - 4].1, 7)
  }

  /** n samples were read behind `base`, high byte first, and `sum` is theirs. */
  ghost predicate Sampled(base: seq<(nat, bv8)>, answers: seq<(nat, bv8)>, n: nat, sum: nat) {
    && |answers| == |base| + 6 * n && base <= answers && sum == SumOf(answers, |base|, n)
    && forall i: nat :: i < n ==> answers[|base| + 6 * i + 2].0 == LATCH && answers[|base| + 6 * i + 3].0 == 0x99
  }

  lemma {:induction false} SumLasts(answers: seq<(nat, bv8)>, more: seq<(nat, bv8)>, from: nat, n: nat)
    requires from + 6 * n <= |answers| && answers <= more
    ensures SumOf(more, from, n) == SumOf(answers, from, n)
  {
    if n > 0 {
      SumLasts(answers, more, from, n - 1);
    }
  }

  lemma SampledOnce(base: seq<(nat, bv8)>, answers: seq<(nat, bv8)>, n: nat, sum: nat, more: seq<(nat, bv8)>)
    requires Sampled(base, answers, n, sum) && answers <= more && |more| == |answers| + 6
    requires more[|answers| + 2].0 == LATCH && more[|answers| + 3].0 == 0x99
    ensures Sampled(base, more, n + 1, sum + Word(more[|answers| + 3].1, more[|answers| + 2].1, 7))
  {
    hide Word;
    SumLasts(answers, more, |base|, n);
  }

  lemma NothingMeasured(log: seq<Write>, answers: seq<(nat, bv8)>)
    ensures Pulsed(log, log, 0) && Sampled(answers, answers, 0, 0)
  {
  }

  lemma LastIsSet(log: seq<Write>)
    requires log != [] && Sets(SET, log[|log| - 1])
    ensures LatchSet(log)
  {
  }

  /** One sample between a cleared and a set latch. */
  method MeasureOnce(chip: Chip, t: Tracker, ghost base: seq<Write>)
    returns (ret: Option<Error>, t': Tracker, count: nat)
    requires Tracks(chip.regs, chip.log, t, base) && t.verified && t.bank == 0
    requires Careful(base, chip.log, true)
    modifies chip
    ensures Tracks(chip.regs, chip.log, t', base) && Careful(base, chip.log, true)
    ensures t'.verified && t'.bank == 0
    ensures ret.None? ==> LatchSet(chip.log)
    ensures ret.None? ==> forall from: seq<Write>, n: nat :: Pulsed(from, old(chip.log), n) ==> Pulsed(from, chip.log, n + 1)
    ensures ret.None? ==>
              forall from: seq<(nat, bv8)>, n: nat, sum: nat ::
                Sampled(from, old(chip.answers), n, sum) ==> Sampled(from, chip.answers, n + 1, sum + count)
    ensures old(chip.answers) <= chip.answers && chip.faults == old(chip.faults) + if ret == Some(EBUS) then 1 else 0
    ensures ret.Some? ==> ret == Some(EBUS) || ret == Some(EIO)
    ensures ret == Some(EIO) ==> Mismatched(chip.answers, chip.log)
  {
    hide Mismatched, Careful, Tracks, BankOf, Put, Get, Word, Pulsed, Sampled, LatchSet, Sets;
    count := 0;
    ghost var log, answers := chip.log, chip.answers;
    TrackedBank(chip.regs, chip.log, t, base);
    ret, t' := MaskedWrite(chip, t, CLEAR, base);
    if ret.Some? {
      return;
    }
    ghost var clear := chip.log[|log|];
    assert chip.log == log + [clear];
    ghost var before := chip.answers;
    var ok, high := chip.Read(LATCH);
    if !ok {
      ret := Some(EBUS);
      return;
    }
    var low;
    ok, low := chip.Read(0x99);
    if !ok {
      ret := Some(EBUS);
      return;
    }
    assert chip.answers == before + [(LATCH, high)] + [(0x99, low)];
    ghost var mid := chip.answers;
    count := Word(low, high, 7);
    TrackedBank(chip.regs, chip.log, t', base);
    ret, t' := MaskedWrite(chip, t', SET, base);
    if ret.Some? {
      return;
    }
    LastIsSet(chip.log);
    ghost var set' := chip.log[|log| + 1];
    assert chip.log == log + [clear] + [set'];
    assert chip.answers[|answers| + 2] == mid[|answers| + 2] && chip.answers[|answers| + 3] == mid[|answers| + 3];
    forall from: seq<Write>, n: nat | Pulsed(from, log, n) ensures Pulsed(from, chip.log, n + 1) {
      PulsedOnce(from, log, n, clear, set');
    }
    forall from: seq<(nat, bv8)>, n: nat, sum: nat | Sampled(from, answers, n, sum)
      ensures Sampled(from, chip.answers, n + 1, sum + count)
    {
      SampledOnce(from, answers, n, sum, chip.answers);
    }
  }

  /** Five latched samples of the pixel clock; each leaves the latch set again. */
  method Measure(chip: Chip, t: Tracker, ghost base: seq<Write>)
    returns (ret: Option<Error>, t': Tracker, samples: nat, sum: nat)
    requires Tracks(chip.regs, chip.log, t, base) && t.verified && t.bank == 0
    requires Careful(base, chip.log, true)
    modifies chip
    ensures Tracks(chip.regs, chip.log, t', base) && Careful(base, chip.log, true)
    ensures t'.verified && t'.bank == 0
    ensures ret.None? ==> samples == 5 && LatchSet(chip.log)
    ensures ret.None? ==> Pulsed(old(chip.log), chip.log, 5) && Sampled(old(chip.answers), chip.answers, 5, sum)
    ensures old(chip.answers) <= chip.answers && chip.faults == old(chip.faults) + if ret == Some(EBUS) then 1 else 0
    ensures ret.Some? ==> ret == Some(EBUS) || ret == Some(EIO)
    ensures ret == Some(EIO) ==> Mismatched(chip.answers, chip.log)
  {
    hide Mismatched, Careful, Tracks, BankOf, Put, Get, Word, Pulsed, Sampled, LatchSet;
    t', samples, sum := t, 0, 0;
    NothingMeasured(chip.log, chip.answers);
    while samples < 5
      invariant Tracks(chip.regs, chip.log, t', base) && Careful(base, chip.log, true) && samples <= 5
      invariant old(chip.answers) <= chip.answers && chip.faults == old(chip.faults)
      invariant t'.verified && t'.bank == 0 && (samples > 0 ==> LatchSet(chip.log))
      invariant Pulsed(old(chip.log), chip.log, samples) && Sampled(old(chip.answers), chip.answers, samples, sum)
    {
      var count;
      ret, t', count := MeasureOnce(chip, t', base);
      if ret.Some? {
        return;
      }
      samples, sum := samples + 1, sum + count;
    }
    ret := None;
  }

  function ModeSupported(width: nat, height: nat): bool {
    (width == 1920 && height == 1080) || (width == 1280 && height == 720)
  }

  /** The source formats that may be programmed. */
  predicate FormatAccepted(r: Report, extended: nat, timing0: bv8, avi0: bv8, extra3: bv8, output0: bv8) {
    && (ModeSupported(r.width, r.height) || (extended != 0 && r.width == 2560 && r.height == 1440))
    && (timing0 >> 1) & 1 == 0 && avi0 & 0x60 == 0 && timing0 & 0xf0 == 0 && extra3 & 0x20 == 0
    && output0 & 0xc0 == 0x40
  }

  function ClockLimit(r: Report, extended: nat): nat {
    if extended == 2 && r.width == 2560 && r.height == 1440 then 600000
    else if extended != 0 then 510000 else 150000
  }

  // --------------------------------------- what the answers of an attempt decide

  /** The source is there and its clock is stable: registers 0x13 and 0x19, the first and
      the third behind the five reads that identify the receiver. */
  ghost predicate LinkUp(a: seq<(nat, bv8)>) {
    && |a| >= 23 && a[0].0 == 0x0f && a[5].0 == 0x13 && a[7].0 == 0x19
    && a[5].1 & 0x11 == 0x11 && a[7].1 & 0x80 == 0x80
  }

  /** The snapshot: nineteen timing registers twice, four more, five of bank 2, seven of
      bank 1, and bank 0 again. */
  ghost predicate Snapped(s: seq<(nat, bv8)>) {
    && |s| >= 60 && Confirms(s, 42, 2) && Confirms(s, 49, 1) && Confirms(s, 58, 0)
    && (forall i: nat :: i < 19 ==> s[i].0 == 0x98 + i)
    && (forall i: nat :: 19 <= i < 38 ==> s[i].0 == 0x98 + (i - 19))
    && s[38].0 == 0x43 && s[39].0 == 0x48 && s[40].0 == 0x1b && s[41].0 == 0xcf
    && (forall i: nat :: 44 <= i < 49 ==> s[i].0 == 0x15 + (i - 44))
    && (forall i: nat :: 51 <= i < 58 ==> s[i].0 == 0xc0 + (i - 51))
  }

  /** The source did not change between the two readings of its timing. */
  ghost predicate Steady(s: seq<(nat, bv8)>)
    requires |s| >= 60
  {
    forall k: nat :: 3 <= k < 19 ==> s[k].1 == s[19 + k].1
  }

  /** A fourteen-bit count at offset k of the second timing reading. */
  ghost function Count(s: seq<(nat, bv8)>, k: nat): nat
    requires |s| >= 60 && k < 18
  {
    s[19 + k].1 as nat + 256 * ((s[20 + k].1 & 0x3f) as nat)
  }

  /** The picture is not empty and smaller than its frame. */
  ghost predicate Shaped(s: seq<(nat, bv8)>)
    requires |s| >= 60
  {
    0 < Count(s, 5) < Count(s, 3) && 0 < Count(s, 12) < Count(s, 10)
  }

  /** Progressive, deep colour off, RGB, in a supported size; 2560x1440 only with an
      extended profile. */
  ghost predicate Plain(s: seq<(nat, bv8)>, enable: nat)
    requires |s| >= 60
  {
    && (|| (Count(s, 5) == 1920 && Count(s, 12) == 1080) || (Count(s, 5) == 1280 && Count(s, 12) == 720)
        || (Count(s, 5) == 2560 && Count(s, 12) == 1440 && (enable == 2 || enable == 3)))
    && s[19].1 & 0x02 == 0 && s[19].1 & 0xf0 == 0 && s[44].1 & 0x60 == 0 && s[41].1 & 0x20 == 0
    && s[51].1 & 0xc0 == 0x40
  }

  /** The measurement: the reference from bank 1, and five latched samples of the clock. */
  ghost predicate Measured(m: seq<(nat, bv8)>) {
    && |m| >= 35 && Confirms(m, 0, 1) && m[2].0 == 0xfd && Confirms(m, 3, 0)
    && forall i: nat :: i < 5 ==> m[7 + 6 * i].0 == 0x9a && m[8 + 6 * i].0 == 0x99
  }

  ghost function Sample(m: seq<(nat, bv8)>, i: nat): nat
    requires |m| >= 35 && i < 5
  {
    m[8 + 6 * i].1 as nat + 256 * ((m[7 + 6 * i].1 & 7) as nat)
  }

  ghost function Total(m: seq<(nat, bv8)>): nat
    requires |m| >= 35
  {
    Sample(m, 0) + Sample(m, 1) + Sample(m, 2) + Sample(m, 3) + Sample(m, 4)
  }

  /** The fastest the pixel clock can be, in kHz: the reference is known to 100 half-kHz. */
  ghost function Fastest(m: seq<(nat, bv8)>): nat
    requires |m| >= 35 && Total(m) > 0
  {
    Quotient((100 * (m[2].1 as nat) + 99) * 2560, Total(m))
  }

  ghost function Quotient(a: nat, b: nat): nat
    requires b > 0
  {
    a / b
  }

  /** The clock fits: a credible reference, and a pixel clock from 70 MHz up to 150, 510 or
      600 MHz. */
  ghost predicate ClockFits(m: seq<(nat, bv8)>, width: nat, height: nat, enable: nat)
    requires |m| >= 35
  {
    var reference := 100 * (m[2].1 as nat);
    && Total(m) > 0 && 14000 <= reference <= 24000 && reference * 2560 / Total(m) >= 70000
    && Fastest(m) <=
         if enable == 3 && width == 2560 && height == 1440 then 600000
         else if enable == 2 || enable == 3 then 510000 else 150000
  }

  lemma ConfirmsBehind(was: seq<(nat, bv8)>, s: seq<(nat, bv8)>, now: seq<(nat, bv8)>, i: nat, bank: bv8)
    requires i + 2 <= |s| && Confirms(s, i, bank) && s <= now && |was| <= i && was <= now
    ensures Confirms(now[|was|..], i - |was|, bank)
  {
    assert now[|was|..][i - |was|] == s[i] && now[|was|..][i - |was| + 1] == s[i + 1];
  }

  /** The reference and the five samples, read behind `was`. */
  lemma MeasuredIs(was: seq<(nat, bv8)>, two: seq<(nat, bv8)>, fd: bv8, now: seq<(nat, bv8)>, sum: nat)
    requires was <= two && |two| == |was| + 5 && Confirms(two, |was|, 1) && two[|was| + 2] == (0xfd, fd)
    requires Confirms(two, |was| + 3, 0) && Sampled(two, now, 5, sum)
    ensures |now| == |was| + 35 && was <= now
    ensures var m := now[|was|..]; Measured(m) && m[2].1 == fd && Total(m) == sum
  {
    hide Confirms, Word, SumOf;
    ConfirmsBehind(was, two, now, |was|, 1);
    ConfirmsBehind(was, two, now, |was| + 3, 0);
    var m := now[|was|..];
    assert m[2] == now[|was| + 2] == two[|was| + 2];
    forall i: nat | i < 5 ensures m[7 + 6 * i].0 == 0x9a && m[8 + 6 * i].0 == 0x99 {
      assert m[7 + 6 * i] == now[|two| + 6 * i + 2] && m[8 + 6 * i] == now[|two| + 6 * i + 3];
    }
    SumIsTotal(now, |was|);
  }

  lemma SumIsTotal(now: seq<(nat, bv8)>, from: nat)
    requires |now| == from + 35
    ensures SumOf(now, from + 5, 5) == Total(now[from..])
  {
    var m, at := now[from..], from + 5;
    assert SumOf(now, at, 1) == Sample(m, 0);
    assert SumOf(now, at, 2) == SumOf(now, at, 1) + Sample(m, 1);
    assert SumOf(now, at, 3) == SumOf(now, at, 2) + Sample(m, 2);
    assert SumOf(now, at, 4) == SumOf(now, at, 3) + Sample(m, 3);
  }

  /** The reference clock, from bank 1; `half` is 0 until it was read. */
  method ReadReference(chip: Chip, t: Tracker, ghost base: seq<Write>)
    returns (ret: Option<Error>, t': Tracker, half: nat, ghost fd: bv8)
    requires Tracks(chip.regs, chip.log, t, base) && Careful(base, chip.log, true)
    modifies chip
    ensures Tracks(chip.regs, chip.log, t', base) && Careful(base, chip.log, true)
    ensures ret.Some? ==> ret == Some(EBUS) || ret == Some(EIO)
    ensures ret == Some(EIO) ==> Mismatched(chip.answers, chip.log)
    ensures old(chip.answers) <= chip.answers && chip.faults == old(chip.faults) + if ret == Some(EBUS) then 1 else 0
    ensures ret.None? ==>
              && t'.verified && t'.bank == 0 && half == 100 * (fd as nat) && |chip.answers| == |old(chip.answers)| + 5
              && Confirms(chip.answers, |old(chip.answers)|, 1) && chip.answers[|old(chip.answers)| + 2] == (0xfd, fd)
              && Confirms(chip.answers, |old(chip.answers)| + 3, 0)
  {
    hide Mismatched, Careful, Tracks, BankOf, Put, Get, Byte, Confirms;
    half, fd := 0, 0;
    ghost var was := chip.answers;
    ret, t' := SelectBank(chip, t, 1, base);
    if ret.Some? {
      return;
    }
    ghost var one := chip.answers;
    var ok, v := chip.Read(0xfd);
    if !ok {
      ret := Some(EBUS);
      return;
    }
    ByteIs(v);
    half, fd := Byte(v) * 100, v;
    ret, t' := SelectBank(chip, t', 0, base);
    if ret.None? {
      ConfirmsLasts(one, chip.answers, |was|, 1);
    }
  }

  /** The reference clock, then the samples; bank 0 is selected again before them. */
  method ReadClock(chip: Chip, r: Report, ghost base: seq<Write>) returns (ret: Option<Error>, r': Report, sum: nat)
    requires Tracks(chip.regs, chip.log, r.track, base) && Careful(base, chip.log, true) && !r.restored
    modifies chip
    ensures Tracks(chip.regs, chip.log, r'.track, base) && Careful(base, chip.log, true)
    ensures ret.Some? ==> ret == Some(EBUS) || ret == Some(EIO)
    ensures old(chip.answers) <= chip.answers && chip.faults == old(chip.faults) + if ret == Some(EBUS) then 1 else 0
    ensures r'.(track := r.track, referenceHalfKhz := r.referenceHalfKhz, clockSamples := r.clockSamples, restored := false) == r
    ensures ret.None? <==> r'.restored
    ensures r'.restored ==> LatchSet(chip.log) && r'.track.verified && r'.track.bank == 0 && r'.clockSamples == 5
    ensures r'.restored ==>
              var m := chip.answers[|old(chip.answers)|..];
              |m| == 35 && Measured(m) && r'.referenceHalfKhz == 100 * (m[2].1 as nat) && Total(m) == sum
    ensures ret == Some(EIO) ==> Mismatched(chip.answers, chip.log)
  {
    hide Mismatched, Careful, Tracks, BankOf, Put, Get, Confirms, Measured, Sampled, Pulsed, Total, LatchSet;
    r', sum := r, 0;
    ghost var was := chip.answers;
    var t, half;
    ghost var fd;
    ret, t, half, fd := ReadReference(chip, r.track, base);
    r' := r'.(track := t, referenceHalfKhz := half);
    if ret.Some? {
      return;
    }
    ghost var two := chip.answers;
    var samples;
    ret, t, samples, sum := Measure(chip, t, base);
    r' := r'.(track := t, clockSamples := samples);
    if ret.Some? {
      return;
    }
    MeasuredIs(was, two, fd, chip.answers, sum);
    r' := r'.(restored := true);
  }

  lemma ByteIs(b: bv8)
    ensures Byte(b) == b as nat
  {
  }

  /** What the output step decides, by what it read: a format that is not accepted is
      refused before anything is read, and with the samples in, the clock decides between
      a range error and the output table. */
  ghost predicate OutputDecided(m: seq<(nat, bv8)>, r: Report, accepted: bool, enable: nat, ret: Option<Error>, r': Report) {
    && (ret == Some(EOPNOTSUPP) <==> !accepted)
    && (!accepted ==> m == [] && r'.phase == 5 && !r'.restored)
    && (accepted && !r'.restored ==> r'.phase == 5 && (ret == Some(EBUS) || ret == Some(EIO)))
    && (r'.restored ==>
          && Measured(m) && r'.referenceHalfKhz == 100 * (m[2].1 as nat)
          && (r'.phase == 6 <==> ClockFits(m, r.width, r.height, enable))
          && (ret == Some(ERANGE) <==> !ClockFits(m, r.width, r.height, enable))
          && (r'.phase == 6 ==> r'.pixelMaxKhz == Fastest(m)))
  }

  /** Two pixels a clock: only with an extended profile, for a picture wider than 1920 or a
      clock that may pass 150 MHz. */
  ghost predicate TwoLanes(m: seq<(nat, bv8)>, width: nat, enable: nat)
    requires |m| >= 35 && Total(m) > 0
  {
    (enable == 2 || enable == 3) && (width > 1920 || Fastest(m) > 150000)
  }

  function PixelKhz(halfKhz: nat, sum: nat): nat
    requires sum > 0
  {
    halfKhz * 5 * 512 / sum
  }

  lemma ClockDecided(m: seq<(nat, bv8)>, r: Report, ref: nat, extended: nat, enable: nat)
    requires |m| >= 35 && ref == 100 * (m[2].1 as nat) && Total(m) > 0 && 14000 <= ref <= 24000
    requires extended == if enable == 3 then 2 else if enable == 2 then 1 else 0
    ensures PixelKhz(ref + 99, Total(m)) == Fastest(m)
    ensures PixelKhz(ref, Total(m)) < 70000 || Fastest(m) > ClockLimit(r, extended) <==>
              !ClockFits(m, r.width, r.height, enable)
  {
    hide Total;
  }

  lemma MeasuredLasts(was: seq<(nat, bv8)>, mid: seq<(nat, bv8)>, now: seq<(nat, bv8)>, r: Report, enable: nat,
                      r': Report, after: Report)
    requires was <= mid <= now && Measured(mid[|was|..]) && Clocked(mid[|was|..], r, enable, r')
    requires after.referenceHalfKhz == r'.referenceHalfKhz && after.pixelMaxKhz == r'.pixelMaxKhz
    ensures var m, more := mid[|was|..], now[|was|..];
      && Measured(more) && Clocked(more, r, enable, after) && (TwoLanes(more, r.width, enable) <==> TwoLanes(m, r.width, enable))
  {
    var m, more := mid[|was|..], now[|was|..];
    assert forall i: nat :: i < |m| ==> m[i] == more[i];
    assert Total(m) == Total(more) && Fastest(m) == Fastest(more);
  }

  /** The measurement and its limits; only a clock within them starts phase 6. */
  method GateClock(chip: Chip, r: Report, extended: nat, ghost base: seq<Write>, ghost enable: nat)
    returns (ret: Option<Error>, r': Report, wide: bool)
    requires Tracks(chip.regs, chip.log, r.track, base) && Careful(base, chip.log, true) && !r.restored && r.phase == 5
    requires extended == if enable == 3 then 2 else if enable == 2 then 1 else 0
    modifies chip
    ensures Tracks(chip.regs, chip.log, r'.track, base) && Careful(base, chip.log, true)
    ensures r'.phase == if ret.None? then 6 else 5
    ensures ret.Some? ==> ret == Some(EBUS) || ret == Some(EIO) || ret == Some(ERANGE)
    ensures ret == Some(ERANGE) ==>
              LatchSet(chip.log) && r'.track.verified && r'.track.bank == 0 && r'.restored && r'.clockSamples == 5
    ensures old(chip.answers) <= chip.answers && chip.faults == old(chip.faults) + if ret == Some(EBUS) then 1 else 0
    ensures OutputDecided(chip.answers[|old(chip.answers)|..], r, true, enable, ret, r')
    ensures ret.None? ==>
              var m := chip.answers[|old(chip.answers)|..];
              && r'.restored && Measured(m) && Clocked(m, r, enable, r')
              && (wide <==> TwoLanes(m, r.width, enable))
    ensures r'.width == r.width && r'.height == r.height && r'.htotal == r.htotal && r'.vtotal == r.vtotal
    ensures r'.complete == r.complete
    ensures ret == Some(EIO) ==> Mismatched(chip.answers, chip.log)
  {
    hide Mismatched, Careful, Tracks, BankOf, Put, Get, Byte, ClockLimit, Measured, Total, Fastest, ClockFits, PixelKhz,
         OutputDecided, TwoLanes, LatchSet;
    wide := false;
    ghost var was := chip.answers;
    var sum;
    ret, r', sum := ReadClock(chip, r, base);
    ghost var m := chip.answers[|was|..];
    if ret.Some? {
      BusDecided(m, r, enable, ret, r');
      return;
    }
    var ref := r'.referenceHalfKhz;
    if sum == 0 || ref < 14000 || ref > 24000 {
      NoClock(m, r.width, r.height, enable);
      RangeDecided(m, r, enable, Some(ERANGE), r');
      return Some(ERANGE), r', wide;
    }
    r' := r'.(pixelMaxKhz := PixelKhz(ref + 99, sum));
    ClockDecided(m, r', ref, extended, enable);
    if PixelKhz(ref, sum) < 70000 || r'.pixelMaxKhz > ClockLimit(r', extended) {
      RangeDecided(m, r, enable, Some(ERANGE), r');
      return Some(ERANGE), r', wide;
    }
    wide := extended != 0 && (r'.width > 1920 || r'.pixelMaxKhz > 150000);
    LanesAre(m, r.width, extended, enable, r'.pixelMaxKhz, wide);
    r' := r'.(phase := 6);
    RangeDecided(m, r, enable, None, r');
  }

  /** The measurement fits, and the report holds its clock. */
  ghost predicate Clocked(m: seq<(nat, bv8)>, r: Report, enable: nat, r': Report) {
    && |m| >= 35 && Total(m) > 0 && ClockFits(m, r.width, r.height, enable)
    && r'.referenceHalfKhz == 100 * (m[2].1 as nat) && r'.pixelMaxKhz == Fastest(m)
  }

  /** rv_output: the gates, the clock measurement, and the output table for one lane or two. */
  method Output(chip: Chip, r: Report, extended: nat, accepted: bool, single: seq<Op>, dual: seq<Op>, journal: Journal,
                ghost base: seq<Write>, ghost enable: nat)
    returns (ret: Option<Error>, r': Report)
    requires Tracks(chip.regs, chip.log, r.track, base) && r.track.verified && r.track.bank == 0
    requires Careful(base, chip.log, false) && !r.restored
    requires extended == if enable == 3 then 2 else if enable == 2 then 1 else 0
    modifies chip, journal
    ensures Tracks(chip.regs, chip.log, r'.track, base) && (r'.phase == 5 || r'.phase == 6)
    ensures r'.phase == 5 ==> Careful(base, chip.log, true)
    ensures ret == Some(ERANGE) ==> LatchSet(chip.log)
    ensures ret == Some(ERANGE) ==>
              r'.phase == 5 && r'.track.verified && r'.track.bank == 0 && r'.restored && r'.clockSamples == 5
    ensures ret != Some(EAGAIN) && ret != Some(ENOLINK) && r'.complete == r.complete
    ensures r'.width == r.width && r'.height == r.height && r'.htotal == r.htotal && r'.vtotal == r.vtotal
    ensures old(chip.answers) <= chip.answers && chip.faults == old(chip.faults) + if ret == Some(EBUS) then 1 else 0
    ensures OutputDecided(chip.answers[|old(chip.answers)|..], r, accepted, enable, ret, r')
    ensures (ret.None? ==> accepted && r'.phase == 6 && r'.enabled) && (r'.phase == 6 ==> r'.restored)
    ensures ret.None? ==>
              Ran(chip.answers[|old(chip.answers)|..], r.width, enable, single, dual, base, chip.log)
    ensures journal.events == if ret.None? then old(journal.events) + [ReceiverUp] else old(journal.events)
    ensures ret == Some(EIO) ==> Mismatched(chip.answers, chip.log)
  {
    hide Mismatched, Careful, Tracks, BankOf, Put, Get, TableDone, Measured, OutputDecided, TwoLanes, LatchSet,
         Clocked, Ran;
    CarefulWeakens(base, chip.log);
    r' := r.(phase := 5);
    ghost var was, start := chip.answers, r';
    if !accepted {
      FormatDecided(r, enable, r');
      assert chip.answers[|was|..] == [];
      return Some(EOPNOTSUPP), r';
    }
    var wide;
    ret, r', wide := GateClock(chip, r', extended, base, enable);
    SameSize(chip.answers[|was|..], start, r, enable, ret, r');
    if ret.Some? {
      return;
    }
    TracksBase(chip.regs, chip.log, r'.track, base);
    ghost var mid := chip.answers;
    var t;
    var program := if wide then dual else single;
    ret, t := Program(chip, r'.track, program, journal, base);
    ghost var known := r';
    r' := r'.(track := t, enabled := ret.None?);
    MeasuredLasts(was, mid, chip.answers, r, enable, known, r');
    ClockedDecided(chip.answers[|was|..], r, enable, ret, r');
    if ret.None? {
      RanIs(chip.answers[|was|..], r, enable, r', wide, single, dual, base, chip.log);
    }
  }

  /** The table that was run: for two lanes or one. */
  ghost predicate Ran(m: seq<(nat, bv8)>, width: nat, enable: nat, single: seq<Op>, dual: seq<Op>, base: seq<Write>,
                      log: seq<Write>) {
    && |m| >= 35 && Total(m) > 0
    && var program := if TwoLanes(m, width, enable) then dual else single;
      TableDone(program, log) && |log| >= |base| + |program|
  }

  lemma RanIs(m: seq<(nat, bv8)>, r: Report, enable: nat, r': Report, wide: bool, single: seq<Op>, dual: seq<Op>,
              base: seq<Write>, log: seq<Write>)
    requires Clocked(m, r, enable, r') && (wide <==> TwoLanes(m, r.width, enable))
    requires var program := if wide then dual else single; TableDone(program, log) && |log| >= |base| + |program|
    ensures Ran(m, r.width, enable, single, dual, base, log)
  {
    hide TableDone, TwoLanes, Total, Fastest, ClockFits;
  }

  lemma SameSize(m: seq<(nat, bv8)>, start: Report, r: Report, enable: nat, ret: Option<Error>, r': Report)
    requires start.width == r.width && start.height == r.height
    ensures OutputDecided(m, start, true, enable, ret, r') <==> OutputDecided(m, r, true, enable, ret, r')
    ensures Clocked(m, start, enable, r') <==> Clocked(m, r, enable, r')
  {
    hide Measured, Total, Fastest, ClockFits;
  }

  lemma ClockedDecided(m: seq<(nat, bv8)>, r: Report, enable: nat, ret: Option<Error>, r': Report)
    requires Clocked(m, r, enable, r') && Measured(m) && r'.restored && r'.phase == 6
    requires ret.None? || ret == Some(EBUS) || ret == Some(EIO)
    ensures OutputDecided(m, r, true, enable, ret, r')
  {
    hide Measured, Total, Fastest, ClockFits;
  }

  lemma FormatDecided(r: Report, enable: nat, r': Report)
    requires r'.phase == 5 && !r'.restored
    ensures OutputDecided([], r, false, enable, Some(EOPNOTSUPP), r')
  {
  }

  lemma BusDecided(m: seq<(nat, bv8)>, r: Report, enable: nat, ret: Option<Error>, r': Report)
    requires r'.phase == 5 && !r'.restored && (ret == Some(EBUS) || ret == Some(EIO))
    ensures OutputDecided(m, r, true, enable, ret, r')
  {
  }

  lemma RangeDecided(m: seq<(nat, bv8)>, r: Report, enable: nat, ret: Option<Error>, r': Report)
    requires r'.restored && |m| >= 35 && Measured(m) && r'.referenceHalfKhz == 100 * (m[2].1 as nat)
    requires if ClockFits(m, r.width, r.height, enable)
             then r'.phase == 6 && (ret.None? || ret == Some(EBUS) || ret == Some(EIO)) && r'.pixelMaxKhz == Fastest(m)
             else r'.phase == 5 && ret == Some(ERANGE)
    ensures OutputDecided(m, r, true, enable, ret, r')
  {
    hide Measured, Total, Fastest;
  }

  lemma LanesAre(m: seq<(nat, bv8)>, width: nat, extended: nat, enable: nat, pixel: nat, wide: bool)
    requires |m| >= 35 && Total(m) > 0 && pixel == Fastest(m)
    requires extended == if enable == 3 then 2 else if enable == 2 then 1 else 0
    requires wide <==> extended != 0 && (width > 1920 || pixel > 150000)
    ensures wide <==> TwoLanes(m, width, enable)
  {
    hide Total, Fastest;
  }

  lemma NoClock(m: seq<(nat, bv8)>, width: nat, height: nat, enable: nat)
    requires |m| >= 35 && (Total(m) == 0 || !(14000 <= 100 * (m[2].1 as nat) <= 24000))
    ensures !ClockFits(m, width, height, enable)
  {
  }

  /** The newest writes are the table's, in its order. */
  ghost predicate TableDone(program: seq<Op>, log: seq<Write>) {
    && |program| <= |log|
    && forall i: nat :: i < |program| ==> Sets(program[i], log[|log| - |program| + i])
  }

  lemma NoTable(program: seq<Op>, log: seq<Write>)
    ensures TableDone(program[..0], log)
  {
  }

  lemma TableNext(program: seq<Op>, i: nat, log: seq<Write>, w: Write)
    requires i < |program| && TableDone(program[..i], log) && Sets(program[i], w)
    ensures TableDone(program[..i + 1], log + [w])
  {
    hide Sets;
    var before, after := program[..i], program[..i + 1];
    forall k: nat | k < i + 1 ensures Sets(after[k], (log + [w])[|log| + 1 - (i + 1) + k]) {
      if k < i {
        assert after[k] == before[k] && Sets(before[k], log[|log| - i + k]);
      }
    }
  }

  /** The output table; its completion is what the journal records. */
  method Program(chip: Chip, t: Tracker, program: seq<Op>, journal: Journal, ghost base: seq<Write>)
    returns (ret: Option<Error>, t': Tracker)
    requires Tracks(chip.regs, chip.log, t, base)
    modifies chip, journal
    ensures journal.events == if ret.None? then old(journal.events) + [ReceiverUp] else old(journal.events)
    ensures ret.None? ==> TableDone(program, chip.log) && |chip.log| == |old(chip.log)| + |program|
    ensures Tracks(chip.regs, chip.log, t', base)
    ensures old(chip.answers) <= chip.answers && chip.faults == old(chip.faults) + if ret == Some(EBUS) then 1 else 0
    ensures ret.Some? ==> ret == Some(EBUS) || ret == Some(EIO)
    ensures ret == Some(EIO) ==> Mismatched(chip.answers, chip.log)
  {
    hide Mismatched, Careful, Tracks, BankOf, Put, Get, Sets, TableDone;
    var i := 0;
    ret, t' := None, t;
    NoTable(program, chip.log);
    while i < |program|
      modifies chip
      invariant i <= |program| && Tracks(chip.regs, chip.log, t', base) && ret.None?
      invariant TableDone(program[..i], chip.log) && |chip.log| == |old(chip.log)| + i
      invariant old(chip.answers) <= chip.answers && chip.faults == old(chip.faults)
    {
      ghost var log := chip.log;
      ret, t' := MaskedWrite(chip, t', program[i], base);
      if ret.Some? {
        return;
      }
      assert chip.log == log + [chip.log[|chip.log| - 1]];
      TableNext(program, i, log, chip.log[|chip.log| - 1]);
      i := i + 1;
    }
    assert program[..|program|] == program;
    journal.events := journal.events + [ReceiverUp];
  }

  /** Reads of the given registers, with these values, at place i. */
  ghost predicate Holds(s: seq<(nat, bv8)>, i: nat, regs: seq<nat>, values: seq<bv8>) {
    && i + |values| <= |s| && |values| == |regs|
    && forall k: nat :: i <= k < i + |values| ==> s[k] == (regs[k - i], values[k - i])
  }

  lemma HoldsNow(was: seq<(nat, bv8)>, regs: seq<nat>, values: seq<bv8>)
    requires |regs| == |values|
    ensures Holds(was + Answered(regs, values), |was|, regs, values)
  {
  }

  lemma HoldsBehind(was: seq<(nat, bv8)>, s: seq<(nat, bv8)>, now: seq<(nat, bv8)>, i: nat, regs: seq<nat>,
                    values: seq<bv8>)
    requires Holds(s, i, regs, values) && s <= now && |was| <= i && was <= now
    ensures Holds(now[|was|..], i - |was|, regs, values)
  {
    assert forall k: nat :: i <= k < i + |values| ==> now[|was|..][k - |was|] == now[k] == s[k];
    assert forall k: nat :: i - |was| <= k < i - |was| + |values| ==> now[|was|..][k] == s[k + |was|];
  }

  /** The snapshot's answers, with the values the driver keeps of them. */
  ghost predicate Taken(s: seq<(nat, bv8)>, first: seq<bv8>, second: seq<bv8>, extra: seq<bv8>, avi: seq<bv8>,
                        output: seq<bv8>) {
    && |s| >= 60 && Confirms(s, 42, 2) && Confirms(s, 49, 1) && Confirms(s, 58, 0)
    && Holds(s, 0, Run(0x98, 19), first) && Holds(s, 19, Run(0x98, 19), second)
    && Holds(s, 38, [0x43, 0x48, 0x1b, 0xcf], extra) && Holds(s, 44, Run(0x15, 5), avi)
    && Holds(s, 51, Run(0xc0, 7), output)
  }

  lemma HoldsLasts(s: seq<(nat, bv8)>, now: seq<(nat, bv8)>, i: nat, regs: seq<nat>, values: seq<bv8>)
    requires Holds(s, i, regs, values) && s <= now
    ensures Holds(now, i, regs, values)
  {
  }

  lemma ConfirmsLasts(s: seq<(nat, bv8)>, now: seq<(nat, bv8)>, i: nat, bank: bv8)
    requires i + 2 <= |s| && Confirms(s, i, bank) && s <= now
    ensures Confirms(now, i, bank)
  {
  }

  /** Phase 2: the timing twice, and four registers more. */
  method ReadTiming(chip: Chip) returns (ret: Option<Error>, first: seq<bv8>, second: seq<bv8>, extra: seq<bv8>)
    modifies chip`seen, chip`answers, chip`faults
    ensures ret.Some? ==> ret == Some(EBUS) && |chip.answers| < |old(chip.answers)| + 42
    ensures old(chip.answers) <= chip.answers
    ensures ret.None? ==>
              && |chip.answers| == |old(chip.answers)| + 42 && Holds(chip.answers, |old(chip.answers)|, Run(0x98, 19), first)
              && Holds(chip.answers, |old(chip.answers)| + 19, Run(0x98, 19), second)
              && Holds(chip.answers, |old(chip.answers)| + 38, [0x43, 0x48, 0x1b, 0xcf], extra)
    ensures chip.faults == old(chip.faults) + if ret == Some(EBUS) then 1 else 0
  {
    hide Holds, Run, Answered;
    first, second, extra := [], [], [];
    ghost var was := chip.answers;
    ret, first := ReadRun(chip, 0x98, 19);
    if ret.Some? {
      return;
    }
    HoldsNow(was, Run(0x98, 19), first);
    ghost var a1 := chip.answers;
    ret, second := ReadRun(chip, 0x98, 19);
    if ret.Some? {
      return;
    }
    HoldsNow(a1, Run(0x98, 19), second);
    ghost var a2 := chip.answers;
    ret, extra := ReadList(chip, [0x43, 0x48, 0x1b, 0xcf]);
    if ret.Some? {
      return;
    }
    HoldsNow(a2, [0x43, 0x48, 0x1b, 0xcf], extra);
    HoldsLasts(a1, chip.answers, |was|, Run(0x98, 19), first);
    HoldsLasts(a2, chip.answers, |a1|, Run(0x98, 19), second);
  }

  /** Phase 3: the AVI information frame in bank 2, the output registers in bank 1. */
  method ReadBanks(chip: Chip, t: Tracker, ghost base: seq<Write>)
    returns (ret: Option<Error>, t': Tracker, avi: seq<bv8>, output: seq<bv8>)
    requires Tracks(chip.regs, chip.log, t, base) && Careful(base, chip.log, false)
    modifies chip
    ensures Tracks(chip.regs, chip.log, t', base) && Careful(base, chip.log, false)
    ensures ret.Some? ==> ret == Some(EBUS) || ret == Some(EIO)
    ensures old(chip.answers) <= chip.answers && |chip.answers| <= |old(chip.answers)| + 18
    ensures ret.None? <==>
              |chip.answers| == |old(chip.answers)| + 18 && Confirms(chip.answers, |old(chip.answers)| + 16, 0)
    ensures ret.None? ==>
              && t'.verified && t'.bank == 0 && Confirms(chip.answers, |old(chip.answers)|, 2)
              && Holds(chip.answers, |old(chip.answers)| + 2, Run(0x15, 5), avi)
              && Confirms(chip.answers, |old(chip.answers)| + 7, 1)
              && Holds(chip.answers, |old(chip.answers)| + 9, Run(0xc0, 7), output)
    ensures chip.faults == old(chip.faults) + if ret == Some(EBUS) then 1 else 0
    ensures ret == Some(EIO) ==> Mismatched(chip.answers, chip.log)
  {
    hide Mismatched, Careful, Tracks, BankOf, Put, Get, Confirms, Holds, Run, Answered;
    t', avi, output := t, [], [];
    ghost var was := chip.answers;
    ret, t' := SelectBank(chip, t', 2, base);
    if ret.Some? {
      return;
    }
    ghost var a1 := chip.answers;
    ret, avi := ReadRun(chip, 0x15, 5);
    if ret.Some? {
      return;
    }
    HoldsNow(a1, Run(0x15, 5), avi);
    ghost var a2 := chip.answers;
    ret, t' := SelectBank(chip, t', 1, base);
    if ret.Some? {
      return;
    }
    ghost var a3 := chip.answers;
    ret, output := ReadRun(chip, 0xc0, 7);
    if ret.Some? {
      return;
    }
    HoldsNow(a3, Run(0xc0, 7), output);
    ghost var a4 := chip.answers;
    ret, t' := SelectBank(chip, t', 0, base);
    if ret.Some? {
      return;
    }
    ConfirmsLasts(a1, chip.answers, |was|, 2);
    HoldsLasts(a2, chip.answers, |a1|, Run(0x15, 5), avi);
    ConfirmsLasts(a3, chip.answers, |a2|, 1);
    HoldsLasts(a4, chip.answers, |a3|, Run(0xc0, 7), output);
  }

  /** The snapshot of phases 2 and 3. */
  method Snapshot(chip: Chip, t: Tracker, ghost base: seq<Write>)
    returns (ret: Option<Error>, phase: nat, t': Tracker, first: seq<bv8>, second: seq<bv8>,
             extra: seq<bv8>, avi: seq<bv8>, output: seq<bv8>)
    requires Tracks(chip.regs, chip.log, t, base) && Careful(base, chip.log, false)
    modifies chip
    ensures Tracks(chip.regs, chip.log, t', base) && Careful(base, chip.log, false)
    ensures ret.Some? ==> (ret == Some(EBUS) || ret == Some(EIO)) && (phase == 2 || phase == 3)
    ensures old(chip.answers) <= chip.answers && |chip.answers| <= |old(chip.answers)| + 60
    ensures ret.None? ==> phase == 4 && t'.verified && t'.bank == 0
    ensures ret.None? ==> Taken(chip.answers[|old(chip.answers)|..], first, second, extra, avi, output)
    ensures ret.None? <==>
              |chip.answers| == |old(chip.answers)| + 60 && Confirms(chip.answers, |old(chip.answers)| + 58, 0)
    ensures chip.faults == old(chip.faults) + if ret == Some(EBUS) then 1 else 0
    ensures ret == Some(EIO) ==> Mismatched(chip.answers, chip.log)
  {
    hide Mismatched, Careful, Tracks, BankOf, Put, Get, Confirms, Taken, Holds, Run;
    phase, t', avi, output := 2, t, [], [];
    ghost var was := chip.answers;
    ret, first, second, extra := ReadTiming(chip);
    if ret.Some? {
      return;
    }
    phase := 3;
    ghost var timed := chip.answers;
    ret, t', avi, output := ReadBanks(chip, t', base);
    if ret.Some? {
      return;
    }
    TakenIs(was, timed, chip.answers, first, second, extra, avi, output);
    phase := 4;
  }

  lemma TakenIs(was: seq<(nat, bv8)>, timed: seq<(nat, bv8)>, now: seq<(nat, bv8)>,
                first: seq<bv8>, second: seq<bv8>, extra: seq<bv8>, avi: seq<bv8>, output: seq<bv8>)
    requires was <= timed <= now && |timed| == |was| + 42 && |now| == |timed| + 18
    requires Holds(timed, |was|, Run(0x98, 19), first) && Holds(timed, |was| + 19, Run(0x98, 19), second)
    requires Holds(timed, |was| + 38, [0x43, 0x48, 0x1b, 0xcf], extra) && Confirms(now, |timed|, 2)
    requires Holds(now, |timed| + 2, Run(0x15, 5), avi) && Confirms(now, |timed| + 7, 1)
    requires Holds(now, |timed| + 9, Run(0xc0, 7), output) && Confirms(now, |timed| + 16, 0)
    ensures Taken(now[|was|..], first, second, extra, avi, output)
  {
    hide Holds, Confirms, Run;
    HoldsBehind(was, timed, now, |was|, Run(0x98, 19), first);
    HoldsBehind(was, timed, now, |was| + 19, Run(0x98, 19), second);
    HoldsBehind(was, timed, now, |was| + 38, [0x43, 0x48, 0x1b, 0xcf], extra);
    ConfirmsBehind(was, now, now, |was| + 42, 2);
    HoldsBehind(was, now, now, |was| + 44, Run(0x15, 5), avi);
    ConfirmsBehind(was, now, now, |was| + 49, 1);
    HoldsBehind(was, now, now, |was| + 51, Run(0xc0, 7), output);
    ConfirmsBehind(was, now, now, |was| + 58, 0);
  }

  function Preflight(e: ReceiverInit.Error): Error {
    match e
    case EBUSY => EBUSY
    case ENODEV => ENODEV
    case EOPNOTSUPP => EOPNOTSUPP
    case _ => EBUS
  }

  /** The report's picture is the snapshot's. */
  ghost predicate Sized(s: seq<(nat, bv8)>, r: Report)
    requires |s| >= 60
  {
    r.width == Count(s, 5) && r.htotal == Count(s, 3) && r.height == Count(s, 12) && r.vtotal == Count(s, 10)
  }

  /** What an attempt decides, in the order of its phases, by what it read since it began:
      the link, the snapshot, the geometry, and with an output profile the format and the
      clock. */
  ghost predicate Decided(a: seq<(nat, bv8)>, enable: nat, ret: Option<Error>, r: Report) {
    && (ret == Some(ENOLINK) <==> |a| >= 23 && !LinkUp(a))
    && (r.phase >= 2 <==> |a| >= 23 && LinkUp(a))
    && (r.phase >= 4 <==> |a| >= 83 && Confirms(a, 81, 0))
    && (r.phase < 4 ==> ret.Some? && ret != Some(EAGAIN) && ret != Some(ERANGE))
    && (r.phase < 2 ==> (ret == Some(EOPNOTSUPP) <==> |a| == 1 && a[0].1 & 7 != 0))
    && (r.phase == 2 || r.phase == 3 ==> ret == Some(EBUS) || ret == Some(EIO))
    && (r.phase >= 4 ==> Judged(a[23..], enable, ret, r))
  }

  /** The decisions behind the snapshot s. */
  ghost predicate Judged(s: seq<(nat, bv8)>, enable: nat, ret: Option<Error>, r: Report) {
    && Snapped(s)
    && (ret == Some(EAGAIN) <==> !Steady(s))
    && (r.phase == 4 && ret == Some(ERANGE) <==> Steady(s) && !Shaped(s))
    && (r.phase == 4 && ret.None? <==> Steady(s) && Shaped(s) && enable == 0)
    && (r.phase == 4 ==> ret.None? || ret == Some(EAGAIN) || ret == Some(ERANGE))
    && (Steady(s) ==> Sized(s, r))
    && (r.phase >= 5 ==>
          && (ret == Some(EOPNOTSUPP) <==> !Plain(s, enable))
          && (r.restored ==>
                && Plain(s, enable) && Measured(s[60..]) && r.referenceHalfKhz == 100 * (s[62].1 as nat)
                && (ret == Some(ERANGE) <==> !ClockFits(s[60..], Count(s, 5), Count(s, 12), enable)))
          && (r.phase == 6 <==>
                r.restored && Measured(s[60..]) && ClockFits(s[60..], Count(s, 5), Count(s, 12), enable))
          && (r.phase == 5 && !r.restored && Plain(s, enable) ==> ret == Some(EBUS) || ret == Some(EIO)))
  }

  lemma JudgedEarly(s: seq<(nat, bv8)>, enable: nat, ret: Option<Error>, r: Report)
    requires Snapped(s) && r.phase == 4
    requires || (ret == Some(EAGAIN) && !Steady(s))
             || (ret == Some(ERANGE) && Steady(s) && !Shaped(s) && Sized(s, r))
             || (ret.None? && Steady(s) && Shaped(s) && Sized(s, r) && enable == 0)
    ensures Judged(s, enable, ret, r)
  {
    hide Snapped, Steady, Shaped, Count;
  }

  lemma JudgedIs(was: seq<(nat, bv8)>, mid: seq<(nat, bv8)>, now: seq<(nat, bv8)>, known: Report, accepted: bool,
                 enable: nat, ret: Option<Error>, r: Report)
    requires was <= mid <= now && |mid| == |was| + 60 && enable != 0
    requires var s := mid[|was|..]; Snapped(s) && Steady(s) && Shaped(s) && Sized(s, known) && (accepted <==> Plain(s, enable))
    requires OutputDecided(now[|mid|..], known, accepted, enable, ret, r) && 5 <= r.phase <= 6
    requires ret != Some(EAGAIN) && r.width == known.width && r.height == known.height
    requires r.htotal == known.htotal && r.vtotal == known.vtotal && (r.phase == 6 ==> r.restored)
    ensures Judged(now[|was|..], enable, ret, r) && Judged(now[|was|..], enable, ret, r.(complete := true))
    ensures now[|was|..][60..] == now[|mid|..] && Count(now[|was|..], 5) == known.width
  {
    hide Snapped, Steady, Shaped, Count, Plain, Measured, Total, Fastest, ClockFits;
    var s := now[|was|..];
    assert mid[|was|..] <= s;
    ShapeLasts(mid[|was|..], s, enable);
    assert s[60..] == now[|mid|..];
    if r.restored {
      MeasuredLong(now[|mid|..]);
      assert s[62] == now[|mid|..][2];
    }
  }

  lemma MeasuredLong(m: seq<(nat, bv8)>)
    requires Measured(m)
    ensures |m| >= 35
  {
  }

  lemma DecidedIs(was: seq<(nat, bv8)>, status: seq<(nat, bv8)>, now: seq<(nat, bv8)>, enable: nat,
                  ret: Option<Error>, r: Report)
    requires was <= status <= now && |status| == |was| + 23 && LinkUp(status[|was|..]) && 2 <= r.phase
    requires r.phase >= 4 <==> |now| >= |status| + 60 && Confirms(now, |status| + 58, 0)
    requires r.phase < 4 ==> ret == Some(EBUS) || ret == Some(EIO)
    requires r.phase >= 4 ==> Judged(now[|status|..], enable, ret, r)
    requires ret != Some(ENOLINK)
    ensures Decided(now[|was|..], enable, ret, r)
  {
    hide Judged, Confirms;
    var a := now[|was|..];
    assert status[|was|..] <= a;
    assert forall i: nat :: i < 23 ==> a[i] == status[|was|..][i];
    assert a[23..] == now[|status|..];
    if |now| >= |status| + 60 {
      ConfirmsAt(was, now, |was| + 81, 0);
    }
  }

  lemma ConfirmsAt(was: seq<(nat, bv8)>, now: seq<(nat, bv8)>, i: nat, bank: bv8)
    requires was <= now && |was| <= i && i + 2 <= |now|
    ensures Confirms(now[|was|..], i - |was|, bank) <==> Confirms(now, i, bank)
  {
  }

  lemma LinkIs(was: seq<(nat, bv8)>, now: seq<(nat, bv8)>, select: bv8, values: seq<bv8>)
    requires was <= now && ReceiverInit.StatusAnswers(now[|was|..], select, values)
    ensures LinkUp(now[|was|..]) <==> !(values[0] & 0x11 != 0x11 || values[2] & 0x80 == 0)
  {
    var a := now[|was|..];
    assert a[5 + 0] == (0x13, values[0]) && a[5 + 2] == (0x19, values[2]);
    SyncBit(values[2]);
  }

  lemma SyncBit(v: bv8)
    ensures v & 0x80 == 0x80 <==> v & 0x80 != 0
  {
  }

  lemma BankTracked(regs: Regs, base: seq<Write>)
    requires BankOf(regs) == 0
    ensures Tracks(regs, base, Tracker(0, true, 0), base)
  {
  }

  lemma ShapedIs(s: seq<(nat, bv8)>, r: Report)
    requires |s| >= 60 && Sized(s, r)
    ensures Shaped(s) <==> !(r.width == 0 || r.height == 0 || r.width >= r.htotal || r.height >= r.vtotal)
  {
  }

  lemma FormatIs(s: seq<(nat, bv8)>, r: Report, second: seq<bv8>, extra: seq<bv8>, avi: seq<bv8>, output: seq<bv8>,
                 extended: nat, enable: nat)
    requires |s| >= 60 && |second| == 19 && |extra| == 4 && |avi| == 5 && |output| == 7
    requires s[19].1 == second[0] && s[41].1 == extra[3] && s[44].1 == avi[0] && s[51].1 == output[0]
    requires r.width == Count(s, 5) && r.height == Count(s, 12)
    requires extended == if enable == 3 then 2 else if enable == 2 then 1 else 0
    ensures FormatAccepted(r, extended, second[0], avi[0], extra[3], output[0]) <==> Plain(s, enable)
  {
    hide Count;
  }

  lemma RunHolds(s: seq<(nat, bv8)>, i: nat, first: nat, count: nat, values: seq<bv8>)
    requires Holds(s, i, Run(first, count), values)
    ensures i + count <= |s| && |values| == count
    ensures forall k: nat :: i <= k < i + count ==> s[k] == (first + (k - i), values[k - i])
  {
  }

  lemma TakenSnapped(s: seq<(nat, bv8)>, first: seq<bv8>, second: seq<bv8>, extra: seq<bv8>, avi: seq<bv8>,
                     output: seq<bv8>)
    requires Taken(s, first, second, extra, avi, output)
    ensures Snapped(s)
  {
    hide Confirms, Holds, Run;
    RunHolds(s, 0, 0x98, 19, first);
    RunHolds(s, 19, 0x98, 19, second);
    RunHolds(s, 44, 0x15, 5, avi);
    RunHolds(s, 51, 0xc0, 7, output);
    ExtraHolds(s, extra);
  }

  lemma ExtraHolds(s: seq<(nat, bv8)>, extra: seq<bv8>)
    requires Holds(s, 38, [0x43, 0x48, 0x1b, 0xcf], extra)
    ensures |s| >= 42 && |extra| == 4 && s[38].0 == 0x43 && s[39].0 == 0x48 && s[40].0 == 0x1b && s[41] == (0xcf, extra[3])
  {
  }

  lemma TakenSteady(s: seq<(nat, bv8)>, first: seq<bv8>, second: seq<bv8>)
    requires |s| >= 60 && |first| == 19 && |second| == 19
    requires forall k: nat :: k < 19 ==> s[k].1 == first[k]
    requires forall k: nat :: 19 <= k < 38 ==> s[k].1 == second[k - 19]
    ensures Steady(s) <==> first[3..] == second[3..]
  {
    if first[3..] == second[3..] {
      assert forall k: nat :: 3 <= k < 19 ==> first[3..][k - 3] == first[k] && second[3..][k - 3] == second[k];
    }
    if Steady(s) {
      forall k: nat | k < 16 ensures first[3..][k] == second[3..][k] {
        assert s[3 + k].1 == s[19 + (3 + k)].1;
      }
    }
  }

  /** The snapshot read by position. */
  lemma TakenReads(s: seq<(nat, bv8)>, first: seq<bv8>, second: seq<bv8>, extra: seq<bv8>, avi: seq<bv8>, output: seq<bv8>)
    requires Taken(s, first, second, extra, avi, output)
    ensures Snapped(s) && |first| == 19 && |second| == 19 && |extra| == 4 && |avi| == 5 && |output| == 7
    ensures Steady(s) <==> first[3..] == second[3..]
    ensures s[19].1 == second[0] && s[41].1 == extra[3] && s[44].1 == avi[0] && s[51].1 == output[0]
    ensures Count(s, 3) == Word(second[3], second[4], 63) && Count(s, 5) == Word(second[5], second[6], 63)
    ensures Count(s, 10) == Word(second[10], second[11], 63) && Count(s, 12) == Word(second[12], second[13], 63)
  {
    hide Confirms, Holds, Run, Snapped, Steady;
    TakenSnapped(s, first, second, extra, avi, output);
    RunHolds(s, 0, 0x98, 19, first);
    RunHolds(s, 19, 0x98, 19, second);
    RunHolds(s, 44, 0x15, 5, avi);
    RunHolds(s, 51, 0xc0, 7, output);
    ExtraHolds(s, extra);
    TakenSteady(s, first, second);
  }

  /** Only the first sixty answers count. */
  lemma ShapeLasts(s: seq<(nat, bv8)>, more: seq<(nat, bv8)>, enable: nat)
    requires |s| == 60 && s <= more
    ensures (Snapped(more) <==> Snapped(s)) && (Steady(more) <==> Steady(s)) && (Shaped(more) <==> Shaped(s))
    ensures Plain(more, enable) <==> Plain(s, enable)
    ensures forall k: nat :: k < 18 ==> Count(more, k) == Count(s, k)
  {
    hide Snapped, Steady, Shaped, Plain, Count, Confirms;
    SnappedLasts(s, more);
    forall k: nat | k < 18 ensures Count(more, k) == Count(s, k) {
      CountLasts(s, more, k);
    }
    PlainLasts(s, more, enable);
  }

  lemma SnappedLasts(s: seq<(nat, bv8)>, more: seq<(nat, bv8)>)
    requires |s| == 60 && s <= more
    ensures (Snapped(more) <==> Snapped(s)) && (Steady(more) <==> Steady(s))
  {
    assert forall i: nat :: i < 60 ==> more[i] == s[i];
  }

  lemma CountLasts(s: seq<(nat, bv8)>, more: seq<(nat, bv8)>, k: nat)
    requires |s| == 60 && s <= more && k < 18
    ensures Count(more, k) == Count(s, k)
  {
    assert more[19 + k] == s[19 + k] && more[20 + k] == s[20 + k];
  }

  lemma PlainLasts(s: seq<(nat, bv8)>, more: seq<(nat, bv8)>, enable: nat)
    requires |s| == 60 && s <= more && forall k: nat :: k < 18 ==> Count(more, k) == Count(s, k)
    ensures (Plain(more, enable) <==> Plain(s, enable)) && (Shaped(more) <==> Shaped(s))
  {
    hide Count;
    assert more[19] == s[19] && more[41] == s[41] && more[44] == s[44] && more[51] == s[51];
  }

  /** Phases 2 to 6, once the link is up. */
  method Picture(chip: Chip, enable: nat, single: seq<Op>, dual: seq<Op>, journal: Journal, ghost base: seq<Write>)
    returns (ret: Option<Error>, r: Report)
    requires base == chip.log && BankOf(chip.regs) == 0
    modifies chip, journal
    ensures old(chip.answers) <= chip.answers && chip.faults == old(chip.faults) + if ret == Some(EBUS) then 1 else 0
    ensures 2 <= r.phase <= 6 && (ret.None? <==> r.complete)
    ensures r.phase < 4 ==> ret == Some(EBUS) || ret == Some(EIO)
    ensures r.phase >= 4 <==>
              |chip.answers| >= |old(chip.answers)| + 60 && Confirms(chip.answers, |old(chip.answers)| + 58, 0)
    ensures r.phase >= 4 ==> Judged(chip.answers[|old(chip.answers)|..], enable, ret, r)
    ensures ret.None? && enable != 0 ==>
              && r.enabled && |chip.answers| >= |old(chip.answers)| + 60
              && Ran(chip.answers[|old(chip.answers)| + 60..], r.width, enable, single, dual, base, chip.log)
    ensures journal.events ==
              if ret.None? && enable != 0 then old(journal.events) + [ReceiverUp] else old(journal.events)
    ensures r.phase < 6 ==> Careful(base, chip.log, r.phase == 5)
    ensures ret == Some(ERANGE) && r.phase == 5 ==>
              LatchSet(chip.log) && r.restored && r.clockSamples == 5
    ensures ret == Some(ERANGE) || ret == Some(EAGAIN) ==> 4 <= r.phase <= 5 && r.track.verified && r.track.bank == 0
    ensures ret == Some(EAGAIN) ==> r.phase == 4
    ensures ret != Some(ENOLINK) && Tracks(chip.regs, chip.log, r.track, base)
    ensures ret == Some(EIO) ==> Mismatched(chip.answers, chip.log)
  {
    hide Mismatched, Careful, FormatAccepted, Word, Tracks, Put, TableDone, Confirms, Taken, Snapped, Steady, Shaped,
         Plain, Count,
         OutputDecided, Judged, Ran, TwoLanes, Get;
    CarefulStart(base);
    BankTracked(chip.regs, base);
    r := EMPTY;
    ghost var was := chip.answers;
    var phase, t, first, second, extra, avi, output;
    ret, phase, t, first, second, extra, avi, output := Snapshot(chip, Tracker(0, true, 0), base);
    r := r.(phase := phase, track := t);
    if ret.Some? {
      return;
    }
    ghost var s := chip.answers[|was|..];
    TakenReads(s, first, second, extra, avi, output);
    if first[3..] != second[3..] {
      JudgedEarly(s, enable, Some(EAGAIN), r);
      return Some(EAGAIN), r;
    }
    r := r.(htotal := Word(second[3], second[4], 63), width := Word(second[5], second[6], 63),
            vtotal := Word(second[10], second[11], 63), height := Word(second[12], second[13], 63));
    ShapedIs(s, r);
    if r.width == 0 || r.height == 0 || r.width >= r.htotal || r.height >= r.vtotal {
      JudgedEarly(s, enable, Some(ERANGE), r);
      return Some(ERANGE), r;
    }
    if enable != 0 {
      var extended := if enable == 3 then 2 else if enable == 2 then 1 else 0;
      var accepted := FormatAccepted(r, extended, second[0], avi[0], extra[3], output[0]);
      FormatIs(s, r, second, extra, avi, output, extended, enable);
      ghost var mid, known := chip.answers, r;
      ret, r := Output(chip, r, extended, accepted, single, dual, journal, base, enable);
      JudgedIs(was, mid, chip.answers, known, accepted, enable, ret, r);
      ConfirmsLasts(mid, chip.answers, |was| + 58, 0);
      if ret.Some? {
        return;
      }
      return None, r.(complete := true);
    }
    r := r.(complete := true);
    JudgedEarly(s, enable, None, r);
    return None, r;
  }

  /** gc573_receiver_video.  Before the output table, an attempt writes nothing but bank
      selections and the clock latch; what it decides follows from what it read; a failure
      is retryable exactly when it is a lost link, a source that changed or has no valid
      geometry, or a pixel clock out of range against a credible reference, and the chip is
      then back in bank 0. */
  method Video(chip: Chip, enable: nat, single: seq<Op>, dual: seq<Op>, journal: Journal)
    returns (ret: Option<Error>, r: Report)
    modifies chip, journal
    ensures old(chip.answers) <= chip.answers && chip.faults == old(chip.faults) + if ret == Some(EBUS) then 1 else 0
    ensures Decided(chip.answers[|old(chip.answers)|..], enable, ret, r)
    ensures journal.events ==
              if ret.None? && enable != 0 then old(journal.events) + [ReceiverUp] else old(journal.events)
    ensures ret.None? && enable != 0 ==>
              && r.enabled && |chip.answers| >= |old(chip.answers)| + 83
              && Ran(chip.answers[|old(chip.answers)| + 83..], r.width, enable, single, dual, old(chip.log), chip.log)
    ensures r.phase <= 6 && (ret.None? <==> r.complete)
    ensures r.phase < 6 ==> Careful(old(chip.log), chip.log, r.phase == 5)
    ensures Retryable(r, ret) <==>
              || ret == Some(ENOLINK) || ret == Some(EAGAIN)
              || (ret == Some(ERANGE) && (r.phase == 4 || 14000 <= r.referenceHalfKhz <= 24000))
    ensures Retryable(r, ret) ==> r.phase < 6 && BankOf(chip.regs) == 0 && (r.phase == 5 ==> LatchSet(chip.log))
    ensures Tracks(chip.regs, chip.log, r.track, old(chip.log))
    ensures ret == Some(EIO) ==> Mismatched(chip.answers, chip.log)
  {
    hide Mismatched, Careful, Tracks, Put, Ran, Judged, LinkUp, Confirms;
    ghost var base, was := chip.log, chip.answers;
    CarefulStart(base);
    TracksStart(chip.regs, base);
    r := EMPTY.(phase := 1);
    var failed, select, values := ReceiverInit.Status(chip);
    if failed.Some? {
      return Some(Preflight(failed.value)), r;
    }
    ghost var status := chip.answers;
    LinkIs(was, status, select, values);
    if values[0] & 0x11 != 0x11 || values[2] & 0x80 == 0 {
      return Some(ENOLINK), r;
    }
    SelectObserved(chip.regs, base, r.track, base);
    ret, r := Picture(chip, enable, single, dual, journal, base);
    DecidedIs(was, status, chip.answers, enable, ret, r);
    if r.track.verified {
      TrackedBank(chip.regs, chip.log, r.track, base);
    }
  }

  /** The receiver as the card keeps it: the latest report, and how the attempts ended. */
  class Receiver {
    const chip: Chip
    const single: seq<Op>     // the output table for one lane, and for two
    const dual: seq<Op>
    const journal: Journal
    var report: Report
    ghost var outcomes: seq<Option<Error>>

    constructor (chip: Chip, single: seq<Op>, dual: seq<Op>, journal: Journal)
      ensures this.chip == chip && this.single == single && this.dual == dual && this.journal == journal
      ensures report == EMPTY && outcomes == []
    {
      this.chip, this.single, this.dual, this.journal, report, outcomes := chip, single, dual, journal, EMPTY, [];
    }

    method Attempt(enable: nat) returns (ret: Option<Error>)
      requires enable != 0
      modifies this`report, this`outcomes, chip, journal
      ensures outcomes == old(outcomes) + [ret] && (ret.None? <==> report.complete)
      ensures journal.events == if ret.None? then old(journal.events) + [ReceiverUp] else old(journal.events)
      ensures old(chip.answers) <= chip.answers && Decided(chip.answers[|old(chip.answers)|..], enable, ret, report)
      ensures ret.None? ==>
                && report.enabled && |chip.answers| >= |old(chip.answers)| + 83
                && Ran(chip.answers[|old(chip.answers)| + 83..], report.width, enable, single, dual, old(chip.log), chip.log)
      ensures Retryable(report, ret) <==>
                || ret == Some(ENOLINK) || ret == Some(EAGAIN)
                || (ret == Some(ERANGE) && (report.phase == 4 || 14000 <= report.referenceHalfKhz <= 24000))
      ensures Retryable(report, ret) ==> report.phase < 6 && BankOf(chip.regs) == 0
      ensures Tracks(chip.regs, chip.log, report.track, old(chip.log))
    {
      hide Ran, Tracks, Retryable, Careful, Decided;
      ret, report := Video(chip, enable, single, dual, journal);
      outcomes := outcomes + [ret];
    }
  }

  lemma TracksBase(regs: Regs, log: seq<Write>, t: Tracker, base: seq<Write>)
    requires Tracks(regs, log, t, base)
    ensures |base| <= |log|
  {
  }

  lemma TracksStart(regs: Regs, base: seq<Write>)
    ensures Tracks(regs, base, Tracker(0, false, 0), base)
  {
  }
}
