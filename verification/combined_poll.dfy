/** When capture may run (gc573_combined_poll in driver/gc573_pci.c): the supervisor brings
    up the internal transmitter, then the receiver, then opens the gate, and shuts it when
    the source or the external display changes.

    What happened, and in which order, is read off the journal: the transmitters and the
    receiver enter their own set-ups there, the supervisor only its resets and the opening.
 */
module CombinedPoll {

  import opened Bytes
  import opened Events
  import LinkResume
  import PassthroughPoll
  import ReceiverVideo

  datatype Failure = External | Transmitter | Receiver | Packing

  /** What a poll of the external display left behind. */
  datatype Display = Display(failed: bool, stable: bool, rejected: bool, changes: nat)

  /** The FPGA registers as one poll reads them; `modeBack` and `packingBack` are the
      read-backs behind a change of packing. */
  datatype Fpga = Fpga(running: bool, queued: bool, mode: nat, packing: nat, locked: bool,
                       periods: nat, lines: nat, period: nat, modeBack: nat, packingBack: nat)

  /** What a supervisor has behind it when the gate is open. */
  const ORDER := [InternalUp, ReceiverUp, Opened]

  /** The input counter counts interface clock periods; packing carries several pixels in
      one. */
  function InputPixels(periods: nat, packing: nat): nat {
    if packing > 3 || periods > 4096 then 0
    else periods * (if packing % 2 == 1 then 2 else 1) * (if packing / 2 % 2 == 1 then 2 else 1)
  }

  /** gc573_input_period_supported: 23 to 121 Hz of a 100 MHz clock, and with the
      experimental profile 143 to 145 Hz of 2560x1440. */
  predicate PeriodSupported(width: nat, height: nat, period: nat, experimental: bool) {
    || (100000000 / 121 <= period <= 100000000 / 23)
    || (experimental && width == 2560 && height == 1440 && 100000000 / 145 <= period <= 100000000 / 143)
  }

  /** A failed receiver attempt that is observed again: a retryable one, or a source format
      refused in bank 0 with the last transfer a completed read. */
  predicate MayRetry(r: ReceiverVideo.Report, error: Option<ReceiverVideo.Error>, lastReadDone: bool) {
    || ReceiverVideo.Retryable(r, error)
    || (error == Some(ReceiverVideo.EOPNOTSUPP) && r.phase == 5 && r.track.verified && r.track.bank == 0
        && lastReadDone)
  }

  // ------------------------------------------ what the supervisor answers for

  /** The receiver sends two pixels a clock. */
  ghost predicate TwoLanes(r: ReceiverVideo.Report) {
    r.width > 1920 || r.pixelMaxKhz > 150000
  }

  /** The FPGA's mode and packing are those of the lanes: bit 5 and the other mode bits. */
  ghost predicate Packed(mode: nat, packing: nat, was: nat, r: ReceiverVideo.Report) {
    && packing == (if TwoLanes(r) then 3 else 0)
    && mode / 64 == was / 64 && mode % 32 == was % 32 && mode / 32 % 2 == (if TwoLanes(r) then 1 else 0)
  }

  /** The FPGA sees the picture the receiver was programmed for; a period of its interface
      clock holds one, two or four pixels. */
  ghost predicate Matches(f: Fpga, r: ReceiverVideo.Report, packing: nat) {
    && f.locked && f.lines == r.height
    && r.width == if packing > 3 || f.periods > 4096 then 0 else f.periods * [1, 2, 2, 4][packing]
  }

  ghost predicate PeriodAllowed(period: nat, r: ReceiverVideo.Report, experimental: bool) {
    826446 <= period <= 4347826 || (experimental && r.width == 2560 && r.height == 1440 && 689655 <= period <= 699300)
  }

  /** Within a tenth of the period the gate was opened with. */
  ghost predicate PeriodHolds(was: nat, now: nat) {
    was * 9 / 10 <= now <= was * 11 / 10
  }

  /** An observation of the transmitter that failed, and not as a wait: the source or the
      display is not away, the link is not merely late, and the format was not refused. */
  ghost predicate TransmitterFails(ret: Option<LinkResume.Error>, looks: seq<LinkResume.Look>, looks': seq<LinkResume.Look>,
                                   answers: seq<LinkResume.Seen>, answers': seq<LinkResume.Seen>,
                                   rate: LinkResume.Rate, limit: LinkResume.Sink)
  {
    && ret.Some? && ret != Some(LinkResume.EAGAIN) && !LinkResume.Away(looks, looks')
    && !LinkResume.Later(answers, answers', 1, ret) && !LinkResume.Odder(answers, answers', rate, Some(limit), ret)
  }

  /** An attempt of the receiver that failed, and is not observed again: not a lost link, a
      changing source, an empty picture or a clock out of range against a credible reference,
      nor a format refused before anything was programmed. */
  ghost predicate ReceiverFails(r: ReceiverVideo.Report, ret: Option<ReceiverVideo.Error>, lastReadDone: bool) {
    && ret.Some? && ret != Some(ReceiverVideo.ENOLINK) && ret != Some(ReceiverVideo.EAGAIN)
    && !(ret == Some(ReceiverVideo.ERANGE) && (r.phase == 4 || 14000 <= r.referenceHalfKhz <= 24000))
    && !(ret == Some(ReceiverVideo.EOPNOTSUPP) && r.phase == 5 && r.track.verified && r.track.bank == 0 && lastReadDone)
  }

  /** One more entry. */
  ghost predicate OneMore<T(!new)>(before: seq<T>, after: seq<T>) {
    |after| == |before| + 1 && before <= after
  }

  class Card {
    const experimental: bool
    const tx: LinkResume.Transmitter
    const receiver: ReceiverVideo.Receiver
    const journal: Journal
    var phase: nat
    var changes: nat
    var period: nat
    var error: Option<Failure>
    var ready: bool

    constructor (experimental: bool, tx: LinkResume.Transmitter, receiver: ReceiverVideo.Receiver)
      requires tx.Valid() && tx.port == 1 && tx.journal.events == [] && receiver.journal == tx.journal
      ensures Valid() && !ready && this.tx == tx && journal == tx.journal && changes == 0
    {
      this.experimental, this.tx, this.receiver, this.journal := experimental, tx, receiver, tx.journal;
      phase, changes, period, error, ready := 0, 0, 0, None, false;
    }

    /** The receiver inside the card takes HDMI 2.0 up to 510 or 600 MHz. */
    ghost function Limit(): LinkResume.Sink {
      if experimental then LinkResume.Sink(600000, true) else LinkResume.Sink(510000, true)
    }

    /** The gate is open exactly in phase 3 without an error; the phase says how far the
        journal has come since the last reset; a followed display's changes are those
        counted up to that reset. */
    ghost predicate Valid()
      reads this, tx, receiver, journal
    {
      && tx.Valid() && tx.port == 1 && tx.journal == journal == receiver.journal && phase <= 3
      && (ready <==> phase == 3 && error.None?)
      && Inner(SinceReset(journal.events)) == ORDER[..phase]
      && (!experimental ==> changes == ExternalsBefore(journal.events))
      && (phase > 0 ==> tx.r.outputEnabled && LinkResume.RateAllowed(tx.r.rate.linkKhz, Some(Limit())))
      && (phase > 1 ==> receiver.report.enabled)
    }

    /** Shut the gate and start over, with the display's changes as they now are. */
    method Restart(now: nat)
      requires Valid() && (!experimental ==> now == Externals(journal.events))
      modifies this`ready, this`phase, this`changes, tx`r, journal
      ensures Valid() && !ready && phase == 0 && journal.events == old(journal.events) + [Reset]
      ensures changes == if experimental then old(changes) else now
    {
      hide LinkResume.RateAllowed, LinkResume.LinkWait, SinceReset, Externals, ExternalsBefore;
      ready, phase := false, 0;
      tx.Forget();
      if !experimental {
        changes := now;
      }
      NextEvent(journal.events, Reset);
      journal.events := journal.events + [Reset];
      NothingYet();
    }

    /** Phase 0: the internal transmitter is observed once.  Only a success moves the phase,
        and a failure that is no wait is latched. */
    method BringUpTransmitter()
      requires Valid() && phase == 0 && error.None?
      modifies this`phase, this`error, tx, journal
      ensures Valid() && (phase == 0 || phase == 1) && !ready
      ensures OneMore(old(tx.outcomes), tx.outcomes)
      ensures var ret := tx.outcomes[|old(tx.outcomes)|];
        && (phase == 1 <==> ret.None?)
        && error == if TransmitterFails(ret, old(tx.looks), tx.looks, old(tx.answers), tx.answers, tx.r.rate, Limit())
                    then Some(Transmitter) else None
      ensures phase == 1 ==>
                journal.events == old(journal.events) + [InternalUp] && tx.enables == old(tx.enables) + 1
      ensures phase == 0 ==> journal.events == old(journal.events)
    {
      hide LinkResume.RateAllowed, LinkResume.LastMeasured, LinkResume.SameSource, LinkResume.OtherSource,
           LinkResume.Away, LinkResume.Later, LinkResume.Odder, LinkResume.Ready, LinkResume.Resumed,
           LinkResume.Obstacle, LinkResume.RateOf, LinkResume.Down,
           SinceReset, Externals, ExternalsBefore, Inner;
      NextEvent(journal.events, InternalUp);
      NextEvent(SinceReset(journal.events), InternalUp);
      var ret := tx.Observe(LinkResume.Sink(if experimental then 600000 else 510000, true));
      if ret == Some(LinkResume.EAGAIN) || LinkResume.LinkWait(tx.r, ret) || LinkResume.FormatWait(tx.r, ret) {
        return;
      }
      if ret.Some? {
        error := Some(Transmitter);
        return;
      }
      phase := 1;
      assert ORDER[..1] == ORDER[..0] + [InternalUp];
    }

    /** Phase 1: one attempt of the receiver.  Only a success moves the phase, and a failure
        that may not be retried is latched. */
    method BringUpReceiver(lastReadDone: bool)
      requires Valid() && phase == 1 && error.None?
      modifies this`phase, this`error, receiver, receiver.chip, journal
      ensures Valid() && (phase == 1 || phase == 2) && !ready
      ensures OneMore(old(receiver.outcomes), receiver.outcomes)
      ensures var ret := receiver.outcomes[|old(receiver.outcomes)|];
        && (phase == 2 <==> ret.None?)
        && error == if ReceiverFails(receiver.report, ret, lastReadDone) then Some(Receiver) else None
      ensures old(receiver.chip.answers) <= receiver.chip.answers
      ensures ReceiverVideo.Decided(receiver.chip.answers[|old(receiver.chip.answers)|..], if experimental then 3 else 2,
                                    receiver.outcomes[|old(receiver.outcomes)|], receiver.report)
      ensures phase == 2 ==>
                && journal.events == old(journal.events) + [ReceiverUp]
                && |receiver.chip.answers| >= |old(receiver.chip.answers)| + 83
                && ReceiverVideo.Ran(receiver.chip.answers[|old(receiver.chip.answers)| + 83..], receiver.report.width,
                                     if experimental then 3 else 2, receiver.single, receiver.dual,
                                     old(receiver.chip.log), receiver.chip.log)
      ensures phase == 1 ==> journal.events == old(journal.events)
    {
      hide LinkResume.RateAllowed, SinceReset, Externals, ExternalsBefore, Inner, ReceiverVideo.Ran, ReceiverVideo.Decided,
           ReceiverVideo.Retryable;
      NextEvent(journal.events, ReceiverUp);
      NextEvent(SinceReset(journal.events), ReceiverUp);
      var ret := receiver.Attempt(if experimental then 3 else 2);
      if ret.None? {
        phase := 2;
        assert ORDER[..2] == ORDER[..1] + [ReceiverUp];
      } else if !MayRetry(receiver.report, ret, lastReadDone) {
        error := Some(Receiver);
      }
    }

    /** Phase 2: the FPGA's packing, then the first look at the picture.  `packed` is the
        mode and packing written, if any. */
    method Open(f: Fpga) returns (packed: Option<(nat, nat)>)
      requires Valid() && phase == 2 && error.None?
      modifies this`phase, this`error, this`ready, this`period, journal
      ensures Valid() && (phase == 2 || phase == 3)
      ensures journal.events == if ready then old(journal.events) + [Opened] else old(journal.events)
      ensures ready <==>
                && !f.running && !f.queued && Packed(f.mode, f.packing, f.mode, receiver.report)
                && Matches(f, receiver.report, f.packing) && PeriodAllowed(f.period, receiver.report, experimental)
      ensures ready ==> period == f.period
      ensures packed.Some? <==> !f.running && !f.queued && !Packed(f.mode, f.packing, f.mode, receiver.report)
      ensures packed.Some? ==> Packed(packed.value.0, packed.value.1, f.mode, receiver.report)
      ensures error == if packed.Some? && (f.modeBack, f.packingBack) != packed.value then Some(Packing) else None
    {
      hide LinkResume.RateAllowed, SinceReset, Externals, ExternalsBefore, Inner, Matches, InputPixels, Packed,
           PeriodAllowed, PeriodSupported;
      NextEvent(journal.events, Opened);
      NextEvent(SinceReset(journal.events), Opened);
      packed := None;
      var r := receiver.report;
      var dual := r.width > 1920 || r.pixelMaxKhz > 150000;
      var packing := if dual then 3 else 0;
      var clear := if f.mode / 32 % 2 == 1 then f.mode - 32 else f.mode;
      var target := if dual then clear + 32 else clear;
      if f.running || f.queued {
        return;
      }
      PackedIs(f, r, dual, clear, target, packing);
      if f.mode != target || f.packing != packing {
        packed := Some((target, packing));
        if f.modeBack != target || f.packingBack != packing {
          error := Some(Packing);
        }
        return;
      }
      PictureIs(f, r, packing, experimental);
      if !f.locked || InputPixels(f.periods, packing) != r.width || f.lines != r.height
         || !PeriodSupported(r.width, r.height, f.period, experimental) {
        return;
      }
      phase, period, ready := 3, f.period, true;
      journal.events := journal.events + [Opened];
      assert ORDER[..3] == ORDER[..2] + [Opened];
    }

    /** Phase 3: stay open only while the picture is the same. */
    method Watch(f: Fpga)
      requires Valid() && phase == 3 && error.None? && (!experimental ==> changes == Externals(journal.events))
      modifies this`phase, this`ready, this`changes, tx`r, journal
      ensures Valid() && error == old(error) && period == old(period) && changes == old(changes)
      ensures ready <==>
                && Matches(f, receiver.report, f.packing)
                && (experimental ==> PeriodAllowed(f.period, receiver.report, experimental))
                && PeriodHolds(period, f.period)
      ensures !ready ==> phase == 0
      ensures journal.events == if ready then old(journal.events) else old(journal.events) + [Reset]
    {
      var r := receiver.report;
      PictureIs(f, r, f.packing, experimental);
      if !f.locked || InputPixels(f.periods, f.packing) != r.width || f.lines != r.height
         || (experimental && !PeriodSupported(r.width, r.height, f.period, experimental))
         || f.period < period * 9 / 10 || f.period > period * 11 / 10 {
        Restart(changes);
      }
    }

    /** A followed display that is not as it was when the supervisor last started. */
    predicate Disturbed(d: Display)
      reads this`changes
    {
      !experimental && !d.failed && (changes != d.changes || !d.stable || d.rejected)
    }

    /** What a poll that starts in phase `start` makes of its step: one observation or one
        attempt in phases 0 and 1, none elsewhere, and an error exactly when it fails for
        good. */
    twostate predicate Latches(start: nat, lastReadDone: bool, new f: Fpga, new packed: Option<(nat, nat)>)
      reads this, tx, receiver
    {
      && (if start == 0
          then OneMore(old(tx.outcomes), tx.outcomes)
               && (error == Some(Transmitter) <==>
                     TransmitterFails(tx.outcomes[|old(tx.outcomes)|], old(tx.looks), tx.looks, old(tx.answers), tx.answers,
                                      tx.r.rate, Limit()))
          else tx.outcomes == old(tx.outcomes) && error != Some(Transmitter))
      && (if start == 1
          then OneMore(old(receiver.outcomes), receiver.outcomes)
               && (error == Some(Receiver) <==>
                     ReceiverFails(receiver.report, receiver.outcomes[|old(receiver.outcomes)|], lastReadDone))
          else receiver.outcomes == old(receiver.outcomes) && error != Some(Receiver))
      && (error == Some(Packing) <==> packed.Some? && (f.modeBack, f.packingBack) != packed.value)
      && error != Some(External)
    }

    /** gc573_combined_poll.  After every poll an open gate means: no error so far, and since
        the last reset the transmitter was set up, then the receiver, then the gate opened;
        when the external display is followed, it is stable, accepted, and all its set-ups
        lie before that reset.  An error shuts the gate for good. */
    method Poll(d: Display, lastReadDone: bool, f: Fpga) returns (packed: Option<(nat, nat)>)
      requires Valid() && (!experimental && error.None? ==> d.changes == Externals(journal.events))
      modifies this, tx, receiver, receiver.chip, journal
      ensures Valid() && old(journal.events) <= journal.events
      ensures old(error).Some? ==> error == old(error) && !ready && journal.events == old(journal.events)
      ensures old(error).None? && old(Disturbed(d)) ==>
                |journal.events| > |old(journal.events)| && journal.events[|old(journal.events)|] == Reset && !ready
      ensures ready ==>
                && Inner(SinceReset(journal.events)) == [InternalUp, ReceiverUp, Opened]
                && (!experimental ==> SinceReset(journal.events) == [InternalUp, ReceiverUp, Opened])
      ensures ready && !experimental ==> !d.failed && d.stable && !d.rejected && changes == d.changes
      ensures ready && old(phase) == 3 ==> Matches(f, receiver.report, f.packing) && PeriodHolds(period, f.period)
      ensures ready && old(phase) != 3 ==> old(phase) == 2 && !f.running && !f.queued
      ensures packed.Some? ==> !ready && !f.running && !f.queued
      ensures Externals(journal.events) == old(Externals(journal.events))
      ensures error.None? && !experimental ==> changes == d.changes
      ensures old(error).None? ==> (error == Some(External) <==> !experimental && d.failed)
      ensures old(error).None? && (experimental || (!d.failed && d.stable && !d.rejected)) ==>
                Latches(if old(Disturbed(d)) then 0 else old(phase), lastReadDone, f, packed)
      ensures old(error).Some? || (!experimental && (d.failed || !d.stable || d.rejected)) ==>
                tx.outcomes == old(tx.outcomes) && receiver.outcomes == old(receiver.outcomes)
      ensures old(error).None? && !experimental && !d.failed && (!d.stable || d.rejected) ==> error.None?
    {
      hide LinkResume.RateAllowed, SinceReset, Externals, ExternalsBefore, Inner, Matches, PeriodHolds;
      packed := None;
      OpenOrder();
      if error.Some? {
        return;
      }
      if !experimental && d.failed {
        ready, error := false, Some(External);
        return;
      }
      NextEvent(journal.events, Reset);
      if Disturbed(d) {
        Restart(d.changes);
        if !d.stable || d.rejected {
          return;
        }
      }
      packed := Advance(lastReadDone, f);
      if ready && !experimental {
        NoneSince(journal.events);
      }
    }

    /** The step of the current phase. */
    method Advance(lastReadDone: bool, f: Fpga) returns (packed: Option<(nat, nat)>)
      requires Valid() && error.None? && (!experimental ==> changes == Externals(journal.events))
      modifies this, tx, receiver, receiver.chip, journal
      ensures Valid() && old(journal.events) <= journal.events && changes == old(changes)
      ensures Externals(journal.events) == old(Externals(journal.events))
      ensures ready && old(phase) == 3 ==> Matches(f, receiver.report, f.packing) && PeriodHolds(period, f.period)
      ensures ready && old(phase) != 3 ==> old(phase) == 2 && !f.running && !f.queued
      ensures packed.Some? ==> !ready && !f.running && !f.queued
      ensures Latches(old(phase), lastReadDone, f, packed)
    {
      hide LinkResume.RateAllowed, SinceReset, Externals, ExternalsBefore, Inner, ReceiverVideo.TableDone, Matches,
           PeriodHolds, TransmitterFails, ReceiverFails;
      packed := None;
      NextEvent(journal.events, InternalUp);
      NextEvent(journal.events, ReceiverUp);
      NextEvent(journal.events, Opened);
      NextEvent(journal.events, Reset);
      match phase {
        case 0 => BringUpTransmitter();
        case 1 => BringUpReceiver(lastReadDone);
        case 2 => packed := Open(f);
        case _ => Watch(f);
      }
    }
  }

  lemma PackedIs(f: Fpga, r: ReceiverVideo.Report, dual: bool, clear: nat, target: nat, packing: nat)
    requires (dual <==> r.width > 1920 || r.pixelMaxKhz > 150000) && packing == if dual then 3 else 0
    requires clear == if f.mode / 32 % 2 == 1 then f.mode - 32 else f.mode
    requires target == if dual then clear + 32 else clear
    ensures Packed(target, packing, f.mode, r)
    ensures Packed(f.mode, f.packing, f.mode, r) <==> f.mode == target && f.packing == packing
  {
    assert f.mode == 64 * (f.mode / 64) + 32 * (f.mode / 32 % 2) + f.mode % 32 by {
      By64(f.mode, f.mode / 32 / 2, f.mode % 64);
    }
    BitFive(f.mode / 64, f.mode / 32 % 2, f.mode % 32, f.mode);
    BitFive(f.mode / 64, if dual then 1 else 0, f.mode % 32, target);
  }

  lemma By64(m: nat, q: nat, r: nat)
    requires m == 64 * q + r && r < 64
    ensures m / 64 == q
  {
  }

  lemma By32(m: nat, q: nat, r: nat)
    requires m == 32 * q + r && r < 32
    ensures m / 32 == q && m % 32 == r
  {
  }

  lemma BitFive(high: nat, bit: nat, low: nat, mode: nat)
    requires bit < 2 && low < 32 && mode == 64 * high + 32 * bit + low
    ensures mode / 64 == high && mode / 32 % 2 == bit && mode % 32 == low
  {
    By64(mode, high, 32 * bit + low);
    By32(mode, 2 * high + bit, low);
  }

  lemma PictureIs(f: Fpga, r: ReceiverVideo.Report, packing: nat, experimental: bool)
    ensures Matches(f, r, packing) <==> f.locked && InputPixels(f.periods, packing) == r.width && f.lines == r.height
    ensures PeriodAllowed(f.period, r, experimental) <==> PeriodSupported(r.width, r.height, f.period, experimental)
  {
    if packing <= 3 {
      assert [1, 2, 2, 4][packing] == (if packing % 2 == 1 then 2 else 1) * (if packing / 2 % 2 == 1 then 2 else 1);
    }
  }

  lemma OpenOrder()
    ensures ORDER[..3] == [InternalUp, ReceiverUp, Opened]
  {
  }

  lemma NothingYet()
    ensures Inner([]) == ORDER[..0] == []
  {
  }

  /** The external supervisor's poll: what it enters in the journal is not the card's. */
  method ObserveDisplay(card: Card, external: PassthroughPoll.External, e: PassthroughPoll.Answers)
    returns (failed: bool)
    requires card.Valid() && external.Valid() && card.tx != external.tx && !card.experimental
    requires card.journal == external.journal && |e.snapshot| == PassthroughPoll.REGS
    modifies external, external.tx, external.journal
    ensures card.Valid() && external.Valid() && old(card.journal.events) <= card.journal.events
    ensures failed <==> external.s.error.Some?
    ensures external.s.changes == Externals(card.journal.events)
    ensures external.s.stable ==> external.s.phase == 3
    ensures old(external.s).changes <= external.s.changes
    ensures old(external.s).error.None? && old(external.s).phase == 3 ==>
              (PassthroughPoll.SourceMoved(e, old(external.s).previous) ==> !external.s.stable)
  {
    hide LinkResume.RateAllowed, SinceReset, Externals, ExternalsBefore, Inner, PassthroughPoll.PlainRgb,
         PassthroughPoll.GoodGeometry, PassthroughPoll.Rechecked, PassthroughPoll.Prepared, PassthroughPoll.SeenTwice;
    NextEvent(card.journal.events, ExternalUp);
    NextEvent(SinceReset(card.journal.events), ExternalUp);
    ghost var t;
    var ret;
    ret, t := external.Poll(e);
    failed := ret.Some?;
  }

  /** Both supervisors of the monitor-following profile, as one poll runs them.  The gate is
      open only beside an external display that is past its start-up, without error, stable
      and accepted, and every event since the last reset is the internal bring-up: the
      display's latest set-up lies before it.  A source that is lost or changes its timing,
      or that makes the external transmitter set up again, shuts the gate. */
  method Supervise(card: Card, external: PassthroughPoll.External, e: PassthroughPoll.Answers,
                   lastReadDone: bool, f: Fpga)
    returns (packed: Option<(nat, nat)>)
    requires card.Valid() && external.Valid() && card.tx != external.tx && !card.experimental
    requires card.journal == external.journal && |e.snapshot| == PassthroughPoll.REGS
    modifies card, card.tx, card.receiver, card.receiver.chip, external, external.tx, card.journal
    ensures card.Valid() && external.Valid() && old(card.journal.events) <= card.journal.events
    ensures card.ready ==>
              && SinceReset(card.journal.events) == [InternalUp, ReceiverUp, Opened]
              && external.s.phase == 3 && external.s.error.None? && external.s.stable && !external.s.rejected
              && card.changes == external.s.changes
    ensures external.s.changes > old(external.s.changes) ==> !card.ready
    ensures old(card.error).None? ==> (card.error == Some(External) <==> external.s.error.Some?)
    ensures old(external.s).error.None? && old(external.s).phase == 3 ==>
              (PassthroughPoll.SourceMoved(e, old(external.s).previous) ==> !card.ready)
  {
    hide LinkResume.RateAllowed, SinceReset, Externals, ExternalsBefore, Inner, Matches, PeriodHolds,
         PassthroughPoll.Consistent;
    var failed := false;
    ExternalsSplit(card.journal.events);
    if card.error.None? {
      failed := ObserveDisplay(card, external, e);
    }
    var s := external.s;
    packed := card.Poll(Display(failed, s.stable, s.rejected, s.changes), lastReadDone, f);
  }
}
