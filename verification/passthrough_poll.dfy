/** Following the external display (snapshot and gc573_passthrough_poll in
    driver/gc573_passthrough.c): read the display, show its EDID to the source, then watch
    the source's timing and keep the external transmitter set up for it.
 */
module PassthroughPoll {

  import opened Bytes
  import opened Events
  import opened LinkResume

  const REGS := 18      // timing and format registers of one look at the source

  /** What the hardware answers in one poll.  `step` is the end of the call of phases 0 to 2;
      the rest belongs to phase 3. */
  datatype Answers = Answers(
    step: Option<Error>,
    linkRead: bool, linked: bool, snapshotRead: bool, snapshot: seq<byte>,
    scdc: Option<Error>, scdcRetryable: bool, portReady: Option<Error>)

  function Word(s: seq<byte>, low: nat): nat
    requires low + 1 < |s|
  {
    s[low] as nat + s[low + 1] as nat % 64 * 256
  }

  /** Total and active sizes, fourteen bits each: both active sizes are positive and
      smaller. */
  ghost predicate GoodGeometry(s: seq<byte>)
    requires |s| == REGS
  {
    && 0 < s[3] as nat + 256 * (s[4] as nat % 64) < s[1] as nat + 256 * (s[2] as nat % 64)
    && 0 < s[10] as nat + 256 * (s[11] as nat % 64) < s[8] as nat + 256 * (s[9] as nat % 64)
  }

  /** 8-bit RGB without high dynamic range: what the filtered EDID advertises. */
  ghost predicate PlainRgb(s: seq<byte>)
    requires |s| == REGS
  {
    s[0] in {0, 1, 4, 5, 8, 9, 12, 13} && s[17] as nat % 128 < 32
  }

  /** A look at the source found it gone, or not as it was. */
  ghost predicate SourceMoved(e: Answers, previous: seq<byte>) {
    e.linkRead && (!e.linked || (e.snapshotRead && e.snapshot != previous))
  }

  /** More than a tenth away from the rate measured before. */
  ghost predicate RateMoved(was: nat, now: nat) {
    was != 0 && !(90 * was / 100 <= now <= 110 * was / 100)
  }

  /** The state of the supervisor. */
  datatype State = State(
    phase: nat, active: bool, configured: bool, stable: bool, rejected: bool, changes: nat, polls: nat,
    error: Option<Error>, previous: seq<byte>,
    measured: bool,         // the clock was measured for this set-up
    measuredKhz: nat)       // by the latest measurement, of whatever source

  datatype Setting = Setting(scaled: bool, scdc: bool)

  /** How a clock measurement and a set-up of the transmitter end. */
  datatype Measurement = Measured(khz: nat) | NoLink | Broken(error: Error, khz: nat)

  datatype Bringing = Up | Held | BadFormat | Failed(error: Error)

  datatype Chips = Chips(clock: Measurement, setUp: Bringing)

  /** How an observation of the transmitter ended.  A source or a display that is away, and
      a link that locks late, is waited for; so is, in the scaled profile, a format that
      cannot be shown. */
  ghost function Brought(ret: Option<Error>, away: bool, late: bool, odd: bool, c: Setting): Bringing {
    match ret
    case None => Up
    case Some(error) =>
      if error == EAGAIN || away || late then Held else if c.scaled && odd then BadFormat else Failed(error)
  }

  /** The clock of a source that is set up is measured once, and in the scaled profile again
      every fourth poll. */
  ghost predicate Due(v: State, c: Setting) {
    !v.measured || (c.scaled && v.polls % 4 == 0)
  }

  /** The measurement is what the chips answered, and none was made when none was due. */
  ghost predicate Checked(due: bool, m: Measurement, looks: seq<Look>, looks': seq<Look>,
                          readings: seq<Reading>, readings': seq<Reading>)
  {
    if !due then looks' == looks && readings' == readings
    else
      && |looks'| == |looks| + 1 && looks <= looks' && (m.NoLink? <==> Down(looks'[|looks|]))
      && (m.Measured? ==>
            && |readings'| == |readings| + 1 && readings <= readings'
            && RateOf(readings'[|readings|]).Some? && m.khz == RateOf(readings'[|readings|]).value.pixelKhz)
  }

  /** The transmitter was observed once, and `b` is how that ended, by what it read: the
      newest look at the link, a completed status read without a lock, a refused format. */
  ghost predicate Observed(b: Bringing, c: Setting, limit: Sink, rate: Rate, outcomes: seq<Option<Error>>,
                           outcomes': seq<Option<Error>>, looks: seq<Look>, looks': seq<Look>,
                           answers: seq<Seen>, answers': seq<Seen>)
  {
    && |outcomes'| == |outcomes| + 1 && outcomes <= outcomes'
    && var ret := outcomes'[|outcomes|];
      && b == Brought(ret, Away(looks, looks'), Later(answers, answers', 2, ret),
                      Odder(answers, answers', rate, Some(limit), ret), c)
      && (looks < looks' || b == Failed(EINVAL))
  }

  // ------------------------------------------------------ what a poll means

  /** A source that is already set up: its clock is measured now and then and compared with
      the latest measurement, also one made for an earlier source; then the display's link
      status is read. */
  ghost function Rechecked(v: State, c: Setting, e: Answers, m: Measurement): (State, Option<Error>) {
    if !Due(v, c) then (v, None)
    else match m
      case NoLink =>
        (v.(measured := false, measuredKhz := 0, active := false, configured := false), Some(EAGAIN))
      case Broken(error, khz) =>
        (v.(measured := false, measuredKhz := khz), Some(error))
      case Measured(khz) =>
        var w := v.(measured := true, measuredKhz := khz);
        if c.scaled && RateMoved(v.measuredKhz, khz) then (w.(active := false, configured := false), Some(EAGAIN))
        else (w, if c.scdc && !e.scdcRetryable then e.scdc else None)
  }

  /** A source that is not set up yet. */
  ghost function Prepared(v: State, c: Setting, e: Answers, b: Bringing): (State, Option<Error>)
    requires |v.previous| == REGS
  {
    if !PlainRgb(v.previous) then (v.(rejected := true), Some(if c.scaled then EAGAIN else EOPNOTSUPP))
    else if e.portReady.Some? then (v.(rejected := false), e.portReady)
    else match b
      case Up => (v.(rejected := false, configured := true, active := true, changes := v.changes + 1), None)
      case Held => (v.(rejected := false), Some(EAGAIN))
      case BadFormat => (v.(rejected := true), Some(EAGAIN))
      case Failed(error) => (v.(rejected := false), Some(error))
  }

  ghost function Lost(v: State): State {
    v.(active := false, configured := false, stable := false, measured := false)
  }

  /** One look at the source. */
  ghost function Looked(v: State, c: Setting, e: Answers, t: Chips): (State, Option<Error>)
    requires |v.previous| == REGS && |e.snapshot| == REGS
  {
    if !e.linkRead then (v, Some(EBUS))
    else if !e.linked then (Lost(v), Some(EAGAIN))
    else if !e.snapshotRead then (v, Some(EBUS))
    else if e.snapshot != v.previous then (Lost(v).(previous := e.snapshot), Some(EAGAIN))
    else if !GoodGeometry(v.previous) then (v, Some(EAGAIN))
    else
      var w := v.(stable := true);
      if w.configured then Rechecked(w, c, e, t.clock) else Prepared(w, c, e, t.setUp)
  }

  ghost function Polled(v: State, c: Setting, e: Answers, t: Chips): (w: State)
    requires |v.previous| == REGS && |e.snapshot| == REGS
    ensures |w.previous| == REGS
  {
    if v.error.Some? then v
    else
      var start := v.(polls := v.polls + 1);
      var (w, ret) := if v.phase < 3 then (start, e.step) else Looked(start, c, e, t);
      if ret == Some(EAGAIN) then w
      else if ret.Some? then w.(active := false, error := ret)
      else if v.phase < 3 then w.(phase := v.phase + 1) else w
  }

  /** The look that lets the transmitter be set up: the source is there as it was before,
      with a timing and a format that can be shown, and it is not set up already. */
  ghost predicate SeenTwice(e: Answers, v: State)
    requires |v.previous| == REGS
  {
    SeenAgain(e, v) && PlainRgb(v.previous) && !v.configured
  }

  ghost predicate SeenAgain(e: Answers, v: State)
    requires |v.previous| == REGS
  {
    && v.phase == 3 && e.linkRead && e.linked && e.snapshotRead && e.snapshot == v.previous
    && GoodGeometry(v.previous)
  }

  // -------------------------------------------------------- the supervisor

  function Cold(): State {
    State(0, false, false, false, false, 0, 0, None, seq<byte>(REGS, _ => 0), false, 0)
  }

  /** Set up means: the source was seen twice with the same plain RGB timing and it is not
      rejected; active means set up and no error. */
  ghost predicate Consistent(s: State) {
    && s.phase <= 3 && |s.previous| == REGS
    && (s.active <==> s.configured && s.error.None?)
    && (s.configured ==> s.stable && !s.rejected && PlainRgb(s.previous))
    && (s.stable ==> s.phase == 3 && GoodGeometry(s.previous))
  }

  class External {
    const setting: Setting
    const limit: Sink
    const tx: Transmitter
    const journal: Journal
    var s: State

    constructor (setting: Setting, limit: Sink, tx: Transmitter)
      requires tx.Valid() && tx.port == 2 && Externals(tx.journal.events) == 0
      ensures Valid() && this.tx == tx && this.journal == tx.journal && s == Cold()
    {
      this.setting, this.limit, this.tx, this.journal := setting, limit, tx, tx.journal;
      s := Cold();
    }

    /** A set-up source has its output enabled, and the journal holds one set-up for every
        change counted. */
    ghost predicate Valid()
      reads this, tx, journal
    {
      && tx.Valid() && tx.journal == journal && tx.port == 2 && Consistent(s)
      && s.changes == Externals(journal.events) && (s.configured ==> tx.r.outputEnabled)
    }

    /** What the call did with the transmitter: it measured the clock of a source that is set
        up, or observed the transmitter for one that is not, or nothing; and `t` is how that
        ended. */
    twostate predicate Acted(new v: State, new e: Answers, new t: Chips)
      requires |v.previous| == REGS
      reads this, tx
    {
      if SeenAgain(e, v) && v.configured
      then Checked(Due(v, setting), t.clock, old(tx.looks), tx.looks, old(tx.readings), tx.readings)
           && tx.outcomes == old(tx.outcomes)
      else if SeenTwice(e, v) && e.portReady.None?
      then Observed(t.setUp, setting, limit, tx.r.rate, old(tx.outcomes), tx.outcomes, old(tx.looks), tx.looks,
                    old(tx.answers), tx.answers)
      else tx.looks == old(tx.looks) && tx.readings == old(tx.readings) && tx.outcomes == old(tx.outcomes)
    }

    /** The source is not what it was: everything is observed afresh. */
    method Lose()
      requires tx.Valid() && |s.previous| == REGS
      modifies this`s, tx`r
      ensures tx.Valid() && s == Lost(old(s)) && tx.r.outputEnabled == old(tx.r.outputEnabled)
    {
      s := s.(active := false, configured := false, stable := false, measured := false);
      tx.Forget();
    }

    /** The measurement of the clock of a source that is set up. */
    method MeasureClock() returns (ret: Option<Error>, khz: nat, away: bool, ghost m: Measurement)
      requires tx.Valid() && tx.journal == journal
      modifies tx`setups, tx`enables, tx`answers, tx`troubles, tx`looks, tx`readings, journal
      ensures Checked(true, m, old(tx.looks), tx.looks, old(tx.readings), tx.readings)
      ensures m == if away then NoLink else if ret.Some? then Broken(ret.value, khz) else Measured(khz)
      ensures away ==> khz == 0 && ret.Some?
      ensures tx.Valid() && tx.setups == old(tx.setups) && tx.enables == old(tx.enables)
      ensures journal.events == old(journal.events)
    {
      hide RateAllowed, RateOf, Down, Later, Odder, Ready;
      var now;
      ret, now := tx.Clock(0, None);
      khz, away := now.rate.pixelKhz, LinkWait(now, ret);
      m := if away then NoLink else if ret.Some? then Broken(ret.value, khz) else Measured(khz);
    }

    /** The branch of a source that is already set up. */
    method Recheck(e: Answers) returns (ret: Option<Error>, ghost m: Measurement)
      requires tx.Valid() && tx.journal == journal
      modifies this`s, tx`setups, tx`enables, tx`answers, tx`troubles, tx`looks, tx`readings, journal
      ensures (s, ret) == Rechecked(old(s), setting, e, m)
      ensures Checked(old(Due(s, setting)), m, old(tx.looks), tx.looks, old(tx.readings), tx.readings)
      ensures tx.Valid() && tx.setups == old(tx.setups) && tx.enables == old(tx.enables)
      ensures journal.events == old(journal.events)
    {
      hide RateAllowed, RateOf, Down, LinkWait;
      m := NoLink;
      if s.measured && !(setting.scaled && s.polls % 4 == 0) {
        return None, m;
      }
      hide Checked;
      var was := s.measuredKhz;
      var khz, away;
      ret, khz, away, m := MeasureClock();
      s := s.(measured := ret.None?, measuredKhz := khz);
      if away {
        s := s.(active := false, configured := false);
        return Some(EAGAIN), m;
      }
      if ret.Some? {
        return;
      }
      if setting.scaled && was != 0 && (khz > was * 110 / 100 || khz < was * 90 / 100) {
        s := s.(active := false, configured := false);
        return Some(EAGAIN), m;
      }
      if setting.scdc && e.scdc.Some? && !e.scdcRetryable {
        return e.scdc, m;
      }
      return None, m;
    }

    /** The observation of the transmitter, and whether a failure is a wait. */
    method ObserveTransmitter() returns (ret: Option<Error>, waits: bool, odd: bool, ghost b: Bringing)
      requires tx.Valid() && tx.journal == journal && tx.port == 2
      modifies tx, journal
      ensures tx.Valid()
      ensures journal.events == if ret.None? then old(journal.events) + [ExternalUp] else old(journal.events)
      ensures ret.None? ==>
                tx.r.outputEnabled && RateAllowed(tx.r.rate.linkKhz, Some(limit)) && tx.enables == old(tx.enables) + 1
      ensures Observed(b, setting, limit, tx.r.rate, old(tx.outcomes), tx.outcomes, old(tx.looks), tx.looks,
                       old(tx.answers), tx.answers)
      ensures b == if ret.None? then Up else if waits then Held else if odd then BadFormat else Failed(ret.value)
      ensures (waits || odd ==> ret.Some?) && old(tx.setups) <= tx.setups <= old(tx.setups) + 1
    {
      hide RateAllowed, SameSource, OtherSource, LastMeasured, Externals, Away, Later, Odder, Ready, Resumed, RateOf, Down;
      ghost var looks, answers := tx.looks, tx.answers;
      ret := tx.Observe(limit);
      waits := ret == Some(EAGAIN) || LinkWait(tx.r, ret);
      odd := setting.scaled && FormatWait(tx.r, ret);
      b := Brought(ret, Away(looks, tx.looks), Later(answers, tx.answers, 2, ret),
                   Odder(answers, tx.answers, tx.r.rate, Some(limit), ret), setting);
    }

    /** The branch of a source that is not set up yet. */
    method SetUp(e: Answers) returns (ret: Option<Error>, ghost b: Bringing)
      requires tx.Valid() && tx.journal == journal && tx.port == 2 && |s.previous| == REGS
      modifies this`s, tx, journal
      ensures tx.Valid() && (s, ret) == Prepared(old(s), setting, e, b)
      ensures journal.events ==
                if s.changes > old(s).changes then old(journal.events) + [ExternalUp] else old(journal.events)
      ensures s.changes > old(s).changes ==>
                tx.r.outputEnabled && RateAllowed(tx.r.rate.linkKhz, Some(limit)) && tx.enables == old(tx.enables) + 1
      ensures if PlainRgb(s.previous) && e.portReady.None?
              then Observed(b, setting, limit, tx.r.rate, old(tx.outcomes), tx.outcomes, old(tx.looks), tx.looks,
                            old(tx.answers), tx.answers)
              else tx.setups == old(tx.setups) && tx.enables == old(tx.enables) && tx.looks == old(tx.looks)
                   && tx.readings == old(tx.readings) && tx.outcomes == old(tx.outcomes)
      ensures old(tx.setups) <= tx.setups <= old(tx.setups) + 1
    {
      hide RateAllowed, Externals, Observed, PlainRgb;
      b := Held;
      PlainIs(s.previous);
      if s.previous[0] >= 16 || s.previous[0] / 2 % 2 == 1 || s.previous[17] / 32 % 4 != 0 {
        s := s.(rejected := true);
        return (if setting.scaled then Some(EAGAIN) else Some(EOPNOTSUPP)), b;
      }
      s := s.(rejected := false);
      if e.portReady.Some? {
        return e.portReady, b;
      }
      var waits, odd;
      ret, waits, odd, b := ObserveTransmitter();
      if waits {
        return Some(EAGAIN), b;
      }
      if odd {
        s := s.(rejected := true);
        return Some(EAGAIN), b;
      }
      if ret.Some? {
        return;
      }
      s := s.(configured := true, active := true, changes := s.changes + 1);
    }

    /** One look at the source. */
    method Snapshot(e: Answers) returns (ret: Option<Error>, ghost t: Chips)
      requires Valid() && s.phase == 3 && s.error.None? && |e.snapshot| == REGS
      modifies this, tx, journal
      ensures tx.Valid() && (s, ret) == Looked(old(s), setting, e, t)
      ensures s.configured ==> tx.r.outputEnabled
      ensures journal.events ==
                if s.changes > old(s).changes then old(journal.events) + [ExternalUp] else old(journal.events)
      ensures old(tx.setups) <= tx.setups <= old(tx.setups) + 1
      ensures tx.setups != old(tx.setups) || tx.enables != old(tx.enables) ==> SeenTwice(e, old(s))
      ensures Acted(old(s), e, t)
    {
      hide RateAllowed, GoodGeometry, PlainRgb, Externals, Checked, Observed, Due, Rechecked, Prepared;
      t := Chips(NoLink, Held);
      if !e.linkRead {
        return Some(EBUS), t;
      }
      if !e.linked {
        Lose();
        return Some(EAGAIN), t;
      }
      if !e.snapshotRead {
        return Some(EBUS), t;
      }
      if e.snapshot != s.previous {
        Lose();
        s := s.(previous := e.snapshot);
        return Some(EAGAIN), t;
      }
      var p := s.previous;
      if Word(p, 3) == 0 || Word(p, 10) == 0 || Word(p, 3) >= Word(p, 1) || Word(p, 10) >= Word(p, 8) {
        GeometryIs(p);
        return Some(EAGAIN), t;
      }
      GeometryIs(p);
      s := s.(stable := true);
      if s.configured {
        ghost var m, v := NoLink, s;
        ret, m := Recheck(e);
        RecheckKeeps(v, setting, e, m);
        t := t.(clock := m);
      } else {
        ghost var b, v := Held, s;
        ret, b := SetUp(e);
        SetUpKeeps(v, setting, e, b);
        t := t.(setUp := b);
      }
    }

    /** gc573_passthrough_poll.  The phases follow each other only on success; a wait changes
        nothing that was set up; any other error ends the run for good.  The transmitter is
        set up, and its output enabled, only for a source seen twice alike. */
    method Poll(e: Answers) returns (ret: Option<Error>, ghost t: Chips)
      requires Valid() && |e.snapshot| == REGS
      modifies this, tx, journal
      ensures s == Polled(old(s), setting, e, t) && ret == s.error && Valid()
      ensures journal.events ==
                if s.changes > old(s).changes then old(journal.events) + [ExternalUp] else old(journal.events)
      ensures old(tx.setups) <= tx.setups <= old(tx.setups) + 1 && old(s).changes <= s.changes <= old(s).changes + 1
      ensures tx.setups != old(tx.setups) || tx.enables != old(tx.enables) || s.changes != old(s).changes ==>
                SeenTwice(e, old(s))
      ensures old(s.error).None? ==> Acted(old(s.(polls := s.polls + 1)), e, t)
    {
      hide RateAllowed, GoodGeometry, PlainRgb, Externals, Looked, SeenTwice, SeenAgain, Consistent, Checked,
           Observed, Due;
      t := Chips(NoLink, Held);
      if s.error.Some? {
        return s.error, t;
      }
      ghost var start := s.(polls := s.polls + 1);
      StartConsistent(s, e);
      s := s.(polls := s.polls + 1);
      if s.phase < 3 {
        ret := e.step;
      } else {
        ret, t := Snapshot(e);
        LookCounts(start, setting, e, t);
      }
      NextEvent(old(journal.events), ExternalUp);
      if ret == Some(EAGAIN) {
        ret := None;
      } else if ret.Some? {
        s := s.(active := false, error := ret);
      } else if s.phase < 3 {
        s := s.(phase := s.phase + 1);
      }
      StaysConsistent(old(s), setting, e, t);
    }
  }

  lemma PlainIs(s: seq<byte>)
    requires |s| == REGS
    ensures PlainRgb(s) <==> !(s[0] >= 16 || s[0] / 2 % 2 == 1 || s[17] / 32 % 4 != 0)
  {
  }

  lemma RecheckKeeps(v: State, c: Setting, e: Answers, m: Measurement)
    ensures var w := Rechecked(v, c, e, m).0; w.changes == v.changes && (w.configured ==> v.configured)
  {
  }

  lemma SetUpKeeps(v: State, c: Setting, e: Answers, b: Bringing)
    requires |v.previous| == REGS
    ensures var w := Prepared(v, c, e, b).0;
      w.previous == v.previous && (w.configured ==> v.configured || w.changes > v.changes)
  {
  }

  lemma GeometryIs(s: seq<byte>)
    requires |s| == REGS
    ensures GoodGeometry(s) <==> !(Word(s, 3) == 0 || Word(s, 10) == 0 || Word(s, 3) >= Word(s, 1) || Word(s, 10) >= Word(s, 8))
  {
  }

  lemma StartConsistent(s: State, e: Answers)
    requires Consistent(s) && |e.snapshot| == REGS
    ensures |s.previous| == REGS && s.phase <= 3 && Consistent(s.(polls := s.polls + 1))
    ensures SeenTwice(e, s.(polls := s.polls + 1)) == SeenTwice(e, s)
    ensures var start := s.(polls := s.polls + 1);
      SeenAgain(e, start) || SeenTwice(e, start) ==> s.phase == 3
  {
  }

  lemma LookConsistent(s: State, c: Setting, e: Answers, t: Chips)
    requires Consistent(s) && s.error.None? && s.phase == 3 && |e.snapshot| == REGS
    ensures Consistent(Looked(s, c, e, t).0)
  {
    hide GoodGeometry, PlainRgb, RateMoved;
  }

  lemma StaysConsistent(s: State, c: Setting, e: Answers, t: Chips)
    requires Consistent(s) && |e.snapshot| == REGS
    ensures |s.previous| == REGS && Consistent(Polled(s, c, e, t))
  {
    hide GoodGeometry, PlainRgb, RateMoved, Looked;
    StartConsistent(s, e);
    var start := s.(polls := s.polls + 1);
    if s.error.None? && s.phase == 3 {
      LookConsistent(start, c, e, t);
      LookCounts(start, c, e, t);
    }
  }

  /** A look counts at most one change, and only of a source seen twice. */
  lemma LookCounts(s: State, c: Setting, e: Answers, t: Chips)
    requires |s.previous| == REGS && |e.snapshot| == REGS && s.phase == 3
    ensures var w := Looked(s, c, e, t).0;
      && s.changes <= w.changes <= s.changes + 1 && w.phase == s.phase && w.error == s.error
      && (w.changes > s.changes ==> SeenTwice(e, s))
  {
  }

  // -------------------------------------------- the second set-up of a source

  /** A number of polls with the same answers. */
  ghost function Again(s: State, c: Setting, e: Answers, t: Chips, n: nat): (w: State)
    requires |s.previous| == REGS && |e.snapshot| == REGS
    ensures |w.previous| == REGS
  {
    if n == 0 then s else Polled(Again(s, c, e, t, n - 1), c, e, t)
  }

  /** A source that is there and can be shown, with all transfers succeeding. */
  ghost predicate Steady(e: Answers, t: Chips)
    requires |e.snapshot| == REGS
  {
    && e.linkRead && e.linked && e.snapshotRead && GoodGeometry(e.snapshot) && PlainRgb(e.snapshot)
    && e.scdc.None? && e.portReady.None? && t.clock.Measured? && t.setUp.Up?
  }

  /** The state after a steady source was seen for the first, the second and the third
      time, when another one was there before. */
  ghost function FirstSeen(s: State, e: Answers): State {
    Lost(s).(polls := s.polls + 1, previous := e.snapshot)
  }

  ghost function SecondSeen(s: State, e: Answers): State {
    FirstSeen(s, e).(polls := s.polls + 2, stable := true, rejected := false, configured := true, active := true,
                     changes := s.changes + 1)
  }

  ghost function ThirdSeen(s: State, c: Setting, e: Answers, khz: nat): State {
    var kept := !(c.scaled && RateMoved(s.measuredKhz, khz));
    SecondSeen(s, e).(polls := s.polls + 3, measured := true, measuredKhz := khz, configured := kept, active := kept)
  }

  lemma ThreeLooks(s: State, c: Setting, e: Answers, t: Chips)
    requires |s.previous| == REGS && |e.snapshot| == REGS && s.phase == 3 && s.error.None?
    requires Steady(e, t) && e.snapshot != s.previous
    ensures Polled(s, c, e, t) == FirstSeen(s, e)
    ensures Polled(FirstSeen(s, e), c, e, t) == SecondSeen(s, e)
    ensures Polled(SecondSeen(s, e), c, e, t) == ThirdSeen(s, c, e, t.clock.khz)
  {
    hide GoodGeometry, PlainRgb, RateMoved;
  }

  lemma SameRateStays(khz: nat)
    ensures !RateMoved(khz, khz)
  {
  }

  /** A new, steady source is set up twice if and only if the profile is the scaled one and
      the rate last measured, for whatever source, is more than a tenth away from its own. */
  lemma SecondSetUp(s: State, c: Setting, e: Answers, t: Chips)
    requires |s.previous| == REGS && |e.snapshot| == REGS && s.phase == 3 && s.error.None?
    requires Steady(e, t) && e.snapshot != s.previous
    ensures var w := Again(s, c, e, t, 4);
      && w.configured && w.phase == 3 && w.error.None? && w.previous == e.snapshot && w.measuredKhz == t.clock.khz
      && (w.changes == s.changes + 2 <==> c.scaled && RateMoved(s.measuredKhz, t.clock.khz))
      && (w.changes == s.changes + 1 <==> !(c.scaled && RateMoved(s.measuredKhz, t.clock.khz)))
  {
    hide GoodGeometry, PlainRgb, RateMoved;
    ThreeLooks(s, c, e, t);
    SameRateStays(t.clock.khz);
    assert Again(s, c, e, t, 0) == s;
    assert Again(s, c, e, t, 1) == FirstSeen(s, e);
    assert Again(s, c, e, t, 2) == SecondSeen(s, e);
    assert Again(s, c, e, t, 3) == ThirdSeen(s, c, e, t.clock.khz);
    FourthLook(ThirdSeen(s, c, e, t.clock.khz), c, e, t);
  }

  /** The look after the first measurement sets a dropped source up again, and keeps one
      that was kept. */
  lemma FourthLook(s: State, c: Setting, e: Answers, t: Chips)
    requires |s.previous| == REGS && |e.snapshot| == REGS && s.phase == 3 && s.error.None?
    requires Steady(e, t) && e.snapshot == s.previous && s.measured && s.measuredKhz == t.clock.khz
    ensures var w := Polled(s, c, e, t);
      && w.configured && w.phase == 3 && w.error.None? && w.previous == s.previous && w.measuredKhz == t.clock.khz
      && w.changes == s.changes + if s.configured then 0 else 1
  {
    hide GoodGeometry, PlainRgb, RateMoved;
    SameRateStays(t.clock.khz);
  }

  // ------------------------------------------------- what a run answers for

  /** With everything as it was, a poll of a source that is set up only counts, unless its
      clock is due. */
  lemma NothingNew(s: State, c: Setting, e: Answers, t: Chips)
    requires |s.previous| == REGS && |e.snapshot| == REGS && s.phase == 3 && s.error.None?
    requires Steady(e, t) && e.snapshot == s.previous && s.configured && s.stable && s.measured
    requires (s.polls + 1) % 4 != 0
    ensures Polled(s, c, e, t) == s.(polls := s.polls + 1)
  {
    hide GoodGeometry, PlainRgb, RateMoved;
  }

  /** The clock is due in every fourth poll of the scaled profile; one that moved by more
      than a tenth takes the set-up down. */
  lemma MovedClock(s: State, c: Setting, e: Answers, t: Chips)
    requires |s.previous| == REGS && |e.snapshot| == REGS && s.phase == 3 && s.error.None?
    requires Steady(e, t) && e.snapshot == s.previous && s.configured && s.stable && s.measured
    requires c.scaled && (s.polls + 1) % 4 == 0 && RateMoved(s.measuredKhz, t.clock.khz)
    ensures var w := Polled(s, c, e, t); !w.configured && !w.active && w.error.None?
  {
    hide GoodGeometry, PlainRgb, RateMoved;
  }

  /** A source that only changes its clock, by more than a tenth, is noticed by the fourth
      poll in the scaled profile, and is then no longer set up. */
  lemma MovedClockIsNoticed(s: State, c: Setting, e: Answers, t: Chips)
    requires |s.previous| == REGS && |e.snapshot| == REGS && s.phase == 3 && s.error.None?
    requires Steady(e, t) && e.snapshot == s.previous && s.configured && s.stable && s.measured
    requires c.scaled && RateMoved(s.measuredKhz, t.clock.khz)
    ensures exists n: nat :: 1 <= n <= 4 && !Again(s, c, e, t, n).configured && Again(s, c, e, t, n).error.None?
  {
    hide Polled, Steady, RateMoved;
    var n := 4 - s.polls % 4;
    assert Again(s, c, e, t, 0) == s;
    for i := 0 to n - 1
      invariant Again(s, c, e, t, i) == s.(polls := s.polls + i)
    {
      NothingNew(s.(polls := s.polls + i), c, e, t);
    }
    MovedClock(s.(polls := s.polls + n - 1), c, e, t);
    assert !Again(s, c, e, t, n).configured;
  }

  ghost predicate Ends(ret: Option<Error>) {
    ret.Some? && ret != Some(EAGAIN)
  }

  /** Of a source that is set up: its clock could not be measured, or the display does not
      answer and may not be asked again. */
  ghost predicate RecheckEnds(s: State, c: Setting, e: Answers, m: Measurement) {
    && (!s.measured || (c.scaled && s.polls % 4 == 0))
    && match m
       case NoLink => false
       case Broken(error, _) => error != EAGAIN
       case Measured(khz) => !(c.scaled && RateMoved(s.measuredKhz, khz)) && c.scdc && !e.scdcRetryable && Ends(e.scdc)
  }

  /** Of a source that is not: its format cannot be shown outside the scaled profile, the
      port is not ready, or the set-up fails and is no wait. */
  ghost predicate SetUpEnds(s: State, c: Setting, e: Answers, b: Bringing)
    requires |s.previous| == REGS
  {
    if !PlainRgb(s.previous) then !c.scaled
    else Ends(e.portReady) || (e.portReady.None? && b.Failed? && b.error != EAGAIN)
  }

  ghost predicate LookEnds(s: State, c: Setting, e: Answers, t: Chips)
    requires |s.previous| == REGS && |e.snapshot| == REGS
  {
    || !e.linkRead || (e.linked && !e.snapshotRead)
    || (e.linked && e.snapshot == s.previous && GoodGeometry(s.previous)
        && if s.configured then RecheckEnds(s, c, e, t.clock) else SetUpEnds(s, c, e, t.setUp))
  }

  lemma RecheckEndsExactly(v: State, c: Setting, e: Answers, m: Measurement)
    ensures Ends(Rechecked(v, c, e, m).1) <==> RecheckEnds(v, c, e, m)
  {
    hide RateMoved;
  }

  lemma SetUpEndsExactly(v: State, c: Setting, e: Answers, b: Bringing)
    requires |v.previous| == REGS
    ensures Ends(Prepared(v, c, e, b).1) <==> SetUpEnds(v, c, e, b)
  {
    hide PlainRgb;
  }

  lemma LookEndsExactly(v: State, c: Setting, e: Answers, t: Chips)
    requires |v.previous| == REGS && |e.snapshot| == REGS
    ensures Ends(Looked(v, c, e, t).1) <==> LookEnds(v, c, e, t)
  {
    hide Rechecked, Prepared, RecheckEnds, SetUpEnds, GoodGeometry;
    var w := v.(stable := true);
    RecheckEndsExactly(w, c, e, t.clock);
    SetUpEndsExactly(w, c, e, t.setUp);
    SameEnds(v, w, c, e, t);
  }

  lemma SameEnds(v: State, w: State, c: Setting, e: Answers, t: Chips)
    requires |v.previous| == REGS && w == v.(stable := true)
    ensures RecheckEnds(w, c, e, t.clock) <==> RecheckEnds(v, c, e, t.clock)
    ensures SetUpEnds(w, c, e, t.setUp) <==> SetUpEnds(v, c, e, t.setUp)
  {
    hide RateMoved, PlainRgb;
  }

  /** What ends a run: before the source is watched a step that fails and is no wait, behind
      that a look that ends it. */
  lemma EndsExactly(s: State, c: Setting, e: Answers, t: Chips)
    requires |s.previous| == REGS && |e.snapshot| == REGS && s.error.None?
    ensures Polled(s, c, e, t).error.Some? <==>
              if s.phase < 3 then Ends(e.step) else LookEnds(s.(polls := s.polls + 1), c, e, t)
  {
    hide Looked, LookEnds;
    var start := s.(polls := s.polls + 1);
    LookEndsExactly(start, c, e, t);
    if s.phase >= 3 {
      LookKeepsError(start, c, e, t);
    }
  }

  lemma LookKeepsError(s: State, c: Setting, e: Answers, t: Chips)
    requires |s.previous| == REGS && |e.snapshot| == REGS
    ensures Looked(s, c, e, t).0.error == s.error
  {
    hide GoodGeometry, PlainRgb, RateMoved;
  }

  /** 1920x1080 and 1280x720, as the source's timing registers show them. */
  const FULL_HD: seq<byte> := [0, 0x98, 8, 0x80, 7, 0, 0, 0, 0x65, 4, 0x38, 4, 0, 0, 0, 0, 0, 0]
  const HD: seq<byte> := [0, 0x72, 6, 0, 5, 0, 0, 0, 0xee, 2, 0xd0, 2, 0, 0, 0, 0, 0, 0]

  function Sees(snapshot: seq<byte>): Answers {
    Answers(None, true, true, true, snapshot, None, false, None)
  }

  lemma TwoTimings()
    ensures |FULL_HD| == REGS && |HD| == REGS && FULL_HD != HD && FULL_HD != Cold().previous
    ensures Steady(Sees(FULL_HD), Chips(Measured(148500), Up)) && Steady(Sees(HD), Chips(Measured(74250), Up))
    ensures !RateMoved(0, 148500) && RateMoved(148500, 74250)
  {
    assert FULL_HD[1] == 0x98 && HD[1] == 0x72 && Cold().previous[1] == 0;
    FullHdIsPlain();
    HdIsPlain();
  }

  lemma FullHdIsPlain()
    ensures |FULL_HD| == REGS && GoodGeometry(FULL_HD) && PlainRgb(FULL_HD)
  {
    assert Word(FULL_HD, 1) == 2200 && Word(FULL_HD, 3) == 1920;
    assert Word(FULL_HD, 8) == 1125 && Word(FULL_HD, 10) == 1080;
  }

  lemma HdIsPlain()
    ensures |HD| == REGS && GoodGeometry(HD) && PlainRgb(HD)
  {
    assert Word(HD, 1) == 1650 && Word(HD, 3) == 1280;
    assert Word(HD, 8) == 750 && Word(HD, 10) == 720;
  }

  lemma Starts(c: Setting, e: Answers, t: Chips)
    requires |e.snapshot| == REGS && e.step.None?
    ensures Again(Cold(), c, e, t, 3) == Cold().(phase := 3, polls := 3)
  {
    assert Again(Cold(), c, e, t, 0) == Cold();
    assert Again(Cold(), c, e, t, 1) == Cold().(phase := 1, polls := 1);
    assert Again(Cold(), c, e, t, 2) == Cold().(phase := 2, polls := 2);
  }

  /** From a cold start: a 1080p source is set up once, the 720p source that follows it
      twice. */
  lemma ARunSetsUpTwice(scdc: bool)
    ensures var c := Setting(true, scdc);
      var (first, second) := (Sees(FULL_HD), Sees(HD));
      var (a, b) := (Chips(Measured(148500), Up), Chips(Measured(74250), Up));
      |FULL_HD| == REGS && |HD| == REGS
      && var started := Again(Cold(), c, first, a, 3);
         var shown := Again(started, c, first, a, 4);
         var changed := Again(shown, c, second, b, 4);
         started.changes == 0 && shown.changes == 1 && changed.changes == 3
  {
    hide Again, Steady, RateMoved;
    TwoTimings();
    var c := Setting(true, scdc);
    var a, b := Chips(Measured(148500), Up), Chips(Measured(74250), Up);
    Starts(c, Sees(FULL_HD), a);
    var started := Again(Cold(), c, Sees(FULL_HD), a, 3);
    SecondSetUp(started, c, Sees(FULL_HD), a);
    SecondSetUp(Again(started, c, Sees(FULL_HD), a, 4), c, Sees(HD), b);
  }
}
