/** Bringing up an HDMI transmitter whose link locks late (driver/gc573_splitter_video.c):
    set up once, observe, and repeat the setup at most once.

    What the bus and the chips answer is left open at every step; the steps, their order and
    what each of them records are the driver's.
 */
module LinkResume {

  import opened Bytes
  import opened Events

  datatype Error = EBUS | EINVAL | ENOLINK | EAGAIN | ERANGE | EOPNOTSUPP | EIO | ETIMEDOUT

  /** How a transfer, or a row of them, fails on its way. */
  predicate Transport(ret: Option<Error>) {
    ret.Some? ==> ret.value in {EBUS, EIO, ETIMEDOUT}
  }

  /** The last transfer: address, register, and whether it was a completed one-byte read. */
  datatype Last = Last(address: nat, reg: nat, readDone: bool)

  datatype Bank = Bank(selected: bv8, verified: bool)

  datatype Rate = Rate(pixelKhz: nat, linkKhz: nat, depth: nat)

  /** A completed setup waiting for its link: waits counted, repeats made. */
  datatype Wait = Wait(pending: bool, polls: nat, restarts: nat)

  /** The fields of the driver's result record that decide what happens next. */
  datatype Record = Record(
    phase: nat, prerequisiteError: bool, wrote: bool,
    irqValid: bool,           // the first interrupt register was read: the setup's writes follow
    setupComplete: bool, outputEnabled: bool,
    last: Last, bank: Bank, rate: Rate, wait: Wait)

  const EMPTY := Record(0, false, false, false, false, false, Last(0, 0, false), Bank(0, false), Rate(0, 0, 0),
                        Wait(false, 0, 0))

  /** What the preflight finds: the transmitter's status and three registers of the source. */
  datatype Look = Unread | Read(tx: bv8, rx8: bv8, rx11: bv8, rx17: bv8)

  /** A register read that returned its byte, and whether the engine showed it completed. */
  datatype Seen = Seen(address: nat, reg: nat, value: bv8, done: bool)

  /** What the chips answer when the clock is measured: the timer's reference, the sum of
      ten counter samples, their exponent, and the source's color depth. */
  datatype Reading = Reading(referenceKhz: nat, sum: nat, exponent: nat, depth: nat)

  /** What the display allows; without a display's EDID the conservative limit applies. */
  datatype Sink = Sink(maxKhz: nat, scdc: bool)

  const RATIO := 340000    // kHz: the TMDS clock above which HDMI 2.0 changes its bit ratio

  /** gc573_splitter_video_link_wait. */
  predicate LinkWait(r: Record, error: Option<Error>) {
    && error == Some(ENOLINK)
    && if r.phase == 1 then !r.prerequisiteError && !r.wrote
       else r.phase == 8 && r.wait.pending && r.setupComplete && r.bank == Bank(0, true)
            && r.last.reg == 3 && r.last.readDone
  }

  /** gc573_splitter_video_format_wait. */
  predicate FormatWait(r: Record, error: Option<Error>) {
    error == Some(EOPNOTSUPP) && r.phase == 7 && r.bank == Bank(0, true) && r.last.readDone
  }

  /** A rate the running setup still fits: within a tenth, with the same bit ratio. */
  predicate SameRate(was: nat, now: nat) {
    was * 9 / 10 <= now <= was * 11 / 10 && (now > RATIO <==> was > RATIO)
  }

  /** The highest refresh rate, in Hz, of a picture size that is passed on. */
  function RefreshLimit(width: nat, height: nat): nat {
    if (width == 640 && height == 480) || (width == 720 && (height == 480 || height == 576)) then 60
    else if width == 1280 && height == 720 then 120
    else if width == 1920 && height == 1080 then 240
    else if width == 2560 && height == 1440 then 144
    else if width == 3840 && height == 2160 then 60 else 0
  }

  /** The quotient as the driver keeps it, in 32 bits. */
  function Millihz(pixelKhz: nat, htotal: nat, vtotal: nat): nat
    requires htotal * vtotal > 0
  {
    Quotient(pixelKhz * 1000000, htotal * vtotal) % 0x1_0000_0000
  }

  /** gc573_splitter_video_rate: the pixel and link clocks from ten counter samples. */
  function RateOf(x: Reading): Option<Rate> {
    var Reading(referenceKhz, sum, exponent, depth) := x;
    if referenceKhz < 10000 || referenceKhz > 26214 || exponent > 7 || depth > 15 then None
    else
      var denominator := Quotient(sum, Divisor(exponent));
      if denominator == 0 then None
      else
        var pixel := Quotient(referenceKhz * 4096, denominator);
        var link := if depth % 4 == 1 then pixel * 5 / 4 else if depth % 4 == 2 then pixel * 3 / 2 else pixel;
        if link == 0 || link >= 621000 then None else Some(Rate(pixel, link, depth))
  }

  function Divisor(exponent: nat): (d: nat)
    ensures d > 0
  {
    if exponent == 0 then 10 else 2 * Divisor(exponent - 1)
  }

  function Quotient(n: nat, d: nat): (q: nat)
    requires d > 0
    ensures q <= n
  {
    SmallQuotient(n, d, n / d, n % d);
    n / d
  }

  lemma SmallQuotient(n: nat, d: nat, q: nat, rest: nat)
    requires d > 0 && n == q * d + rest
    ensures q <= n
  {
    assert q * d == q + q * (d - 1);
  }

  /** No intermediate value leaves 32 bits, and the two clocks agree up to the depth. */
  lemma RateFits(x: Reading)
    requires RateOf(x).Some?
    ensures var rate := RateOf(x).value;
      && 0 < rate.pixelKhz <= rate.linkKhz < 621000 && rate.linkKhz <= rate.pixelKhz * 3 / 2
      && x.referenceKhz * 4096 < 0x1_0000_0000 && rate.pixelKhz * 5 < 0x1_0000_0000
  {
    hide Divisor, Quotient;
  }

  /** The rate in numbers: the counter sum over ten samples and the exponent's power of two
      divides the reference; ten bits a colour make the link a quarter faster, twelve a half. */
  lemma RateExact(x: Reading)
    requires 10000 <= x.referenceKhz <= 26214 && x.exponent <= 7 && x.depth <= 15
    ensures var per := x.sum / [10, 20, 40, 80, 160, 320, 640, 1280][x.exponent];
      if per == 0 then RateOf(x).None?
      else
        var pixel := x.referenceKhz * 4096 / per;
        var link := if x.depth % 4 == 1 then pixel * 5 / 4 else if x.depth % 4 == 2 then pixel * 3 / 2 else pixel;
        RateOf(x) == if 0 < link < 621000 then Some(Rate(pixel, link, x.depth)) else None
  {
    hide Quotient;
    DivisorIs(x.exponent);
    QuotientIs(x.sum, Divisor(x.exponent));
    var per := x.sum / Divisor(x.exponent);
    if per > 0 {
      QuotientIs(x.referenceKhz * 4096, per);
    }
  }

  lemma QuotientIs(n: nat, d: nat)
    requires d > 0
    ensures Quotient(n, d) == n / d
  {
  }

  lemma DivisorIs(exponent: nat)
    requires exponent <= 7
    ensures Divisor(exponent) == [10, 20, 40, 80, 160, 320, 640, 1280][exponent]
  {
    if exponent > 0 {
      DivisorIs(exponent - 1);
    }
  }

  lemma ReadingsLast(before: seq<Reading>, mid: seq<Reading>, after: seq<Reading>, was: nat, rate: Rate)
    requires before <= mid <= after
    ensures SameSource(before, mid, was) ==> SameSource(before, after, was)
    ensures LastMeasured(mid, after, rate) ==> LastMeasured(before, after, rate)
  {
    hide RateOf;
  }

  /** What no step behind the clock measurement changes. */
  predicate SameSetup(r: Record, r': Record) {
    r'.rate == r.rate && r'.setupComplete == r.setupComplete && r'.irqValid == r.irqValid
    && r'.wait.polls == r.wait.polls && r'.wait.restarts == r.wait.restarts
  }

  /** The first measurement behind `before` fits a setup made for `was`, or does not: within
      a tenth of its rate, and on the same side of 340 MHz. */
  ghost predicate SameSource(before: seq<Reading>, after: seq<Reading>, was: nat) {
    && before < after && RateOf(after[|before|]).Some?
    && var now := RateOf(after[|before|]).value.linkKhz;
      was * 9 / 10 <= now <= was * 11 / 10 && (now > 340000 <==> was > 340000)
  }

  ghost predicate OtherSource(before: seq<Reading>, after: seq<Reading>, was: nat) {
    && before < after && RateOf(after[|before|]).Some?
    && var now := RateOf(after[|before|]).value.linkKhz;
      now < was * 9 / 10 || now > was * 11 / 10 || (now > 340000 && was <= 340000) || (now <= 340000 && was > 340000)
  }

  /** The newest measurement behind `before` gave this rate. */
  ghost predicate LastMeasured(before: seq<Reading>, after: seq<Reading>, rate: Rate) {
    before < after && RateOf(after[|after| - 1]) == Some(rate)
  }

  // --------------------------------------------------- what the reads say

  /** The display or the source is away: no hot plug, no clock, or the wrong input. */
  ghost predicate Down(look: Look) {
    && look.Read?
    && (look.tx & 0x07 != 0x07 || look.rx8 & 0x10 == 0 || look.rx11 & 0x80 == 0 || look.rx17 & 0x13 != 0x02)
  }

  /** A rate the display was told it may get; without a display's EDID, one below 150 MHz. */
  ghost predicate RateAllowed(khz: nat, sink: Option<Sink>) {
    match sink
    case None => khz < 150000
    case Some(s) => khz <= s.maxKhz && (khz > 340000 ==> s.scdc)
  }

  /** The reads of a validation: the colour format in bank 2, then in bank 0 the rest. */
  ghost predicate Shown(a: seq<Seen>) {
    && |a| >= 5 && (forall i: nat :: i < 5 ==> a[i].address == 0x38)
    && a[0].reg == 0x0f && a[0].value == 2 && a[1].reg == 0x15 && a[2].reg == 0x0f && a[2].value == 0
    && a[3].reg == 0xcf && a[4].reg == 0x13
  }

  /** 8-bit RGB, not encrypted, the expected link state, and a rate that is allowed. */
  ghost predicate Plain(a: seq<Seen>, rate: Rate, sink: Option<Sink>)
    requires |a| >= 5
  {
    && a[1].value & 0x60 == 0 && rate.depth % 4 == 0 && a[3].value & 0x20 == 0 && a[4].value & 0x13 == 0x13
    && RateAllowed(rate.linkKhz, sink)
  }

  ghost predicate Timed(a: seq<Seen>) {
    |a| >= 21 && forall i: nat :: 5 <= i < 21 ==> a[i].address == 0x38 && a[i].reg == 0x9b + (i - 5)
  }

  /** A fourteen-bit count at offset k of the timing. */
  ghost function Count(a: seq<Seen>, k: nat): nat
    requires |a| >= 21 && k < 15
  {
    a[5 + k].value as nat + 256 * ((a[6 + k].value & 0x3f) as nat)
  }

  ghost predicate Framed(a: seq<Seen>)
    requires |a| >= 21
  {
    0 < Count(a, 2) < Count(a, 0) && 0 < Count(a, 9) < Count(a, 7)
  }

  /** A known size, at most one percent above its highest refresh rate, in mHz. */
  ghost predicate RefreshFits(a: seq<Seen>, pixelKhz: nat)
    requires |a| >= 21 && Framed(a)
  {
    var size, mhz := (Count(a, 2), Count(a, 9)), PerFrame(pixelKhz * 1000000, Count(a, 0), Count(a, 7));
    || (size in {(640, 480), (720, 480), (720, 576), (3840, 2160)} && mhz <= 60600)
    || (size == (1280, 720) && mhz <= 121200) || (size == (1920, 1080) && mhz <= 242400)
    || (size == (2560, 1440) && mhz <= 145440)
  }

  ghost function PerFrame(n: nat, htotal: nat, vtotal: nat): nat
    requires htotal > 0 && vtotal > 0
  {
    Quotient(n, Product(htotal, vtotal))
  }

  function Product(m: nat, n: nat): (p: nat)
    ensures m > 0 && n > 0 ==> p > 0
  {
    m * n
  }

  /** A validation that read everything it needs and accepts; with a display that includes
      the timing. */
  ghost predicate Accepted(a: seq<Seen>, rate: Rate, sink: Option<Sink>) {
    && Shown(a) && Plain(a, rate, sink)
    && if sink.None? then |a| == 5 else |a| == 21 && Timed(a) && Framed(a) && RefreshFits(a, rate.pixelKhz)
  }

  /** A validation that read what it needs and refuses the format. */
  ghost predicate Refused(a: seq<Seen>, rate: Rate, sink: Option<Sink>) {
    && Shown(a)
    && if |a| == 5 then !Plain(a, rate, sink)
       else |a| == 21 && sink.Some? && Plain(a, rate, sink) && Timed(a) && Framed(a) && !RefreshFits(a, rate.pixelKhz)
  }

  /** A validation that read a picture as large as its frame, or none. */
  ghost predicate Unframed(a: seq<Seen>, rate: Rate, sink: Option<Sink>) {
    Shown(a) && |a| == 21 && sink.Some? && Plain(a, rate, sink) && Timed(a) && !Framed(a)
  }

  /** What a validation decides, by its own reads. */
  ghost predicate Verdict(ret: Option<Error>, a: seq<Seen>, rate: Rate, sink: Option<Sink>) {
    && (ret.None? <==> Accepted(a, rate, sink))
    && (ret == Some(EOPNOTSUPP) <==> Refused(a, rate, sink))
    && (ret == Some(ERANGE) <==> Unframed(a, rate, sink))
    && (ret.Some? && ret != Some(EOPNOTSUPP) && ret != Some(ERANGE) ==> Transport(ret))
  }

  /** The newest read is the transmitter's status, with or without the lock. */
  ghost predicate LockRead(answers: seq<Seen>, port: nat, locked: bool) {
    && answers != []
    && var last := answers[|answers| - 1];
      last.address == 0x34 + port && last.reg == 3 && (last.value & 0x0f == 0x0f <==> locked)
  }

  /** The newest reads are an accepted validation and, behind it, a locked status. */
  ghost predicate Ready(answers: seq<Seen>, rate: Rate, sink: Option<Sink>, port: nat) {
    && LockRead(answers, port, true)
    && var n := if sink.None? then 5 else 21;
      |answers| > n && Accepted(answers[|answers| - 1 - n..|answers| - 1], rate, sink)
  }

  /** A completed read of the status is the newest, and shows no lock. */
  ghost predicate Late(answers: seq<Seen>, port: nat) {
    LockRead(answers, port, false) && answers[|answers| - 1].done
  }

  /** The newest reads are a refused validation, with its last read completed. */
  ghost predicate Odd(answers: seq<Seen>, rate: Rate, sink: Option<Sink>) {
    && answers != [] && answers[|answers| - 1].done
    && (|| (|answers| >= 5 && Refused(answers[|answers| - 5..], rate, sink))
        || (|answers| >= 21 && Refused(answers[|answers| - 21..], rate, sink)))
  }

  /** A call's newest look found the display or the source away. */
  ghost predicate Away(was: seq<Look>, now: seq<Look>) {
    |now| > |was| && Down(now[|now| - 1])
  }

  /** The newest read is of the receiver's bank, and shows another one than was selected:
      bank 2, and behind the read of the colour bank 0. */
  ghost predicate Misbanked(answers: seq<Seen>) {
    && answers != [] && answers[|answers| - 1].address == 0x38 && answers[|answers| - 1].reg == 0x0f
    && (|| answers[|answers| - 1].value != 2
        || (answers[|answers| - 1].value != 0 && |answers| >= 2 && answers[|answers| - 2].reg == 0x15))
  }

  /** The newest reads are a validation that was refused, or that read no picture. */
  ghost predicate Rejected(answers: seq<Seen>, rate: Rate, sink: Option<Sink>) {
    || (|answers| >= 5 && Refused(answers[|answers| - 5..], rate, sink))
    || (|answers| >= 21 && Refused(answers[|answers| - 21..], rate, sink))
    || (|answers| >= 21 && Unframed(answers[|answers| - 21..], rate, sink))
  }

  /** Something a call read kept it from setting up the output: the source or the display is
      away, the clock gives no rate, the newest validation was refused, or the newest read
      shows no lock or the wrong bank. */
  ghost predicate Obstacle(looks: seq<Look>, looks': seq<Look>, readings: seq<Reading>, readings': seq<Reading>,
                           answers: seq<Seen>, answers': seq<Seen>, rate: Rate, sink: Option<Sink>, port: nat)
  {
    || Away(looks, looks')
    || (|readings'| > |readings| && RateOf(readings'[|readings'| - 1]).None?)
    || (|answers'| > |answers| && Kept(answers', rate, sink, port))
  }

  ghost predicate Kept(answers: seq<Seen>, rate: Rate, sink: Option<Sink>, port: nat) {
    LockRead(answers, port, false) || Misbanked(answers) || Rejected(answers, rate, sink)
  }

  /** A waiting setup's source was read and accepted, and a completed read of the status
      showed no lock. */
  ghost predicate Stalled(a: seq<Seen>, rate: Rate, sink: Sink, port: nat) {
    && |a| >= 22 && Accepted(a[..21], rate, Some(sink))
    && a[21].address == 0x34 + port && a[21].reg == 3 && a[21].done && a[21].value & 0x0f != 0x0f
  }

  /** A stalled wait is counted once; the sixth is answered by one attempt to set up from
      scratch, and after that nothing is counted or repeated. */
  ghost predicate Counts(was: Wait, stalled: bool, now: Wait, attempts: int) {
    if was.restarts == 0 && stalled
    then if was.polls < 5
         then now == Wait(true, was.polls + 1, 0) && attempts == 0
         else was.polls == 5 && now.polls == 6 && now.restarts == 1 && attempts == 1
    else now.polls == was.polls && now.restarts == was.restarts && attempts == 0
  }

  /** The newest read of a call is a completed one that shows no lock, and the call says so. */
  ghost predicate Later(was: seq<Seen>, now: seq<Seen>, port: nat, ret: Option<Error>) {
    ret == Some(ENOLINK) && |now| > |was| && Late(now, port)
  }

  ghost predicate Odder(was: seq<Seen>, now: seq<Seen>, rate: Rate, sink: Option<Sink>, ret: Option<Error>) {
    ret == Some(EOPNOTSUPP) && |now| > |was| && Odd(now, rate, sink)
  }

  /** A completed setup whose last step was to read its status, in bank 0. */
  ghost predicate Waiting(r: Record, port: nat) {
    r.phase == 8 && r.setupComplete && r.bank == Bank(0, true) && r.last.address == 0x34 + port && r.last.reg == 3
  }

  /** What resuming a waiting setup does, by what it read.  A setup whose status was not read
      to its end is left alone.  Else the source is looked at once; if its rate fits the
      setup, stalled waits are counted and the sixth is answered by one setup from scratch. */
  ghost predicate Resumed(was: Record, looks: seq<Look>, looks': seq<Look>, readings: seq<Reading>, readings': seq<Reading>,
                          answers: seq<Seen>, answers': seq<Seen>, sink: Sink, port: nat, ret: Option<Error>, r: Record)
    requires answers <= answers' && looks <= looks'
  {
    if !was.last.readDone then ret == Some(EINVAL) && r == was && looks' == looks && answers' == answers
    else
      && |looks'| > |looks|
      && (answers' != answers ==> SameSource(readings, readings', was.rate.linkKhz))
      && Counts(was.wait, SameSource(readings, readings', was.rate.linkKhz)
                          && Stalled(answers'[|answers|..], RateOf(readings'[|readings|]).value, sink, port),
                r.wait, |looks'| - |looks| - 1)
  }

  function Joined(low: bv8, high: bv8): nat {
    low as nat + 256 * ((high & 63) as nat)
  }

  lemma VerdictKept(was: seq<Seen>, now: seq<Seen>, ret: Option<Error>, rate: Rate, sink: Option<Sink>, port: nat)
    requires was <= now && Verdict(ret, now[|was|..], rate, sink) && (ret == Some(EOPNOTSUPP) || ret == Some(ERANGE))
    ensures |now| > |was| && Kept(now, rate, sink, port)
  {
    var a := now[|was|..];
    if |a| == 5 {
      assert now[|now| - 5..] == a;
    } else {
      assert now[|now| - 21..] == a;
    }
  }

  lemma MisbankedKept(answers: seq<Seen>, rate: Rate, sink: Option<Sink>, port: nat)
    ensures Misbanked(answers) ==> Kept(answers, rate, sink, port)
  {
  }

  lemma NoVerdict(ret: Option<Error>, a: seq<Seen>, rate: Rate, sink: Option<Sink>)
    requires ret.Some? && Transport(ret) && |a| < 21 && (|a| == 5 ==> !Shown(a) || (sink.Some? && Plain(a, rate, sink)))
    ensures Verdict(ret, a, rate, sink)
  {
  }

  lemma ShownIs(was: seq<Seen>, color: bv8, cf: bv8, rx13: bv8, now: seq<Seen>,
                d0: bool, d1: bool, d2: bool, d3: bool, d4: bool)
    requires now == was + [Seen(0x38, 0x0f, 2, d0)] + [Seen(0x38, 0x15, color, d1)] + [Seen(0x38, 0x0f, 0, d2)]
                    + [Seen(0x38, 0xcf, cf, d3)] + [Seen(0x38, 0x13, rx13, d4)]
    ensures was <= now && |now| == |was| + 5
    ensures var a := now[|was|..]; Shown(a) && a[1].value == color && a[3].value == cf && a[4].value == rx13
  {
  }

  lemma FormatVerdict(a: seq<Seen>, color: bv8, cf: bv8, rx13: bv8, rate: Rate, sink: Option<Sink>, tooFast: bool)
    requires Shown(a) && |a| == 5 && a[1].value == color && a[3].value == cf && a[4].value == rx13
    requires tooFast <==> match sink
                          case Some(s) => rate.linkKhz > s.maxKhz || (rate.linkKhz > RATIO && !s.scdc)
                          case None => rate.linkKhz >= 150000
    ensures Plain(a, rate, sink) <==>
              !(color & 0x60 != 0 || rate.depth % 4 != 0 || cf & 0x20 != 0 || rx13 & 0x13 != 0x13 || tooFast)
    ensures !Plain(a, rate, sink) ==> Verdict(Some(EOPNOTSUPP), a, rate, sink)
    ensures Plain(a, rate, sink) && sink.None? ==> Verdict(None, a, rate, sink)
  {
  }

  lemma ShownLasts(s: seq<Seen>, a: seq<Seen>, rate: Rate, sink: Option<Sink>)
    requires s <= a && |s| == 5 && Shown(s)
    ensures Shown(a) && (Plain(a, rate, sink) <==> Plain(s, rate, sink))
  {
    assert forall i: nat :: i < 5 ==> a[i] == s[i];
  }

  lemma TimingIs(was: seq<Seen>, shown: seq<Seen>, now: seq<Seen>, t: seq<bv8>, rate: Rate, sink: Option<Sink>)
    requires was <= shown <= now && |shown| == |was| + 5 && |now| == |shown| + 16 && |t| == 16
    requires Shown(shown[|was|..])
    requires forall i: nat :: |shown| <= i < |now| ==>
               now[i].address == 0x38 && now[i].reg == 0x9b + (i - |shown|) && now[i].value == t[i - |shown|]
    ensures var a := now[|was|..];
      && Shown(a) && Timed(a) && (Plain(a, rate, sink) <==> Plain(shown[|was|..], rate, sink))
      && forall k: nat :: k < 15 ==> Count(a, k) == Joined(t[k], t[k + 1])
  {
    hide Shown, Plain;
    var a := now[|was|..];
    ShownLasts(shown[|was|..], a, rate, sink);
    assert forall i: nat :: 5 <= i < 21 ==> a[i] == now[|was| + i];
    assert forall k: nat :: k < 16 ==> a[5 + k].value == t[k];
  }

  lemma Totals(ht: nat, vt: nat)
    ensures ht > 0 && vt > 0 ==> ht * vt > 0
  {
  }

  lemma Distributes(m: nat, n: nat, k: nat)
    ensures (m + n) * k == m * k + n * k
  {
  }

  lemma LargeProduct(ht: nat, vt: nat)
    requires ht > 640 && vt > 480
    ensures ht * vt >= 300000
  {
    Distributes(ht - 641, 641, vt);
  }

  lemma SmallRate(n: nat, d: nat, q: nat, rest: nat)
    requires n < 621000000000 && d >= 300000 && n == q * d + rest
    ensures q < 0x1_0000_0000
  {
    assert q * d == q * 300000 + q * (d - 300000);
  }

  /** The 32-bit quotient is exact for every size that is passed on. */
  lemma MillihzExact(pixelKhz: nat, ht: nat, vt: nat)
    requires pixelKhz < 621000 && ht > 640 && vt > 480
    ensures ht * vt > 0 && Millihz(pixelKhz, ht, vt) == PerFrame(pixelKhz * 1000000, ht, vt)
  {
    hide Quotient;
    LargeProduct(ht, vt);
    var n, d := pixelKhz * 1000000, ht * vt;
    QuotientIs(n, d);
    SmallRate(n, d, n / d, n % d);
  }

  lemma TimingVerdict(a: seq<Seen>, t: seq<bv8>, rate: Rate, sink: Option<Sink>)
    requires |a| == 21 && |t| == 16 && Shown(a) && Timed(a) && Plain(a, rate, sink) && sink.Some? && rate.pixelKhz < 621000
    requires forall k: nat :: k < 15 ==> Count(a, k) == Joined(t[k], t[k + 1])
    ensures var w, h, ht, vt := Joined(t[2], t[3]), Joined(t[9], t[10]), Joined(t[0], t[1]), Joined(t[7], t[8]);
      if w == 0 || h == 0 || w >= ht || h >= vt then Verdict(Some(ERANGE), a, rate, sink)
      else
        && ht * vt > 0
        && if RefreshLimit(w, h) == 0 || Millihz(rate.pixelKhz, ht, vt) > RefreshLimit(w, h) * 1010
           then Verdict(Some(EOPNOTSUPP), a, rate, sink) else Verdict(None, a, rate, sink)
  {
    hide Shown, Timed, Plain, Joined, Count, Millihz, PerFrame;
    var w, h, ht, vt := Joined(t[2], t[3]), Joined(t[9], t[10]), Joined(t[0], t[1]), Joined(t[7], t[8]);
    assert Count(a, 2) == w && Count(a, 9) == h && Count(a, 0) == ht && Count(a, 7) == vt;
    if !(w == 0 || h == 0 || w >= ht || h >= vt) {
      Totals(ht, vt);
      if RefreshLimit(w, h) != 0 {
        MillihzExact(rate.pixelKhz, ht, vt);
      }
    }
  }

  /** A validation that ended decides which wait its caller is in: none with an accepted
      format, and the format's with a refused one. */
  lemma VerdictWaits(was: seq<Seen>, now: seq<Seen>, ret: Option<Error>, rate: Rate, sink: Option<Sink>, port: nat)
    requires was <= now && Verdict(ret, now[|was|..], rate, sink)
    ensures !Later(was, now, port, ret)
    ensures ret.None? ==> Accepted(now[|was|..], rate, sink)
    ensures ret.None? ==>
              |now| > |was| && !Odd(now, rate, sink) && !LockRead(now, port, false) && RateAllowed(rate.linkKhz, sink)
    ensures ret == Some(EOPNOTSUPP) ==> |now| > |was| && (Odd(now, rate, sink) <==> now[|now| - 1].done)
  {
    var a := now[|was|..];
    if ret.None? || ret == Some(EOPNOTSUPP) {
      assert now[|now| - 1] == a[|a| - 1];
      if |a| == 5 {
        assert now[|now| - 5..] == a;
      } else {
        assert now[|now| - 21..] == a;
        assert now[|now| - 5] == a[16];
      }
    }
  }

  /** Behind an accepted validation, the status read decides. */
  lemma FinishWaits(was: seq<Seen>, mid: seq<Seen>, now: seq<Seen>, rate: Rate, sink: Option<Sink>, port: nat)
    requires was <= mid <= now && |now| <= |mid| + 1 && Accepted(mid[|was|..], rate, sink)
    ensures |now| > |mid| && LockRead(now, port, true) ==> Ready(now, rate, sink, port)
  {
    if |now| > |mid| {
      assert mid == now[..|now| - 1];
      assert now[|was|..|now| - 1] == mid[|was|..];
    }
  }

  lemma StalledIs(was: seq<Seen>, mid: seq<Seen>, now: seq<Seen>, rate: Rate, sink: Sink, port: nat)
    requires was <= mid <= now && |now| <= |mid| + 1 && Accepted(mid[|was|..], rate, Some(sink))
    ensures Stalled(now[|was|..], rate, sink, port) <==> |now| > |mid| && Late(now, port)
    ensures forall later: seq<Seen> :: now <= later && |now| > |mid| ==>
              (Stalled(later[|was|..], rate, sink, port) <==> Stalled(now[|was|..], rate, sink, port))
  {
    hide Accepted;
    AcceptedLong(mid[|was|..], rate, sink);
    var a := now[|was|..];
    if |now| > |mid| {
      assert a[..21] == mid[|was|..] && a[21] == now[|now| - 1];
      forall later: seq<Seen> | now <= later
        ensures Stalled(later[|was|..], rate, sink, port) <==> Stalled(a, rate, sink, port)
      {
        assert later[|was|..][..21] == a[..21] && later[|was|..][21] == a[21];
      }
    }
  }

  lemma AcceptedLong(a: seq<Seen>, rate: Rate, sink: Sink)
    requires Accepted(a, rate, Some(sink))
    ensures |a| == 21
  {
  }

  lemma ShortUnstalled(a: seq<Seen>, rate: Rate, sink: Sink, port: nat)
    requires |a| < 22
    ensures !Stalled(a, rate, sink, port)
  {
  }

  lemma NothingResumed(was: Record, looks: seq<Look>, looks': seq<Look>, readings: seq<Reading>, readings': seq<Reading>,
                       answers: seq<Seen>, sink: Sink, port: nat, ret: Option<Error>, r: Record)
    requires looks <= looks' && |looks'| == |looks| + (if was.last.readDone then 1 else 0)
    requires was.last.readDone || (ret == Some(EINVAL) && r == was && looks' == looks)
    requires r.wait.polls == was.wait.polls && r.wait.restarts == was.wait.restarts
    ensures Resumed(was, looks, looks', readings, readings', answers, answers, sink, port, ret, r)
  {
    hide RateOf;
    assert answers[|answers|..] == [];
  }

  lemma TransportWaits(r: Record, ret: Option<Error>, was: seq<Seen>, now: seq<Seen>, rate: Rate,
                       sink: Option<Sink>, port: nat)
    requires ret.Some? && Transport(ret)
    ensures !LinkWait(r, ret) && !FormatWait(r, ret) && !Later(was, now, port, ret) && !Odder(was, now, rate, sink, ret)
  {
  }

  lemma NothingRead(was: seq<Seen>, now: seq<Seen>, rate: Rate, sink: Option<Sink>, port: nat, ret: Option<Error>)
    requires was == now
    ensures !Later(was, now, port, ret) && !Odder(was, now, rate, sink, ret)
  {
  }

  lemma LockIs(was: seq<Seen>, last: Last, status: bv8, now: seq<Seen>, port: nat)
    requires last.address == 0x34 + port && last.reg == 3
    requires now == was + [Seen(0x34 + port, 3, status, last.readDone)]
    ensures was <= now && |now| == |was| + 1
    ensures LockRead(now, port, true) <==> status & 0x0f == 0x0f
    ensures LockRead(now, port, false) <==> status & 0x0f != 0x0f
    ensures last == Last(0x34 + port, 3, now[|now| - 1].done)
  {
  }

  lemma LockIsNoFormat(answers: seq<Seen>, port: nat, locked: bool, rate: Rate, sink: Option<Sink>)
    requires LockRead(answers, port, locked)
    ensures !Odd(answers, rate, sink)
  {
  }

  /** What a later part of a call reads decides its waits; a part that reads nothing behind
      an accepted validation or a look for the lock leaves none. */
  lemma LaterStill(was: seq<Seen>, mid: seq<Seen>, now: seq<Seen>, port: nat, ret: Option<Error>, rate: Rate,
                   sink: Option<Sink>)
    requires was <= mid <= now && !Odd(mid, rate, sink)
    requires !LockRead(mid, port, false) || (ret == Some(ENOLINK) ==> |now| > |mid|)
    ensures Later(was, now, port, ret) <==> Later(mid, now, port, ret)
    ensures Odder(was, now, rate, sink, ret) <==> Odder(mid, now, rate, sink, ret)
  {
    hide Odd;
    if |now| == |mid| {
      assert now == mid;
    }
  }

  /** The transmitter: its record, how often it was set up in all and before the latest
      fresh setup, and how often its output was enabled.  The counts are made by the steps
      that program the chip, and a completed setup with its output enabled enters the
      journal there.  The steps that read the chips keep what they read: the preflight in
      `looks`, the clock in `readings`, validations and the lock in `answers`; `outcomes` is
      how the observations ended. */
  class Transmitter {
    const port: nat
    const journal: Journal
    var r: Record
    ghost var setups: nat
    ghost var base: nat
    ghost var enables: nat
    ghost var looks: seq<Look>
    ghost var readings: seq<Reading>
    ghost var answers: seq<Seen>
    ghost var troubles: nat           // failed transfers, and refusals of parts left open here
    ghost var outcomes: seq<Option<Error>>

    constructor (port: nat, journal: Journal)
      ensures Valid() && r == EMPTY && this.port == port && this.journal == journal
    {
      this.port, this.journal, r, setups, base, enables := port, journal, EMPTY, 0, 0, 0;
      looks, readings, answers, outcomes, troubles := [], [], [], [], 0;
    }

    /** Port 1 feeds the receiver inside the card, port 2 the display. */
    function Up(): Event {
      if port == 1 then InternalUp else ExternalUp
    }

    /** Since the latest fresh setup the transmitter was set up at most once, and once more
        only after exactly six waits; only a completed setup waits for its link, and the
        last thing it did was to read its status with the receiver in bank 0. */
    ghost predicate Valid()
      reads this
    {
      && r.wait.polls <= 6 && r.wait.restarts <= 1 && (r.wait.restarts == 1 <==> r.wait.polls == 6)
      && base <= setups <= base + 1 + r.wait.restarts && r.rate.pixelKhz < 621000
      && (r.wait.pending ==> Waiting(r, port))
    }

    /** The preflight's look at the link of the source. */
    method ReadLink() returns (look: Look)
      modifies this`looks, this`troubles
      ensures looks == old(looks) + [look] && troubles == old(troubles) + if look == Unread then 1 else 0
    {
      look := *;
      looks := looks + [look];
      if look == Unread {
        troubles := troubles + 1;
      }
    }

    /** The counter samples and the depth of the source. */
    method ReadClock() returns (failed: Option<Error>, x: Reading)
      modifies this`readings, this`troubles
      ensures readings == if failed.None? then old(readings) + [x] else old(readings)
      ensures Transport(failed) && troubles == old(troubles) + if failed.Some? then 1 else 0
    {
      x := *;
      failed := Access();
      if failed.None? {
        readings := readings + [x];
      }
    }

    /** Transfers that end well or fail on their way. */
    method Access() returns (failed: Option<Error>)
      modifies this`troubles
      ensures Transport(failed) && troubles == old(troubles) + if failed.Some? then 1 else 0
    {
      failed := *;
      if !Transport(failed) {
        failed := None;
      }
      if failed.Some? {
        troubles := troubles + 1;
      }
    }

    /** A part that is left open here: it goes well or not. */
    method Succeeds() returns (ok: bool)
      modifies this`troubles
      ensures troubles == old(troubles) + if ok then 0 else 1
    {
      ok := *;
      if !ok {
        troubles := troubles + 1;
      }
    }

    /** What a call does to the journal: a success is a completed setup. */
    twostate predicate Journals(new ret: Option<Error>)
      reads journal
    {
      journal.events == if ret.None? then old(journal.events) + [Up()] else old(journal.events)
    }

    /** video_read. */
    method Read(address: nat, reg: nat) returns (ret: Option<Error>, last: Last, value: bv8)
      modifies this`answers, this`troubles
      ensures last.address == address && last.reg == reg && Transport(ret) && troubles == old(troubles) + if ret.Some? then 1 else 0
      ensures answers == if ret.None? then old(answers) + [Seen(address, reg, value, last.readDone)] else old(answers)
    {
      var done: bool := *;
      value := *;
      last := Last(address, reg, done);
      ret := Access();
      if ret.None? {
        answers := answers + [Seen(address, reg, value, done)];
      }
    }

    /** video_rx_bank: write the bank and read it back. */
    method SelectBank(start: Bank, bank: bv8) returns (ret: Option<Error>, last: Last, bank': Bank)
      modifies this`answers, this`troubles
      ensures Transport(ret) && old(troubles) <= troubles
      ensures ret.None? ==>
                bank' == Bank(bank, true) && answers == old(answers) + [Seen(0x38, 0x0f, bank, last.readDone)]
      ensures ret.Some? ==> old(answers) <= answers && |answers| <= |old(answers)| + 1
      ensures troubles == old(troubles) && ret.Some? ==>
                exists v: bv8 :: v != bank && answers == old(answers) + [Seen(0x38, 0x0f, v, last.readDone)]
    {
      var done: bool, started: bool := *, *;
      last, bank' := Last(0x38, 0x0f, done), start;
      ret := Access();
      if ret.None? || started {
        bank' := start.(verified := false);
      }
      if ret.Some? {
        return;
      }
      var observed;
      ret, last, observed := Read(0x38, 0x0f);
      if ret.Some? {
        return;
      }
      if observed != bank {
        ret := Some(EIO);
        return;
      }
      bank' := Bank(bank, true);
    }

    /** The format: the AVI colour from bank 2, two registers from bank 0. */
    method ReadFormat(start: Bank)
      returns (ret: Option<Error>, last: Last, bank: Bank, color: bv8, cf: bv8, rx13: bv8)
      modifies this`answers, this`troubles
      ensures Transport(ret) && old(answers) <= answers && old(troubles) <= troubles
      ensures ret.Some? ==> |answers| < |old(answers)| + 5
      ensures ret.Some? && troubles == old(troubles) ==> |answers| > |old(answers)| && Misbanked(answers)
      ensures ret.None? ==>
                && bank == Bank(0, true) && |answers| == |old(answers)| + 5
                && answers[|answers| - 1].done == last.readDone
                && var a := answers[|old(answers)|..];
                  Shown(a) && a[1].value == color && a[3].value == cf && a[4].value == rx13
    {
      hide Shown;
      color, cf, rx13 := 0, 0, 0;
      ghost var was := answers;
      ret, last, bank := SelectBank(start, 2);
      if ret.Some? {
        return;
      }
      ghost var first := last.readDone;
      ret, last, color := Read(0x38, 0x15);
      if ret.Some? {
        return;
      }
      ghost var second := last.readDone;
      ret, last, bank := SelectBank(bank, 0);
      if ret.Some? {
        return;
      }
      ghost var third := last.readDone;
      ret, last, cf := Read(0x38, 0xcf);
      if ret.Some? {
        return;
      }
      ghost var fourth := last.readDone;
      ret, last, rx13 := Read(0x38, 0x13);
      if ret.None? {
        ShownIs(was, color, cf, rx13, answers, first, second, third, fourth, last.readDone);
      }
    }

    /** The sixteen timing registers. */
    method ReadTiming(before: Last) returns (ret: Option<Error>, last: Last, t: seq<bv8>)
      modifies this`answers, this`troubles
      ensures Transport(ret) && old(answers) <= answers && troubles == old(troubles) + if ret.Some? then 1 else 0
      ensures |t| <= 16 && |answers| == |old(answers)| + |t| && (ret.None? <==> |t| == 16)
      ensures forall i: nat :: |old(answers)| <= i < |answers| ==>
                answers[i].address == 0x38 && answers[i].reg == 0x9b + (i - |old(answers)|)
                && answers[i].value == t[i - |old(answers)|]
      ensures ret.None? ==> answers[|answers| - 1].done == last.readDone
    {
      last, t := before, [];
      while |t| < 16
        invariant |t| <= 16 && |answers| == |old(answers)| + |t| && old(answers) <= answers && troubles == old(troubles)
        invariant t != [] ==> answers[|answers| - 1].done == last.readDone
        invariant forall i: nat :: |old(answers)| <= i < |answers| ==>
                    answers[i].address == 0x38 && answers[i].reg == 0x9b + (i - |old(answers)|)
                    && answers[i].value == t[i - |old(answers)|]
      {
        var v;
        ret, last, v := Read(0x38, 0x9b + |t|);
        if ret.Some? {
          return;
        }
        t := t + [v];
      }
      ret := None;
    }

    /** video_validate: the live source must be one the display was told about. */
    method Validate(start: Record, sink: Option<Sink>) returns (ret: Option<Error>, r': Record)
      requires start.rate.pixelKhz < 621000
      modifies this`answers, this`troubles
      ensures old(answers) <= answers && |answers| <= |old(answers)| + 21
      ensures Verdict(ret, answers[|old(answers)|..], start.rate, sink)
      ensures old(troubles) <= troubles
      ensures ret.Some? && troubles == old(troubles) ==> |answers| > |old(answers)| && Kept(answers, start.rate, sink, port)
      ensures SameSetup(start, r') && r'.phase == 7 && r'.wait == start.wait && ret != Some(ENOLINK) && ret != Some(EAGAIN)
      ensures ret.None? || ret == Some(EOPNOTSUPP) ==>
                r'.bank == Bank(0, true) && answers != [] && answers[|answers| - 1].done == r'.last.readDone
    {
      hide Shown, Verdict, Plain, Kept;
      ghost var was := answers;
      var last, bank, color, cf, rx13;
      ret, last, bank, color, cf, rx13 := ReadFormat(start.bank);
      r' := start.(phase := 7, last := last, bank := bank);
      if ret.Some? {
        NoVerdict(ret, answers[|was|..], start.rate, sink);
        MisbankedKept(answers, start.rate, sink, port);
        return;
      }
      var tooFast := match sink
        case Some(s) => r'.rate.linkKhz > s.maxKhz || (r'.rate.linkKhz > RATIO && !s.scdc)
        case None => r'.rate.linkKhz >= 150000;
      FormatVerdict(answers[|was|..], color, cf, rx13, r'.rate, sink, tooFast);
      if color & 0x60 != 0 || r'.rate.depth % 4 != 0 || cf & 0x20 != 0 || rx13 & 0x13 != 0x13 || tooFast {
        VerdictKept(was, answers, Some(EOPNOTSUPP), start.rate, sink, port);
        return Some(EOPNOTSUPP), r';
      }
      if sink.Some? {
        ret, last := ValidateTiming(last, r'.rate, sink, was);
        r' := r'.(last := last);
        return;
      }
      return None, r';
    }

    /** The part of video_validate for a display: the picture, and its refresh rate. */
    method ValidateTiming(before: Last, rate: Rate, sink: Option<Sink>, ghost was: seq<Seen>)
      returns (ret: Option<Error>, last: Last)
      requires sink.Some? && rate.pixelKhz < 621000 && was <= answers && |answers| == |was| + 5
      requires Shown(answers[|was|..]) && Plain(answers[|was|..], rate, sink)
      modifies this`answers, this`troubles
      ensures old(answers) <= answers && |answers| <= |was| + 21 && Verdict(ret, answers[|was|..], rate, sink)
      ensures old(troubles) <= troubles
      ensures ret.Some? && troubles == old(troubles) ==> |answers| > |old(answers)| && Kept(answers, rate, sink, port)
      ensures ret != Some(ENOLINK) && ret != Some(EAGAIN)
      ensures ret.None? || ret == Some(EOPNOTSUPP) ==> answers[|answers| - 1].done == last.readDone
    {
      hide Shown, Plain, Verdict, Timed, RefreshLimit, Millihz, Joined, Count, Kept, Framed, RefreshFits;
      ghost var shown := answers;
      var t;
      ret, last, t := ReadTiming(before);
      ghost var a := answers[|was|..];
      if ret.Some? {
        ShownLasts(shown[|was|..], a, rate, sink);
        NoVerdict(ret, a, rate, sink);
        return;
      }
      TimingIs(was, shown, answers, t, rate, sink);
      var w, h, ht, vt := Joined(t[2], t[3]), Joined(t[9], t[10]), Joined(t[0], t[1]), Joined(t[7], t[8]);
      TimingVerdict(a, t, rate, sink);
      if w == 0 || h == 0 || w >= ht || h >= vt {
        VerdictKept(was, answers, Some(ERANGE), rate, sink, port);
        return Some(ERANGE), last;
      }
      var limit := RefreshLimit(w, h);
      if limit == 0 || Millihz(rate.pixelKhz, ht, vt) > limit * 1010 {
        VerdictKept(was, answers, Some(EOPNOTSUPP), rate, sink, port);
        return Some(EOPNOTSUPP), last;
      }
      return None, last;
    }

    /** video_finish_output: the link must be locked before the output is enabled. */
    method FinishOutput(start: Record) returns (ret: Option<Error>, r': Record)
      modifies this`enables, this`answers, this`troubles, journal
      ensures Journals(ret) && old(answers) <= answers && |answers| <= |old(answers)| + 1
      ensures enables > old(enables) ==> |answers| > |old(answers)| && LockRead(answers, port, true)
      ensures SameSetup(start, r') && r'.phase == start.phase && r'.bank == start.bank
      ensures ret.None? ==> r'.outputEnabled && !r'.wait.pending && enables == old(enables) + 1
      ensures r'.wait.pending && !start.wait.pending ==> ret == Some(ENOLINK)
      ensures ret == Some(ENOLINK) <==> |answers| > |old(answers)| && LockRead(answers, port, false)
      ensures ret == Some(ENOLINK) ==>
                && r'.wait.pending && enables == old(enables)
                && r'.last == Last(0x34 + port, 3, answers[|answers| - 1].done)
      ensures old(troubles) <= troubles && (ret.Some? && troubles == old(troubles) ==> ret == Some(ENOLINK))
      ensures ret != Some(EOPNOTSUPP) && ret != Some(EAGAIN)
    {
      hide LockRead;
      ghost var was := answers;
      var last, status;
      ret, last, status := Read(0x34 + port, 3);
      r' := start.(last := last);
      if ret.Some? {
        return;
      }
      LockIs(was, last, status, answers, port);
      if status & 0x0f != 0x0f {
        r' := r'.(wait := start.wait.(pending := true));
        return Some(ENOLINK), r';
      }
      var done: bool := *;
      var unmuted := Succeeds();
      r' := r'.(wait := start.wait.(pending := false), last := Last(0x34 + port, 0x91, done));
      if !unmuted {
        return Some(EIO), r';
      }
      enables := enables + 1;
      r' := r'.(last := Last(0x34 + port, 0xc1, done));
      var on := Succeeds();
      if !on {
        return Some(EIO), r';
      }
      journal.events := journal.events + [Up()];
      return None, r'.(outputEnabled := true);
    }

    /** The output table and the display's SCDC negotiation.  A display that has gone away
        reports a missing link, which is not a wait. */
    method Negotiate() returns (ret: Option<Error>)
      modifies this`troubles
      ensures ret != Some(EAGAIN) && troubles == old(troubles) + if ret.Some? then 1 else 0
    {
      ret := *;
      if ret == Some(EAGAIN) {
        ret := Some(EBUS);
      }
      if ret.Some? {
        troubles := troubles + 1;
      }
    }

    /** video_output behind the analog setup: validate again, program, then wait for lock. */
    method Output(start: Record, sink: Option<Sink>) returns (ret: Option<Error>, r': Record)
      requires !start.wait.pending && start.setupComplete && start.rate.pixelKhz < 621000
      modifies this`enables, this`answers, this`troubles, journal
      ensures Journals(ret) && old(answers) <= answers
      ensures enables > old(enables) ==> Ready(answers, r'.rate, sink, port)
      ensures SameSetup(start, r') && (r'.phase == 7 || r'.phase == 8)
      ensures r'.phase == 7 ==> ret.Some? && ret != Some(ENOLINK) && enables == old(enables)
      ensures r'.wait.pending ==> Waiting(r', port) && ret == Some(ENOLINK)
      ensures ret.None? ==> r'.outputEnabled && RateAllowed(r'.rate.linkKhz, sink) && enables == old(enables) + 1
      ensures ret == Some(ENOLINK) ==> enables == old(enables)
      ensures ret != Some(EAGAIN)
      ensures ret == Some(ENOLINK) ==> |answers| > |old(answers)|
      ensures old(troubles) <= troubles
      ensures ret.Some? && troubles == old(troubles) ==> |answers| > |old(answers)| && Kept(answers, r'.rate, sink, port)
      ensures LinkWait(r', ret) <==> Later(old(answers), answers, port, ret)
      ensures FormatWait(r', ret) <==> Odder(old(answers), answers, r'.rate, sink, ret)
    {
      hide Verdict, Accepted, Refused, RateAllowed, Ready, Odd;
      ghost var was := answers;
      ret, r' := Validate(start, sink);
      ghost var mid := answers;
      VerdictWaits(was, mid, ret, start.rate, sink, port);
      if ret.Some? {
        return;
      }
      var last: Last := *;
      r' := r'.(phase := 8, last := last);
      ret := Negotiate();
      if ret.Some? {
        return;
      }
      ret, r' := FinishOutput(r');
      FinishWaits(was, mid, answers, r'.rate, sink, port);
    }

    /** The part of video_clock that measures, with an empty record. */
    method Measure() returns (ret: Option<Error>, r': Record)
      modifies this`looks, this`readings, this`troubles
      ensures |looks| == |old(looks)| + 1 && old(looks) <= looks
      ensures Down(looks[|old(looks)|]) ==> ret == Some(ENOLINK) && readings == old(readings) && r'.phase == 1
      ensures old(troubles) <= troubles
      ensures ret.Some? && troubles == old(troubles) ==>
                || Down(looks[|old(looks)|])
                || (|readings| > |old(readings)| && RateOf(readings[|readings| - 1]).None?)
      ensures LinkWait(r', ret) <==> Down(looks[|old(looks)|])
      ensures (ret == Some(ENOLINK) ==> Down(looks[|old(looks)|])) && !FormatWait(r', ret) && ret != Some(EAGAIN)
      ensures readings == old(readings) || (|readings| == |old(readings)| + 1 && old(readings) <= readings)
      ensures readings != old(readings) ==> Transport(ret) || RateOf(readings[|readings| - 1]).None?
      ensures readings == old(readings) ==> r'.rate == EMPTY.rate
      ensures r' == EMPTY.(phase := r'.phase, prerequisiteError := r'.prerequisiteError, wrote := r'.wrote, rate := r'.rate)
      ensures 0 < r'.phase <= 4 && r'.rate.pixelKhz < 621000
      ensures ret.None? ==>
                && r' == EMPTY.(phase := 4, wrote := true, rate := r'.rate) && 0 < r'.rate.linkKhz < 621000
                && LastMeasured(old(readings), readings, r'.rate)
    {
      hide RateOf;
      r' := EMPTY.(phase := 1);
      var look := ReadLink();
      if look == Unread {
        return Some(EBUS), r'.(prerequisiteError := true);
      }
      if look.tx & 7 != 7 || look.rx8 & 0x10 == 0 || look.rx11 & 0x80 == 0 || look.rx17 & 0x13 != 2 {
        return Some(ENOLINK), r';
      }
      ret := Access();
      if ret.Some? {
        return;
      }
      var supported: bool := *;
      var referenced := Succeeds();
      if !referenced {
        return Some(if supported then ERANGE else EOPNOTSUPP), r';
      }
      r' := r'.(phase := 2, wrote := true);
      ret := Access();
      if ret.Some? {
        return;
      }
      r' := r'.(phase := 3);
      var x;
      ret, x := ReadClock();
      if ret.Some? {
        return;
      }
      r' := r'.(phase := 4);
      var rate := RateOf(x);
      if rate.None? {
        return Some(ERANGE), r';
      }
      RateFits(x);
      r' := r'.(rate := rate.value);
      ret := Access();
      if ret.Some? {
        return;
      }
    }

    /** The validation, and behind it the writes of a setup. */
    method SetUp(start: Record, sink: Option<Sink>) returns (ret: Option<Error>, r': Record)
      requires start == EMPTY.(phase := 4, wrote := true, rate := start.rate) && start.rate.pixelKhz < 621000
      modifies this`setups, this`enables, this`answers, this`troubles, journal
      ensures setups == old(setups) + (if r'.irqValid then 1 else 0) && Journals(ret) && old(answers) <= answers
      ensures enables > old(enables) ==> r'.irqValid && Ready(answers, r'.rate, sink, port)
      ensures r'.rate == start.rate && r'.wait.polls == 0 && r'.wait.restarts == 0 && r'.phase > 4
      ensures r'.wait.pending ==> Waiting(r', port) && ret == Some(ENOLINK)
      ensures ret.None? ==>
                r'.outputEnabled && RateAllowed(r'.rate.linkKhz, sink) && r'.irqValid && enables == old(enables) + 1
      ensures (r'.phase == 7 ==> enables == old(enables)) && ret != Some(EAGAIN)
      ensures ret == Some(ENOLINK) ==> |answers| > |old(answers)|
      ensures old(troubles) <= troubles
      ensures ret.Some? && troubles == old(troubles) ==> |answers| > |old(answers)| && Kept(answers, r'.rate, sink, port)
      ensures LinkWait(r', ret) <==> Later(old(answers), answers, port, ret)
      ensures FormatWait(r', ret) <==> Odder(old(answers), answers, r'.rate, sink, ret)
    {
      hide RateAllowed, Ready, Odd, Verdict, Accepted, Refused;
      ghost var was := answers;
      ret, r' := Validate(start, sink);
      VerdictWaits(was, answers, ret, start.rate, sink, port);
      if ret.Some? {
        return;
      }
      ghost var mid := answers;
      ret, r' := Program(r', sink);
      LaterStill(was, mid, answers, port, ret, r'.rate, sink);
    }

    /** video_first_scdt: the first interrupt register is read before anything is written. */
    method FirstLock(start: Record) returns (ret: Option<Error>, r': Record)
      requires !start.irqValid
      modifies this`setups, this`troubles
      ensures setups == old(setups) + (if r'.irqValid then 1 else 0)
      ensures r' == start.(irqValid := r'.irqValid) && Transport(ret) && (ret.None? ==> r'.irqValid)
      ensures troubles == old(troubles) + if ret.Some? then 1 else 0
    {
      r' := start;
      ret := Access();
      if ret.Some? {
        return;
      }
      r' := r'.(irqValid := true);
      setups := setups + 1;
      ret := Access();
    }

    /** Behind the validation: the first-lock writes, the analog programming, the release
        of the port's reset, and the output. */
    method Program(start: Record, sink: Option<Sink>) returns (ret: Option<Error>, r': Record)
      requires !start.wait.pending && !start.irqValid && !start.setupComplete && start.phase == 7
      requires start.rate.pixelKhz < 621000
      modifies this`setups, this`enables, this`answers, this`troubles, journal
      ensures setups == old(setups) + (if r'.irqValid then 1 else 0) && Journals(ret) && old(answers) <= answers
      ensures enables > old(enables) ==> r'.irqValid && Ready(answers, r'.rate, sink, port)
      ensures r'.rate == start.rate && r'.wait.polls == start.wait.polls && r'.wait.restarts == start.wait.restarts
      ensures r'.phase > 4 && (r'.wait.pending ==> Waiting(r', port) && ret == Some(ENOLINK))
      ensures r'.setupComplete ==> r'.irqValid
      ensures ret.None? ==>
                r'.outputEnabled && RateAllowed(r'.rate.linkKhz, sink) && r'.irqValid && enables == old(enables) + 1
      ensures r'.phase == 7 ==> enables == old(enables)
      ensures ret != Some(EAGAIN)
      ensures ret == Some(ENOLINK) ==> |answers| > |old(answers)|
      ensures old(troubles) <= troubles
      ensures ret.Some? && troubles == old(troubles) ==> |answers| > |old(answers)| && Kept(answers, r'.rate, sink, port)
      ensures LinkWait(r', ret) <==> Later(old(answers), answers, port, ret)
      ensures FormatWait(r', ret) <==> Odder(old(answers), answers, r'.rate, sink, ret)
    {
      hide Ready, Odd, RateAllowed, LinkWait, FormatWait, Later, Odder;
      ghost var was := answers;
      ret, r' := FirstLock(start);
      if ret.Some? {
        TransportWaits(r', ret, was, answers, r'.rate, sink, port);
        return;
      }
      r' := r'.(phase := 5);
      ret := Access();
      if ret.Some? {
        TransportWaits(r', ret, was, answers, r'.rate, sink, port);
        return;
      }
      r' := r'.(phase := 6);
      ret := Access();
      if ret.Some? {
        TransportWaits(r', ret, was, answers, r'.rate, sink, port);
        return;
      }
      r' := r'.(setupComplete := true);
      ret, r' := Output(r', sink);
    }

    /** video_clock with an empty record: measure the clock (0), or measure and set up the
        transmitter and its output (2).  The rate is that of what was read in this call.
        The record tells whether the setup's writes were begun, and the count says the
        same. */
    method Clock(configure: nat, sink: Option<Sink>) returns (ret: Option<Error>, r': Record)
      requires configure == 0 || configure == 2
      modifies this`setups, this`enables, this`answers, this`troubles, this`looks, this`readings, journal
      ensures setups == old(setups) + (if r'.irqValid then 1 else 0)
      ensures old(answers) <= answers && (configure == 0 ==> answers == old(answers))
      ensures enables > old(enables) ==> r'.irqValid && Ready(answers, r'.rate, sink, port)
      ensures |looks| == |old(looks)| + 1 && old(looks) <= looks
      ensures Down(looks[|old(looks)|]) ==> ret == Some(ENOLINK) && readings == old(readings) && answers == old(answers)
      ensures old(troubles) <= troubles
      ensures ret.Some? && troubles == old(troubles) ==>
                Obstacle(old(looks), looks, old(readings), readings, old(answers), answers, r'.rate, sink, port)
      ensures LinkWait(r', ret) <==> Down(looks[|old(looks)|]) || Later(old(answers), answers, port, ret)
      ensures Down(looks[|old(looks)|]) ==> r'.phase == 1
      ensures ret == Some(ENOLINK) ==> Down(looks[|old(looks)|]) || |answers| > |old(answers)|
      ensures FormatWait(r', ret) <==> Odder(old(answers), answers, r'.rate, sink, ret)
      ensures readings == old(readings) || (|readings| == |old(readings)| + 1 && old(readings) <= readings)
      ensures ret.None? || r'.irqValid || r'.phase > 4 ==> LastMeasured(old(readings), readings, r'.rate)
      ensures readings == old(readings) ==> r'.rate == EMPTY.rate
      ensures configure == 2 ==> Journals(ret)
      ensures configure == 0 && readings != old(readings) ==> Transport(ret) || RateOf(readings[|readings| - 1]).None?
      ensures configure == 0 ==>
                && journal.events == old(journal.events) && !r'.irqValid
                && enables == old(enables) && !r'.wait.pending && (ret == Some(ENOLINK) ==> LinkWait(r', ret))
      ensures r'.wait.polls == 0 && r'.wait.restarts == 0 && r'.phase > 0 && r'.rate.pixelKhz < 621000
      ensures r'.wait.pending ==> Waiting(r', port) && ret == Some(ENOLINK)
      ensures ret != Some(EAGAIN)
      ensures ret.None? ==> 0 < r'.rate.linkKhz < 621000
      ensures ret.None? && configure == 2 ==>
                r'.outputEnabled && RateAllowed(r'.rate.linkKhz, sink) && r'.irqValid && enables == old(enables) + 1
      ensures r'.phase == 7 ==> enables == old(enables)
    {
      hide RateOf, RateAllowed, Ready, Odd, Later, Odder, LinkWait, FormatWait, LastMeasured, Down;
      ghost var was := answers;
      ret, r' := Measure();
      if ret.Some? || configure == 0 {
        NothingRead(was, answers, r'.rate, sink, port, ret);
        return;
      }
      ret, r' := SetUp(r', sink);
    }

    /** A setup from scratch: the record starts over. */
    method Setup(sink: Option<Sink>) returns (ret: Option<Error>)
      modifies this, journal
      ensures Journals(ret) && (enables > old(enables) ==> Ready(answers, r.rate, sink, port))
      ensures Valid() && base == old(setups) && setups <= old(setups) + 1 && r.wait.restarts == 0 && r.wait.polls == 0
      ensures outcomes == old(outcomes) && |looks| == |old(looks)| + 1 && old(looks) <= looks
      ensures old(readings) <= readings && old(answers) <= answers
      ensures ret.None? ==>
                r.outputEnabled && RateAllowed(r.rate.linkKhz, sink)
                && setups == old(setups) + 1 && enables == old(enables) + 1
                && LastMeasured(old(readings), readings, r.rate)
      ensures old(troubles) <= troubles
      ensures ret.Some? && troubles == old(troubles) ==>
                Obstacle(old(looks), looks, old(readings), readings, old(answers), answers, r.rate, sink, port)
      ensures LinkWait(r, ret) <==> Down(looks[|looks| - 1]) || Later(old(answers), answers, port, ret)
      ensures FormatWait(r, ret) <==> Odder(old(answers), answers, r.rate, sink, ret)
      ensures FormatWait(r, ret) ==> enables == old(enables)
      ensures Down(looks[|looks| - 1]) ==> ret == Some(ENOLINK)
      ensures ret != Some(EAGAIN)
    {
      hide RateAllowed, Ready, Odd, Down, LastMeasured;
      base := setups;
      ret, r := Clock(2, sink);
    }

    /** The fresh measurement of a waiting setup's source, and whether the setup still fits.
        A setup whose last read was not completed is not resumed. */
    method Remeasure() returns (ret: Option<Error>)
      requires Valid() && r.wait.pending
      modifies this`r, this`setups, this`enables, this`answers, this`troubles, this`looks, this`readings, journal
      ensures Valid() && r.wait == old(r.wait).(pending := r.wait.pending) && r.setupComplete
      ensures setups == old(setups) && enables == old(enables) && journal.events == old(journal.events)
      ensures answers == old(answers) && old(looks) <= looks && old(readings) <= readings
      ensures |looks| == |old(looks)| + if old(r.last.readDone) then 1 else 0
      ensures !old(r.last.readDone) ==> ret == Some(EINVAL) && r == old(r) && looks == old(looks)
      ensures ret.None? ==>
                && !r.wait.pending && LastMeasured(old(readings), readings, r.rate)
                && SameSource(old(readings), readings, old(r.rate.linkKhz))
      ensures ret.None? ==> |readings| == |old(readings)| + 1
      ensures ret == Some(EAGAIN) ==> OtherSource(old(readings), readings, old(r.rate.linkKhz))
      ensures old(r.last.readDone) && OtherSource(old(readings), readings, old(r.rate.linkKhz)) ==>
                ret == Some(EAGAIN) || (ret.Some? && Transport(ret))
      ensures old(troubles) <= troubles
      ensures ret.Some? && troubles == old(troubles) ==>
                || (ret == Some(EINVAL) && !old(r.last.readDone)) || ret == Some(EAGAIN)
                || Down(looks[|looks| - 1])
                || (|readings| > |old(readings)| && RateOf(readings[|readings| - 1]).None?)
      ensures old(r.last.readDone) ==>
                && (ret == Some(ENOLINK) <==> Down(looks[|looks| - 1]))
                && (r.wait.pending <==> Down(looks[|looks| - 1]))
                && (LinkWait(r, ret) <==> Down(looks[|looks| - 1]))
      ensures ret.Some? ==> r.phase == 8
    {
      hide RateAllowed, RateOf, Ready, Odd, Down;
      if !LinkWait(r, Some(ENOLINK)) || r.last.address != 0x34 + port {
        return Some(EINVAL);
      }
      var measured;
      ret, measured := Clock(0, None);
      if LinkWait(measured, ret) {
        return Some(ENOLINK);
      }
      r := r.(wait := r.wait.(pending := false));
      if ret.Some? {
        return;
      }
      if !SameRate(r.rate.linkKhz, measured.rate.linkKhz) {
        return Some(EAGAIN);
      }
      r := r.(rate := measured.rate);
    }

    /** video_resume_profile.  The source is measured first, and the output is finished only
        when that measurement still fits the waiting setup; a wait that goes on is counted,
        and the sixth sets the transmitter up once more, and never again. */
    method Resume(sink: Sink) returns (ret: Option<Error>)
      requires Valid() && r.wait.pending
      modifies this, journal
      ensures Journals(ret) && (enables > old(enables) ==> Ready(answers, r.rate, Some(sink), port))
      ensures Valid() && base == old(base) && outcomes == old(outcomes)
      ensures old(setups) <= setups <= old(setups) + (r.wait.restarts - old(r.wait.restarts))
      ensures r.wait.restarts > old(r.wait.restarts) ==> old(r.wait.polls) == 5
      ensures old(r.wait.restarts) <= r.wait.restarts && r.wait.polls <= old(r.wait.polls) + 1
      ensures old(looks) <= looks && old(readings) <= readings && old(answers) <= answers
      ensures Resumed(old(r), old(looks), looks, old(readings), readings, old(answers), answers, sink, port, ret, r)
      ensures enables > old(enables) || setups > old(setups) || ret.None? ==>
                SameSource(old(readings), readings, old(r.rate.linkKhz))
      ensures ret == Some(EAGAIN) ==> OtherSource(old(readings), readings, old(r.rate.linkKhz))
      ensures ret.None? ==>
                r.outputEnabled && RateAllowed(r.rate.linkKhz, Some(sink)) && enables == old(enables) + 1
                && LastMeasured(old(readings), readings, r.rate)
      ensures old(troubles) <= troubles
      ensures ret.Some? && troubles == old(troubles) ==>
                || (ret == Some(EINVAL) && old(r.wait.pending) && !old(r.last.readDone)) || ret == Some(EAGAIN)
                || Obstacle(old(looks), looks, old(readings), readings, old(answers), answers, r.rate, Some(sink), port)
      ensures LinkWait(r, ret) <==> Away(old(looks), looks) || Later(old(answers), answers, port, ret)
      ensures FormatWait(r, ret) <==> Odder(old(answers), answers, r.rate, Some(sink), ret)
      ensures FormatWait(r, ret) ==> enables == old(enables)
    {
      hide RateAllowed, RateOf, SameSource, OtherSource, Ready, Odd, Down, Stalled;
      ret := Remeasure();
      if ret.Some? {
        NothingResumed(old(r), old(looks), looks, old(readings), readings, answers, sink, port, ret, r);
        return;
      }
      ghost var mid := readings;
      ret := FinishWaiting(sink);
      ReadingsLast(old(readings), mid, readings, old(r.rate.linkKhz), r.rate);
    }

    /** The waiting setup of an unchanged source: validate, and look for the lock. */
    method LookForLock(sink: Sink) returns (ret: Option<Error>)
      requires Valid() && !r.wait.pending && r.setupComplete
      modifies this`r, this`enables, this`answers, this`troubles, journal
      ensures Journals(ret) && (enables > old(enables) ==> Ready(answers, r.rate, Some(sink), port))
      ensures Valid() && r.rate == old(r.rate) && r.wait == old(r.wait).(pending := r.wait.pending)
      ensures old(answers) <= answers && (FormatWait(r, ret) ==> enables == old(enables)) && ret != Some(EAGAIN)
      ensures ret.None? ==>
                r.outputEnabled && RateAllowed(r.rate.linkKhz, Some(sink)) && enables == old(enables) + 1
      ensures old(troubles) <= troubles
      ensures ret.Some? && troubles == old(troubles) ==> |answers| > |old(answers)| && Kept(answers, r.rate, Some(sink), port)
      ensures LinkWait(r, ret) <==> Stalled(answers[|old(answers)|..], old(r.rate), sink, port)
      ensures LinkWait(r, ret) ==> r.wait.pending && LockRead(answers, port, false) && enables == old(enables)
      ensures forall later: seq<Seen> :: answers <= later && LinkWait(r, ret) ==>
                Stalled(later[|old(answers)|..], old(r.rate), sink, port)
      ensures LinkWait(r, ret) <==> Later(old(answers), answers, port, ret)
      ensures FormatWait(r, ret) <==> Odder(old(answers), answers, r.rate, Some(sink), ret)
    {
      hide RateAllowed, RateOf, Ready, Odd, Stalled, Accepted, Refused, Verdict;
      ghost var was := answers;
      ret, r := Validate(r, Some(sink));
      ghost var mid := answers;
      VerdictWaits(was, mid, ret, r.rate, Some(sink), port);
      if ret.Some? {
        ShortUnstalled(answers[|was|..], r.rate, sink, port);
        return;
      }
      r := r.(phase := 8);
      ret, r := FinishOutput(r);
      FinishWaits(was, mid, answers, r.rate, Some(sink), port);
      StalledIs(was, mid, answers, r.rate, sink, port);
    }

    /** The waiting setup of an unchanged source: a wait that goes on is counted, and the
        sixth is answered by the one repeat. */
    method FinishWaiting(sink: Sink) returns (ret: Option<Error>)
      requires Valid() && !r.wait.pending && r.setupComplete
      modifies this, journal
      ensures Journals(ret) && (enables > old(enables) ==> Ready(answers, r.rate, Some(sink), port))
      ensures Valid() && base == old(base) && outcomes == old(outcomes) && old(looks) <= looks && old(answers) <= answers
      ensures old(setups) <= setups <= old(setups) + (r.wait.restarts - old(r.wait.restarts))
      ensures Counts(old(r.wait), Stalled(answers[|old(answers)|..], old(r.rate), sink, port), r.wait, |looks| - |old(looks)|)
      ensures old(readings) <= readings
      ensures || (r.rate == old(r.rate) && readings == old(readings))
              || (r.wait.restarts > old(r.wait.restarts) && (ret.None? ==> LastMeasured(old(readings), readings, r.rate)))
      ensures ret.None? ==>
                r.outputEnabled && RateAllowed(r.rate.linkKhz, Some(sink)) && enables == old(enables) + 1
      ensures FormatWait(r, ret) ==> enables == old(enables)
      ensures old(troubles) <= troubles
      ensures ret.Some? && troubles == old(troubles) ==>
                Obstacle(old(looks), looks, old(readings), readings, old(answers), answers, r.rate, Some(sink), port)
      ensures LinkWait(r, ret) <==> Away(old(looks), looks) || Later(old(answers), answers, port, ret)
      ensures FormatWait(r, ret) <==> Odder(old(answers), answers, r.rate, Some(sink), ret)
      ensures ret != Some(EAGAIN)
    {
      hide RateAllowed, RateOf, Ready, Odd, Down, Stalled, LastMeasured, LockRead, Late;
      ghost var was := answers;
      ret := LookForLock(sink);
      if LinkWait(r, ret) && r.wait.restarts == 0 {
        r := r.(wait := r.wait.(polls := r.wait.polls + 1));
        if r.wait.polls >= 6 {
          ghost var mid := answers;
          ret := Restart(sink);
          LockIsNoFormat(mid, port, false, r.rate, Some(sink));
          if !Down(looks[|looks| - 1]) {
            LaterStill(was, mid, answers, port, ret, r.rate, Some(sink));
          }
        }
      }
    }

    /** The one repeated setup. */
    method Restart(sink: Sink) returns (ret: Option<Error>)
      modifies this, journal
      ensures Journals(ret) && (enables > old(enables) ==> Ready(answers, r.rate, Some(sink), port))
      ensures r.wait.restarts == 1 && r.wait.polls == 6 && base == old(base) && outcomes == old(outcomes)
      ensures old(setups) <= setups <= old(setups) + 1 && r.rate.pixelKhz < 621000
      ensures |looks| == |old(looks)| + 1 && old(looks) <= looks && old(readings) <= readings && old(answers) <= answers
      ensures r.wait.pending ==> Waiting(r, port)
      ensures ret.None? ==>
                r.outputEnabled && RateAllowed(r.rate.linkKhz, Some(sink)) && enables == old(enables) + 1
                && LastMeasured(old(readings), readings, r.rate)
      ensures old(troubles) <= troubles
      ensures ret.Some? && troubles == old(troubles) ==>
                Obstacle(old(looks), looks, old(readings), readings, old(answers), answers, r.rate, Some(sink), port)
      ensures LinkWait(r, ret) <==> Down(looks[|looks| - 1]) || Later(old(answers), answers, port, ret)
      ensures FormatWait(r, ret) <==> Odder(old(answers), answers, r.rate, Some(sink), ret)
      ensures Down(looks[|looks| - 1]) ==> ret == Some(ENOLINK)
      ensures ret == Some(ENOLINK) ==> Down(looks[|looks| - 1]) || |answers| > |old(answers)|
      ensures r.phase == 7 ==> enables == old(enables)
      ensures ret != Some(EAGAIN)
    {
      hide RateAllowed, Ready, Odd, Down, LastMeasured;
      ret, r := Clock(2, Some(sink));
      r := r.(wait := Wait(r.wait.pending, 6, 1));
    }

    /** One observation by a supervisor: resume a waiting setup, else start a new one.  The
        transmitter is set up for a fresh start or as the one repeat, and success means that
        this very call finished its output, at the rate it measured last; a waiting setup
        goes on only for a source that was measured at the setup's own rate. */
    method Observe(sink: Sink) returns (ret: Option<Error>)
      requires Valid()
      modifies this, journal
      ensures Journals(ret) && (enables > old(enables) ==> Ready(answers, r.rate, Some(sink), port))
      ensures Valid() && old(setups) <= setups && outcomes == old(outcomes) + [ret]
      ensures old(looks) <= looks && old(readings) <= readings && old(answers) <= answers
      ensures if old(r.wait.pending)
              then base == old(base) && setups <= old(setups) + (r.wait.restarts - old(r.wait.restarts))
                   && Resumed(old(r), old(looks), looks, old(readings), readings, old(answers), answers, sink, port, ret, r)
              else base == old(setups) && setups <= old(setups) + 1
                   && |looks| == |old(looks)| + 1 && r.wait.polls == 0 && r.wait.restarts == 0
      ensures looks == old(looks) ==> ret == Some(EINVAL)
      ensures old(troubles) <= troubles
      ensures ret.Some? && troubles == old(troubles) ==>
                || (ret == Some(EINVAL) && old(r.wait.pending) && !old(r.last.readDone)) || ret == Some(EAGAIN)
                || Obstacle(old(looks), looks, old(readings), readings, old(answers), answers, r.rate, Some(sink), port)
      ensures LinkWait(r, ret) <==> Away(old(looks), looks) || Later(old(answers), answers, port, ret)
      ensures FormatWait(r, ret) <==> Odder(old(answers), answers, r.rate, Some(sink), ret)
      ensures old(r.wait.pending) && (enables > old(enables) || setups > old(setups)) ==>
                SameSource(old(readings), readings, old(r.rate.linkKhz))
      ensures ret == Some(EAGAIN) ==>
                old(r.wait.pending) && OtherSource(old(readings), readings, old(r.rate.linkKhz))
      ensures ret.None? ==>
                r.outputEnabled && RateAllowed(r.rate.linkKhz, Some(sink)) && enables == old(enables) + 1
                && LastMeasured(old(readings), readings, r.rate)
      ensures FormatWait(r, ret) ==> enables == old(enables)
    {
      hide RateAllowed, RateOf, LastMeasured, SameSource, OtherSource, Ready, Odd, Down, Stalled;
      if r.wait.pending {
        ret := Resume(sink);
      } else {
        ret := Setup(Some(sink));
      }
      outcomes := outcomes + [ret];
    }

    /** The supervisor saw the source change: the next observation starts from scratch. */
    method Forget()
      requires Valid()
      modifies this`r
      ensures Valid() && r == old(r).(wait := old(r).wait.(pending := false))
    {
      r := r.(wait := r.wait.(pending := false));
    }
  }
}
