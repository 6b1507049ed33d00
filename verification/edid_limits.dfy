/** The EDID filter seen from outside: what is passed on, and what is held back, in the
    bytes and limits of the display's EDID alone.
 */
module EdidLimits {
  import opened Bytes
  import opened CtaBlocks
  import opened PassthroughEdid
  import opened EdidIdempotence
  import opened EdidSoundness

  // --------------------------------------------------------------- timings

  /** A descriptor of 18 bytes begins at byte `at`: four in the base block, and in a CTA
      extension one after the other from the offset in its third byte. */
  predicate SlotAt(data: seq<byte>, at: nat) {
    && at + 18 <= |data|
    && if at < 128 then 54 <= at <= 108 && (at - 54) % 18 == 0
       else
         var b := at - at % 128;
         var first := data[b + 2];
         && data[b] == 2 && 0 < first <= at % 128 && at % 128 + 18 <= 127 && (at % 128 - first) % 18 == 0
  }

  function Clock(low: nat, high: nat): nat {
    low + 256 * high
  }

  /** Twelve bits: the upper four are the other byte's upper half ... */
  function Active(low: nat, both: nat): nat {
    low + 16 * (both - both % 16)
  }

  /** ... or its lower half. */
  function Blank(low: nat, both: nat): nat {
    low + 256 * (both % 16)
  }

  /** A progressive timing with a clock and blanking, within the display's rate and the
      refresh limits of the profile: 120 Hz up to 2560x1440 and 60 Hz at 1280 pixels when
      the picture is scaled, else the four sizes with their own limits. */
  predicate MeetsLimits(d: seq<byte>, maxKhz: nat, scaled: bool)
    requires |d| == 18
  {
    var clock := Clock(d[0], d[1]);      // 10 kHz
    var w, h := Active(d[2], d[4]), Active(d[5], d[7]);
    var ht, vt := w + Blank(d[3], d[4]), h + Blank(d[6], d[7]);
    && 0 < clock && 10 * clock <= maxKhz && w < ht && h < vt && d[17] < 128
    && if scaled
       then w <= 2560 && h <= 1440 && 10000 * clock <= (if w == 1280 then 60 else 120) * ht * vt
       else
         || (w == 1280 && h == 720 && 10000 * clock <= 120 * ht * vt)
         || (w == 1920 && h == 1080 && 10000 * clock <= 240 * ht * vt)
         || (w == 2560 && h == 1440 && 10000 * clock <= 144 * ht * vt)
         || (w == 3840 && h == 2160 && 10000 * clock <= 60 * ht * vt)
  }

  predicate FitsAt(data: seq<byte>, at: nat, maxKhz: nat, scaled: bool) {
    SlotAt(data, at) && MeetsLimits(data[at..at + 18], maxKhz, scaled)
  }

  /** The descriptors at bytes `from` to `to` that meet the limits, in reading order. */
  function Fitting(data: seq<byte>, from: nat, to: nat, maxKhz: nat, scaled: bool): seq<seq<byte>>
    decreases (to as int) - from
  {
    if from >= to then []
    else (if FitsAt(data, from, maxKhz, scaled) then [data[from..from + 18]] else [])
         + Fitting(data, from + 1, to, maxKhz, scaled)
  }

  lemma SizesAgree(d: seq<byte>)
    requires |d| == 18
    ensures var t := TimingOf(d);
      && t.khz == 10 * Clock(d[0], d[1])
      && t.width == Active(d[2], d[4]) && t.height == Active(d[5], d[7])
      && t.htotal == t.width + Blank(d[3], d[4]) && t.vtotal == t.height + Blank(d[6], d[7])
      && t.interlaced == (d[17] >= 128)
  {
    NibblesAgree(d[2], d[4]);
    NibblesAgree(d[5], d[7]);
  }

  lemma NibblesAgree(low: nat, both: nat)
    ensures Wide(low, both / 16) == Active(low, both)
  {
    assert both == 16 * (both / 16) + both % 16;
  }

  lemma LimitsAgree(t: Timing, scaled: bool)
    ensures 0 < RefreshLimit(t, scaled) && t.khz * 1000 <= RefreshLimit(t, scaled) * t.htotal * t.vtotal <==>
              if scaled
              then t.width <= 2560 && t.height <= 1440
                   && t.khz * 1000 <= (if t.width == 1280 then 60 else 120) * t.htotal * t.vtotal
              else
                || (t.width == 1280 && t.height == 720 && t.khz * 1000 <= 120 * t.htotal * t.vtotal)
                || (t.width == 1920 && t.height == 1080 && t.khz * 1000 <= 240 * t.htotal * t.vtotal)
                || (t.width == 2560 && t.height == 1440 && t.khz * 1000 <= 144 * t.htotal * t.vtotal)
                || (t.width == 3840 && t.height == 2160 && t.khz * 1000 <= 60 * t.htotal * t.vtotal)
  {
  }

  /** The filter's test of a descriptor is just these limits. */
  lemma AllowedMeetsLimits(d: seq<byte>, maxKhz: nat, scaled: bool)
    requires |d| == 18
    ensures TimingAllowed(d, maxKhz, scaled) <==> MeetsLimits(d, maxKhz, scaled)
  {
    hide TimingOf, RefreshLimit;
    SizesAgree(d);
    LimitsAgree(TimingOf(d), scaled);
  }

  lemma {:induction false} FittingSplits(data: seq<byte>, from: nat, mid: nat, to: nat, maxKhz: nat, scaled: bool)
    requires from <= mid <= to
    ensures Fitting(data, from, to, maxKhz, scaled)
            == Fitting(data, from, mid, maxKhz, scaled) + Fitting(data, mid, to, maxKhz, scaled)
    decreases mid - from
  {
    hide FitsAt;
    if from < mid {
      FittingSplits(data, from + 1, mid, to, maxKhz, scaled);
    }
  }

  lemma {:induction false} NoneFitting(data: seq<byte>, from: nat, to: nat, maxKhz: nat, scaled: bool)
    requires from <= to
    requires forall at: nat :: from <= at < to ==> !SlotAt(data, at)
    ensures Fitting(data, from, to, maxKhz, scaled) == []
    decreases (to as int) - from
  {
    hide MeetsLimits;
    if from < to {
      NoneFitting(data, from + 1, to, maxKhz, scaled);
    }
  }

  /** Where the descriptors of block `b` begin, if it has any. */
  ghost predicate SlotsFrom(data: seq<byte>, b: nat, start: nat) {
    && b % 128 == 0 && b + 128 <= |data| && b <= start <= b + 128
    && (b == 0 ==> start == 54)
    && (b > 0 ==> data[b] == 2 && 0 < data[b + 2] <= 127 && start == b + data[b + 2])
  }

  lemma SlotEvery18(data: seq<byte>, b: nat, start: nat, at: nat)
    requires SlotsFrom(data, b, start) && b <= at < b + 128
    ensures SlotAt(data, at) <==>
              start <= at && at - start + 18 <= |DescriptorsAt(data, b)| && (at - start) % 18 == 0
  {
    assert at - at % 128 == b;
  }

  lemma Apart(x: nat, k: nat)
    requires 18 * k < x < 18 * (k + 1)
    ensures x % 18 != 0
  {
  }

  lemma NoSlotBehind(data: seq<byte>, b: nat, start: nat, k: nat, maxKhz: nat, scaled: bool)
    requires b + 128 <= |data| && SlotsFrom(data, b, start) && 18 * k <= |DescriptorsAt(data, b)| < 18 * k + 18
    ensures Fitting(data, start + 18 * k, b + 128, maxKhz, scaled) == []
  {
    hide DescriptorsAt, SlotAt, Fitting;
    forall q: nat | start + 18 * k <= q < b + 128 ensures !SlotAt(data, q) {
      SlotEvery18(data, b, start, q);
    }
    SlotsInside(data, b, start);
    NoneFitting(data, start + 18 * k, b + 128, maxKhz, scaled);
  }

  lemma SlotsInside(data: seq<byte>, b: nat, start: nat)
    requires SlotsFrom(data, b, start)
    ensures start + |DescriptorsAt(data, b)| <= b + 127 && DescriptorsAt(data, b) == data[start..start + |DescriptorsAt(data, b)|]
  {
  }

  lemma NextSlot(data: seq<byte>, b: nat, start: nat, k: nat, maxKhz: nat, scaled: bool)
    requires b + 128 <= |data| && SlotsFrom(data, b, start) && 18 * k + 18 <= |DescriptorsAt(data, b)|
    ensures var at := start + 18 * k; var d := DescriptorsAt(data, b)[18 * k..18 * k + 18];
      Fitting(data, at, b + 128, maxKhz, scaled)
      == (if TimingAllowed(d, maxKhz, scaled) then [d] else []) + Fitting(data, at + 18, b + 128, maxKhz, scaled)
  {
    hide DescriptorsAt, SlotAt, TimingAllowed, MeetsLimits, SlotsFrom;
    var at, d := start + 18 * k, DescriptorsAt(data, b)[18 * k..18 * k + 18];
    SlotsInside(data, b, start);
    AtBlock(data, b, start, at);
    SlotEvery18(data, b, start, at);
    assert d == data[at..at + 18];
    AllowedMeetsLimits(d, maxKhz, scaled);
    forall q: nat | at + 1 <= q < at + 18 ensures !SlotAt(data, q) {
      AtBlock(data, b, start, q);
      SlotEvery18(data, b, start, q);
      Apart(q - start, k);
    }
    NoneFitting(data, at + 1, at + 18, maxKhz, scaled);
    FittingSplits(data, at + 1, at + 18, b + 128, maxKhz, scaled);
  }

  lemma AtBlock(data: seq<byte>, b: nat, start: nat, q: nat)
    requires SlotsFrom(data, b, start)
    ensures start <= q < b + 128 ==> b <= q
  {
  }

  lemma {:induction false} BlockFitting(data: seq<byte>, b: nat, start: nat, k: nat, maxKhz: nat, scaled: bool)
    requires b + 128 <= |data| && SlotsFrom(data, b, start) && 18 * k <= |DescriptorsAt(data, b)|
    ensures Collect(DescriptorsAt(data, b)[18 * k..], maxKhz, scaled)
            == Fitting(data, start + 18 * k, b + 128, maxKhz, scaled)
    decreases |DescriptorsAt(data, b)| - 18 * k
  {
    hide TimingAllowed, SlotsFrom, DescriptorsAt, Fitting;
    var s := DescriptorsAt(data, b);
    var rest := s[18 * k..];
    if |rest| < 18 {
      NoSlotBehind(data, b, start, k, maxKhz, scaled);
    } else {
      NextSlot(data, b, start, k, maxKhz, scaled);
      BlockFitting(data, b, start, k + 1, maxKhz, scaled);
      assert rest[18..] == s[18 * (k + 1)..] && rest[..18] == s[18 * k..18 * k + 18];
    }
  }

  lemma OneBlockFitting(data: seq<byte>, b: nat, maxKhz: nat, scaled: bool)
    requires b % 128 == 0 && b + 128 <= |data|
    ensures Collect(DescriptorsAt(data, b), maxKhz, scaled) == Fitting(data, b, b + 128, maxKhz, scaled)
  {
    hide TimingAllowed, MeetsLimits, Collect, Fitting;
    if b == 0 || (data[b] == 2 && 0 < data[b + 2] <= 127) {
      var start := if b == 0 then 54 else b + data[b + 2];
      BlockFitting(data, b, start, 0, maxKhz, scaled);
      assert DescriptorsAt(data, b)[18 * 0..] == DescriptorsAt(data, b);
      forall q: nat | b <= q < start ensures !SlotAt(data, q) {
        SlotEvery18(data, b, start, q);
      }
      NoneFitting(data, b, start, maxKhz, scaled);
      FittingSplits(data, b, start, b + 128, maxKhz, scaled);
    } else {
      forall q: nat | b <= q < b + 128 ensures !SlotAt(data, q) {
        assert q - q % 128 == b;
      }
      NoneFitting(data, b, b + 128, maxKhz, scaled);
      NothingCollected(maxKhz, scaled);
    }
  }

  lemma NothingCollected(maxKhz: nat, scaled: bool)
    ensures Collect([], maxKhz, scaled) == []
  {
  }

  lemma {:induction false} OfferedFitting(data: seq<byte>, b: nat, maxKhz: nat, scaled: bool)
    requires |data| % 128 == 0 && b % 128 == 0 && b <= |data|
    ensures Offered(data, b, maxKhz, scaled) == Fitting(data, b, |data|, maxKhz, scaled)
    decreases |data| - b
  {
    hide TimingAllowed, Collect, DescriptorsAt, Fitting, FitsAt;
    NoneFitting(data, |data|, |data|, maxKhz, scaled);
    if b < |data| {
      OneBlockFitting(data, b, maxKhz, scaled);
      OfferedFitting(data, b + 128, maxKhz, scaled);
      FittingSplits(data, b, b + 128, |data|, maxKhz, scaled);
    }
  }

  function Advertised(data: seq<byte>, maxKhz: nat, scaled: bool): seq<seq<byte>> {
    Fitting(data, 0, |data|, maxKhz, scaled)
  }

  function AtMostSix(dtds: seq<seq<byte>>): seq<seq<byte>> {
    if |dtds| > 6 then dtds[..6] else dtds
  }

  /** The timings of the new EDID are the first six of the display's that meet the limits,
      in the display's order, and there is at least one. */
  lemma AdvertisesTheFirstSix(data: seq<byte>, scaled: bool)
    ensures Filter(data, scaled).Ok? ==>
              var r := Filter(data, scaled).value;
              && Advertised(r.data, r.maxKhz, scaled) == AtMostSix(Advertised(data, r.maxKhz, scaled))
              && r.timings == |Advertised(r.data, r.maxKhz, scaled)| && 1 <= r.timings <= 6
  {
    hide Filter, Scan, Render, Offered, Prefix, Slower, Max, GoodVics, GoodPrefix, TimingAllowed, Fitting;
    if Filter(data, scaled).Ok? {
      var info, p := FilterProfile(data, scaled);
      OfferedRendered(p, scaled);
      OfferedFitting(data, 0, p.max, scaled);
      OfferedFitting(Render(p), 0, p.max, scaled);
    }
  }

  /** Whatever a source finds in a descriptor slot with a clock meets the limits. */
  lemma EveryTimingMeetsTheLimits(data: seq<byte>, scaled: bool, at: nat)
    requires Filter(data, scaled).Ok? && SlotAt(Filter(data, scaled).value.data, at)
    ensures var r := Filter(data, scaled).value;
      var d := r.data[at..at + 18];
      d[0] != 0 || d[1] != 0 ==> MeetsLimits(d, r.maxKhz, scaled) && HasFitting(data, d, r.maxKhz, scaled)
  {
    hide Filter, Scan, Render, Offered, Prefix, Slower, Max, GoodVics, GoodPrefix, TimingAllowed, MeetsLimits,
         Fitting, TimingOf, DescriptorsAt, BaseBody, CtaBody, HasTiming, HasFitting, Renderable, Sealed;
    var info, p := FilterProfile(data, scaled);
    var e := Render(p);
    var d := e[at..at + 18];
    if d[0] != 0 || d[1] != 0 {
      RenderParts(p);
      SlotIsTiming(e, at);
      SizesAgree(d);
      OutputTimings(p, d);
      ProfileTimingsFit(data, info, p, scaled, d);
    }
  }

  lemma ProfileTimingsFit(data: seq<byte>, info: Info, p: Profile, scaled: bool, d: seq<byte>)
    requires |data| % 128 == 0 && |data| >= 128 && p == ProfileOf(data, info, scaled) && d in p.dtds
    ensures |d| == 18 && MeetsLimits(d, p.max, scaled) && HasFitting(data, d, p.max, scaled)
  {
    hide TimingAllowed, MeetsLimits, Fitting, Prefix, Slower, Max;
    OfferedFitting(data, 0, p.max, scaled);
    assert d in Offered(data, 0, p.max, scaled);
    AllowedMeetsLimits(d, p.max, scaled);
    FittingHas(data, 0, |data|, p.max, scaled, d);
  }

  /** A slot holds this descriptor, and it meets the limits. */
  ghost predicate HasFitting(data: seq<byte>, d: seq<byte>, maxKhz: nat, scaled: bool) {
    exists q: nat :: FitsAt(data, q, maxKhz, scaled) && data[q..q + 18] == d
  }

  lemma SlotIsTiming(data: seq<byte>, at: nat)
    requires |data| % 128 == 0 && at + 18 <= |data| && SlotAt(data, at)
    ensures HasTiming(data, data[at..at + 18])
  {
    hide SlotsFrom, SlotAt, DescriptorsAt;
    var b := at - at % 128;
    var start := if b == 0 then 54 else b + data[b + 2];
    InSlots(data, b, start, at);
    SlotEvery18(data, b, start, at);
    SlotsInside(data, b, start);
    var k := (at - start) / 18;
    SliceOf(data, DescriptorsAt(data, b), start, 18 * k, 18 * k + 18);
    assert HasTimingAt(data, data[at..at + 18], b, k);
  }

  lemma SliceOf(data: seq<byte>, s: seq<byte>, start: nat, i: nat, j: nat)
    requires start + |s| <= |data| && s == data[start..start + |s|] && i <= j <= |s|
    ensures s[i..j] == data[start + i..start + j]
  {
    var t, u := s[i..j], data[start + i..start + j];
    forall x: nat | x < j - i ensures t[x] == u[x] {
      assert t[x] == s[i + x] == data[start..start + |s|][i + x];
    }
  }

  lemma InSlots(data: seq<byte>, b: nat, start: nat, at: nat)
    requires |data| % 128 == 0 && at + 18 <= |data| && SlotAt(data, at) && b == at - at % 128
    requires start == if b == 0 then 54 else b + data[b + 2]
    ensures SlotsFrom(data, b, start) && b <= at < b + 128
  {
    WholeBlock(at, |data|);
  }

  lemma WholeBlock(at: nat, n: nat)
    requires at < n && n % 128 == 0
    ensures var b := at - at % 128; b % 128 == 0 && b + 128 <= n && (b == 0 <==> at < 128)
  {
    var q, m := at / 128, n / 128;
    assert at == 128 * q + at % 128 && n == 128 * m && q < m;
  }

  lemma {:induction false} FittingHas(data: seq<byte>, from: nat, to: nat, maxKhz: nat, scaled: bool, d: seq<byte>)
    requires d in Fitting(data, from, to, maxKhz, scaled)
    ensures HasFitting(data, d, maxKhz, scaled)
    decreases (to as int) - from
  {
    hide MeetsLimits;
    if from < to && !(FitsAt(data, from, maxKhz, scaled) && d == data[from..from + 18]) {
      FittingHas(data, from + 1, to, maxKhz, scaled, d);
    }
  }

  /** A descriptor of the display that meets the limits is passed on if fewer than six
      before it do. */
  lemma EveryEarlyTimingIsAdvertised(data: seq<byte>, scaled: bool, at: nat)
    requires Filter(data, scaled).Ok? && FitsAt(data, at, Filter(data, scaled).value.maxKhz, scaled)
    requires |Fitting(data, 0, at, Filter(data, scaled).value.maxKhz, scaled)| < 6
    ensures var r := Filter(data, scaled).value;
      HasFitting(r.data, data[at..at + 18], r.maxKhz, scaled)
  {
    hide Filter, MeetsLimits;
    var r := Filter(data, scaled).value;
    AdvertisesTheFirstSix(data, scaled);
    var before := Fitting(data, 0, at, r.maxKhz, scaled);
    FittingSplits(data, 0, at, |data|, r.maxKhz, scaled);
    var d := data[at..at + 18];
    assert Advertised(data, r.maxKhz, scaled)[|before|] == d;
    assert Advertised(r.data, r.maxKhz, scaled)[|before|] == d;
    FittingHas(r.data, 0, |r.data|, r.maxKhz, scaled, d);
  }
}
