/** What a source may rely on when it reads the rendered EDID: it is well formed, and
    it promises nothing the display did not promise first.
 */
module EdidSoundness {
  import opened Bytes
  import opened CtaBlocks
  import opened PassthroughEdid
  import opened EdidIdempotence

  // ------------------------------------------------ what a display promises

  /** A data block of one of the display's CTA extensions. */
  ghost predicate HasBlock(data: seq<byte>, block: Block) {
    exists b :: HasBlockAt(data, block, b)
  }

  ghost predicate HasBlockAt(data: seq<byte>, block: Block, b: nat) {
    b + 128 <= |data| && b % 128 == 0 && BlocksAt(data, b).Some? && block in BlocksAt(data, b).value
  }

  /** A video code of one of its video data blocks; the top bit marks native modes. */
  ghost predicate HasVic(data: seq<byte>, vic: byte) {
    exists block, i :: HasBlock(data, block) && block.tag == 2 && 0 <= i < |block.payload| && block.payload[i] % 128 == vic
  }

  /** A detailed timing in a descriptor slot of the base block or a CTA extension. */
  ghost predicate HasTiming(data: seq<byte>, d: seq<byte>) {
    exists b, k :: HasTimingAt(data, d, b, k)
  }

  ghost predicate HasTimingAt(data: seq<byte>, d: seq<byte>, b: nat, k: nat) {
    && b + 128 <= |data| && b % 128 == 0 && 18 * k + 18 <= |DescriptorsAt(data, b)|
    && d == DescriptorsAt(data, b)[18 * k..18 * k + 18]
  }

  /** Linear PCM, at least two channels, 48 kHz, 16 bit. */
  ghost predicate StereoPcmAt(p: seq<byte>, j: nat) {
    j + 2 < |p| && p[j] / 8 == 1 && p[j] % 8 >= 1 && p[j + 1] / 4 % 2 == 1 && p[j + 2] % 2 == 1
  }

  lemma {:induction false} StereoPcm(p: seq<byte>)
    ensures HasStereoPcm(p) <==> exists k: nat :: StereoPcmAt(p, 3 * k)
    decreases |p|
  {
    if |p| > 2 {
      StereoPcm(p[3..]);
      if HasStereoPcm(p[3..]) {
        var k: nat :| StereoPcmAt(p[3..], 3 * k);
        assert StereoPcmAt(p, 3 * (k + 1));
      }
      forall k: nat | StereoPcmAt(p, 3 * k) ensures HasStereoPcm(p) {
        if k > 0 {
          assert StereoPcmAt(p[3..], 3 * (k - 1));
        } else {
          assert 3 * k == 0;
        }
      }
      if HasStereoPcm(p) && !HasStereoPcm(p[3..]) {
        assert StereoPcmAt(p, 3 * 0);
      }
    }
  }

  // ------------------------------------------------------------ provenance

  ghost predicate RateSourced(data: seq<byte>, info: Info) {
    && (info.legacy != 0 ==> exists h :: HasBlock(data, h) && IsHdmi(h) && HdmiRate(h.payload) == info.legacy)
    && (info.forum != 0 || info.scdc ==>
          exists f :: HasBlock(data, f) && IsForum(f) && Rate(f.payload[4]) == info.forum && info.scdc == (f.payload[5] >= 128))
  }

  ghost predicate AudioSourced(data: seq<byte>, info: Info) {
    info.audio ==> exists a, k: nat :: HasBlock(data, a) && a.tag == 1 && StereoPcmAt(a.payload, 3 * k)
  }

  ghost predicate VicsSourced(data: seq<byte>, vics: seq<byte>) {
    forall i :: 0 <= i < |vics| ==> HasVic(data, vics[i])
  }

  ghost predicate Sourced(data: seq<byte>, info: Info) {
    RateSourced(data, info) && AudioSourced(data, info) && VicsSourced(data, info.vics)
  }

  lemma {:induction false} AddVicsSourced(data: seq<byte>, block: Block, i: nat, vics: seq<byte>, scaled: bool)
    requires HasBlock(data, block) && block.tag == 2 && i <= |block.payload| && VicsSourced(data, vics)
    ensures VicsSourced(data, AddVics(vics, block.payload[i..], scaled))
    decreases |block.payload| - i
  {
    hide HasBlock, VicAllowed;
    var rest := block.payload[i..];
    if rest != [] {
      assert rest[0] == block.payload[i] && rest[1..] == block.payload[i + 1..];
      assert HasVic(data, block.payload[i] % 128);
      AddVicsSourced(data, block, i + 1, AddVic(vics, rest[0], scaled), scaled);
    }
  }

  lemma AbsorbSourced(data: seq<byte>, block: Block, info: Info, scaled: bool)
    requires HasBlock(data, block) && Sourced(data, info)
    ensures Sourced(data, Absorb(info, block, scaled))
  {
    hide HasBlock, VicsSourced, HasStereoPcm;
    if block.tag == 2 {
      AddVicsSourced(data, block, 0, info.vics, scaled);
      assert block.payload[0..] == block.payload;
    }
    StereoPcm(block.payload);
  }

  lemma {:induction false} AbsorbAllSourced(data: seq<byte>, b: nat, i: nat, info: Info, scaled: bool)
    requires b + 128 <= |data| && b % 128 == 0 && BlocksAt(data, b).Some? && i <= |BlocksAt(data, b).value|
    requires Sourced(data, info)
    ensures Sourced(data, AbsorbAll(info, BlocksAt(data, b).value[i..], scaled))
    decreases |BlocksAt(data, b).value| - i
  {
    hide Sourced, BlocksAt, Absorb;
    var blocks := BlocksAt(data, b).value;
    if i < |blocks| {
      assert HasBlockAt(data, blocks[i], b);
      AbsorbSourced(data, blocks[i], info, scaled);
      AbsorbAllSourced(data, b, i + 1, Absorb(info, blocks[i], scaled), scaled);
      assert blocks[i..][0] == blocks[i] && blocks[i..][1..] == blocks[i + 1..];
    }
  }

  lemma {:induction false} ScanSourced(data: seq<byte>, b: nat, info: Info, scaled: bool)
    requires |data| % 128 == 0 && b % 128 == 0 && b <= |data|
    requires Sourced(data, info) && Scan(data, b, info, scaled).Some?
    ensures Sourced(data, Scan(data, b, info, scaled).value)
    ensures forall k :: b <= k < |data| && k % 128 == 0 ==> Sum(data[k..k + 128]) % 256 == 0 && BlocksAt(data, k).Some?
    decreases |data| - b
  {
    hide Sourced, BlocksAt, AbsorbAll, Sum;
    if b < |data| {
      var blocks := BlocksAt(data, b).value;
      assert blocks[0..] == blocks;
      AbsorbAllSourced(data, b, 0, info, scaled);
      ScanSourced(data, b + 128, AbsorbAll(info, blocks, scaled), scaled);
    }
  }

  lemma NothingSourced(data: seq<byte>)
    ensures Sourced(data, NO_INFO)
  {
  }

  lemma {:induction false} CollectSourced(s: seq<byte>, k: nat, max: nat, scaled: bool)
    requires 18 * k <= |s|
    ensures forall d :: d in Collect(s[18 * k..], max, scaled) ==> exists j :: DescriptorIs(s, d, j)
    decreases |s| - 18 * k
  {
    hide TimingAllowed;
    var rest := s[18 * k..];
    if |rest| >= 18 {
      CollectSourced(s, k + 1, max, scaled);
      assert rest[18..] == s[18 * (k + 1)..];
      assert DescriptorIs(s, rest[..18], k);
    }
  }

  ghost predicate DescriptorIs(s: seq<byte>, d: seq<byte>, j: nat) {
    18 * j + 18 <= |s| && d == s[18 * j..18 * j + 18]
  }

  lemma {:induction false} OfferedSourced(data: seq<byte>, b: nat, max: nat, scaled: bool)
    requires |data| % 128 == 0 && b % 128 == 0 && b <= |data|
    ensures forall d :: d in Offered(data, b, max, scaled) ==> HasTiming(data, d)
    decreases |data| - b
  {
    hide TimingAllowed, Collect, DescriptorsAt;
    if b < |data| {
      var s := DescriptorsAt(data, b);
      CollectSourced(s, 0, max, scaled);
      assert s[18 * 0..] == s;
      OfferedSourced(data, b + 128, max, scaled);
      forall d | d in Collect(s, max, scaled) ensures HasTiming(data, d) {
        var j :| DescriptorIs(s, d, j);
        assert HasTimingAt(data, d, b, j);
      }
    }
  }

  // ----------------------------------------------- what the output promises

  lemma RenderedBlocks(p: Profile)
    requires Renderable(p)
    ensures var e := Render(p);
      && |e| == 256 && e[128] == 2 && 12 <= e[130] <= 60 && e[132..128 + e[130]] == Encode(OutBlocks(p))
      && BlocksAt(e, 128) == Some(OutBlocks(p)) && BlocksAt(e, 0) == Some([])
  {
    hide Render, Encode, Parse, OutBlocks;
    RenderedCollection(p);
    BlocksFit(p);
    ParseEncode(OutBlocks(p));
    var e := Render(p);
    assert Collection(e, 128).Some?;
  }

  /** The rendered EDID's data blocks are the ones of its profile. */
  lemma OutputBlocks(p: Profile, block: Block)
    requires Renderable(p)
    ensures HasBlock(Render(p), block) <==> block in OutBlocks(p)
  {
    hide Render, OutBlocks, BlocksAt;
    RenderedBlocks(p);
    if HasBlock(Render(p), block) {
      var b :| HasBlockAt(Render(p), block, b);
      assert b == 0 || b == 128;
    }
    if block in OutBlocks(p) {
      assert HasBlockAt(Render(p), block, 128);
    }
  }

  lemma OutBlockKinds(p: Profile, block: Block)
    requires Renderable(p) && p.max % 5000 == 0 && 5000 <= p.max && block in OutBlocks(p)
    ensures block.tag == 2 ==> block.payload == p.vics
    ensures block.tag == 1 ==> p.audio
    ensures IsHdmi(block) ==> HdmiRate(block.payload) <= p.max
    ensures IsForum(block) ==> p.scdc && Rate(block.payload[4]) == p.max
  {
    OutBlocksParts(p);
    StepsBack(p.max);
  }

  lemma FlattenFirst(dtds: seq<seq<byte>>, rest: seq<byte>)
    requires dtds != []
    ensures Flatten(dtds) + rest == dtds[0] + (Flatten(dtds[1..]) + rest)
  {
  }

  lemma {:induction false} FlattenSlot(dtds: seq<seq<byte>>, rest: seq<byte>, j: nat)
    requires (forall d :: d in dtds ==> |d| == 18) && 18 * j + 18 <= |Flatten(dtds) + rest|
    ensures |Flatten(dtds)| == 18 * |dtds|
    ensures var d := (Flatten(dtds) + rest)[18 * j..18 * j + 18];
      if j < |dtds| then d == dtds[j] else d == rest[18 * (j - |dtds|)..18 * (j - |dtds|) + 18]
  {
    hide Flatten;
    FlattenSize(dtds);
    if dtds == [] {
      assert Flatten(dtds) + rest == rest;
    } else {
      assert dtds[0] in dtds && forall d :: d in dtds[1..] ==> d in dtds;
      FlattenFirst(dtds, rest);
      if j > 0 {
        FlattenSlot(dtds[1..], rest, j - 1);
        Behind(dtds[0], Flatten(dtds[1..]) + rest, 18 * (j - 1), 18 * (j - 1) + 18);
      }
    }
  }

  lemma TailSlot(p: Profile, d: seq<byte>, j: nat)
    requires Renderable(p) && DescriptorIs(CtaTail(p), d, j) && TimingOf(d).khz != 0
    ensures d in p.dtds
  {
    hide Encode, OutBlocks;
    var used := |Encode(OutBlocks(p))| + |Flatten(Later(p.dtds))|;
    var zeros := Zeros(if used <= 123 then 123 - used else 0);
    assert forall x :: x in Later(p.dtds) ==> x in p.dtds;
    hide Flatten, TimingOf;
    FlattenSlot(Later(p.dtds), zeros, j);
    HasClock(d);
    assert d[0] != 0 || d[1] != 0;
  }

  lemma HasClock(d: seq<byte>)
    requires |d| == 18 && TimingOf(d).khz != 0
    ensures d[0] != 0 || d[1] != 0
  {
  }

  lemma BaseSlot(p: Profile, d: seq<byte>, j: nat)
    requires Renderable(p)
    requires DescriptorIs(TimingSlot(p.dtds, 0) + (TimingSlot(p.dtds, 1) + (TimingSlot(p.dtds, 2) + (NAME_SLOT + []))), d, j)
    requires |d| == 18 && TimingOf(d).khz != 0
    ensures d in p.dtds
  {
    hide TimingOf, Renderable;
    HasClock(d);
    SlotSizes(p);
    FourSlots(TimingSlot(p.dtds, 0), TimingSlot(p.dtds, 1), TimingSlot(p.dtds, 2), NAME_SLOT, d, j);
    assert d != EMPTY_SLOT && d != NAME_SLOT;
  }

  lemma SlotSizes(p: Profile)
    requires Renderable(p)
    ensures |TimingSlot(p.dtds, 0)| == |TimingSlot(p.dtds, 1)| == |TimingSlot(p.dtds, 2)| == 18
  {
  }

  lemma FourSlots(a: seq<byte>, b: seq<byte>, c: seq<byte>, n: seq<byte>, d: seq<byte>, j: nat)
    requires |a| == |b| == |c| == |n| == 18 && DescriptorIs(a + (b + (c + (n + []))), d, j)
    ensures d == a || d == b || d == c || d == n
  {
    var all := a + (b + (c + (n + [])));
    assert all[0..18] == a && all[18..36] == b && all[36..54] == c && all[54..72] == n;
    assert j == 0 || j == 1 || j == 2 || j == 3;
  }

  lemma OutputTimings(p: Profile, d: seq<byte>)
    requires Renderable(p) && |d| == 18 && HasTiming(Render(p), d) && TimingOf(d).khz != 0
    ensures d in p.dtds
  {
    hide Render, CtaTail, DescriptorsAt, TimingSlot, Renderable, TimingOf;
    RenderedSlots(p);
    RenderedCollection(p);
    var b, k :| HasTimingAt(Render(p), d, b, k);
    assert b == 0 || b == 128;
    if b == 0 {
      BaseSlot(p, d, k);
    } else {
      TailSlot(p, d, k);
    }
  }

  // ---------------------------------------------------------- the theorems

  /** Both checksums hold, the data blocks tile the collection up to the offset where
      its timings begin, and the counters say how many timings and codes there are. */
  ghost predicate WellFormed(r: Edid, scaled: bool) {
    var e := r.data;
    && |e| == 256 && Sum(e[..128]) % 256 == 0 && Sum(e[128..]) % 256 == 0
    && e[..8] == HEADER && e[126] == 1 && e[128] == 2
    && 12 <= e[130] <= 60 && Parse(e[132..128 + e[130]]).Some?
    && Encode(Parse(e[132..128 + e[130]]).value) == e[132..128 + e[130]]
    && r.timings == |Offered(e, 0, r.maxKhz, scaled)| && 1 <= r.timings <= DTDS
  }

  lemma OutputIsWellFormed(data: seq<byte>, scaled: bool)
    ensures Filter(data, scaled).Ok? ==> WellFormed(Filter(data, scaled).value, scaled)
  {
    hide Filter, GoodProfile, Scan, ProfileOf, Renderable, Render, Sealed, BaseBody, CtaBody, Encode, Parse,
         OutBlocks, Sum, Offered, BlocksAt, DescriptorsAt;
    if Filter(data, scaled).Ok? {
      var info, p := FilterProfile(data, scaled);
      GoodFacts(p, scaled);
      RenderParts(p);
      SumSealed(BaseBody(p));
      SumSealed(CtaBody(p));
      RenderedSlots(p);
      RenderedBlocks(p);
      OfferedRendered(p, scaled);
      ParseEncode(OutBlocks(p));
      DtdBound(p);
      assert Render(p)[..8] == Render(p)[..54][..8];
    }
  }

  lemma DtdBound(p: Profile)
    requires Renderable(p)
    ensures |p.dtds| <= DTDS
  {
  }

  /** Every advertised timing is one of the display's, progressive, and within the
      clock and refresh limits. */
  lemma TimingsAreTheDisplays(data: seq<byte>, scaled: bool, d: seq<byte>)
    ensures Filter(data, scaled).Ok? && |d| == 18 && HasTiming(Filter(data, scaled).value.data, d) && TimingOf(d).khz != 0 ==>
              HasTiming(data, d) && TimingAllowed(d, Filter(data, scaled).value.maxKhz, scaled)
  {
    hide Filter, Scan, Renderable, Render, HasTiming, Offered, TimingAllowed, Prefix, Slower, Max, GoodVics,
         GoodPrefix;
    if Filter(data, scaled).Ok? && |d| == 18 && HasTiming(Filter(data, scaled).value.data, d) && TimingOf(d).khz != 0 {
      var info, p := FilterProfile(data, scaled);
      OutputTimings(p, d);
      OfferedSourced(data, 0, p.max, scaled);
    }
  }

  /** Every advertised video code is one of the display's, supported, and no faster
      than the advertised rate limit. */
  lemma VicsAreTheDisplays(data: seq<byte>, scaled: bool, vic: byte)
    ensures Filter(data, scaled).Ok? && HasVic(Filter(data, scaled).value.data, vic) ==>
              HasVic(data, vic) && VicAllowed(vic, scaled) && VicClock(vic) <= Filter(data, scaled).value.maxKhz
  {
    hide Filter, Scan, Render, HasBlock, Offered, TimingAllowed, Prefix, Max, GoodPrefix, VicAllowed,
         VicClock, OutBlocks;
    if Filter(data, scaled).Ok? && HasVic(Filter(data, scaled).value.data, vic) {
      var info, p := FilterProfile(data, scaled);
      var block, i :| HasBlock(Render(p), block) && block.tag == 2 && 0 <= i < |block.payload| && block.payload[i] % 128 == vic;
      OutputBlocks(p, block);
      OutBlockKinds(p, block);
      assert p.vics[i] == vic;
      NothingSourced(data);
      ScanSourced(data, 0, NO_INFO, scaled);
      SlowerMembers(info.vics, p.max);
      assert vic in p.vics;
      var k :| 0 <= k < |info.vics| && info.vics[k] == vic;
      VicSourced(data, info, k);
    }
  }

  lemma VicSourced(data: seq<byte>, info: Info, k: nat)
    requires Sourced(data, info) && k < |info.vics|
    ensures HasVic(data, info.vics[k])
  {
    hide RateSourced, AudioSourced, HasVic;
  }

  ghost predicate PromisesAudio(data: seq<byte>) {
    exists a, k: nat :: HasBlock(data, a) && a.tag == 1 && StereoPcmAt(a.payload, 3 * k)
  }

  ghost predicate PromisesScdc(data: seq<byte>) {
    exists f :: HasBlock(data, f) && IsForum(f) && f.payload[5] >= 128
  }

  /** Some vendor block allows the character rate `khz`. */
  ghost predicate PromisesRate(data: seq<byte>, khz: nat) {
    exists v :: HasBlock(data, v) && VendorRate(v, khz)
  }

  ghost predicate VendorRate(v: Block, khz: nat) {
    (IsHdmi(v) && khz <= HdmiRate(v.payload)) || (IsForum(v) && khz <= Rate(v.payload[4]))
  }

  ghost predicate CapabilitiesOf(data: seq<byte>, r: Edid) {
    && (PromisesAudio(r.data) ==> r.audio) && (r.audio ==> PromisesAudio(data))
    && (PromisesScdc(r.data) ==> r.scdc) && (r.scdc ==> PromisesScdc(data))
    && PromisesRate(data, r.maxKhz)
    && (forall khz: nat :: PromisesRate(r.data, khz) ==> khz <= r.maxKhz)
    && (forall block :: HasBlock(r.data, block) && block.tag == 2 ==> |block.payload| == r.videoCodes)
  }

  lemma SourcedPromises(data: seq<byte>, info: Info)
    requires Sourced(data, info) && info.legacy != 0
    ensures info.audio ==> PromisesAudio(data)
    ensures info.scdc ==> PromisesScdc(data)
    ensures PromisesRate(data, Max(info))
  {
    hide HasBlock, VicsSourced, HdmiRate, Rate;
    if info.forum != 0 {
      var f :| HasBlock(data, f) && IsForum(f) && Rate(f.payload[4]) == info.forum && info.scdc == (f.payload[5] >= 128);
      assert VendorRate(f, Max(info));
    } else {
      var h :| HasBlock(data, h) && IsHdmi(h) && HdmiRate(h.payload) == info.legacy;
      assert VendorRate(h, Max(info));
    }
  }

  /** Audio, SCDC and the rate limit are the display's: whatever a reader of the new
      EDID finds advertised, the display advertised. */
  lemma CapabilitiesAreTheDisplays(data: seq<byte>, scaled: bool)
    ensures Filter(data, scaled).Ok? ==> CapabilitiesOf(data, Filter(data, scaled).value)
  {
    hide Filter, Scan, Render, HasBlock, Offered, Prefix, Max, GoodPrefix, GoodVics, TimingAllowed, Slower,
         OutBlocks, Sourced;
    if Filter(data, scaled).Ok? {
      var info, p := FilterProfile(data, scaled);
      NothingSourced(data);
      ScanSourced(data, 0, NO_INFO, scaled);
      HasLegacy(data, info, scaled);
      SourcedPromises(data, info);
      forall block | HasBlock(Render(p), block)
        ensures block.tag == 1 ==> p.audio
        ensures IsForum(block) ==> p.scdc
        ensures block.tag == 2 ==> |block.payload| == |p.vics|
        ensures forall khz: nat :: VendorRate(block, khz) ==> khz <= p.max
      {
        OutputBlocks(p, block);
        OutBlockKinds(p, block);
      }
    }
  }

  lemma HasLegacy(data: seq<byte>, info: Info, scaled: bool)
    requires Filter(data, scaled).Ok? && |data| % 128 == 0 && Scan(data, 0, NO_INFO, scaled) == Some(info)
    ensures info.legacy != 0
  {
    hide Filter, Scan, ProfileOf, Renderable, EdidLength;
    var info' := FilterSteps(data, scaled);
  }
}
