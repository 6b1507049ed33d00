/** The display EDID filter is idempotent: a source that reads the rendered EDID, and
    a second pass over it, see exactly what the first pass decided.
 */
module EdidIdempotence {
  import opened Bytes
  import opened CtaBlocks
  import opened PassthroughEdid

  // -------------------------------------------------------------- profiles

  ghost predicate Distinct(s: seq<byte>) {
    forall i, j :: 0 <= i < j < |s| ==> s[i] != s[j]
  }

  ghost predicate GoodVics(vics: seq<byte>, scaled: bool) {
    && Distinct(vics) && |vics| <= 31
    && forall i :: 0 <= i < |vics| ==> vics[i] < 128 && VicAllowed(vics[i], scaled)
  }

  /** Rates come in 5 MHz steps, and a missing rate is 0. */
  ghost predicate GoodRates(info: Info) {
    info.legacy % 5000 == 0 && info.forum % 5000 == 0
  }

  ghost predicate GoodInfo(info: Info, scaled: bool) {
    GoodVics(info.vics, scaled) && GoodRates(info)
  }

  ghost predicate GoodPrefix(prefix: seq<byte>) {
    |prefix| == 54 && prefix[..8] == HEADER && Prefix(prefix) == prefix
  }

  /** What every profile made by the filter satisfies. */
  ghost predicate GoodProfile(p: Profile, scaled: bool) {
    && Renderable(p) && GoodPrefix(p.prefix)
    && p.max % 5000 == 0 && 5000 <= p.max && (!p.scdc ==> p.max <= 340000)
    && GoodVics(p.vics, scaled) && (forall i :: 0 <= i < |p.vics| ==> VicClock(p.vics[i]) <= p.max)
    && p.dtds != [] && forall d :: d in p.dtds ==> |d| == 18 && TimingAllowed(d, p.max, scaled)
  }

  // ------------------------------------------------------------ video codes

  lemma AddVicGood(vics: seq<byte>, b: byte, scaled: bool)
    requires GoodVics(vics, scaled)
    ensures GoodVics(AddVic(vics, b, scaled), scaled)
  {
    hide VicAllowed;
  }

  lemma {:induction false} AddVicsGood(vics: seq<byte>, p: seq<byte>, scaled: bool)
    requires GoodVics(vics, scaled)
    ensures GoodVics(AddVics(vics, p, scaled), scaled)
    decreases |p|
  {
    hide VicAllowed, GoodVics, AddVic;
    if p != [] {
      AddVicGood(vics, p[0], scaled);
      AddVicsGood(AddVic(vics, p[0], scaled), p[1..], scaled);
    }
  }

  /** Reading back a list of good codes yields that list. */
  lemma {:induction false} AddVicsSame(vics: seq<byte>, rest: seq<byte>, scaled: bool)
    requires GoodVics(vics + rest, scaled)
    ensures AddVics(vics, rest, scaled) == vics + rest
    decreases |rest|
  {
    hide VicAllowed;
    if rest == [] {
      assert vics + rest == vics;
    } else {
      var all := vics + rest;
      assert all[|vics|] == rest[0];
      assert forall i :: 0 <= i < |vics| ==> all[i] == vics[i];
      assert AddVic(vics, rest[0], scaled) == vics + [rest[0]];
      assert vics + rest == vics + [rest[0]] + rest[1..];
      AddVicsSame(vics + [rest[0]], rest[1..], scaled);
    }
  }

  lemma {:induction false} SlowerMembers(vics: seq<byte>, max: nat)
    ensures forall v :: v in Slower(vics, max) <==> v in vics && VicClock(v) <= max
  {
    hide VicClock;
    if vics != [] {
      SlowerMembers(vics[1..], max);
      assert vics == [vics[0]] + vics[1..];
    }
  }

  lemma {:induction false} SlowerGood(vics: seq<byte>, max: nat, scaled: bool)
    requires GoodVics(vics, scaled)
    ensures GoodVics(Slower(vics, max), scaled)
  {
    hide VicClock, VicAllowed;
    if vics != [] {
      SlowerGood(vics[1..], max, scaled);
      SlowerMembers(vics[1..], max);
      var rest := Slower(vics[1..], max);
      forall i | 0 <= i < |rest| ensures rest[i] != vics[0] {
        assert rest[i] in vics[1..];
      }
    }
  }

  lemma {:induction false} SlowerSame(vics: seq<byte>, max: nat)
    requires forall i :: 0 <= i < |vics| ==> VicClock(vics[i]) <= max
    ensures Slower(vics, max) == vics
  {
    hide VicClock;
    if vics != [] {
      SlowerSame(vics[1..], max);
      assert vics == [vics[0]] + vics[1..];
    }
  }

  // ----------------------------------------------------------------- scans

  lemma AbsorbGood(info: Info, b: Block, scaled: bool)
    requires GoodInfo(info, scaled)
    ensures GoodInfo(Absorb(info, b, scaled), scaled)
  {
    hide GoodVics;
    if b.tag == 2 {
      AddVicsGood(info.vics, b.payload, scaled);
    }
  }

  lemma {:induction false} AbsorbAllGood(info: Info, blocks: seq<Block>, scaled: bool)
    requires GoodInfo(info, scaled)
    ensures GoodInfo(AbsorbAll(info, blocks, scaled), scaled)
    decreases |blocks|
  {
    hide GoodInfo, Absorb;
    if blocks != [] {
      AbsorbGood(info, blocks[0], scaled);
      AbsorbAllGood(Absorb(info, blocks[0], scaled), blocks[1..], scaled);
    }
  }

  lemma {:induction false} ScanGood(data: seq<byte>, b: nat, info: Info, scaled: bool)
    requires |data| % 128 == 0 && b % 128 == 0 && b <= |data|
    requires GoodInfo(info, scaled) && Scan(data, b, info, scaled).Some?
    ensures GoodInfo(Scan(data, b, info, scaled).value, scaled)
    decreases |data| - b
  {
    hide Sum, BlocksAt, AbsorbAll, GoodInfo;
    if b < |data| {
      var blocks := BlocksAt(data, b).value;
      AbsorbAllGood(info, blocks, scaled);
      ScanGood(data, b + 128, AbsorbAll(info, blocks, scaled), scaled);
    }
  }

  lemma MaxGood(info: Info)
    requires GoodRates(info) && info.legacy != 0
    ensures Max(info) % 5000 == 0 && 5000 <= Max(info) <= 600000
    ensures !info.scdc ==> Max(info) <= 340000
  {
  }

  lemma PrefixGood(data: seq<byte>)
    requires |data| >= 54 && data[..8] == HEADER
    ensures GoodPrefix(Prefix(data))
  {
    var p := Prefix(data);
    assert p[..8] == data[..8];
    assert p[..18] == data[..18] && p[21..24] == data[21..24] && p[25..35] == data[25..35];
  }

  lemma ProfileGood(data: seq<byte>, info: Info, scaled: bool)
    requires |data| % 128 == 0 && |data| >= 128 && data[..8] == HEADER
    requires GoodInfo(info, scaled) && info.legacy != 0
    requires ProfileOf(data, info, scaled).dtds != []
    ensures GoodProfile(ProfileOf(data, info, scaled), scaled)
  {
    hide VicClock, TimingAllowed, Offered, Prefix, GoodPrefix, GoodVics;
    MaxGood(info);
    PrefixGood(data);
    var p := ProfileOf(data, info, scaled);
    SlowerGood(info.vics, p.max, scaled);
    SlowerMembers(info.vics, p.max);
    assert |p.vics| <= 31 by { GoodVicsBound(p.vics, scaled); }
  }

  lemma GoodVicsBound(vics: seq<byte>, scaled: bool)
    requires GoodVics(vics, scaled)
    ensures |vics| <= 31
  {
  }

  // ----------------------------------------------------- the rendered bytes

  function VicPart(p: Profile): seq<Block> {
    if p.vics != [] then [Block(2, p.vics)] else []
  }

  function AudioPart(p: Profile): seq<Block> {
    if p.audio then [Block(1, [9, 4, 1]), Block(4, [1, 0, 0])] else []
  }

  function HdmiBlock(p: Profile): Block
    requires p.max <= 600000
  {
    Block(3, [3, 12, 0, 0x10, 0, 0, RateByte(if p.max > 340000 then 340000 else p.max)])
  }

  function ForumPart(p: Profile): seq<Block>
    requires p.max <= 600000
  {
    if p.scdc then [Block(3, [0xd8, 0x5d, 0xc4, 1, RateByte(p.max), 0x80, 0])] else []
  }

  lemma OutBlocksParts(p: Profile)
    requires Renderable(p)
    ensures OutBlocks(p) == VicPart(p) + AudioPart(p) + [HdmiBlock(p)] + ForumPart(p)
  {
  }

  lemma AudioSize(p: Profile)
    ensures AllValid(AudioPart(p)) && |Encode(AudioPart(p))| <= 8
  {
    if p.audio {
      var a := AudioPart(p);
      assert Encode(a) == [Header(a[0])] + a[0].payload + Encode(a[1..]);
      assert Encode(a[1..]) == [Header(a[1])] + a[1].payload + Encode(a[1..][1..]);
    }
  }

  lemma SingleSize(b: Block)
    requires b.Valid()
    ensures |Encode([b])| == 1 + |b.payload|
  {
    EncodeHead([b]);
    EmptyCollection();
  }

  lemma PartSizes(p: Profile)
    requires Renderable(p)
    ensures AllValid(VicPart(p)) && |Encode(VicPart(p))| <= 32
    ensures AllValid([HdmiBlock(p)]) && |Encode([HdmiBlock(p)])| == 8
    ensures AllValid(ForumPart(p)) && |Encode(ForumPart(p))| <= 8
  {
    hide Encode;
    EmptyCollection();
    if p.vics != [] {
      SingleSize(Block(2, p.vics));
    }
    SingleSize(HdmiBlock(p));
    if p.scdc {
      SingleSize(ForumPart(p)[0]);
    }
  }

  /** At most 1 + 31 bytes of codes, 8 of audio, 8 for each vendor block. */
  lemma BlocksFit(p: Profile)
    requires Renderable(p)
    ensures 8 <= |Encode(OutBlocks(p))| <= 56
  {
    hide Encode, OutBlocks, VicPart, AudioPart, HdmiBlock, ForumPart;
    var v, a, h, f := VicPart(p), AudioPart(p), [HdmiBlock(p)], ForumPart(p);
    OutBlocksParts(p);
    PartSizes(p);
    AudioSize(p);
    EncodeConcat(v, a);
    EncodeConcat(v + a, h);
    EncodeConcat(v + a + h, f);
  }

  lemma {:induction false} FlattenSize(dtds: seq<seq<byte>>)
    requires forall d :: d in dtds ==> |d| == 18
    ensures |Flatten(dtds)| == 18 * |dtds|
  {
    if dtds != [] {
      assert dtds[0] in dtds;
      FlattenSize(dtds[1..]);
    }
  }

  function CtaTail(p: Profile): seq<byte>
    requires Renderable(p)
  {
    var used := |Encode(OutBlocks(p))| + |Flatten(Later(p.dtds))|;
    Flatten(Later(p.dtds)) + Zeros(if used <= 123 then 123 - used else 0)
  }

  /** The extension: a four-byte head, the data blocks, the later timings, zeros. */
  lemma CtaLayout(p: Profile)
    requires Renderable(p)
    ensures var c, n := CtaBody(p), |Encode(OutBlocks(p))|;
      && |c| == 127 && 8 <= n <= 56 && c[..4] == [2, 3, 4 + n, 0]
      && c[4..4 + n] == Encode(OutBlocks(p)) && c[4 + n..] == CtaTail(p)
      && n + |Flatten(Later(p.dtds))| <= 123
  {
    BlocksFit(p);
    FlattenSize(Later(p.dtds));
    hide OutBlocks, Encode, Flatten;
    var c, blocks, later := CtaBody(p), Encode(OutBlocks(p)), Flatten(Later(p.dtds));
    assert c == [2, 3, 4 + |blocks|, 0] + blocks + CtaTail(p);
  }

  lemma BaseSize(p: Profile)
    requires Renderable(p)
    ensures |BaseBody(p)| == 127
  {
  }

  lemma RenderParts(p: Profile)
    requires Renderable(p)
    ensures var e := Render(p);
      && |BaseBody(p)| == |CtaBody(p)| == 127
      && |e| == 256 && e[..128] == Sealed(BaseBody(p)) && e[128..] == Sealed(CtaBody(p))
      && e[..127] == BaseBody(p) && e[128..255] == CtaBody(p)
  {
    BaseSize(p);
    CtaLayout(p);
    Halves(Sealed(BaseBody(p)), Sealed(CtaBody(p)));
    hide BaseBody, CtaBody, Sum, Negate;
  }

  lemma Halves(a: seq<byte>, b: seq<byte>)
    requires |a| == |b| == 128
    ensures (a + b)[..128] == a && (a + b)[128..] == b
    ensures (a + b)[..127] == a[..127] && (a + b)[128..255] == b[..127]
  {
  }

  // -------------------------------------------------------- reading it back

  lemma {:induction false} AbsorbAllConcat(info: Info, a: seq<Block>, b: seq<Block>, scaled: bool)
    ensures AbsorbAll(info, a + b, scaled) == AbsorbAll(AbsorbAll(info, a, scaled), b, scaled)
    decreases |a|
  {
    hide Absorb;
    if a == [] {
      assert a + b == b;
    } else {
      assert (a + b)[0] == a[0] && (a + b)[1..] == a[1..] + b;
      AbsorbAllConcat(Absorb(info, a[0], scaled), a[1..], b, scaled);
    }
  }

  lemma AbsorbOne(info: Info, b: Block, scaled: bool)
    ensures AbsorbAll(info, [b], scaled) == Absorb(info, b, scaled)
  {
    hide Absorb;
  }

  lemma AbsorbVics(p: Profile, scaled: bool)
    requires GoodVics(p.vics, scaled)
    ensures AbsorbAll(NO_INFO, VicPart(p), scaled) == Info(0, 0, false, false, p.vics)
  {
    hide GoodVics;
    if p.vics != [] {
      AbsorbOne(NO_INFO, Block(2, p.vics), scaled);
      assert [] + p.vics == p.vics;
      AddVicsSame([], p.vics, scaled);
    }
  }

  lemma AbsorbAudio(p: Profile, vics: seq<byte>, scaled: bool)
    ensures AbsorbAll(Info(0, 0, false, false, vics), AudioPart(p), scaled) == Info(0, 0, false, p.audio, vics)
  {
    if p.audio {
      var info, a, b := Info(0, 0, false, false, vics), Block(1, [9, 4, 1]), Block(4, [1, 0, 0]);
      assert AudioPart(p) == [a] + [b];
      AbsorbAllConcat(info, [a], [b], scaled);
      AbsorbOne(info, a, scaled);
      AbsorbOne(Absorb(info, a, scaled), b, scaled);
    }
  }

  /** What a scan of the rendered data blocks recovers. */
  function Recovered(p: Profile): Info {
    Info(if p.max > 340000 then 340000 else p.max, if p.scdc then p.max else 0, p.scdc, p.audio, p.vics)
  }

  lemma StepsBack(max: nat)
    requires max % 5000 == 0 && 5000 <= max <= 600000
    ensures Rate(RateByte(max)) == max && RateByte(max) != 0
    ensures RateByte(340000) == 68 && Rate(68) == 340000
  {
  }

  lemma AbsorbVendor(p: Profile, scaled: bool)
    requires p.max % 5000 == 0 && 5000 <= p.max <= 600000
    ensures AbsorbAll(AbsorbAll(Info(0, 0, false, p.audio, p.vics), [HdmiBlock(p)], scaled), ForumPart(p), scaled) == Recovered(p)
  {
    var info := Info(0, 0, false, p.audio, p.vics);
    AbsorbOne(info, HdmiBlock(p), scaled);
    StepsBack(p.max);
    var info' := Absorb(info, HdmiBlock(p), scaled);
    assert info' == Info(if p.max > 340000 then 340000 else p.max, 0, false, p.audio, p.vics);
    if p.scdc {
      AbsorbOne(info', ForumPart(p)[0], scaled);
    }
  }

  lemma AbsorbRendered(p: Profile, scaled: bool)
    requires GoodProfile(p, scaled)
    ensures AbsorbAll(NO_INFO, OutBlocks(p), scaled) == Recovered(p)
  {
    var v, a, h, f := VicPart(p), AudioPart(p), [HdmiBlock(p)], ForumPart(p);
    OutBlocksParts(p);
    AbsorbAllConcat(NO_INFO, v + a + h, f, scaled);
    AbsorbAllConcat(NO_INFO, v + a, h, scaled);
    AbsorbAllConcat(NO_INFO, v, a, scaled);
    hide Absorb, AbsorbAll;
    AbsorbVics(p, scaled);
    AbsorbAudio(p, p.vics, scaled);
    AbsorbVendor(p, scaled);
  }

  /** Reading the head of an extension gives its data block collection. */
  lemma CollectionIn(e: seq<byte>, c: seq<byte>, blocks: seq<byte>)
    requires |e| == 256 && e[128..255] == c && |blocks| <= 123
    requires c[..4] == [2, 3, 4 + |blocks|, 0] && c[4..4 + |blocks|] == blocks
    ensures e[128] == 2 && e[130] == 4 + |blocks| && Collection(e, 128) == Some(blocks)
    ensures DescriptorsAt(e, 128) == c[4 + |blocks|..]
  {
    var n := |blocks|;
    assert e[128] == c[0] == c[..4][0];
    assert e[130] == c[2] == c[..4][2];
    assert e[132..132 + n] == c[4..4 + n];
    assert e[132 + n..255] == c[4 + n..];
  }

  lemma RenderedCollection(p: Profile)
    requires Renderable(p)
    ensures |Render(p)| == 256 && Render(p)[128] == 2
    ensures Collection(Render(p), 128) == Some(Encode(OutBlocks(p)))
    ensures DescriptorsAt(Render(p), 128) == CtaTail(p)
  {
    RenderParts(p);
    CtaLayout(p);
    hide Encode, OutBlocks, BaseBody, CtaBody, Render, Sum, Collection, DescriptorsAt;
    CollectionIn(Render(p), CtaBody(p), Encode(OutBlocks(p)));
  }

  /** A scan of two sound blocks absorbs exactly the extension's data blocks. */
  lemma ScanTwo(e: seq<byte>, blocks: seq<Block>, scaled: bool)
    requires |e| == 256 && Sum(e[..128]) % 256 == 0 && Sum(e[128..]) % 256 == 0
    requires BlocksAt(e, 128) == Some(blocks)
    ensures Scan(e, 0, NO_INFO, scaled) == Some(AbsorbAll(NO_INFO, blocks, scaled))
  {
    var info := AbsorbAll(NO_INFO, blocks, scaled);
    assert AbsorbAll(NO_INFO, [], scaled) == NO_INFO;
    hide Sum, AbsorbAll;
    assert e[0..128] == e[..128] && e[128..256] == e[128..];
    assert Scan(e, 256, info, scaled) == Some(info);
    assert Scan(e, 128, NO_INFO, scaled) == Some(info);
  }

  lemma ScanRendered(p: Profile, scaled: bool)
    requires GoodProfile(p, scaled)
    ensures |Render(p)| == 256 && Scan(Render(p), 0, NO_INFO, scaled) == Some(Recovered(p))
  {
    RenderParts(p);
    RenderedCollection(p);
    ParseEncode(OutBlocks(p));
    AbsorbRendered(p, scaled);
    SumSealed(BaseBody(p));
    SumSealed(CtaBody(p));
    hide Encode, Parse, OutBlocks, BaseBody, CtaBody, Render, Sum, Sealed, AbsorbAll, Collection, GoodProfile,
         Scan, Recovered, DescriptorsAt;
    ScanTwo(Render(p), OutBlocks(p), scaled);
  }

  // ------------------------------------------------------------- timings

  lemma CollectOne(d: seq<byte>, rest: seq<byte>, max: nat, scaled: bool)
    requires |d| == 18
    ensures Collect(d + rest, max, scaled)
         == (if TimingAllowed(d, max, scaled) then [d] else []) + Collect(rest, max, scaled)
  {
    hide TimingAllowed;
    assert (d + rest)[..18] == d && (d + rest)[18..] == rest;
  }

  lemma {:induction false} CollectTimings(dtds: seq<seq<byte>>, rest: seq<byte>, max: nat, scaled: bool)
    requires forall d :: d in dtds ==> |d| == 18 && TimingAllowed(d, max, scaled)
    ensures Collect(Flatten(dtds) + rest, max, scaled) == dtds + Collect(rest, max, scaled)
  {
    hide TimingAllowed, Collect;
    if dtds == [] {
      assert Flatten(dtds) + rest == rest;
    } else {
      assert dtds[0] in dtds;
      assert Flatten(dtds) + rest == dtds[0] + (Flatten(dtds[1..]) + rest);
      CollectOne(dtds[0], Flatten(dtds[1..]) + rest, max, scaled);
      CollectTimings(dtds[1..], rest, max, scaled);
    }
  }

  lemma NoClock(d: seq<byte>, max: nat, scaled: bool)
    requires |d| == 18 && d[0] == d[1] == 0
    ensures !TimingAllowed(d, max, scaled)
  {
  }

  lemma {:induction false} CollectZeros(n: nat, max: nat, scaled: bool)
    ensures Collect(Zeros(n), max, scaled) == []
  {
    hide TimingAllowed;
    if n >= 18 {
      hide Collect;
      assert Zeros(n) == Zeros(18) + Zeros(n - 18);
      NoClock(Zeros(18), max, scaled);
      CollectOne(Zeros(18), Zeros(n - 18), max, scaled);
      CollectZeros(n - 18, max, scaled);
    }
  }

  lemma CollectSlot(dtds: seq<seq<byte>>, i: nat, rest: seq<byte>, max: nat, scaled: bool)
    requires forall d :: d in dtds ==> |d| == 18 && TimingAllowed(d, max, scaled)
    ensures Collect(TimingSlot(dtds, i) + rest, max, scaled)
         == (if i < |dtds| then [dtds[i]] else []) + Collect(rest, max, scaled)
  {
    hide TimingAllowed, Collect;
    NoClock(EMPTY_SLOT, max, scaled);
    CollectOne(TimingSlot(dtds, i), rest, max, scaled);
  }

  /** The base block's three timing slots; empty ones and the name carry no clock. */
  lemma CollectSlots(dtds: seq<seq<byte>>, max: nat, scaled: bool)
    requires forall d :: d in dtds ==> |d| == 18 && TimingAllowed(d, max, scaled)
    ensures Collect(TimingSlot(dtds, 0) + (TimingSlot(dtds, 1) + (TimingSlot(dtds, 2) + (NAME_SLOT + []))), max, scaled)
         == if |dtds| <= 3 then dtds else dtds[..3]
  {
    hide TimingAllowed, Collect, TimingSlot;
    CollectOne(NAME_SLOT, [], max, scaled);
    NoClock(NAME_SLOT, max, scaled);
    CollectNothing(max, scaled);
    CollectSlot(dtds, 2, NAME_SLOT + [], max, scaled);
    CollectSlot(dtds, 1, TimingSlot(dtds, 2) + (NAME_SLOT + []), max, scaled);
    CollectSlot(dtds, 0, TimingSlot(dtds, 1) + (TimingSlot(dtds, 2) + (NAME_SLOT + [])), max, scaled);
    FirstThree(dtds);
  }

  lemma CollectNothing(max: nat, scaled: bool)
    ensures Collect([], max, scaled) == []
  {
  }

  lemma FirstThree(dtds: seq<seq<byte>>)
    ensures (if 0 < |dtds| then [dtds[0]] else []) + ((if 1 < |dtds| then [dtds[1]] else [])
          + ((if 2 < |dtds| then [dtds[2]] else []) + ([] + [])))
         == if |dtds| <= 3 then dtds else dtds[..3]
  {
  }

  lemma CollectTail(p: Profile, scaled: bool)
    requires GoodProfile(p, scaled)
    ensures Collect(CtaTail(p), p.max, scaled) == Later(p.dtds)
  {
    hide TimingAllowed, Collect, Flatten, Encode, OutBlocks, GoodVics, GoodPrefix;
    var used := |Encode(OutBlocks(p))| + |Flatten(Later(p.dtds))|;
    var zeros := if used <= 123 then 123 - used else 0;
    assert forall d :: d in Later(p.dtds) ==> d in p.dtds;
    CollectTimings(Later(p.dtds), Zeros(zeros), p.max, scaled);
    CollectZeros(zeros, p.max, scaled);
  }

  lemma RenderedSlots(p: Profile)
    requires Renderable(p)
    ensures |Render(p)| == 256
    ensures Render(p)[..54] == p.prefix && Render(p)[126] == 1
    ensures DescriptorsAt(Render(p), 0)
         == TimingSlot(p.dtds, 0) + (TimingSlot(p.dtds, 1) + (TimingSlot(p.dtds, 2) + (NAME_SLOT + [])))
  {
    RenderParts(p);
    hide Render, CtaBody, Sealed;
    BaseSlices(Render(p), p);
  }

  lemma BaseSlices(e: seq<byte>, p: Profile)
    requires Renderable(p) && |e| == 256 && e[..127] == BaseBody(p)
    ensures e[..54] == p.prefix && e[126] == 1
    ensures e[54..126] == TimingSlot(p.dtds, 0) + (TimingSlot(p.dtds, 1) + (TimingSlot(p.dtds, 2) + (NAME_SLOT + [])))
  {
    var slots := TimingSlot(p.dtds, 0) + (TimingSlot(p.dtds, 1) + (TimingSlot(p.dtds, 2) + (NAME_SLOT + [])));
    assert |slots| == 72;
    assert BaseBody(p) == p.prefix + slots + [1];
    assert e[..54] == e[..127][..54];
    assert e[54..126] == e[..127][54..126];
    assert e[126] == e[..127][126];
  }

  /** A second look at the rendered EDID finds the same timings. */
  lemma OfferedRendered(p: Profile, scaled: bool)
    requires GoodProfile(p, scaled)
    ensures |Render(p)| == 256 && Offered(Render(p), 0, p.max, scaled) == p.dtds
  {
    hide TimingAllowed, Collect, Render, CtaTail, TimingSlot, DescriptorsAt, Encode, OutBlocks, Offered, Collection;
    RenderedSlots(p);
    RenderedCollection(p);
    CollectSlots(p.dtds, p.max, scaled);
    CollectTail(p, scaled);
    OfferedTwo(Render(p), p.max, scaled);
    assert p.dtds == (if |p.dtds| <= 3 then p.dtds else p.dtds[..3]) + Later(p.dtds);
  }

  lemma OfferedTwo(e: seq<byte>, max: nat, scaled: bool)
    requires |e| == 256
    ensures Offered(e, 0, max, scaled)
         == Collect(DescriptorsAt(e, 0), max, scaled) + Collect(DescriptorsAt(e, 128), max, scaled)
  {
    hide TimingAllowed, Collect, DescriptorsAt;
    assert Offered(e, 256, max, scaled) == [];
    assert Offered(e, 128, max, scaled) == Collect(DescriptorsAt(e, 128), max, scaled);
  }

  // --------------------------------------------------------- the theorem

  lemma PrefixOfPrefix(e: seq<byte>)
    requires |e| >= 54
    ensures Prefix(e) == Prefix(e[..54])
  {
    var p := e[..54];
    assert e[..18] == p[..18] && e[21..24] == p[21..24] && e[25..35] == p[25..35];
  }

  /** Every profile is recovered from its rendering: parse after print is the identity. */
  lemma ProfileRendered(p: Profile, scaled: bool)
    requires GoodProfile(p, scaled)
    ensures |Render(p)| == 256 && ProfileOf(Render(p), Recovered(p), scaled) == p
  {
    assert Max(Recovered(p)) == p.max && p.prefix == Prefix(p.prefix) && FirstSix(p.dtds) == p.dtds;
    hide Render, Offered, Prefix, VicClock, TimingAllowed, Slower, FirstSix, Max;
    RenderedSlots(p);
    OfferedRendered(p, scaled);
    SlowerSame(p.vics, p.max);
    PrefixOfPrefix(Render(p));
  }

  /** The last steps of the filter once scan and profile are known. */
  lemma FilterFrom(e: seq<byte>, info: Info, p: Profile, scaled: bool)
    requires |e| == 256 && e[126] == 1 && e[..8] == HEADER
    requires Scan(e, 0, NO_INFO, scaled) == Some(info) && info.legacy != 0
    requires ProfileOf(e, info, scaled) == p && p.dtds != [] && Renderable(p)
    ensures Filter(e, scaled) == Ok(EdidOf(p))
  {
    hide Scan, ProfileOf, Render;
  }

  lemma GoodFacts(p: Profile, scaled: bool)
    requires GoodProfile(p, scaled)
    ensures Renderable(p) && p.dtds != [] && Recovered(p).legacy != 0 && p.prefix[..8] == HEADER
  {
    hide TimingAllowed, VicClock, GoodVics;
  }

  /** Running the filter on a rendered EDID gives exactly the same result again. */
  lemma RenderedIsFixed(p: Profile, scaled: bool)
    requires GoodProfile(p, scaled)
    ensures Filter(Render(p), scaled) == Ok(EdidOf(p))
  {
    hide Render, Scan, ProfileOf, GoodProfile, Renderable, Recovered, Filter, EdidOf;
    GoodFacts(p, scaled);
    RenderedSlots(p);
    ScanRendered(p, scaled);
    ProfileRendered(p, scaled);
    assert Render(p)[..8] == Render(p)[..54][..8];
    FilterFrom(Render(p), Recovered(p), p, scaled);
  }

  /** What the filter checked on the way to a result. */
  lemma FilterSteps(data: seq<byte>, scaled: bool) returns (info: Info)
    requires Filter(data, scaled).Ok?
    ensures 128 <= |data| <= 512 && |data| % 128 == 0 && |data| == EdidLength(data[126]) && data[..8] == HEADER
    ensures Scan(data, 0, NO_INFO, scaled) == Some(info) && info.legacy != 0
    ensures var p := ProfileOf(data, info, scaled);
      p.dtds != [] && Renderable(p) && Filter(data, scaled).value == EdidOf(p)
  {
    hide Scan, Render, Prefix, Offered, Slower, EdidLength;
    info := Scan(data, 0, NO_INFO, scaled).value;
    ScanBound(data, 0, NO_INFO, scaled);
  }

  lemma NoInfoGood(scaled: bool)
    ensures GoodInfo(NO_INFO, scaled)
  {
  }

  /** Whatever the filter accepts was made from a good profile. */
  lemma FilterProfile(data: seq<byte>, scaled: bool) returns (info: Info, p: Profile)
    requires Filter(data, scaled).Ok?
    ensures 128 <= |data| <= 512 && |data| % 128 == 0 && |data| == EdidLength(data[126])
    ensures Scan(data, 0, NO_INFO, scaled) == Some(info) && p == ProfileOf(data, info, scaled)
    ensures GoodProfile(p, scaled) && Renderable(p) && Filter(data, scaled).value == EdidOf(p)
  {
    hide Filter, Scan, ProfileOf, GoodProfile, GoodInfo, Renderable, EdidOf, EdidLength;
    info := FilterSteps(data, scaled);
    p := ProfileOf(data, info, scaled);
    NoInfoGood(scaled);
    ScanGood(data, 0, NO_INFO, scaled);
    ProfileGood(data, info, scaled);
  }

  /** The EDID filter is idempotent on every input it accepts, in both modes. */
  lemma FilterIsIdempotent(data: seq<byte>, scaled: bool)
    ensures Filter(data, scaled).Ok? ==> Filter(Filter(data, scaled).value.data, scaled) == Filter(data, scaled)
  {
    hide Filter, GoodProfile, Render, Scan, ProfileOf, Renderable;
    if Filter(data, scaled).Ok? {
      var info, p := FilterProfile(data, scaled);
      RenderedIsFixed(p, scaled);
    }
  }

  // ----------------------------------------------------- a display it accepts

  /** 1280x720 progressive at 60 Hz, as a detailed timing. */
  const HD60: seq<byte> := [0x01, 0x1d, 0, 0x72, 0x51, 0xd0, 0x1e, 0x20, 0, 0, 0, 0, 0, 0, 0, 0, 0, 0x18]

  lemma Hd60Allowed(scaled: bool)
    ensures |HD60| == 18 && TimingAllowed(HD60, 165000, scaled)
  {
    assert TimingOf(HD60) == Timing(74250, 1280, 720, 1650, 750, false);
  }

  /** The filter is not refusing everything: a display with one timing passes it. */
  lemma AcceptsADisplay(scaled: bool)
    ensures exists data: seq<byte> :: Filter(data, scaled).Ok?
  {
    hide Filter, Render, Renderable, EdidOf, TimingAllowed, GoodPrefix, Prefix, HEADER;
    HeaderSize();
    var prefix := Prefix(HEADER + Zeros(46));
    assert (HEADER + Zeros(46))[..8] == HEADER;
    PrefixGood(HEADER + Zeros(46));
    var p := Profile(prefix, 165000, false, false, [], [HD60]);
    Hd60Allowed(scaled);
    assert GoodProfile(p, scaled) by { OneTimingRenders(p); }
    RenderedIsFixed(p, scaled);
  }

  lemma HeaderSize()
    ensures |HEADER| == 8
  {
  }

  lemma OneTimingRenders(p: Profile)
    requires |p.prefix| == 54 && p.max == 165000 && p.vics == [] && p.dtds == [HD60]
    ensures Renderable(p)
  {
  }
}
