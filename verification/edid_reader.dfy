/** What a source learns from the new EDID about rates, audio and video codes, compared with
    what the display's own EDID says; and when a display's EDID is accepted.
 */
module EdidReader {
  import opened Bytes
  import opened CtaBlocks
  import opened PassthroughEdid
  import opened EdidIdempotence
  import opened EdidSoundness
  import opened EdidLimits

  /** The data blocks of all CTA extensions, in reading order. */
  function Blocks(data: seq<byte>, b: nat): seq<Block>
    requires |data| % 128 == 0 && b % 128 == 0 && b <= |data|
    decreases |data| - b
  {
    if b == |data| then []
    else (match BlocksAt(data, b) case None => [] case Some(blocks) => blocks) + Blocks(data, b + 128)
  }

  /** The rate of the last HDMI block, 165 MHz when it names none. */
  function HdmiKhz(blocks: seq<Block>): Option<nat>
    decreases |blocks|
  {
    if blocks == [] then None
    else
      var later, p := HdmiKhz(blocks[1..]), blocks[0].payload;
      if later.Some? then later
      else if blocks[0].tag == 3 && |p| >= 5 && p[..3] == [0x03, 0x0c, 0x00]
      then Some(if |p| >= 7 && p[6] != 0 then 5000 * p[6] as nat else 165000)
      else None
  }

  /** The rate of the last HDMI Forum block, and whether it has SCDC. */
  function ForumKhz(blocks: seq<Block>): Option<(nat, bool)>
    decreases |blocks|
  {
    if blocks == [] then None
    else
      var later, p := ForumKhz(blocks[1..]), blocks[0].payload;
      if later.Some? then later
      else if blocks[0].tag == 3 && |p| >= 7 && p[..3] == [0xd8, 0x5d, 0xc4]
      then Some((5000 * p[4] as nat, p[5] >= 128))
      else None
  }

  predicate HasScdc(blocks: seq<Block>) {
    ForumKhz(blocks).Some? && ForumKhz(blocks).value.1
  }

  /** 600 MHz at most, and 340 MHz without SCDC. */
  function MaxKhz(blocks: seq<Block>): nat {
    var forum := if ForumKhz(blocks).Some? then ForumKhz(blocks).value.0 else 0;
    var hdmi := if HdmiKhz(blocks).Some? then HdmiKhz(blocks).value else 0;
    var wanted, most := if forum > 0 then forum else hdmi, if HasScdc(blocks) then 600000 else 340000;
    if wanted < most then wanted else most
  }

  ghost predicate OffersPcm(blocks: seq<Block>) {
    exists i: nat, k: nat :: i < |blocks| && blocks[i].tag == 1 && StereoPcmAt(blocks[i].payload, 3 * k)
  }

  // --------------------------------------------- the scan reads just this

  lemma {:induction false} AbsorbAppend(info: Info, a: seq<Block>, c: seq<Block>, scaled: bool)
    ensures AbsorbAll(info, a + c, scaled) == AbsorbAll(AbsorbAll(info, a, scaled), c, scaled)
    decreases |a|
  {
    hide Absorb;
    if a == [] {
      assert a + c == c;
    } else {
      assert (a + c)[0] == a[0] && (a + c)[1..] == a[1..] + c;
      AbsorbAppend(Absorb(info, a[0], scaled), a[1..], c, scaled);
    }
  }

  lemma {:induction false} ScanReads(data: seq<byte>, b: nat, info: Info, scaled: bool)
    requires |data| % 128 == 0 && b % 128 == 0 && b <= |data|
    ensures Scan(data, b, info, scaled).Some? <==>
              forall k: nat :: b <= k < |data| && k % 128 == 0 ==> Sum(data[k..k + 128]) % 256 == 0 && BlocksAt(data, k).Some?
    ensures Scan(data, b, info, scaled).Some? ==>
              Scan(data, b, info, scaled).value == AbsorbAll(info, Blocks(data, b), scaled)
    decreases |data| - b
  {
    hide Sum, BlocksAt, AbsorbAll;
    if b == |data| {
      NothingAbsorbed(info, scaled);
    } else {
      if BlocksAt(data, b).Some? {
        var blocks := BlocksAt(data, b).value;
        ScanReads(data, b + 128, AbsorbAll(info, blocks, scaled), scaled);
        AbsorbAppend(info, blocks, Blocks(data, b + 128), scaled);
      }
      forall k: nat | b < k < |data| && k % 128 == 0 ensures b + 128 <= k {
        Multiples(b, k);
      }
    }
  }

  lemma NothingAbsorbed(info: Info, scaled: bool)
    ensures AbsorbAll(info, [], scaled) == info
  {
  }

  lemma Multiples(b: nat, k: nat)
    requires b < k && b % 128 == 0 && k % 128 == 0
    ensures b + 128 <= k
  {
    assert b == 128 * (b / 128) && k == 128 * (k / 128);
  }

  lemma {:induction false} AbsorbReads(info: Info, blocks: seq<Block>, scaled: bool)
    ensures var r := AbsorbAll(info, blocks, scaled);
      && r.legacy == (if HdmiKhz(blocks).Some? then HdmiKhz(blocks).value else info.legacy)
      && r.forum == (if ForumKhz(blocks).Some? then ForumKhz(blocks).value.0 else info.forum)
      && r.scdc == (if ForumKhz(blocks).Some? then ForumKhz(blocks).value.1 else info.scdc)
      && (r.audio <==> info.audio || OffersPcm(blocks))
    decreases |blocks|
  {
    hide HasStereoPcm, AddVics, StereoPcmAt;
    if blocks != [] {
      AbsorbReads(Absorb(info, blocks[0], scaled), blocks[1..], scaled);
      VendorIs(blocks[0]);
      PcmFirst(blocks);
    }
  }

  lemma VendorIs(v: Block)
    ensures IsHdmi(v) <==> v.tag == 3 && |v.payload| >= 5 && v.payload[..3] == [0x03, 0x0c, 0x00]
    ensures IsForum(v) <==> v.tag == 3 && |v.payload| >= 7 && v.payload[..3] == [0xd8, 0x5d, 0xc4]
  {
    if |v.payload| >= 3 {
      assert v.payload[..3] == [v.payload[0], v.payload[1], v.payload[2]];
    }
  }

  lemma PcmFirst(blocks: seq<Block>)
    requires blocks != []
    ensures OffersPcm(blocks) <==>
              (blocks[0].tag == 1 && HasStereoPcm(blocks[0].payload)) || OffersPcm(blocks[1..])
  {
    hide HasStereoPcm, StereoPcmAt;
    StereoPcm(blocks[0].payload);
    if OffersPcm(blocks[1..]) {
      var i: nat, k: nat :| i < |blocks[1..]| && blocks[1..][i].tag == 1 && StereoPcmAt(blocks[1..][i].payload, 3 * k);
      assert blocks[i + 1] == blocks[1..][i];
    }
    if OffersPcm(blocks) {
      var i: nat, k: nat :| i < |blocks| && blocks[i].tag == 1 && StereoPcmAt(blocks[i].payload, 3 * k);
      if i > 0 {
        assert blocks[1..][i - 1] == blocks[i];
      }
    }
  }

  lemma MaxIs(info: Info, blocks: seq<Block>, scaled: bool)
    requires info == AbsorbAll(NO_INFO, blocks, scaled)
    ensures Max(info) == MaxKhz(blocks) && info.scdc == HasScdc(blocks) && (info.audio <==> OffersPcm(blocks))
    ensures info.legacy != 0 <==> HdmiKhz(blocks).Some?
  {
    hide AbsorbAll, OffersPcm, HdmiKhz, ForumKhz;
    AbsorbReads(NO_INFO, blocks, scaled);
    HdmiPositive(blocks);
  }

  lemma {:induction false} HdmiPositive(blocks: seq<Block>)
    ensures HdmiKhz(blocks).Some? ==> HdmiKhz(blocks).value > 0
    decreases |blocks|
  {
    if blocks != [] {
      HdmiPositive(blocks[1..]);
    }
  }

  function AllBlocks(data: seq<byte>): seq<Block> {
    if |data| % 128 == 0 then Blocks(data, 0) else []
  }

  /** What a reader learns about rates and audio. */
  ghost predicate Learns(data: seq<byte>, r: Edid) {
    var blocks := AllBlocks(data);
    && r.maxKhz == MaxKhz(blocks) && r.scdc == HasScdc(blocks) && (r.audio <==> OffersPcm(blocks))
  }

  /** The rate limit, SCDC and audio of the result are those of the display's data blocks,
      the last vendor block of a kind being the one that counts; and who reads the new
      EDID in the same way learns the same. */
  lemma ReadsTheDisplay(data: seq<byte>, scaled: bool)
    ensures Filter(data, scaled).Ok? ==>
              Learns(data, Filter(data, scaled).value) && Learns(Filter(data, scaled).value.data, Filter(data, scaled).value)
  {
    hide Filter, Learns;
    if Filter(data, scaled).Ok? {
      var r := Filter(data, scaled).value;
      LearnsItself(data, scaled);
      FilterIsIdempotent(data, scaled);
      LearnsItself(r.data, scaled);
    }
  }

  lemma LearnsItself(data: seq<byte>, scaled: bool)
    requires Filter(data, scaled).Ok?
    ensures Learns(data, Filter(data, scaled).value)
  {
    hide Filter, Scan, Render, Offered, Prefix, Slower, Max, MaxKhz, HasScdc, OffersPcm, HdmiKhz, AbsorbAll, Blocks,
         GoodProfile, Renderable, FirstSix;
    var info, p := FilterProfile(data, scaled);
    ScanReads(data, 0, NO_INFO, scaled);
    MaxIs(info, Blocks(data, 0), scaled);
  }

  // ----------------------------------------------------------- video codes

  /** The video codes that can be passed on, with their clocks in kHz. */
  const VIC_KHZ: map<nat, nat> :=
    map[1 := 25175, 2 := 27000, 3 := 27000, 17 := 27000, 18 := 27000,
        4 := 74250, 19 := 74250, 32 := 74250, 33 := 74250, 34 := 74250,
        16 := 148500, 31 := 148500, 60 := 59400, 61 := 59400, 62 := 59400,
        63 := 297000, 64 := 297000, 93 := 297000, 94 := 297000, 95 := 297000, 96 := 594000, 97 := 594000]

  /** A video data block lists this code; the top bit only marks a native mode. */
  ghost predicate Lists(blocks: seq<Block>, vic: nat) {
    exists i: nat, j: nat :: ListsAt(blocks, vic, i, j)
  }

  ghost predicate ListsAt(blocks: seq<Block>, vic: nat, i: nat, j: nat) {
    i < |blocks| && blocks[i].tag == 2 && j < |blocks[i].payload| && blocks[i].payload[j] % 128 == vic
  }

  /** A code with a clock, and when the picture is scaled one of nine. */
  predicate Passes(vic: nat, scaled: bool) {
    vic in VIC_KHZ && (scaled ==> vic in {4, 16, 19, 31, 32, 33, 34, 63, 64})
  }

  lemma ClocksAgree(vic: nat)
    ensures VicClock(vic) == if vic in VIC_KHZ then VIC_KHZ[vic] else 0
  {
  }

  lemma PassesIsAllowed(vic: nat, scaled: bool)
    ensures Passes(vic, scaled) <==> VicAllowed(vic, scaled)
  {
    hide VicClock;
    ClocksAgree(vic);
  }

  const CODES: set<nat> := {1, 2, 3, 17, 18, 4} + {19, 32, 33, 34, 16} + {31, 60, 61, 62, 63} + {64, 93, 94, 95, 96, 97}

  lemma CodesCount()
    ensures |CODES| <= 22
  {
    var a: set<nat>, c: set<nat> := {1, 2, 3, 17, 18, 4}, {19, 32, 33, 34, 16};
    var d: set<nat>, e: set<nat> := {31, 60, 61, 62, 63}, {64, 93, 94, 95, 96, 97};
    AtMostSum(a, c, 6, 5);
    AtMostSum(a + c, d, 11, 5);
    AtMostSum(a + c + d, e, 16, 6);
  }

  lemma AtMostSum(a: set<nat>, c: set<nat>, m: nat, n: nat)
    requires |a| <= m && |c| <= n
    ensures |a + c| <= m + n
  {
    assert |a + c| == |a| + |c| - |a * c|;
  }

  lemma CodeIsKnown(vic: nat)
    requires VicClock(vic) != 0
    ensures vic in CODES
  {
  }

  /** No more than the 22 codes with a clock are ever collected, so the limit of 31 is
      never in the way. */
  lemma FewVics(vics: seq<byte>, scaled: bool)
    requires GoodVics(vics, scaled)
    ensures |vics| <= 22
  {
    hide CODES, VicClock;
    var seen: set<nat> := set i: nat | i < |vics| :: vics[i] as nat;
    forall v | v in seen ensures v in CODES {
      CodeIsKnown(v);
    }
    DistinctCount(vics);
    SubsetSize(seen, CODES);
    CodesCount();
  }

  lemma {:induction false} DistinctCount(vics: seq<byte>)
    requires Distinct(vics)
    ensures |set i: nat | i < |vics| :: vics[i] as nat| == |vics|
  {
    if vics != [] {
      var n := |vics| - 1;
      var before := vics[..n];
      DistinctCount(before);
      var s: set<nat>, t: set<nat> :=
        set i: nat | i < n :: before[i] as nat, set i: nat | i < |vics| :: vics[i] as nat;
      assert t == s + {vics[n] as nat} by {
        assert forall i: nat :: i < n ==> before[i] == vics[i];
      }
    }
  }

  lemma {:induction false} SubsetSize(a: set<nat>, c: set<nat>)
    requires a <= c
    ensures |a| <= |c|
    decreases |c|
  {
    if a != {} {
      var x :| x in a;
      SubsetSize(a - {x}, c - {x});
    }
  }

  lemma AddVicHas(vics: seq<byte>, b: byte, scaled: bool, vic: byte)
    requires GoodVics(vics, scaled)
    ensures vic in AddVic(vics, b, scaled) <==> vic in vics || (vic == b % 128 && VicAllowed(vic, scaled))
  {
    hide VicAllowed;
    FewVics(vics, scaled);
  }

  lemma {:induction false} AddVicsHas(vics: seq<byte>, p: seq<byte>, scaled: bool, vic: byte)
    requires GoodVics(vics, scaled)
    ensures vic in AddVics(vics, p, scaled) <==>
              vic in vics || (VicAllowed(vic, scaled) && exists j: nat :: j < |p| && p[j] % 128 == vic)
    decreases |p|
  {
    hide VicAllowed, GoodVics, AddVic;
    if p != [] {
      AddVicHas(vics, p[0], scaled, vic);
      AddVicGood(vics, p[0], scaled);
      AddVicsHas(AddVic(vics, p[0], scaled), p[1..], scaled, vic);
      assert (exists j: nat :: j < |p| && p[j] % 128 == vic) <==>
             p[0] % 128 == vic || exists j: nat :: j < |p[1..]| && p[1..][j] % 128 == vic by {
        if j: nat :| j < |p[1..]| && p[1..][j] % 128 == vic {
          assert p[j + 1] == p[1..][j];
        }
        if j: nat :| j < |p| && p[j] % 128 == vic {
          assert j > 0 ==> p[1..][j - 1] == p[j];
        }
      }
    }
  }

  lemma {:induction false} AbsorbAllHas(info: Info, blocks: seq<Block>, scaled: bool, vic: byte)
    requires GoodInfo(info, scaled)
    ensures vic in AbsorbAll(info, blocks, scaled).vics <==>
              vic in info.vics || (VicAllowed(vic, scaled) && Lists(blocks, vic))
    decreases |blocks|
  {
    hide VicAllowed, AddVics, HasStereoPcm, HdmiRate, Rate, GoodInfo, Lists;
    if blocks == [] {
      NothingListed(vic);
    } else {
      GoodInfoVics(info, scaled);
      AddVicsHas(info.vics, blocks[0].payload, scaled, vic);
      AbsorbGood(info, blocks[0], scaled);
      AbsorbAllHas(Absorb(info, blocks[0], scaled), blocks[1..], scaled, vic);
      ListsFirst(blocks, vic);
    }
  }

  lemma GoodInfoVics(info: Info, scaled: bool)
    requires GoodInfo(info, scaled)
    ensures GoodVics(info.vics, scaled)
  {
  }

  lemma NothingListed(vic: nat)
    ensures !Lists([], vic)
  {
  }

  lemma ListsFirst(blocks: seq<Block>, vic: nat)
    requires blocks != []
    ensures Lists(blocks, vic) <==>
              (blocks[0].tag == 2 && exists j: nat :: j < |blocks[0].payload| && blocks[0].payload[j] % 128 == vic)
              || Lists(blocks[1..], vic)
  {
    if Lists(blocks[1..], vic) {
      var i: nat, j: nat :| ListsAt(blocks[1..], vic, i, j);
      assert ListsAt(blocks, vic, i + 1, j);
    }
    if blocks[0].tag == 2 {
      if j: nat :| j < |blocks[0].payload| && blocks[0].payload[j] % 128 == vic {
        assert ListsAt(blocks, vic, 0, j);
      }
    }
    if Lists(blocks, vic) {
      var i: nat, j: nat :| ListsAt(blocks, vic, i, j);
      if i > 0 {
        assert ListsAt(blocks[1..], vic, i - 1, j);
      }
    }
  }

  /** A video code is advertised to the source if and only if the display lists it, it can
      be passed on, and its clock is within the display's rate. */
  lemma AdvertisesVics(data: seq<byte>, scaled: bool, vic: byte)
    ensures Filter(data, scaled).Ok? ==>
              var r := Filter(data, scaled).value;
              Lists(AllBlocks(r.data), vic) <==>
                Lists(AllBlocks(data), vic) && Passes(vic, scaled) && VIC_KHZ[vic] <= r.maxKhz
  {
    hide Filter, Scan, Render, Offered, Prefix, Max, AbsorbAll, Blocks, Renderable, FirstSix, Lists, VicClock,
         OutBlocks, VicAllowed, GoodPrefix, TimingAllowed;
    if Filter(data, scaled).Ok? {
      var info, p := FilterProfile(data, scaled);
      ScanReads(data, 0, NO_INFO, scaled);
      NoInfoGood(scaled);
      AbsorbAllHas(NO_INFO, Blocks(data, 0), scaled, vic);
      SlowerHas(info.vics, p.max, vic);
      RenderedLists(p, vic);
      PassesIsAllowed(vic, scaled);
      ClocksAgree(vic);
    }
  }

  lemma {:induction false} SlowerHas(vics: seq<byte>, max: nat, vic: byte)
    ensures vic in Slower(vics, max) <==> vic in vics && VicClock(vic) <= max
    decreases |vics|
  {
    if vics != [] {
      SlowerHas(vics[1..], max, vic);
    }
  }

  lemma RenderedLists(p: Profile, vic: byte)
    requires Renderable(p) && forall i :: 0 <= i < |p.vics| ==> p.vics[i] < 128
    ensures Lists(AllBlocks(Render(p)), vic) <==> vic in p.vics
  {
    hide Render, OutBlocks, BlocksAt, Renderable;
    RenderedIsBlocks(p);
    OutVideo(p, vic);
  }

  lemma RenderedIsBlocks(p: Profile)
    requires Renderable(p)
    ensures AllBlocks(Render(p)) == OutBlocks(p)
  {
    hide Render, OutBlocks, BlocksAt, Renderable;
    RenderedBlocks(p);
    var e := Render(p);
    assert Blocks(e, 256) == [];
    assert Blocks(e, 128) == OutBlocks(p) + [];
    assert Blocks(e, 0) == [] + Blocks(e, 128);
  }

  lemma OutVideo(p: Profile, vic: byte)
    requires Renderable(p) && forall i :: 0 <= i < |p.vics| ==> p.vics[i] < 128
    ensures Lists(OutBlocks(p), vic) <==> vic in p.vics
  {
    var blocks := OutBlocks(p);
    if vic in p.vics {
      var j :| 0 <= j < |p.vics| && p.vics[j] == vic;
      assert ListsAt(blocks, vic, 0, j);
    }
    if Lists(blocks, vic) {
      var i: nat, j: nat :| ListsAt(blocks, vic, i, j);
      assert i == 0;
    }
  }

  // ------------------------------------------------------------ acceptance

  /** Block by block the display's EDID is sound: the sums are zero, and the data blocks of
      every CTA extension fit their collection. */
  ghost predicate Sound(data: seq<byte>) {
    forall b: nat :: b + 128 <= |data| && b % 128 == 0 ==>
      && Sum(data[b..b + 128]) % 256 == 0
      && (b > 0 && data[b] == 2 && data[b + 2] != 0 ==>
            4 <= data[b + 2] <= 127 && Parse(data[b + 4..b + data[b + 2]]).Some?)
  }

  /** Why an EDID is refused, if it is: an invalid length first, then a wrong header or an
      unsound block, then no HDMI block or no timing that meets the limits. */
  ghost function Refusal(data: seq<byte>, scaled: bool): Option<Error> {
    var blocks := AllBlocks(data);
    if !(128 <= |data| <= 512) || |data| % 128 != 0 || |data| != 128 * (data[126] as nat + 1) then Some(Invalid)
    else if data[..8] != [0, 0xff, 0xff, 0xff, 0xff, 0xff, 0xff, 0] || !Sound(data) then Some(BadMessage)
    else if HdmiKhz(blocks).None? || Advertised(data, MaxKhz(blocks), scaled) == [] then Some(Unsupported)
    else None
  }

  lemma AcceptsExactly(data: seq<byte>, scaled: bool)
    ensures var r := Filter(data, scaled);
      Refusal(data, scaled) == if r.Err? then Some(r.error) else None
  {
    hide Sum, BlocksAt, Scan, Max, MaxKhz, HasScdc, OffersPcm, HdmiKhz, AbsorbAll, Blocks, Offered, Prefix, Slower,
         Render, Fitting, Sound, OutBlocks;
    if 128 <= |data| <= 512 && |data| % 128 == 0 {
      ScanReads(data, 0, NO_INFO, scaled);
      SoundIs(data);
      if Scan(data, 0, NO_INFO, scaled).Some? {
        var info := Scan(data, 0, NO_INFO, scaled).value;
        MaxIs(info, Blocks(data, 0), scaled);
        OfferedFitting(data, 0, Max(info), scaled);
      }
    }
  }

  lemma SoundIs(data: seq<byte>)
    requires |data| % 128 == 0
    ensures Sound(data) <==>
              forall k: nat :: 0 <= k < |data| && k % 128 == 0 ==> Sum(data[k..k + 128]) % 256 == 0 && BlocksAt(data, k).Some?
  {
    hide Sum, Parse;
    forall k: nat | k < |data| && k % 128 == 0 ensures k + 128 <= |data| {
      Multiples(k, |data|);
    }
    assert Parse([]).Some? by {
      EmptyCollection();
    }
  }

  // -------------------------------------------------------- the other bytes

  /** The display's identification is kept, with the version, the digital RGB input and the
      feature byte of the card; established and standard timings are dropped; the fourth
      descriptor is the card's name; one extension follows. */
  ghost predicate HasFixedBytes(data: seq<byte>, e: seq<byte>) {
    && |e| == 256 && |data| >= 54 && e[..18] == data[..18] && e[18..21] == [1, 3, 0x80]
    && e[21..24] == data[21..24] && e[24] == 0x0a && e[25..35] == data[25..35] && e[35..38] == [0, 0, 0]
    && (forall i :: 38 <= i < 54 ==> e[i] == 1)
    && e[108..126] == [0, 0, 0, 0xfc, 0, 0x47, 0x43, 0x35, 0x37, 0x33, 0x20, 0x48, 0x44, 0x4d, 0x49, 10, 32, 32]
    && e[126] == 1 && e[128..130] == [2, 3] && e[131] == 0
  }

  /** Behind the video codes: stereo PCM at 48 kHz and 16 bits with its two speakers, the
      HDMI block, and with SCDC the HDMI Forum block, both with the rate in 5 MHz steps. */
  ghost predicate HasFixedBlocks(r: Edid) {
    var blocks := AllBlocks(r.data);
    var codes := if r.videoCodes > 0 then 1 else 0;
    && |blocks| >= codes && (codes == 1 ==> blocks[0].tag == 2 && |blocks[0].payload| == r.videoCodes)
    && r.maxKhz <= 600000
    && blocks[codes..]
       == (if r.audio then [Block(1, [0x09, 0x04, 0x01]), Block(4, [1, 0, 0])] else [])
          + [Block(3, [3, 12, 0, 0x10, 0, 0, (if r.maxKhz < 340000 then r.maxKhz else 340000) / 5000])]
          + (if r.scdc then [Block(3, [0xd8, 0x5d, 0xc4, 1, r.maxKhz / 5000, 0x80, 0])] else [])
  }

  lemma RendersTheRest(data: seq<byte>, scaled: bool)
    ensures Filter(data, scaled).Ok? ==>
              HasFixedBytes(data, Filter(data, scaled).value.data) && HasFixedBlocks(Filter(data, scaled).value)
  {
    hide Filter, Scan, Render, Offered, Max, AbsorbAll, Renderable, Slower, FirstSix, OutBlocks, GoodPrefix, GoodVics,
         TimingAllowed, HasFixedBytes, HasFixedBlocks;
    if Filter(data, scaled).Ok? {
      var info, p := FilterProfile(data, scaled);
      FixedBytes(data, p);
      FixedBlocks(p);
    }
  }

  lemma FixedBytes(data: seq<byte>, p: Profile)
    requires Renderable(p) && |data| >= 54 && p.prefix == Prefix(data)
    ensures HasFixedBytes(data, Render(p))
  {
    hide Render, OutBlocks, Encode, TimingSlot, Renderable, Flatten;
    var e := Render(p);
    RenderedSlots(p);
    RenderParts(p);
    CtaStart(p);
    NameSlotAt(e, p);
    PrefixBytes(data, e);
  }

  lemma CtaStart(p: Profile)
    requires Renderable(p)
    ensures |CtaBody(p)| == 127 && CtaBody(p)[0] == 2 && CtaBody(p)[1] == 3 && CtaBody(p)[3] == 0
  {
    hide Encode, OutBlocks, Flatten;
    CtaLayout(p);
  }

  lemma NameSlotAt(e: seq<byte>, p: Profile)
    requires Renderable(p) && |e| == 256
    requires e[54..126] == TimingSlot(p.dtds, 0) + (TimingSlot(p.dtds, 1) + (TimingSlot(p.dtds, 2) + (NAME_SLOT + [])))
    ensures e[108..126] == NAME_SLOT
  {
    SlotSizes(p);
    hide TimingSlot, Renderable;
    assert e[108..126] == e[54..126][54..72];
  }

  lemma PrefixBytes(data: seq<byte>, e: seq<byte>)
    requires |data| >= 54 && |e| == 256 && e[..54] == Prefix(data)
    ensures e[..18] == data[..18] && e[18..21] == [1, 3, 0x80] && e[21..24] == data[21..24] && e[24] == 0x0a
    ensures e[25..35] == data[25..35] && e[35..38] == [0, 0, 0] && forall i :: 38 <= i < 54 ==> e[i] == 1
  {
    var f := Prefix(data);
    assert e[..18] == f[..18] && e[18..21] == f[18..21] && e[21..24] == f[21..24] && e[25..35] == f[25..35];
    assert e[35..38] == f[35..38];
    forall i | 24 <= i < 54 ensures e[i] == f[i] {
      assert e[i] == e[..54][i];
    }
  }

  lemma FixedBlocks(p: Profile)
    requires Renderable(p)
    ensures HasFixedBlocks(EdidOf(p))
  {
    hide Render, Encode, Parse, AllBlocks;
    RenderedIsBlocks(p);
    var video := if p.vics != [] then [Block(2, p.vics)] else [];
    var audio := if p.audio then [Block(1, [0x09, 0x04, 0x01]), Block(4, [1, 0, 0])] else [];
    var hdmi := [Block(3, [3, 12, 0, 0x10, 0, 0, (if p.max < 340000 then p.max else 340000) / 5000])];
    var forum := if p.scdc then [Block(3, [0xd8, 0x5d, 0xc4, 1, p.max / 5000, 0x80, 0])] else [];
    SameBlocks(p, video, audio, hdmi, forum);
    Behind4(video, audio, hdmi, forum);
  }

  lemma SameBlocks(p: Profile, video: seq<Block>, audio: seq<Block>, hdmi: seq<Block>, forum: seq<Block>)
    requires Renderable(p)
    requires video == if p.vics != [] then [Block(2, p.vics)] else []
    requires audio == if p.audio then [Block(1, [0x09, 0x04, 0x01]), Block(4, [1, 0, 0])] else []
    requires hdmi == [Block(3, [3, 12, 0, 0x10, 0, 0, (if p.max < 340000 then p.max else 340000) / 5000])]
    requires forum == if p.scdc then [Block(3, [0xd8, 0x5d, 0xc4, 1, p.max / 5000, 0x80, 0])] else []
    ensures OutBlocks(p) == video + audio + hdmi + forum
  {
  }

  lemma Behind4<T>(a: seq<T>, b: seq<T>, c: seq<T>, d: seq<T>)
    ensures (a + b + c + d)[|a|..] == b + c + d
  {
  }
}
