/** The DDC checksum planner of driver/gc573_ddc.c.

    The receiver substitutes the physical address of each input into the resident
    EDID; the planner finds the address bytes and computes the checksums that the
    two substituted versions need.
 */
module Ddc {
  import opened Bytes
  import opened CtaBlocks
  import opened PassthroughEdid
  import opened EdidIdempotence
  import opened EdidSoundness

  /** struct gc573_ddc_plan. */
  datatype Plan = Plan(baseChecksum: byte, extensionChecksum: seq<byte>, physicalOffset: nat)

  /** A vendor block with the HDMI identifier: its address bytes' offset and length. */
  datatype Vendor = Vendor(offset: nat, length: nat)

  predicate HasHdmiId(b: Block) {
    b.tag == 3 && |b.payload| >= 3 && b.payload[0] == 3 && b.payload[1] == 12 && b.payload[2] == 0
  }

  /** All such blocks in a collection whose first header is at offset `at`. */
  function Vendors(blocks: seq<Block>, at: nat): seq<Vendor> {
    if blocks == [] then []
    else
      (if HasHdmiId(blocks[0]) then [Vendor(at + 4, |blocks[0].payload|)] else [])
      + Vendors(blocks[1..], at + 1 + |blocks[0].payload|)
  }

  /** An unsigned char of any integer. */
  function Truncated(n: int): byte {
    n % 256
  }

  predicate Supported(data: seq<byte>)
    requires |data| == 256
  {
    && data[..8] == HEADER && data[18] == 1 && (data[19] == 3 || data[19] == 4)
    && data[126] == 1 && data[128] == 2 && data[129] == 3 && 4 <= data[130] <= 127
  }

  /** The physical address bytes when the extension has exactly one HDMI vendor block
      and that block is long enough to hold them. */
  function AddressOffset(data: seq<byte>): Option<nat>
    requires |data| == 256
  {
    if !Supported(data) then None
    else match Parse(data[132..128 + data[130]])
      case None => None
      case Some(blocks) =>
        var v := Vendors(blocks, 132);
        if |v| == 1 && v[0].length >= 5 then Some(v[0].offset) else None
  }

  /** gc573_ddc_plan; None is -EINVAL. */
  function PlanOf(data: seq<byte>): Option<Plan>
    requires |data| == 256
  {
    match AddressOffset(data)
    case None => None
    case Some(at) =>
      if at + 1 >= 255 then None
      else
        var base: int, extension: int := Sum(data[..127]), Sum(data[128..255]);
        var address: int := data[at] as int + data[at + 1] as int;
        Some(Plan(Truncated(0 - base), [Truncated(address - extension - 0x10), Truncated(address - extension - 0x20)], at))
  }

  // ------------------------------------------------------------ properties

  lemma {:induction false} VendorsInside(blocks: seq<Block>, at: nat, i: nat)
    requires AllValid(blocks) && i < |Vendors(blocks, at)|
    ensures var v := Vendors(blocks, at)[i];
      at + 4 <= v.offset && v.offset - 3 + v.length <= at + |Encode(blocks)|
  {
    var rest := Vendors(blocks[1..], at + 1 + |blocks[0].payload|);
    var first := if HasHdmiId(blocks[0]) then 1 else 0;
    if first <= i {
      VendorsInside(blocks[1..], at + 1 + |blocks[0].payload|, i - first);
      assert Vendors(blocks, at)[i] == rest[i - first];
    }
  }

  /** The address bytes always lie inside the extension's data. */
  lemma OffsetInside(data: seq<byte>)
    requires |data| == 256 && AddressOffset(data).Some?
    ensures 136 <= AddressOffset(data).value < 254
  {
    hide Encode, Vendors;
    var s := data[132..128 + data[130]];
    var blocks := Parse(s).value;
    VendorsInside(blocks, 132, 0);
    EncodeParse(s);
  }

  lemma {:induction false} SumUpdate(s: seq<byte>, i: nat, b: byte)
    requires i < |s|
    ensures Sum(s[i := b]) == Sum(s) - s[i] + b
  {
    assert s == s[..i] + ([s[i]] + s[i + 1..]);
    assert s[i := b] == s[..i] + ([b] + s[i + 1..]);
    SumConcat(s[..i], [s[i]] + s[i + 1..]);
    SumConcat(s[..i], [b] + s[i + 1..]);
    SumConcat([s[i]], s[i + 1..]);
    SumConcat([b], s[i + 1..]);
    assert Sum([s[i]]) == s[i] && Sum([b]) == b;
  }

  /** The extension as the source of input `port` reads it. */
  ghost function Substituted(data: seq<byte>, p: Plan, port: nat): seq<byte>
    requires |data| == 256 && 128 <= p.physicalOffset < 254 && port < 2
  {
    data[128..255][p.physicalOffset - 128 := if port == 0 then 0x10 else 0x20][p.physicalOffset - 127 := 0]
  }

  lemma TruncatedCompletes(n: nat, m: int)
    requires n + m == 0
    ensures (n + Truncated(m)) % 256 == 0
  {
  }

  /** For every EDID the planner accepts, both blocks sum to zero with the planned
      checksums: the base block as it is, the extension with either input's address
      in place of the resident one. */
  lemma PlanCompletesSums(data: seq<byte>, port: nat)
    requires |data| == 256 && PlanOf(data).Some? && port < 2
    ensures var p := PlanOf(data).value;
      && 136 <= p.physicalOffset < 254
      && (Sum(data[..127]) + p.baseChecksum) % 256 == 0
      && (Sum(Substituted(data, p, port)) + p.extensionChecksum[port]) % 256 == 0
  {
    hide Sum, AddressOffset;
    OffsetInside(data);
    var p := PlanOf(data).value;
    var ext, at := data[128..255], p.physicalOffset - 128;
    var address: byte := if port == 0 then 0x10 else 0x20;
    SumUpdate(ext, at, address);
    SumUpdate(ext[at := address], at + 1, 0);
    TruncatedCompletes(Sum(data[..127]), 0 - (Sum(data[..127]) as int));
    TruncatedCompletes(Sum(Substituted(data, p, port)), 0 - (Sum(Substituted(data, p, port)) as int));
  }

  /** The planned offset is right behind the HDMI identifier of a data block. */
  lemma OffsetFollowsIdentifier(data: seq<byte>)
    requires |data| == 256 && PlanOf(data).Some?
    ensures var at := PlanOf(data).value.physicalOffset;
      4 <= at < 254 && data[at - 4] / 32 == 3 && data[at - 4] % 32 >= 5 && data[at - 3..at] == [3, 12, 0]
  {
    hide Sum, Encode, Vendors;
    OffsetInside(data);
    var s := data[132..128 + data[130]];
    var blocks := Parse(s).value;
    EncodeParse(s);
    VendorBytes(blocks, 132, 0);
    var at := PlanOf(data).value.physicalOffset;
    assert s[at - 136] == data[at - 4];
    SubSlice(data, 132, 128 + data[130], at - 135, at - 132);
  }

  /** Where the i-th vendor block's bytes are in the encoding. */
  ghost predicate VendorAtBytes(s: seq<byte>, at: nat, v: Vendor) {
    && at + 4 <= v.offset <= at + |s|
    && s[v.offset - at - 4] / 32 == 3 && s[v.offset - at - 4] % 32 == v.length
    && s[v.offset - at - 3..v.offset - at] == [3, 12, 0]
  }

  lemma {:induction false} VendorBytes(blocks: seq<Block>, at: nat, i: nat)
    requires AllValid(blocks) && i < |Vendors(blocks, at)|
    ensures VendorAtBytes(Encode(blocks), at, Vendors(blocks, at)[i])
  {
    hide Encode, Vendors, HasHdmiId, Header, VendorAtBytes, VendorAt;
    if blocks != [] {
      var b, rest := blocks[0], blocks[1..];
      EncodeHead(blocks);
      VendorsFirst(blocks, at);
      if i < |VendorAt(b, at)| {
        VendorHere(b, at, Encode(rest));
      } else {
        var next := at + 1 + |b.payload|;
        VendorBytes(rest, next, i - |VendorAt(b, at)|);
        VendorBehind([Header(b)] + b.payload, Encode(rest), at, Vendors(rest, next)[i - |VendorAt(b, at)|]);
      }
    } else {
      VendorsNone(blocks, at);
    }
  }

  lemma VendorBehind(head: seq<byte>, tail: seq<byte>, at: nat, v: Vendor)
    requires VendorAtBytes(tail, at + |head|, v)
    ensures VendorAtBytes(head + tail, at, v)
  {
    var i := v.offset - at - |head| - 4;
    Behind(head, tail, i, i + 1);
    Behind(head, tail, i + 1, i + 4);
  }

  lemma VendorHere(b: Block, at: nat, tail: seq<byte>)
    requires b.Valid() && VendorAt(b, at) != []
    ensures |VendorAt(b, at)| == 1
    ensures VendorAtBytes(([Header(b)] + b.payload) + tail, at, VendorAt(b, at)[0])
  {
    var s := ([Header(b)] + b.payload) + tail;
    assert s[0] == Header(b) && s[1..4] == b.payload[..3] == [3, 12, 0];
  }

  function VendorAt(b: Block, at: nat): seq<Vendor> {
    if HasHdmiId(b) then [Vendor(at + 4, |b.payload|)] else []
  }

  lemma VendorsFirst(blocks: seq<Block>, at: nat)
    requires blocks != []
    ensures Vendors(blocks, at) == VendorAt(blocks[0], at) + Vendors(blocks[1..], at + 1 + |blocks[0].payload|)
  {
  }

  // ------------------------------------------------------ what is accepted

  /** The vendor block of HDMI 1.4b, section 8.3.2: its identifier, and the address. */
  ghost predicate Hdmi(b: Block) {
    b.tag == 3 && |b.payload| >= 3 && b.payload[..3] == [3, 12, 0]
  }

  /** Block k is the only one of HDMI, and holds the address bytes. */
  ghost predicate OnlyHdmi(blocks: seq<Block>, k: nat) {
    && k < |blocks| && Hdmi(blocks[k]) && |blocks[k].payload| >= 5
    && forall j: nat :: j < |blocks| && j != k ==> !Hdmi(blocks[j])
  }

  /** EDID 1.3 or 1.4 with one extension, of CTA revision 3. */
  ghost predicate RightKind(data: seq<byte>)
    requires |data| == 256
  {
    && data[..8] == [0, 255, 255, 255, 255, 255, 255, 0] && data[18] == 1 && data[19] in {3, 4} && data[126] == 1
    && data[128] == 2 && data[129] == 3 && 4 <= data[130] <= 127
  }

  lemma {:induction false} NoVendors(blocks: seq<Block>, at: nat)
    ensures Vendors(blocks, at) == [] <==> forall j: nat :: j < |blocks| ==> !Hdmi(blocks[j])
  {
    if blocks != [] {
      NoVendors(blocks[1..], at + 1 + |blocks[0].payload|);
      assert forall j: nat :: 0 < j < |blocks| ==> blocks[j] == blocks[1..][j - 1];
    }
  }

  lemma {:induction false} OneVendor(blocks: seq<Block>, at: nat)
    ensures |Vendors(blocks, at)| == 1 && Vendors(blocks, at)[0].length >= 5 <==> exists k: nat :: OnlyHdmi(blocks, k)
  {
    hide HasHdmiId, Hdmi;
    if blocks != [] {
      var rest, next := blocks[1..], at + 1 + |blocks[0].payload|;
      HdmiIs(blocks[0]);
      OneVendor(rest, next);
      NoVendors(rest, next);
      assert forall j: nat :: 0 < j < |blocks| ==> blocks[j] == rest[j - 1];
      if HasHdmiId(blocks[0]) {
        if k: nat :| OnlyHdmi(blocks, k) {
          assert k == 0;
        }
        if |Vendors(blocks, at)| == 1 && |blocks[0].payload| >= 5 {
          assert OnlyHdmi(blocks, 0);
        }
      } else {
        if k: nat :| OnlyHdmi(rest, k) {
          assert OnlyHdmi(blocks, k + 1);
        }
        if k: nat :| OnlyHdmi(blocks, k) {
          assert OnlyHdmi(rest, k - 1);
        }
      }
    }
  }

  lemma HdmiIs(b: Block)
    ensures Hdmi(b) <==> HasHdmiId(b)
  {
  }

  lemma KindIs(data: seq<byte>)
    requires |data| == 256
    ensures RightKind(data) <==> Supported(data)
  {
  }

  /** The planner accepts exactly the EDIDs of the right kind whose data blocks fill the
      collection and hold one HDMI vendor block, with its address. */
  lemma AcceptsExactly(data: seq<byte>)
    requires |data| == 256
    ensures PlanOf(data).Some? <==>
            && RightKind(data)
            && exists blocks: seq<Block>, k: nat ::
                 AllValid(blocks) && Encode(blocks) == data[132..128 + data[130]] && OnlyHdmi(blocks, k)
  {
    hide RightKind, Supported, Encode, Vendors, OnlyHdmi, Parse;
    KindIs(data);
    if RightKind(data) {
      SupportedEnd(data);
      var s := data[132..128 + data[130]];
      forall blocks: seq<Block> | AllValid(blocks) && Encode(blocks) == s ensures Parse(s) == Some(blocks) {
        ParseEncode(blocks);
      }
      if Parse(s).Some? {
        EncodeParse(s);
        OneVendor(Parse(s).value, 132);
      }
      if AddressOffset(data).Some? {
        OffsetInside(data);
      }
    }
  }

  // ------------------------------------------------------ the filter's output

  lemma EncodeFirst(a: seq<Block>)
    requires AllValid(a) && a != []
    ensures |Encode(a)| == 1 + |a[0].payload| + |Encode(a[1..])|
  {
  }

  lemma {:induction false} VendorsConcat(a: seq<Block>, b: seq<Block>, at: nat)
    requires AllValid(a) && AllValid(b)
    ensures Vendors(a + b, at) == Vendors(a, at) + Vendors(b, at + |Encode(a)|)
  {
    hide HasHdmiId, Encode, Header, Vendors, VendorAt;
    if a == [] {
      assert a + b == b;
      EncodeNone();
      VendorsNone(a, at);
    } else {
      var n := at + 1 + |a[0].payload|;
      assert (a + b)[0] == a[0] && (a + b)[1..] == a[1..] + b;
      VendorsFirst(a + b, at);
      VendorsFirst(a, at);
      EncodeFirst(a);
      VendorsConcat(a[1..], b, n);
      assert n + |Encode(a[1..])| == at + |Encode(a)|;
    }
  }

  lemma EncodeNone()
    ensures Encode([]) == []
  {
  }

  lemma VendorsNone(blocks: seq<Block>, at: nat)
    requires |blocks| <= 2 && forall b :: b in blocks ==> !HasHdmiId(b)
    ensures Vendors(blocks, at) == []
  {
    if blocks != [] {
      assert blocks[0] in blocks;
      if blocks[1..] != [] {
        assert blocks[1..][0] in blocks;
      }
    }
  }

  lemma VendorsOne(b: Block, at: nat)
    requires HasHdmiId(b)
    ensures Vendors([b], at) == [Vendor(at + 4, |b.payload|)]
  {
    assert [b][1..] == [];
  }

  function Before(p: Profile): (r: seq<Block>)
    ensures |p.vics| < 32 ==> AllValid(r)
  {
    VicPart(p) + AudioPart(p)
  }

  lemma PartVendors(p: Profile, at: nat)
    requires Renderable(p)
    ensures Vendors(VicPart(p), at) == Vendors(AudioPart(p), at) == Vendors(ForumPart(p), at) == []
    ensures Vendors([HdmiBlock(p)], at) == [Vendor(at + 4, 7)]
  {
    hide Vendors;
    VendorsNone(VicPart(p), at);
    VendorsNone(AudioPart(p), at);
    VendorsNone(ForumPart(p), at);
    VendorsOne(HdmiBlock(p), at);
  }

  /** A rendered collection holds one HDMI vendor block, behind codes and audio. */
  lemma RenderedVendor(p: Profile)
    requires Renderable(p)
    ensures Vendors(OutBlocks(p), 132) == [Vendor(136 + |Encode(Before(p))|, 7)]
  {
    hide Vendors, Encode, HdmiBlock, ForumPart, OutBlocks, VicPart, AudioPart;
    OutBlocksParts(p);
    var h, f := [HdmiBlock(p)], ForumPart(p);
    PartsValid(p);
    VendorsConcat(Before(p) + h, f, 132);
    VendorsConcat(Before(p), h, 132);
    VendorsConcat(VicPart(p), AudioPart(p), 132);
    PartVendors(p, 132);
    PartVendors(p, 132 + |Encode(VicPart(p))|);
    PartVendors(p, 132 + |Encode(Before(p))|);
    PartVendors(p, 132 + |Encode(Before(p) + h)|);
  }

  lemma PartsValid(p: Profile)
    requires Renderable(p)
    ensures AllValid(VicPart(p)) && AllValid(AudioPart(p)) && AllValid(Before(p))
    ensures AllValid([HdmiBlock(p)]) && AllValid(Before(p) + [HdmiBlock(p)]) && AllValid(ForumPart(p))
  {
  }

  lemma HdmiEncoded(p: Profile)
    requires Renderable(p)
    ensures AllValid([HdmiBlock(p)])
    ensures |Encode([HdmiBlock(p)])| == 8 && Encode([HdmiBlock(p)])[4] == 0x10 && Encode([HdmiBlock(p)])[5] == 0
  {
    var h := [HdmiBlock(p)];
    assert h[1..] == [];
    assert Encode(h) == [Header(h[0])] + h[0].payload + [];
  }

  lemma HdmiBytes(p: Profile)
    requires Renderable(p)
    ensures var s, n := Encode(OutBlocks(p)), |Encode(Before(p))|;
      n + 8 <= |s| && s[n + 4] == 0x10 && s[n + 5] == 0
  {
    hide Encode, HdmiBlock, ForumPart, OutBlocks, Before;
    OutBlocksParts(p);
    PartsValid(p);
    BeforeIs(p);
    var h, f := [HdmiBlock(p)], ForumPart(p);
    EncodeConcat(Before(p) + h, f);
    EncodeConcat(Before(p), h);
    HdmiEncoded(p);
    Middle(Encode(Before(p)), Encode(h), Encode(f), 4);
    Middle(Encode(Before(p)), Encode(h), Encode(f), 5);
  }

  lemma BeforeIs(p: Profile)
    ensures Before(p) == VicPart(p) + AudioPart(p)
  {
  }

  lemma Middle(a: seq<byte>, b: seq<byte>, c: seq<byte>, k: nat)
    requires k < |b|
    ensures (a + b + c)[|a| + k] == b[k]
  {
  }

  lemma NegateIsTruncated(n: nat)
    ensures Truncated(0 - n) == Negate(n)
  {
  }

  /** What the planner checks on a rendered EDID. */
  lemma RenderedSupported(p: Profile)
    requires Renderable(p) && GoodPrefix(p.prefix)
    ensures |Render(p)| == 256 && Supported(Render(p))
  {
    hide Render, OutBlocks, Encode, BlocksAt, DescriptorsAt;
    RenderedSlots(p);
    RenderedBlocks(p);
    RenderedHead(p);
    var e := Render(p);
    assert e[..8] == e[..54][..8];
    assert e[18] == e[..54][18] == Prefix(p.prefix)[18] == 1;
    assert e[19] == e[..54][19] == Prefix(p.prefix)[19] == 3;
  }

  lemma RenderedHead(p: Profile)
    requires Renderable(p)
    ensures |Render(p)| == 256 && Render(p)[129] == 3
  {
    hide Render, OutBlocks, Encode, CtaBody;
    RenderParts(p);
    CtaLayout(p);
    assert Render(p)[129] == Render(p)[128..255][1] == CtaBody(p)[..4][1];
  }

  lemma RenderedOffset(p: Profile)
    requires Renderable(p) && GoodPrefix(p.prefix)
    ensures |Render(p)| == 256
    ensures AddressOffset(Render(p)) == Some(136 + |Encode(Before(p))|)
  {
    hide Render, OutBlocks, Encode, Supported, Vendors, Before, GoodPrefix, BlocksAt, Parse;
    RenderedSupported(p);
    RenderedBlocks(p);
    RenderedVendor(p);
    ParseEncode(OutBlocks(p));
    BlocksFit(p);
    SupportedEnd(Render(p));
  }

  lemma SupportedEnd(e: seq<byte>)
    requires |e| == 256 && Supported(e)
    ensures 4 <= e[130] <= 127
  {
  }

  lemma RenderedAddress(p: Profile)
    requires Renderable(p)
    ensures var at := 136 + |Encode(Before(p))|;
      |Render(p)| == 256 && at + 1 < 255 && Render(p)[at] == 0x10 && Render(p)[at + 1] == 0
  {
    hide Render, OutBlocks, Encode, Before, BlocksAt;
    HdmiBytes(p);
    RenderedBlocks(p);
    BlocksFit(p);
    var e, n := Render(p), |Encode(Before(p))|;
    assert e[132..128 + e[130]][n + 4] == e[136 + n] && e[132..128 + e[130]][n + 5] == e[137 + n];
  }

  lemma PlanFor(e: seq<byte>, at: nat)
    requires |e| == 256 && AddressOffset(e) == Some(at) && at + 1 < 255 && e[at] == 0x10 && e[at + 1] == 0
    ensures PlanOf(e).Some?
    ensures PlanOf(e).value.baseChecksum == Negate(Sum(e[..127]))
    ensures PlanOf(e).value.extensionChecksum[0] == Negate(Sum(e[128..255]))
  {
    hide Sum, AddressOffset;
    NegateIsTruncated(Sum(e[..127]));
    NegateIsTruncated(Sum(e[128..255]));
  }

  lemma SealedAt(e: seq<byte>, body: seq<byte>, b: nat)
    requires |body| == 127 && b + 128 <= |e| && e[b..b + 128] == Sealed(body)
    ensures e[b + 127] == Negate(Sum(e[b..b + 127]))
  {
    hide Sum, Negate;
    assert e[b..b + 127] == e[b..b + 128][..127] == body;
    assert e[b + 127] == e[b..b + 128][127];
  }

  /** The planner accepts every EDID the filter makes, and for the first input it
      plans exactly the checksum bytes that are already stored. */
  lemma PlanAcceptsFilter(data: seq<byte>, scaled: bool)
    ensures Filter(data, scaled).Ok? ==> PlansStored(Filter(data, scaled).value.data)
  {
    hide Filter, Scan, ProfileOf, GoodProfile, Render, GoodPrefix, PlanOf, AddressOffset, BaseBody, CtaBody,
         Encode, Before, Sum, Negate, Sealed;
    if Filter(data, scaled).Ok? {
      var info, p := FilterProfile(data, scaled);
      GoodProfilePrefix(p, scaled);
      RenderedOffset(p);
      RenderedAddress(p);
      var e := Render(p);
      PlanFor(e, 136 + |Encode(Before(p))|);
      RenderParts(p);
      assert e[0..128] == e[..128] && e[128..128 + 128] == e[128..] && e[0..127] == e[..127];
      SealedAt(e, BaseBody(p), 0);
      SealedAt(e, CtaBody(p), 128);
    }
  }

  ghost predicate PlansStored(e: seq<byte>) {
    && |e| == 256 && PlanOf(e).Some?
    && PlanOf(e).value.baseChecksum == e[127] && PlanOf(e).value.extensionChecksum[0] == e[255]
  }

  lemma GoodProfilePrefix(p: Profile, scaled: bool)
    requires GoodProfile(p, scaled)
    ensures GoodPrefix(p.prefix)
  {
    hide TimingAllowed, VicClock, GoodVics;
  }

  // ------------------------------------------------------------- the loops

  /** What the walk still has to find from offset i on: the whole list of vendor
      blocks is the one found so far and these. */
  function Remaining(s: seq<byte>, i: nat): Option<seq<Vendor>>
    requires i <= |s|
  {
    match Parse(s[i..]) case None => None case Some(blocks) => Some(Vendors(blocks, 132 + i))
  }

  ghost predicate Walked(s: seq<byte>, i: nat, found: seq<Vendor>)
    requires i <= |s|
  {
    && (Remaining(s, 0).None? <==> Remaining(s, i).None?)
    && (Remaining(s, 0).Some? ==> Remaining(s, 0).value == found + Remaining(s, i).value)
  }

  lemma WalkNext(s: seq<byte>, i: nat, found: seq<Vendor>)
    requires i < |s| && i + 1 + s[i] % 32 <= |s| && Walked(s, i, found)
    ensures var b := Block(s[i] / 32, s[i + 1..i + 1 + s[i] % 32]);
      Walked(s, i + 1 + s[i] % 32, found + VendorAt(b, 132 + i))
  {
    hide VendorAt;
    var length, t := s[i] % 32, s[i..];
    assert t[0] == s[i] && t[1 + length..] == s[i + 1 + length..] && t[1..1 + length] == s[i + 1..i + 1 + length];
    if Remaining(s, i).Some? {
      var blocks := Parse(t).value;
      VendorsFirst(blocks, 132 + i);
      assert blocks[1..] == Parse(s[i + 1 + length..]).value;
      var b := Block(s[i] / 32, s[i + 1..i + 1 + length]);
      assert found + VendorAt(b, 132 + i) + Remaining(s, i + 1 + length).value
          == found + (VendorAt(b, 132 + i) + Remaining(s, i + 1 + length).value);
    }
  }

  lemma WalkEnds(s: seq<byte>, found: seq<Vendor>)
    requires Walked(s, |s|, found)
    ensures Remaining(s, 0) == Some(found)
  {
    assert s[|s|..] == [];
    assert found + [] == found;
  }

  lemma WalkStarts(s: seq<byte>)
    ensures Walked(s, 0, [])
  {
    hide Vendors, Parse;
    if Remaining(s, 0).Some? {
      assert [] + Remaining(s, 0).value == Remaining(s, 0).value;
    }
  }

  lemma Overrun(s: seq<byte>, i: nat, found: seq<Vendor>)
    requires i < |s| && Walked(s, i, found) && i + 1 + s[i] % 32 > |s|
    ensures Remaining(s, 0).None?
  {
    assert s[i..][0] == s[i];
  }

  /** A second vendor block, or one without room for the address, is refused. */
  lemma BadVendor(s: seq<byte>, i: nat, found: seq<Vendor>)
    requires i <= |s| && Walked(s, i, found) && |found| > 0 && (|found| > 1 || found[0].length < 5)
    ensures Remaining(s, 0).None? || |Remaining(s, 0).value| > 1 || Remaining(s, 0).value[0].length < 5
  {
  }

  method FindAddress(data: seq<byte>) returns (r: Option<nat>)
    requires |data| == 256
    ensures r == AddressOffset(data)
  {
    hide Vendors, Remaining, Walked, VendorAt;
    for i := 0 to 8
      invariant data[..i] == HEADER[..i]
    {
      if data[i] != HEADER[i] {
        assert data[..8][i] != HEADER[i];
        return None;
      }
    }
    if data[18] != 1 || (data[19] != 3 && data[19] != 4) || data[126] != 1 || data[128] != 2 || data[129] != 3
       || data[130] < 4 || data[130] > 127 {
      return None;
    }
    var s := data[132..128 + data[130]];
    r := FindIn(s);
    OffsetIs(data, s);
  }

  /** Remaining(s, 0) is the list that AddressOffset looks at. */
  lemma OffsetIs(data: seq<byte>, s: seq<byte>)
    requires |data| == 256 && Supported(data) && s == data[132..128 + data[130]]
    ensures AddressOffset(data) == OnlyVendor(s)
  {
    hide Vendors, Parse;
    assert s[0..] == s;
  }

  function OnlyVendor(s: seq<byte>): Option<nat> {
    match Remaining(s, 0)
    case None => None
    case Some(v) => if |v| == 1 && v[0].length >= 5 then Some(v[0].offset) else None
  }

  method FindIn(s: seq<byte>) returns (r: Option<nat>)
    ensures r == OnlyVendor(s)
  {
    hide Vendors, Parse, Walked, Remaining;
    var found, i := 0, 0;
    ghost var list: seq<Vendor> := [];
    WalkStarts(s);
    while i < |s|
      invariant i <= |s| && Walked(s, i, list)
      invariant if found == 0 then list == [] else |list| == 1 && list[0].offset == found && list[0].length >= 5
    {
      var length := s[i] % 32;
      if i + length + 1 > |s| {
        Overrun(s, i, list);
        return None;
      }
      ghost var b := Block(s[i] / 32, s[i + 1..i + 1 + length]);
      WalkNext(s, i, list);
      list := list + VendorAt(b, 132 + i);
      if s[i] / 32 == 3 && length >= 3 && s[i + 1] == 3 && s[i + 2] == 12 && s[i + 3] == 0 {
        if length < 5 || found != 0 {
          BadVendor(s, i + 1 + length, list);
          return None;
        }
        found := 132 + i + 4;
      }
      i := i + length + 1;
    }
    WalkEnds(s, list);
    r := if found == 0 then None else Some(found);
  }

  /** gc573_ddc_plan with its loops. */
  method MakePlan(data: seq<byte>) returns (r: Option<Plan>)
    requires |data| == 256
    ensures r == PlanOf(data)
  {
    hide Sum, AddressOffset;
    var at := FindAddress(data);
    if at.None? {
      return None;
    }
    OffsetInside(data);
    var base: nat, extension: nat := 0, 0;
    ghost var first, second := data[..127], data[128..255];
    SumOfNone();
    for i := 0 to 127
      invariant base == Sum(first[..i]) && extension == Sum(second[..i])
    {
      SumStep(first, i);
      SumStep(second, i);
      base := base + data[i];
      extension := extension + data[128 + i];
    }
    assert first[..127] == first && second[..127] == second;
    var address: int := data[at.value] as int + data[at.value + 1] as int;
    r := Some(Plan(Truncated(0 - base), [Truncated(address - extension - 0x10), Truncated(address - extension - 0x20)], at.value));
  }

  lemma SumOfNone()
    ensures forall s: seq<byte> {:trigger Sum(s[..0])} :: Sum(s[..0]) == 0
  {
  }
}
