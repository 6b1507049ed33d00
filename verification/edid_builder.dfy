/** build_edid of driver/gc573_passthrough_edid.c loop by loop, proved against the
    function of PassthroughEdid.
 */
module EdidBuilder {
  import opened Bytes
  import opened CtaBlocks
  import opened PassthroughEdid
  import opened EdidIdempotence

  // ------------------------------------------------------------ the scan

  method BlockSum(data: seq<byte>, b: nat) returns (sum: nat)
    requires b + 128 <= |data|
    ensures sum == Sum(data[b..b + 128])
  {
    hide Sum;
    sum := 0;
    ghost var block := data[b..b + 128];
    assert sum == Sum(block[..0]) by { SumEmpty(); }
    for i := 0 to 128
      invariant sum == Sum(block[..i])
    {
      SumStep(block, i);
      sum := sum + data[b + i];
    }
    assert block[..128] == block;
  }

  lemma SumEmpty()
    ensures Sum([]) == 0
  {
  }

  method FindAudio(p: seq<byte>) returns (audio: bool)
    ensures audio == HasStereoPcm(p)
  {
    audio := false;
    var j := 0;
    assert p[0..] == p;
    while j + 2 < |p|
      invariant j <= |p|
      invariant HasStereoPcm(p) == (audio || HasStereoPcm(p[j..]))
    {
      if p[j] / 8 == 1 && p[j] % 8 >= 1 && p[j + 1] / 4 % 2 == 1 && p[j + 2] % 2 == 1 {
        audio := true;
      }
      assert p[j..][3..] == p[j + 3..];
      j := j + 3;
    }
  }

  method AddCodes(vics: seq<byte>, p: seq<byte>, scaled: bool) returns (r: seq<byte>)
    requires |vics| <= 31
    ensures r == AddVics(vics, p, scaled) && |r| <= 31
  {
    hide VicAllowed;
    r := vics;
    assert p[0..] == p;
    for j := 0 to |p|
      invariant |r| <= 31 && AddVics(vics, p, scaled) == AddVics(r, p[j..], scaled)
    {
      assert p[j..][0] == p[j] && p[j..][1..] == p[j + 1..];
      var vic := p[j] % 128;
      if VicAllowed(vic, scaled) {
        var k := 0;
        while k < |r| && r[k] != vic
          invariant k <= |r| && forall i :: 0 <= i < k ==> r[i] != vic
        {
          k := k + 1;
        }
        if k == |r| && |r| < 31 {
          r := r + [vic];
        }
      }
    }
  }

  method AbsorbBlock(info: Info, block: Block, scaled: bool) returns (r: Info)
    requires |info.vics| <= 31
    ensures r == Absorb(info, block, scaled) && |r.vics| <= 31
  {
    r := info;
    var p := block.payload;
    if block.tag == 3 && |p| >= 5 && p[0] == 3 && p[1] == 12 && p[2] == 0 {
      r := r.(legacy := 165000);
      if |p| >= 7 && p[6] != 0 {
        r := r.(legacy := Rate(p[6]));
      }
    }
    if block.tag == 3 && |p| >= 7 && p[0] == 0xd8 && p[1] == 0x5d && p[2] == 0xc4 {
      r := r.(forum := Rate(p[4]), scdc := p[5] >= 128);
    }
    if block.tag == 1 {
      var audio := FindAudio(p);
      if audio {
        r := r.(audio := true);
      }
    }
    if block.tag == 2 {
      var vics := AddCodes(r.vics, p, scaled);
      r := r.(vics := vics);
    }
  }

  /** The walk over one extension's data blocks. */
  method ScanCollection(s: seq<byte>, info: Info, scaled: bool) returns (r: Option<Info>)
    requires |info.vics| <= 31
    ensures Parse(s).None? ==> r == None
    ensures Parse(s).Some? ==> r == Some(AbsorbAll(info, Parse(s).value, scaled)) && |r.value.vics| <= 31
  {
    hide Absorb, AbsorbAll, Parse;
    var current, i := info, 0;
    assert s[0..] == s;
    while i < |s|
      invariant i <= |s| && |current.vics| <= 31
      invariant Scanned(s, info, scaled) == Scanned(s[i..], current, scaled)
    {
      var length := s[i] % 32;
      if i + 1 + length > |s| {
        ParseOverrun(s[i..]);
        return None;
      }
      var block := Block(s[i] / 32, s[i + 1..i + 1 + length]);
      ParseStep(s, i, current, scaled);
      current := AbsorbBlock(current, block, scaled);
      i := i + 1 + length;
    }
    assert s[i..] == [];
    NoBlocks(current, scaled);
    ParseNothing();
    r := Some(current);
  }

  /** What the rest of a collection adds to the information so far. */
  function Scanned(s: seq<byte>, info: Info, scaled: bool): Option<Info> {
    match Parse(s) case None => None case Some(blocks) => Some(AbsorbAll(info, blocks, scaled))
  }

  lemma ParseNothing()
    ensures Parse([]) == Some([])
  {
  }

  lemma ParseOverrun(s: seq<byte>)
    requires s != [] && 1 + s[0] % 32 > |s|
    ensures Parse(s).None?
  {
  }

  lemma ParseStep(s: seq<byte>, i: nat, info: Info, scaled: bool)
    requires i < |s| && i + 1 + s[i] % 32 <= |s|
    ensures var length := s[i] % 32;
      Scanned(s[i..], info, scaled)
      == Scanned(s[i + 1 + length..], Absorb(info, Block(s[i] / 32, s[i + 1..i + 1 + length]), scaled), scaled)
  {
    hide Absorb;
    var length, t := s[i] % 32, s[i..];
    assert t[0] == s[i] && t[1 + length..] == s[i + 1 + length..] && t[1..1 + length] == s[i + 1..i + 1 + length];
  }

  method ScanAll(data: seq<byte>, scaled: bool) returns (r: Option<Info>)
    requires |data| % 128 == 0
    ensures r == Scan(data, 0, NO_INFO, scaled)
    ensures r.Some? ==> |r.value.vics| <= 31
  {
    hide Sum, Parse, AbsorbAll;
    var info, b := NO_INFO, 0;
    while b < |data|
      invariant b <= |data| && b % 128 == 0 && |info.vics| <= 31
      invariant Scan(data, 0, NO_INFO, scaled) == Scan(data, b, info, scaled)
    {
      var sum := BlockSum(data, b);
      if sum % 256 != 0 {
        return None;
      }
      if b != 0 && data[b] == 2 {
        var end := data[b + 2];
        if end != 0 && (end < 4 || end > 127) {
          return None;
        }
        var s := if end == 0 then [] else data[b + 4..b + end];
        var next := ScanCollection(s, info, scaled);
        if next.None? {
          return None;
        }
        info := next.value;
      } else {
        NoBlocks(info, scaled);
      }
      b := b + 128;
    }
    r := Some(info);
  }

  lemma NoBlocks(info: Info, scaled: bool)
    ensures AbsorbAll(info, [], scaled) == info
  {
  }

  // --------------------------------------------------------------- timings

  lemma FirstSixFull(dtds: seq<seq<byte>>, more: seq<seq<byte>>)
    requires |dtds| == DTDS
    ensures FirstSix(dtds + more) == dtds
  {
  }

  method CollectTimingsOf(data: seq<byte>, max: nat, scaled: bool) returns (dtds: seq<seq<byte>>)
    requires |data| % 128 == 0
    ensures dtds == FirstSix(Offered(data, 0, max, scaled))
  {
    hide TimingAllowed, Collect, DescriptorsAt, Offered, FirstSix;
    dtds := [];
    var b := 0;
    assert [] + Offered(data, 0, max, scaled) == Offered(data, 0, max, scaled);
    while b < |data|
      invariant b <= |data| && b % 128 == 0 && |dtds| <= DTDS
      invariant FirstSix(dtds + Offered(data, b, max, scaled)) == FirstSix(Offered(data, 0, max, scaled))
    {
      var s := DescriptorsAt(data, b);
      NextBlock(b, |data|);
      OfferedStep(data, b, max, scaled);
      dtds := AddTimings(dtds, s, Offered(data, b + 128, max, scaled), max, scaled);
      b := b + 128;
    }
    OfferedNothing(data, max, scaled);
    assert dtds + [] == dtds;
    FirstSixShort(dtds);
  }

  lemma NextBlock(b: nat, length: nat)
    requires b < length && b % 128 == 0 && length % 128 == 0
    ensures b + 128 <= length && (b + 128) % 128 == 0
  {
  }

  lemma FirstSixShort(dtds: seq<seq<byte>>)
    requires |dtds| <= DTDS
    ensures FirstSix(dtds) == dtds
  {
  }

  lemma OfferedStep(data: seq<byte>, b: nat, max: nat, scaled: bool)
    requires |data| % 128 == 0 && b % 128 == 0 && b < |data|
    ensures Offered(data, b, max, scaled)
         == Collect(DescriptorsAt(data, b), max, scaled) + Offered(data, b + 128, max, scaled)
  {
  }

  lemma OfferedNothing(data: seq<byte>, max: nat, scaled: bool)
    requires |data| % 128 == 0
    ensures Offered(data, |data|, max, scaled) == []
  {
  }

  /** The inner loop over one block's descriptors; `later` is what other blocks offer. */
  method AddTimings(found: seq<seq<byte>>, s: seq<byte>, ghost later: seq<seq<byte>>, max: nat, scaled: bool)
    returns (dtds: seq<seq<byte>>)
    requires |found| <= DTDS
    ensures |dtds| <= DTDS
    ensures FirstSix(dtds + later) == FirstSix(found + (Collect(s, max, scaled) + later))
  {
    hide TimingAllowed, Collect;
    dtds := found;
    var i := 0;
    assert s[0..] == s;
    while i + 18 <= |s|
      invariant i <= |s| && |dtds| <= DTDS
      invariant FirstSix(dtds + (Collect(s[i..], max, scaled) + later)) == FirstSix(found + (Collect(s, max, scaled) + later))
    {
      var d := s[i..i + 18];
      assert s[i..] == d + s[i + 18..];
      CollectOne(d, s[i + 18..], max, scaled);
      ghost var rest := Collect(s[i + 18..], max, scaled) + later;
      if TimingAllowed(d, max, scaled) {
        if |dtds| < 6 {
          assert dtds + ([d] + rest) == dtds + [d] + rest;
          assert [d] + Collect(s[i + 18..], max, scaled) + later == [d] + rest;
          dtds := dtds + [d];
        } else {
          FirstSixFull(dtds, rest);
          FirstSixFull(dtds, Collect(s[i..], max, scaled) + later);
        }
      } else {
        assert [] + Collect(s[i + 18..], max, scaled) == Collect(s[i + 18..], max, scaled);
      }
      i := i + 18;
    }
    CollectShort(s[i..], max, scaled);
    assert [] + later == later;
  }

  lemma CollectShort(s: seq<byte>, max: nat, scaled: bool)
    requires |s| < 18
    ensures Collect(s, max, scaled) == []
  {
  }

  method KeepSlower(vics: seq<byte>, max: nat) returns (r: seq<byte>)
    ensures r == Slower(vics, max)
  {
    hide VicClock;
    r := [];
    assert vics[0..] == vics;
    for i := 0 to |vics|
      invariant r + Slower(vics[i..], max) == Slower(vics, max)
    {
      assert vics[i..][0] == vics[i] && vics[i..][1..] == vics[i + 1..];
      if VicClock(vics[i]) <= max {
        assert r + ([vics[i]] + Slower(vics[i + 1..], max)) == r + [vics[i]] + Slower(vics[i + 1..], max);
        r := r + [vics[i]];
      }
    }
  }

  // ---------------------------------------------------------------- output

  /** A buffer filled up to |s|, and zero from there on. */
  ghost predicate Built(out: array<byte>, s: seq<byte>)
    reads out
  {
    out.Length == 256 && |s| <= 256 && out[..] == s + Zeros(256 - |s|)
  }

  /** copy() behind what is already there. */
  method Append(out: array<byte>, ghost s: seq<byte>, at: nat, from: seq<byte>)
    requires Built(out, s) && at == |s| && at + |from| <= 256
    modifies out
    ensures Built(out, s + from)
  {
    for i := 0 to |from|
      invariant Built(out, s + from[..i])
    {
      out[at + i] := from[i];
      assert s + from[..i + 1] == s + from[..i] + [from[i]];
    }
    assert from[..|from|] == from;
  }

  method AppendEmptySlot(out: array<byte>, ghost s: seq<byte>, at: nat)
    requires Built(out, s) && at == |s| && at + 18 <= 256
    modifies out
    ensures Built(out, s + EMPTY_SLOT)
  {
    out[at + 3] := 0x10;
  }

  /** The fields of the base block that the driver overwrites. */
  method WriteHead(out: array<byte>, ghost data: seq<byte>)
    requires |data| >= 54 && Built(out, data[..54])
    modifies out
    ensures out[..38] == data[..18] + [1, 3, 0x80] + data[21..24] + [0x0a] + data[25..35] + [0, 0, 0]
    ensures out.Length == 256 && out[54..] == Zeros(202)
  {
    out[20] := 0x80;
    out[18] := 1;
    out[19] := 3;
    out[24] := 0x0a;
    out[35] := 0;
    out[36] := 0;
    out[37] := 0;
  }

  method WritePrefix(out: array<byte>, data: seq<byte>)
    requires Built(out, []) && |data| >= 54
    modifies out
    ensures Built(out, Prefix(data))
  {
    Append(out, [], 0, data[..54]);
    assert [] + data[..54] == data[..54];
    WriteHead(out, data);
    ghost var head := data[..18] + [1, 3, 0x80] + data[21..24] + [0x0a] + data[25..35] + [0, 0, 0];
    for i := 38 to 54
      invariant out.Length == 256 && out[..i] == head + seq(i - 38, _ => 1)
      invariant out[54..] == Zeros(202)
    {
      out[i] := 1;
    }
    assert out[..] == out[..54] + out[54..];
  }

  method WriteBase(out: array<byte>, data: seq<byte>, dtds: seq<seq<byte>>)
    requires Built(out, []) && |data| >= 54
    requires forall d :: d in dtds ==> |d| == 18
    modifies out
    ensures Built(out, Prefix(data) + TimingSlot(dtds, 0) + TimingSlot(dtds, 1) + TimingSlot(dtds, 2) + NAME_SLOT + [1])
  {
    WritePrefix(out, data);
    ghost var s := Prefix(data);
    for i := 0 to 3
      invariant |s| == 54 + 18 * i && Built(out, s)
      invariant s == Prefix(data) + (if i > 0 then TimingSlot(dtds, 0) else [])
                   + (if i > 1 then TimingSlot(dtds, 1) else []) + (if i > 2 then TimingSlot(dtds, 2) else [])
    {
      if i < |dtds| {
        Append(out, s, 54 + i * 18, dtds[i]);
      } else {
        AppendEmptySlot(out, s, 54 + i * 18);
      }
      s := s + TimingSlot(dtds, i);
    }
    Append(out, s, 108, NAME_SLOT);
    Append(out, s + NAME_SLOT, 126, [1]);
  }

  // The data blocks as the literals that are copied.

  function VicBytes(p: Profile): seq<byte>
    requires Renderable(p)
  {
    if p.vics != [] then [0x40 + |p.vics|] + p.vics else []
  }

  function AudioBytes(p: Profile): seq<byte> {
    if p.audio then [0x23, 0x09, 0x04, 0x01, 0x83, 1, 0, 0] else []
  }

  function HdmiBytes(p: Profile): (s: seq<byte>)
    requires Renderable(p)
    ensures |s| == 8
  {
    [0x67, 3, 12, 0, 0x10, 0, 0, RateByte(if p.max > 340000 then 340000 else p.max)]
  }

  function ForumBytes(p: Profile): seq<byte>
    requires Renderable(p)
  {
    if p.scdc then [0x67, 0xd8, 0x5d, 0xc4, 1, RateByte(p.max), 0x80, 0] else []
  }

  method WriteCodes(out: array<byte>, ghost s: seq<byte>, p: Profile) returns (pos: nat)
    requires Built(out, s) && |s| == 132 && Renderable(p)
    modifies out
    ensures Built(out, s + VicBytes(p) + AudioBytes(p)) && pos == 4 + |VicBytes(p) + AudioBytes(p)| <= 44
  {
    hide Built;
    pos := 4;
    ghost var t := s;
    if p.vics != [] {
      Append(out, t, 128 + pos, [0x40 + |p.vics|]);
      t := t + [0x40 + |p.vics|];
      Append(out, t, 128 + pos + 1, p.vics);
      t := t + p.vics;
      pos := pos + 1 + |p.vics|;
    }
    assert t == s + VicBytes(p);
    if p.audio {
      Append(out, t, 128 + pos, [0x23, 0x09, 0x04, 0x01, 0x83, 1, 0, 0]);
      t := t + [0x23, 0x09, 0x04, 0x01, 0x83, 1, 0, 0];
      pos := pos + 8;
    }
    assert t == s + VicBytes(p) + AudioBytes(p);
  }

  method WriteVendors(out: array<byte>, ghost s: seq<byte>, at: nat, p: Profile) returns (pos: nat)
    requires Built(out, s) && 128 + at == |s| <= 172 && Renderable(p)
    modifies out
    ensures Built(out, s + HdmiBytes(p) + ForumBytes(p)) && pos == at + |HdmiBytes(p) + ForumBytes(p)|
  {
    hide Built;
    pos := at;
    Append(out, s, 128 + pos, HdmiBytes(p));
    pos := pos + 8;
    if p.scdc {
      Append(out, s + HdmiBytes(p), 128 + pos, ForumBytes(p));
      pos := pos + 8;
    } else {
      assert s + HdmiBytes(p) + ForumBytes(p) == s + HdmiBytes(p);
    }
  }

  method WriteBlocks(out: array<byte>, ghost s: seq<byte>, p: Profile) returns (pos: nat)
    requires Built(out, s) && |s| == 132 && Renderable(p)
    modifies out
    ensures Built(out, s + Encode(OutBlocks(p))) && pos == 4 + |Encode(OutBlocks(p))| <= 60
  {
    hide Encode, OutBlocks, Renderable, Built, VicBytes, AudioBytes, HdmiBytes, ForumBytes;
    pos := WriteCodes(out, s, p);
    pos := WriteVendors(out, s + VicBytes(p) + AudioBytes(p), pos, p);
    BlockBytes(p);
    BlocksFit(p);
    assert s + VicBytes(p) + AudioBytes(p) + HdmiBytes(p) + ForumBytes(p) == s + Encode(OutBlocks(p));
  }

  lemma EncodeSingle(b: Block)
    requires b.Valid()
    ensures AllValid([b]) && Encode([b]) == [Header(b)] + b.payload
  {
    assert [b][1..] == [];
    assert Encode([b]) == [Header(b)] + b.payload + [];
  }

  lemma EncodeEmpty()
    ensures Encode([]) == []
  {
  }

  lemma CodesEncoded(p: Profile)
    requires Renderable(p)
    ensures AllValid(VicPart(p)) && Encode(VicPart(p)) == VicBytes(p)
    ensures AllValid(AudioPart(p)) && Encode(AudioPart(p)) == AudioBytes(p)
  {
    hide Encode;
    EncodeEmpty();
    if p.vics != [] {
      EncodeSingle(Block(2, p.vics));
    }
    if p.audio {
      var a, b := Block(1, [9, 4, 1]), Block(4, [1, 0, 0]);
      assert AudioPart(p) == [a] + [b];
      EncodeSingle(a);
      EncodeSingle(b);
      EncodeConcat([a], [b]);
    }
  }

  lemma VendorsEncoded(p: Profile)
    requires Renderable(p)
    ensures AllValid([HdmiBlock(p)]) && Encode([HdmiBlock(p)]) == HdmiBytes(p)
    ensures AllValid(ForumPart(p)) && Encode(ForumPart(p)) == ForumBytes(p)
  {
    hide Encode;
    EncodeEmpty();
    EncodeSingle(HdmiBlock(p));
    if p.scdc {
      EncodeSingle(ForumPart(p)[0]);
    }
  }

  /** The encoded blocks are the literals that the source copies. */
  lemma BlockBytes(p: Profile)
    requires Renderable(p)
    ensures Encode(OutBlocks(p)) == VicBytes(p) + AudioBytes(p) + HdmiBytes(p) + ForumBytes(p)
  {
    hide Encode, OutBlocks, VicBytes, AudioBytes, HdmiBytes, ForumBytes, VicPart, AudioPart, HdmiBlock, ForumPart;
    OutBlocksParts(p);
    CodesEncoded(p);
    VendorsEncoded(p);
    EncodeConcat(VicPart(p), AudioPart(p));
    EncodeConcat(VicPart(p) + AudioPart(p), [HdmiBlock(p)]);
    EncodeConcat(VicPart(p) + AudioPart(p) + [HdmiBlock(p)], ForumPart(p));
  }

  /** checksum(): the last byte of a block. */
  method Checksum(out: array<byte>, b: nat)
    requires b + 128 <= out.Length
    modifies out
    ensures out[..] == old(out[..])[b + 127 := Negate(Sum(old(out[b..b + 127])))]
  {
    hide Sum, Negate;
    var sum: nat := 0;
    ghost var body := out[b..b + 127];
    assert sum == Sum(body[..0]) by { SumEmpty(); }
    for i := 0 to 127
      invariant sum == Sum(body[..i]) && out[..] == old(out[..])
    {
      SumStep(body, i);
      sum := sum + out[b + i];
    }
    assert body[..127] == body;
    out[b + 127] := Negate(sum);
  }

  // ---------------------------------------------------------- build_edid

  method WriteTimings(out: array<byte>, ghost s: seq<byte>, at: nat, dtds: seq<seq<byte>>) returns (timings: nat)
    requires Built(out, s) && 128 + at == |s| && at <= 60
    requires |dtds| <= DTDS && forall d :: d in dtds ==> |d| == 18
    modifies out
    ensures Built(out, s + Flatten(Later(dtds))) && timings == |dtds|
  {
    hide Built;
    timings := if |dtds| < 3 then |dtds| else 3;
    var i, pos := 3, at;
    FlattenNothing();
    assert s + [] == s;
    while i < |dtds| && pos + 18 <= 127
      invariant 3 <= i && (|dtds| >= 3 ==> i <= |dtds|) && pos == at + 18 * (i - 3)
      invariant |dtds| >= 3 ==> timings == i
      invariant |dtds| < 3 ==> timings == |dtds| && i == 3
      invariant |dtds| >= 3 ==> Built(out, s + Flatten(dtds[3..i])) && |Flatten(dtds[3..i])| == 18 * (i - 3)
      invariant |dtds| < 3 ==> Built(out, s)
    {
      Append(out, s + Flatten(dtds[3..i]), 128 + pos, dtds[i]);
      assert dtds[3..i + 1] == dtds[3..i] + [dtds[i]];
      FlattenLast(dtds[3..i], dtds[i]);
      assert s + Flatten(dtds[3..i]) + dtds[i] == s + Flatten(dtds[3..i + 1]);
      timings := timings + 1;
      i, pos := i + 1, pos + 18;
    }
    if |dtds| >= 3 {
      assert dtds[3..i] == Later(dtds);
    }
  }

  lemma FlattenNothing()
    ensures Flatten([]) == []
  {
  }

  lemma {:induction false} FlattenLast(a: seq<seq<byte>>, d: seq<byte>)
    ensures Flatten(a + [d]) == Flatten(a) + d
  {
    if a == [] {
      assert [d][1..] == [];
      assert Flatten([d]) == d + [];
    } else {
      assert (a + [d])[1..] == a[1..] + [d] && (a + [d])[0] == a[0];
      FlattenLast(a[1..], d);
    }
  }

  /** The buffer before length and checksums are filled in, and after. */
  lemma Finished(p: Profile, raw: seq<byte>)
    requires Renderable(p)
    requires var s := BaseBody(p) + [0] + [2, 3, 0, 0] + Encode(OutBlocks(p)) + Flatten(Later(p.dtds));
      |s| <= 255 && raw == s + Zeros(256 - |s|)
    ensures |raw| == 256 && |BaseBody(p)| == |CtaBody(p)| == 127 && 4 + |Encode(OutBlocks(p))| < 256
    ensures var e := raw[130 := 4 + |Encode(OutBlocks(p))|];
      e[..127] == BaseBody(p) && e[128..255] == CtaBody(p)
  {
    hide Encode, OutBlocks, Flatten, BaseBody, CtaBody;
    BaseSize(p);
    CtaLayout(p);
    BlocksFit(p);
    var c, blocks, tail := CtaBody(p), Encode(OutBlocks(p)), CtaTail(p);
    assert c == c[..4] + (c[4..4 + |blocks|] + c[4 + |blocks|..]);
    var e := raw[130 := 4 + |blocks|];
    TailZeros(p);
    assert raw[132..255] == blocks + tail;
    assert e[128..132] == [2, 3, 4 + |blocks|, 0];
    assert e[132..255] == raw[132..255];
    assert e[128..255] == e[128..132] + e[132..255];
  }

  lemma TailZeros(p: Profile)
    requires Renderable(p) && |Encode(OutBlocks(p))| + |Flatten(Later(p.dtds))| <= 123
    ensures CtaTail(p) == Flatten(Later(p.dtds)) + Zeros(123 - |Encode(OutBlocks(p))| - |Flatten(Later(p.dtds))|)
  {
  }

  /** The zero in the base block's last byte and the extension's four header bytes. */
  method WriteTag(out: array<byte>, ghost base: seq<byte>)
    requires |base| == 127 && Built(out, base)
    modifies out
    ensures Built(out, base + [0] + [2, 3, 0, 0])
  {
    hide Built;
    Append(out, base, 127, [0]);
    Append(out, base + [0], 128, [2, 3, 0, 0]);
  }

  method RenderInto(data: seq<byte>, p: Profile) returns (e: seq<byte>, timings: nat)
    requires Renderable(p) && |data| >= 54 && Prefix(data) == p.prefix
    ensures e == Render(p) && timings == |p.dtds|
  {
    hide Encode, OutBlocks, Flatten, BaseBody, CtaBody, Built, Prefix, TimingSlot, Sum, Negate;
    var out := new byte[256](_ => 0);
    EmptyBuffer(out);
    WriteBase(out, data, p.dtds);
    BaseIs(p);
    BaseSize(p);
    BlocksFit(p);
    FlattenSize(Later(p.dtds));
    ghost var s := BaseBody(p) + [0] + [2, 3, 0, 0];
    WriteTag(out, BaseBody(p));
    var pos := WriteBlocks(out, s, p);
    timings := WriteTimings(out, s + Encode(OutBlocks(p)), pos, p.dtds);
    ghost var raw := out[..];
    BuiltIs(out, s + Encode(OutBlocks(p)) + Flatten(Later(p.dtds)));
    Finished(p, raw);
    out[130] := pos;
    e := Seal(out, BaseBody(p), CtaBody(p));
  }

  lemma EmptyBuffer(out: array<byte>)
    requires out.Length == 256 && forall i :: 0 <= i < 256 ==> out[i] == 0
    ensures Built(out, [])
  {
  }

  lemma BuiltIs(out: array<byte>, s: seq<byte>)
    requires Built(out, s)
    ensures out.Length == 256 && |s| <= 256 && out[..] == s + Zeros(256 - |s|)
  {
  }

  lemma BaseIs(p: Profile)
    requires Renderable(p)
    ensures BaseBody(p) == p.prefix + TimingSlot(p.dtds, 0) + TimingSlot(p.dtds, 1) + TimingSlot(p.dtds, 2) + NAME_SLOT + [1]
  {
  }

  /** Both checksum() calls at the end. */
  method Seal(out: array<byte>, ghost base: seq<byte>, ghost cta: seq<byte>) returns (e: seq<byte>)
    requires out.Length == 256 && |base| == |cta| == 127
    requires out[..][..127] == base && out[..][128..255] == cta
    modifies out
    ensures e == Sealed(base) + Sealed(cta)
  {
    hide Sum, Negate;
    assert out[0..127] == base && out[128..255] == cta;
    Checksum(out, 0);
    assert out[128..255] == cta && out[..128] == Sealed(base);
    Checksum(out, 128);
    e := out[..];
    assert e == out[..128] + out[128..];
    assert out[128..] == Sealed(cta);
  }

  /** build_edid computes the filter. */
  method BuildEdid(data: seq<byte>, scaled: bool) returns (r: Result<Edid>)
    ensures r == Filter(data, scaled)
  {
    hide Scan, Offered, Render, Prefix, Slower, EdidLength, Renderable, VicClock, TimingAllowed;
    if |data| < 128 || |data| > 512 || |data| % 128 != 0 || |data| != EdidLength(data[126]) {
      return Err(Invalid);
    }
    for i := 0 to 8
      invariant data[..i] == HEADER[..i]
    {
      if data[i] != HEADER[i] {
        assert data[..8][i] != HEADER[i];
        return Err(BadMessage);
      }
    }
    var scan := ScanAll(data, scaled);
    if scan.None? {
      return Err(BadMessage);
    }
    var info := scan.value;
    if info.legacy == 0 {
      return Err(Unsupported);
    }
    var max := Max(info);
    var dtds := CollectTimingsOf(data, max, scaled);
    if |dtds| == 0 {
      return Err(Unsupported);
    }
    var vics := KeepSlower(info.vics, max);
    var p := Profile(Prefix(data), max, info.scdc, info.audio, vics, dtds);
    ghost var info' := FilterSteps(data, scaled);
    var e, timings := RenderInto(data, p);
    r := Ok(Edid(e, max, info.scdc, timings, |vics|, info.audio));
  }
}
