/** The display EDID filter of driver/gc573_passthrough_edid.c as a function.

    A display's EDID (VESA E-EDID 1.4 with CTA-861 extensions) is validated and
    scanned, its modes are filtered, and a fresh 256-byte EDID is rendered.
 */
module PassthroughEdid {
  import opened Bytes
  import opened CtaBlocks

  datatype Error = Invalid | BadMessage | Unsupported
  datatype Result<T> = Ok(value: T) | Err(error: Error)

  /** struct gc573_passthrough_edid. */
  datatype Edid = Edid(data: seq<byte>, maxKhz: nat, scdc: bool, timings: nat, videoCodes: nat, audio: bool)

  const HEADER: seq<byte> := [0, 255, 255, 255, 255, 255, 255, 0]

  // ---------------------------------------------------------------- modes

  /** Pixel clock in kHz of the supported CTA video codes, 0 for all others. */
  function VicClock(vic: nat): nat {
    if vic == 1 then 25175
    else if vic in {2, 3, 17, 18} then 27000
    else if vic in {4, 19, 32, 33, 34} then 74250
    else if vic in {16, 31, 60, 61, 62} then (if vic >= 60 then 59400 else 148500)
    else if vic in {63, 64, 93, 94, 95} then 297000
    else if vic in {96, 97} then 594000
    else 0
  }

  const SCALED_VICS := {4, 19, 16, 31, 32, 33, 34, 63, 64}

  predicate VicAllowed(vic: nat, scaled: bool) {
    VicClock(vic) != 0 && (scaled ==> vic in SCALED_VICS)
  }

  /** The fields of an 18-byte detailed timing (E-EDID 1.4, section 3.10.2). */
  datatype Timing = Timing(khz: nat, width: nat, height: nat, htotal: nat, vtotal: nat, interlaced: bool)

  function Wide(low: nat, high: nat): nat {
    low + 256 * high
  }

  function TimingOf(d: seq<byte>): Timing
    requires |d| == 18
  {
    var w, h := Wide(d[2], d[4] / 16), Wide(d[5], d[7] / 16);
    Timing(Wide(d[0], d[1]) * 10, w, h, w + Wide(d[3], d[4] % 16), h + Wide(d[6], d[7] % 16), d[17] >= 128)
  }

  /** Highest refresh rate of a frame size, 0 when the size is not passed on. */
  function RefreshLimit(t: Timing, scaled: bool): nat {
    if scaled then
      (if t.width > 2560 || t.height > 1440 then 0 else if t.width == 1280 then 60 else 120)
    else if t.width == 1280 && t.height == 720 then 120
    else if t.width == 1920 && t.height == 1080 then 240
    else if t.width == 2560 && t.height == 1440 then 144
    else if t.width == 3840 && t.height == 2160 then 60
    else 0
  }

  predicate TimingAllowed(d: seq<byte>, max: nat, scaled: bool)
    requires |d| == 18
  {
    var t := TimingOf(d);
    && 0 < t.khz <= max && t.width < t.htotal && t.height < t.vtotal && !t.interlaced
    && 0 < RefreshLimit(t, scaled)
    && t.khz * 1000 <= RefreshLimit(t, scaled) * t.htotal * t.vtotal
  }

  /** The allowed ones among consecutive 18-byte descriptors; a short rest is ignored. */
  function Collect(s: seq<byte>, max: nat, scaled: bool): (r: seq<seq<byte>>)
    ensures forall d :: d in r ==> |d| == 18 && TimingAllowed(d, max, scaled)
    decreases |s|
  {
    if |s| < 18 then []
    else (if TimingAllowed(s[..18], max, scaled) then [s[..18]] else []) + Collect(s[18..], max, scaled)
  }

  // ----------------------------------------------------------------- scan

  /** What the data blocks say: rates in kHz (0 when absent), SCDC, basic audio and
      the distinct supported video codes in order. */
  datatype Info = Info(legacy: nat, forum: nat, scdc: bool, audio: bool, vics: seq<byte>)

  const NO_INFO := Info(0, 0, false, false, [])

  predicate HasStereoPcm(p: seq<byte>)
    decreases |p|
  {
    |p| > 2 && ((p[0] / 8 == 1 && p[0] % 8 >= 1 && p[1] / 4 % 2 == 1 && p[2] % 2 == 1) || HasStereoPcm(p[3..]))
  }

  function AddVic(vics: seq<byte>, b: byte, scaled: bool): seq<byte> {
    var vic := b % 128;
    if VicAllowed(vic, scaled) && vic !in vics && |vics| < 31 then vics + [vic] else vics
  }

  function AddVics(vics: seq<byte>, p: seq<byte>, scaled: bool): seq<byte>
    decreases |p|
  {
    if p == [] then vics else AddVics(AddVic(vics, p[0], scaled), p[1..], scaled)
  }

  /** The HDMI 1.4b vendor block (section 8.3.2). */
  predicate IsHdmi(b: Block) {
    b.tag == 3 && |b.payload| >= 5 && b.payload[0] == 3 && b.payload[1] == 12 && b.payload[2] == 0
  }

  /** The HDMI Forum block (HDMI 2.0, section 10.3.2). */
  predicate IsForum(b: Block) {
    b.tag == 3 && |b.payload| >= 7 && b.payload[0] == 0xd8 && b.payload[1] == 0x5d && b.payload[2] == 0xc4
  }

  /** A rate byte counts 5 MHz steps. */
  function Rate(steps: nat): nat {
    steps * 5000
  }

  function HdmiRate(p: seq<byte>): nat {
    if |p| >= 7 && p[6] != 0 then Rate(p[6]) else 165000
  }

  function Absorb(info: Info, b: Block, scaled: bool): Info {
    Info(
      if IsHdmi(b) then HdmiRate(b.payload) else info.legacy,
      if IsForum(b) then Rate(b.payload[4]) else info.forum,
      if IsForum(b) then b.payload[5] >= 128 else info.scdc,
      info.audio || (b.tag == 1 && HasStereoPcm(b.payload)),
      if b.tag == 2 then AddVics(info.vics, b.payload, scaled) else info.vics)
  }

  function AbsorbAll(info: Info, blocks: seq<Block>, scaled: bool): Info
    decreases |blocks|
  {
    if blocks == [] then info else AbsorbAll(Absorb(info, blocks[0], scaled), blocks[1..], scaled)
  }

  /** The data block collection of the extension at `b`; None for an invalid end. */
  function Collection(data: seq<byte>, b: nat): (r: Option<seq<byte>>)
    requires b + 128 <= |data|
  {
    var end := data[b + 2];
    if end == 0 then Some([])
    else if end < 4 || end > 127 then None
    else Some(data[b + 4..b + end])
  }

  /** The blocks of the extension at `b`, none when it is not a CTA extension. */
  function BlocksAt(data: seq<byte>, b: nat): Option<seq<Block>>
    requires b + 128 <= |data|
  {
    if b == 0 || data[b] != 2 then Some([])
    else match Collection(data, b) case None => None case Some(s) => Parse(s)
  }

  /** Check every block's sum and absorb every CTA extension, from block `b` on. */
  function Scan(data: seq<byte>, b: nat, info: Info, scaled: bool): Option<Info>
    requires |data| % 128 == 0 && b % 128 == 0 && b <= |data|
    decreases |data| - b
  {
    if b == |data| then Some(info)
    else if Sum(data[b..b + 128]) % 256 != 0 then None
    else match BlocksAt(data, b)
      case None => None
      case Some(blocks) => Scan(data, b + 128, AbsorbAll(info, blocks, scaled), scaled)
  }

  /** The timing descriptors of block `b`: the base block's four, or everything after
      a CTA extension's data blocks. */
  function DescriptorsAt(data: seq<byte>, b: nat): seq<byte>
    requires b + 128 <= |data|
  {
    if b == 0 then data[54..126]
    else if data[b] == 2 && 0 < data[b + 2] <= 127 then data[b + data[b + 2]..b + 127]
    else []
  }

  function Offered(data: seq<byte>, b: nat, max: nat, scaled: bool): (r: seq<seq<byte>>)
    requires |data| % 128 == 0 && b % 128 == 0 && b <= |data|
    ensures forall d :: d in r ==> |d| == 18 && TimingAllowed(d, max, scaled)
    decreases |data| - b
  {
    if b == |data| then []
    else Collect(DescriptorsAt(data, b), max, scaled) + Offered(data, b + 128, max, scaled)
  }

  // --------------------------------------------------------------- filter

  const DTDS := 6

  function Max(info: Info): nat {
    var wanted := if info.forum != 0 then info.forum else info.legacy;
    var bounded := if wanted > 600000 then 600000 else wanted;
    if !info.scdc && bounded > 340000 then 340000 else bounded
  }

  function Slower(vics: seq<byte>, max: nat): (r: seq<byte>)
    ensures |r| <= |vics|
  {
    if vics == [] then []
    else (if VicClock(vics[0]) <= max then [vics[0]] else []) + Slower(vics[1..], max)
  }

  /** Everything the new EDID is made of. */
  datatype Profile = Profile(prefix: seq<byte>, max: nat, scdc: bool, audio: bool, vics: seq<byte>, dtds: seq<seq<byte>>)

  function Prefix(data: seq<byte>): (p: seq<byte>)
    requires |data| >= 54
    ensures |p| == 54
  {
    data[..18] + [1, 3, 0x80] + data[21..24] + [0x0a] + data[25..35] + [0, 0, 0] + seq(16, _ => 1)
  }

  function FirstSix(dtds: seq<seq<byte>>): (r: seq<seq<byte>>)
    ensures |r| <= DTDS && r <= dtds
  {
    if |dtds| <= DTDS then dtds else dtds[..DTDS]
  }

  function ProfileOf(data: seq<byte>, info: Info, scaled: bool): Profile
    requires |data| % 128 == 0 && |data| >= 128
  {
    var max := Max(info);
    Profile(Prefix(data), max, info.scdc, info.audio, Slower(info.vics, max), FirstSix(Offered(data, 0, max, scaled)))
  }

  // --------------------------------------------------------------- render

  const EMPTY_SLOT: seq<byte> := [0, 0, 0, 0x10, 0, 0, 0, 0, 0, 0, 0, 0, 0, 0, 0, 0, 0, 0]
  const NAME_SLOT: seq<byte> := [0, 0, 0, 0xfc, 0, 71, 67, 53, 55, 51, 32, 72, 68, 77, 73, 10, 32, 32]

  function TimingSlot(dtds: seq<seq<byte>>, i: nat): seq<byte> {
    if i < |dtds| then dtds[i] else EMPTY_SLOT
  }

  function Flatten(dtds: seq<seq<byte>>): seq<byte> {
    if dtds == [] then [] else dtds[0] + Flatten(dtds[1..])
  }

  function RateByte(khz: nat): (b: byte)
    requires khz / 5000 < 256
  {
    khz / 5000
  }

  predicate Renderable(p: Profile) {
    && |p.prefix| == 54 && p.max <= 600000
    && |p.vics| < 32 && |p.dtds| <= DTDS && forall d :: d in p.dtds ==> |d| == 18
  }

  /** The data blocks that are advertised to the source. */
  function OutBlocks(p: Profile): (r: seq<Block>)
    requires Renderable(p)
    ensures AllValid(r)
  {
    (if p.vics != [] then [Block(2, p.vics)] else []) +
    (if p.audio then [Block(1, [9, 4, 1]), Block(4, [1, 0, 0])] else []) +
    [Block(3, [3, 12, 0, 0x10, 0, 0, RateByte(if p.max > 340000 then 340000 else p.max)])] +
    (if p.scdc then [Block(3, [0xd8, 0x5d, 0xc4, 1, RateByte(p.max), 0x80, 0])] else [])
  }

  function BaseBody(p: Profile): seq<byte>
    requires Renderable(p)
  {
    p.prefix + TimingSlot(p.dtds, 0) + TimingSlot(p.dtds, 1) + TimingSlot(p.dtds, 2) + NAME_SLOT + [1]
  }

  function Later(dtds: seq<seq<byte>>): seq<seq<byte>> {
    if |dtds| <= 3 then [] else dtds[3..]
  }

  function CtaUsed(p: Profile): (s: seq<byte>)
    requires Renderable(p)
  {
    var blocks := Encode(OutBlocks(p));
    if 4 + |blocks| < 256 then [2, 3, 4 + |blocks|, 0] + blocks + Flatten(Later(p.dtds)) else []
  }

  function CtaBody(p: Profile): seq<byte>
    requires Renderable(p)
  {
    var used := CtaUsed(p);
    used + Zeros(if |used| <= 127 then 127 - |used| else 0)
  }

  function Render(p: Profile): seq<byte>
    requires Renderable(p)
  {
    Sealed(BaseBody(p)) + Sealed(CtaBody(p))
  }

  function EdidOf(p: Profile): Edid
    requires Renderable(p)
  {
    Edid(Render(p), p.max, p.scdc, |p.dtds|, |p.vics|, p.audio)
  }

  lemma {:induction false} AddVicsBound(vics: seq<byte>, p: seq<byte>, scaled: bool)
    requires |vics| < 32
    ensures |AddVics(vics, p, scaled)| < 32
    decreases |p|
  {
    if p != [] {
      AddVicsBound(AddVic(vics, p[0], scaled), p[1..], scaled);
    }
  }

  lemma {:induction false} AbsorbAllBound(info: Info, blocks: seq<Block>, scaled: bool)
    requires |info.vics| < 32
    ensures |AbsorbAll(info, blocks, scaled).vics| < 32
    decreases |blocks|
  {
    if blocks != [] {
      AddVicsBound(info.vics, blocks[0].payload, scaled);
      AbsorbAllBound(Absorb(info, blocks[0], scaled), blocks[1..], scaled);
    }
  }

  lemma {:induction false} ScanBound(data: seq<byte>, b: nat, info: Info, scaled: bool)
    requires |data| % 128 == 0 && b % 128 == 0 && b <= |data|
    requires |info.vics| < 32 && Scan(data, b, info, scaled).Some?
    ensures |Scan(data, b, info, scaled).value.vics| < 32
    decreases |data| - b
  {
    hide Sum, BlocksAt, AbsorbAll;
    if b < |data| {
      var blocks := BlocksAt(data, b).value;
      AbsorbAllBound(info, blocks, scaled);
      ScanBound(data, b + 128, AbsorbAll(info, blocks, scaled), scaled);
    }
  }

  function EdidLength(extensions: nat): nat {
    (extensions + 1) * 128
  }

  /** build_edid. */
  function Filter(data: seq<byte>, scaled: bool): Result<Edid> {
    if |data| < 128 || |data| > 512 || |data| % 128 != 0 || |data| != EdidLength(data[126]) then Err(Invalid)
    else if data[..8] != HEADER then Err(BadMessage)
    else match Scan(data, 0, NO_INFO, scaled)
      case None => Err(BadMessage)
      case Some(info) =>
        if info.legacy == 0 then Err(Unsupported)
        else
          var p := ProfileOf(data, info, scaled);
          ScanBound(data, 0, NO_INFO, scaled);
          if p.dtds == [] then Err(Unsupported) else Ok(EdidOf(p))
  }
}
