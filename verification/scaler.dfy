/** The horizontal phase generator of driver/gc573_scaler.c.

    The scaler takes four source pixels per clock.  Each 10-bit lane of a phase word
    says whether an output pixel is produced at that source pixel, with which of 64
    filter phases, and which pixel of the filter's window it starts from.
 */
module Scaler {

  import opened Bytes

  const ONE := 65536        // 1.0 in 16.16 fixed point
  const GROUPS := 1024      // phase words in the memory
  const LANE := 1024        // ten bits

  /** Source pixels per output pixel, in 16.16 fixed point. */
  function StepRate(iw: nat, ow: nat): (rate: nat)
    requires 0 < ow
  {
    iw * ONE / ow
  }

  /** Where output pixel k lies among the source pixels, in 16.16 fixed point. */
  function Position(k: nat, rate: nat): nat {
    k * rate
  }

  /** The source pixel of output pixel k, and how far behind it k lies, in 1/64. */
  function SourceOf(k: nat, rate: nat): nat {
    Position(k, rate) / ONE
  }

  function PhaseOf(k: nat, rate: nat): (phase: nat)
    ensures phase < 64
  {
    Position(k, rate) % ONE / 1024
  }

  /** The window position of source pixel x: the first group has no pixels before it. */
  function WindowIndex(x: nat): (i: nat)
    ensures i < 8
  {
    if x < 4 then x else 4 + x % 4
  }

  function LaneValue(phase: nat, index: nat, emit: nat): nat {
    phase + index * 64 + emit * 512
  }

  function Weight(lane: nat): (w: nat)
    requires lane < 4
    ensures w > 0
  {
    if lane == 0 then 1 else if lane == 1 then 1024 else if lane == 2 then 1048576 else 1073741824
  }

  /** The lane of source pixel x in the phase memory. */
  function LaneAt(words: seq<nat>, x: nat): (v: nat)
    requires x / 4 < |words|
    ensures v < LANE
  {
    words[x / 4] / Weight(x % 4) % LANE
  }

  predicate Emits(v: nat) {
    v / 512 == 1
  }

  // ---------------------------------------------------------- arithmetic

  lemma Smaller(a: nat, b: nat, c: nat)
    requires a * c < b * c
    ensures a < b
  {
    if b <= a {
      Times(b, a, c);
    }
  }

  lemma AtLeast(n: nat, d: nat, q: nat, rest: nat, one: nat)
    requires n == q * d + rest && rest < d && d * one <= n
    ensures one <= q && q * d <= n
  {
    assert (q + 1) * d == q * d + d;
    assert one * d == d * one;
    Smaller(one, q + 1, d);
  }

  lemma Times(a: nat, b: nat, c: nat)
    requires a <= b
    ensures a * c <= b * c
  {
  }

  lemma RateAtLeastOne(iw: nat, ow: nat)
    requires 0 < ow <= iw
    ensures StepRate(iw, ow) >= ONE && StepRate(iw, ow) * ow <= iw * ONE
  {
    Times(ow, iw, ONE);
    var n := iw * ONE;
    AtLeast(n, ow, n / ow, n % ow, ONE);
  }

  lemma NextPosition(k: nat, rate: nat)
    ensures Position(0, rate) == 0 && Position(k + 1, rate) == Position(k, rate) + rate
  {
  }

  lemma DividesBelow(p: nat, n: nat)
    requires p < n * ONE
    ensures p / ONE < n
  {
  }

  /** No output pixel falls behind the last source pixel. */
  lemma SourceInside(k: nat, iw: nat, ow: nat)
    requires k < ow <= iw
    ensures Position(k, StepRate(iw, ow)) < iw * ONE && SourceOf(k, StepRate(iw, ow)) < iw
  {
    hide StepRate;
    var rate := StepRate(iw, ow);
    RateAtLeastOne(iw, ow);
    NextPosition(k, rate);
    Times(k + 1, ow, rate);
    assert ow * rate == rate * ow;
    DividesBelow(Position(k, rate), iw);
  }

  /** Different output pixels start from different source pixels. */
  lemma SourcesIncrease(j: nat, k: nat, rate: nat)
    requires j < k && rate >= ONE
    ensures SourceOf(j, rate) < SourceOf(k, rate)
  {
    assert k * rate >= (j + 1) * rate == j * rate + rate;
  }

  lemma PackFour(a: nat, b: nat, c: nat, d: nat)
    requires a < LANE && b < LANE && c < LANE && d < LANE
    ensures var w := a + b * 1024 + c * 1048576 + d * 1073741824;
      && w < 1099511627776
      && w % LANE == a && w / 1024 % LANE == b && w / 1048576 % LANE == c && w / 1073741824 % LANE == d
  {
    var w := a + b * 1024 + c * 1048576 + d * 1073741824;
    assert w / 1024 == b + c * 1024 + d * 1048576;
    assert w / 1048576 == c + d * 1024;
    assert w / 1073741824 == d;
  }

  // ----------------------------------------------------------- the counter

  /** The counters before source pixel x is looked at. */
  datatype Counter = Counter(offset: nat, index: nat, outputs: nat)

  /** One lane: the code's steps in the code's order. */
  function Advance(c: Counter, rate: nat, ow: nat): (Counter, nat)
  {
    var phase := c.offset / 1024 % 64;
    var offset := if c.offset >= ONE then c.offset - ONE else c.offset;
    var index := if c.offset >= ONE then c.index + 1 else c.index;
    if offset < ONE && c.outputs < ow
    then (Counter(offset + rate, index, c.outputs + 1), LaneValue(phase, index, 1))
    else (Counter(offset, index, c.outputs), LaneValue(phase, index, 0))
  }

  /** While outputs are missing, the offset is how far the next one lies behind the
      previous pixel; every earlier output started before x. */
  ghost predicate Tracks(c: Counter, x: nat, rate: nat, ow: nat) {
    && c.outputs <= ow
    && c.index <= 3 + x % 4
    && c.offset < ONE + rate
    && (x == 0 ==> c == Counter(0, 0, 0))
    && (x > 0 && c.outputs < ow ==>
          && c.offset == Position(c.outputs, rate) - ONE * (x - 1) && ONE <= c.offset
          && c.index + 1 == WindowIndex(x))
    && (c.outputs > 0 ==> SourceOf(c.outputs - 1, rate) < x)
  }

  lemma SourceHere(k: nat, x: nat, rate: nat)
    requires 0 <= Position(k, rate) - ONE * x < ONE
    ensures SourceOf(k, rate) == x && PhaseOf(k, rate) == (Position(k, rate) - ONE * x) / 1024
  {
    hide Position;
    var total := Position(k, rate);
    assert total / 65536 == x && total % 65536 == total - 65536 * x;
  }

  lemma PhaseIgnoresOne(offset: nat)
    requires ONE <= offset
    ensures offset / 1024 % 64 == (offset - ONE) / 1024 % 64
    ensures offset < 2 * ONE ==> offset / 1024 % 64 == (offset - ONE) / 1024
  {
  }

  lemma NextWindow(x: nat)
    ensures x % 4 != 3 ==> (x + 1) % 4 == x % 4 + 1 && WindowIndex(x + 1) == WindowIndex(x) + 1
    ensures x % 4 == 3 ==> (x + 1) % 4 == 0 && WindowIndex(x + 1) == 4 && WindowIndex(x) % 4 == 3
    ensures WindowIndex(x) % 4 == x % 4
  {
  }

  /** The counters after pixel x when its group goes on. */
  function Wrapped(c: Counter, x: nat): Counter {
    if x % 4 == 3 then c.(index := c.index % 4) else c
  }

  /** One lane yields what pixel x needs. */
  lemma LaneIsRight(c: Counter, x: nat, rate: nat, ow: nat)
    requires Tracks(c, x, rate, ow) && rate >= ONE && ow > 0
    ensures var (c', v) := Advance(c, rate, ow);
      && c'.index < 8 && v < LANE
      && (c'.outputs == c.outputs || c'.outputs == c.outputs + 1)
      && (Emits(v) <==> c'.outputs == c.outputs + 1)
      && (Emits(v) ==> SourceOf(c.outputs, rate) == x
                       && v == LaneValue(PhaseOf(c.outputs, rate), WindowIndex(x), 1))
  {
    hide SourceOf, PhaseOf, WindowIndex, Position;
    FirstWindow();
    NextPosition(c.outputs, rate);
    if c.offset >= ONE {
      PhaseIgnoresOne(c.offset);
    }
    if Emits(Advance(c, rate, ow).1) {
      SourceHere(c.outputs, x, rate);
    }
  }

  /** One lane keeps the counters on track. */
  lemma StaysOnTrack(c: Counter, x: nat, rate: nat, ow: nat)
    requires Tracks(c, x, rate, ow) && rate >= ONE && ow > 0
    ensures Tracks(Wrapped(Advance(c, rate, ow).0, x), x + 1, rate, ow)
  {
    hide SourceOf, PhaseOf, WindowIndex, LaneValue, Position;
    NextWindow(x);
    FirstWindow();
    NextPosition(c.outputs, rate);
    var c' := Advance(c, rate, ow).0;
    if c'.outputs > c.outputs {
      SourceHere(c.outputs, x, rate);
    }
  }

  lemma FirstWindow()
    ensures WindowIndex(0) == 0 && WindowIndex(1) == 1
  {
  }

  // ------------------------------------------------------- the phase memory

  /** What the phase memory has to say for the given widths: output pixel k is produced
      at its own source pixel, with its own phase and window, nothing else is produced,
      and the words past the input width are clear. */
  ghost predicate PhaseProgram(words: seq<nat>, iw: nat, ow: nat)
    requires 0 < ow <= iw <= 4 * GROUPS
  {
    var rate := StepRate(iw, ow);
    && |words| == GROUPS
    && (forall g: nat :: g < GROUPS ==> words[g] < 1099511627776)
    && (forall g: nat :: iw <= 4 * g < 4 * GROUPS ==> words[g] == 0)
    && (forall k: nat :: k < ow ==>
          && SourceOf(k, rate) < iw
          && LaneAt(words, SourceOf(k, rate))
             == LaneValue(PhaseOf(k, rate), WindowIndex(SourceOf(k, rate)), 1))
    && (forall x: nat :: x < iw && Emits(LaneAt(words, x)) ==>
          exists k: nat :: k < ow && SourceOf(k, rate) == x)
  }

  /** The source pixels at which the phase memory produces an output. */
  ghost function EmitLanes(words: seq<nat>, iw: nat): set<nat>
    requires iw <= 4 * |words|
  {
    set x: nat | x < iw && Emits(LaneAt(words, x))
  }

  ghost function Sources(n: nat, rate: nat): set<nat> {
    set k: nat | k < n :: SourceOf(k, rate)
  }

  lemma {:induction false} SourcesCount(n: nat, rate: nat)
    requires rate >= ONE
    ensures |Sources(n, rate)| == n
  {
    hide SourceOf;
    if n > 0 {
      SourcesCount(n - 1, rate);
      forall k: nat | k < n - 1 ensures SourceOf(k, rate) < SourceOf(n - 1, rate) {
        SourcesIncrease(k, n - 1, rate);
      }
      assert Sources(n, rate) == Sources(n - 1, rate) + {SourceOf(n - 1, rate)};
    }
  }

  lemma AnOutputEmits(phase: nat, index: nat)
    requires phase < 64 && index < 8
    ensures Emits(LaneValue(phase, index, 1))
  {
  }

  /** A phase memory for the given widths produces exactly `ow` outputs per line. */
  lemma EmitsExactly(words: seq<nat>, iw: nat, ow: nat)
    requires 0 < ow <= iw <= 4 * GROUPS && PhaseProgram(words, iw, ow)
    ensures |EmitLanes(words, iw)| == ow
  {
    hide SourceOf, PhaseOf, WindowIndex, LaneValue, StepRate, Emits, LaneAt;
    var rate := StepRate(iw, ow);
    RateAtLeastOne(iw, ow);
    SourcesCount(ow, rate);
    forall k: nat | k < ow ensures SourceOf(k, rate) in EmitLanes(words, iw) {
      AnOutputEmits(PhaseOf(k, rate), WindowIndex(SourceOf(k, rate)));
    }
    assert EmitLanes(words, iw) == Sources(ow, rate);
  }

  /** The lanes of the pixels looked at so far. */
  ghost predicate LanesDone(lanes: seq<nat>, outputs: nat, rate: nat) {
    && (forall y: nat :: y < |lanes| ==> lanes[y] < LANE)
    && (forall k: nat :: k < outputs ==>
          && SourceOf(k, rate) < |lanes|
          && lanes[SourceOf(k, rate)] == LaneValue(PhaseOf(k, rate), WindowIndex(SourceOf(k, rate)), 1))
    && (forall y: nat :: y < |lanes| && Emits(lanes[y]) ==>
          exists k: nat :: k < outputs && SourceOf(k, rate) == y)
  }

  /** The words hold the lanes, four to a word. */
  ghost predicate Holds(words: seq<nat>, lanes: seq<nat>) {
    && |lanes| == 4 * |words|
    && (forall g: nat :: g < |words| ==> words[g] < 1099511627776)
    && (forall y: nat :: y < |lanes| ==> LaneAt(words, y) == lanes[y])
  }

  /** A word with its first lanes filled in. */
  function Packed(lanes: seq<nat>): nat
    requires |lanes| <= 4
  {
    (if |lanes| > 0 then lanes[0] else 0) + (if |lanes| > 1 then lanes[1] * 1024 else 0)
    + (if |lanes| > 2 then lanes[2] * 1048576 else 0) + (if |lanes| > 3 then lanes[3] * 1073741824 else 0)
  }

  lemma PackOne(lanes: seq<nat>, v: nat)
    requires |lanes| < 4
    ensures Packed(lanes + [v]) == Packed(lanes) + v * Weight(|lanes|)
  {
  }

  lemma AddWord(words: seq<nat>, lanes: seq<nat>, four: seq<nat>)
    requires Holds(words, lanes) && |four| == 4 && forall i: nat :: i < 4 ==> four[i] < LANE
    ensures Holds(words + [Packed(four)], lanes + four)
  {
    var all, w := lanes + four, words + [Packed(four)];
    PackFour(four[0], four[1], four[2], four[3]);
    forall y: nat | y < |all| ensures LaneAt(w, y) == all[y] {
      if y < |lanes| {
        assert w[y / 4] == words[y / 4];
        assert LaneAt(words, y) == lanes[y];
      } else {
        assert y / 4 == |words| && y % 4 == y - |lanes|;
      }
    }
  }

  lemma AddLane(lanes: seq<nat>, c: Counter, rate: nat, ow: nat)
    requires Tracks(c, |lanes|, rate, ow) && rate >= ONE && ow > 0
    requires LanesDone(lanes, c.outputs, rate)
    ensures var (c', v) := Advance(c, rate, ow); LanesDone(lanes + [v], c'.outputs, rate)
  {
    hide SourceOf, PhaseOf, WindowIndex, LaneValue, Tracks, Advance;
    LaneIsRight(c, |lanes|, rate, ow);
    var (c', v) := Advance(c, rate, ow);
    var all := lanes + [v];
    forall y: nat | y < |all| && Emits(all[y])
      ensures exists k: nat :: k < c'.outputs && SourceOf(k, rate) == y
    {
      if y == |lanes| {
        assert SourceOf(c.outputs, rate) == y;
      } else {
        assert all[y] == lanes[y];
      }
    }
  }

  /** Once every source pixel has been looked at no output is missing. */
  lemma NoneMissing(c: Counter, iw: nat, ow: nat)
    requires 0 < ow <= iw && Tracks(c, iw, StepRate(iw, ow), ow)
    ensures c.outputs == ow
  {
    if c.outputs < ow {
      SourceInside(c.outputs, iw, ow);
    }
  }

  lemma ProgramDone(words: seq<nat>, lanes: seq<nat>, tail: seq<nat>, iw: nat, ow: nat)
    requires 0 < ow <= iw <= 4 * GROUPS && |lanes| == iw && Holds(words, lanes)
    requires LanesDone(lanes, ow, StepRate(iw, ow))
    requires |words| + |tail| == GROUPS && forall i: nat :: i < |tail| ==> tail[i] == 0
    ensures PhaseProgram(words + tail, iw, ow)
  {
    hide SourceOf, PhaseOf, WindowIndex, LaneValue, StepRate, Emits;
    var rate, all := StepRate(iw, ow), words + tail;
    forall y: nat | y < iw ensures LaneAt(all, y) == lanes[y] {
      assert all[y / 4] == words[y / 4];
      assert LaneAt(words, y) == lanes[y];
    }
    forall g: nat | iw <= 4 * g < 4 * GROUPS ensures all[g] == 0 {
      assert all[g] == tail[g - |words|];
    }
  }

  /** Four lanes of one word: the counters move on four pixels. */
  method GroupWord(c: Counter, ghost lanes: seq<nat>, rate: nat, ow: nat)
    returns (next: Counter, word: nat, ghost four: seq<nat>)
    requires rate >= ONE && ow > 0 && |lanes| % 4 == 0
    requires Tracks(c, |lanes|, rate, ow) && LanesDone(lanes, c.outputs, rate)
    ensures |four| == 4 && word == Packed(four) && forall i: nat :: i < 4 ==> four[i] < LANE
    ensures Tracks(next, |lanes| + 4, rate, ow) && LanesDone(lanes + four, next.outputs, rate)
  {
    hide Tracks, LanesDone, Advance, LaneValue, SourceOf, PhaseOf, WindowIndex, Packed, Emits;
    next, word, four := c, 0, [];
    PackNone();
    assert lanes + four == lanes;
    var lane := 0;
    while lane < 4
      invariant lane <= 4 && |four| == lane
      invariant Tracks(if lane == 4 then next.(index := next.index % 4) else next, |lanes| + lane, rate, ow)
      invariant LanesDone(lanes + four, next.outputs, rate)
      invariant word == Packed(four) && forall i: nat :: i < lane ==> four[i] < LANE
    {
      LaneIsRight(next, |lanes| + lane, rate, ow);
      StaysOnTrack(next, |lanes| + lane, rate, ow);
      AddLane(lanes + four, next, rate, ow);
      var (moved, v) := Advance(next, rate, ow);
      PackOne(four, v);
      word := word + v * Weight(lane);
      next := moved;
      assert lanes + (four + [v]) == lanes + four + [v];
      four := four + [v];
      lane := lane + 1;
    }
    next := next.(index := next.index % 4);
  }

  lemma PackNone()
    ensures Packed([]) == 0
  {
  }

  /** The phase-word loop.  Every output pixel is produced, so the range error that
      follows the loop cannot happen. */
  method PhaseWords(iw: nat, ow: nat) returns (words: seq<nat>, outputs: nat)
    requires 0 < ow <= iw <= 4 * GROUPS && iw % 4 == 0
    ensures outputs == ow && PhaseProgram(words, iw, ow) && LaneBits(words, iw, ow)
  {
    hide Tracks, LanesDone, Holds, Advance, StepRate, PhaseProgram, Packed, LaneBits;
    var rate := StepRate(iw, ow);
    RateAtLeastOne(iw, ow);
    var c := Counter(0, 0, 0);
    ghost var lanes: seq<nat>, filled: seq<nat>, tail: seq<nat> := [], [], [];
    StartsOnTrack(rate, ow);
    words := [];
    var group := 0;
    while group < GROUPS
      invariant group <= GROUPS && |words| == group && words == filled + tail
      invariant |filled| == (if group < iw / 4 then group else iw / 4) && |lanes| == 4 * |filled|
      invariant Holds(filled, lanes) && forall i: nat :: i < |tail| ==> tail[i] == 0
      invariant Tracks(c, |lanes|, rate, ow) && LanesDone(lanes, c.outputs, rate)
    {
      var word := 0;
      if group < iw / 4 {
        ghost var four;
        c, word, four := GroupWord(c, lanes, rate, ow);
        AddWord(filled, lanes, four);
        filled, lanes := filled + [word], lanes + four;
      } else {
        tail := tail + [word];
      }
      words := words + [word];
      group := group + 1;
    }
    NoneMissing(c, iw, ow);
    ProgramDone(filled, lanes, tail, iw, ow);
    ProgramBits(words, iw, ow);
    outputs := c.outputs;
  }

  /** The ten bits of source pixel x. */
  function Lane(words: seq<nat>, x: nat): nat
    requires x / 4 < |words|
  {
    var word := words[x / 4];
    (match x % 4 case 0 => word case 1 => word / 0x400 case 2 => word / 0x10_0000 case _ => word / 0x4000_0000) % 0x400
  }

  /** Output k is made at source pixel k * rate / 2^16, with the next six bits of that
      position as its phase in bits 0 to 5, the pixel's place in the window in bits 6 to 8,
      and bit 9 set. */
  ghost predicate OutputBits(words: seq<nat>, iw: nat, ow: nat, k: nat)
    requires 0 < ow && |words| == 1024 && iw <= 4096
  {
    var rate := iw * 65536 / ow;
    var x := k * rate / 65536;
    && x < iw && Lane(words, x) % 64 == k * rate % 65536 / 1024
    && Lane(words, x) / 64 % 8 == (if x < 4 then x else 4 + x % 4)
    && Lane(words, x) / 512 == 1
  }

  ghost predicate HasOutput(iw: nat, ow: nat, x: nat)
    requires 0 < ow
  {
    exists k: nat :: k < ow && k * (iw * 65536 / ow) / 65536 == x
  }

  /** What the hardware reads: every output in its place, none anywhere else, and nothing
      left behind the last pixel. */
  ghost predicate LaneBits(words: seq<nat>, iw: nat, ow: nat)
    requires 0 < ow
  {
    && |words| == 1024 && iw <= 4096
    && (forall k: nat :: k < ow ==> OutputBits(words, iw, ow, k))
    && (forall x: nat :: x < iw && Lane(words, x) / 512 != 0 ==> HasOutput(iw, ow, x))
    && (forall g: nat :: g < 1024 && 4 * g >= iw ==> words[g] == 0)
  }

  lemma LaneIs(words: seq<nat>, x: nat)
    requires x / 4 < |words|
    ensures Lane(words, x) == LaneAt(words, x)
  {
  }

  lemma FieldsOf(phase: nat, index: nat)
    requires phase < 64 && index < 8
    ensures var v := LaneValue(phase, index, 1); v % 64 == phase && v / 64 % 8 == index && v / 512 == 1
  {
  }

  lemma OutputHasBits(words: seq<nat>, iw: nat, ow: nat, k: nat)
    requires k < ow <= iw <= 4 * GROUPS && PhaseProgram(words, iw, ow)
    ensures OutputBits(words, iw, ow, k)
  {
    hide LaneAt, Lane, LaneValue, Emits;
    var rate := StepRate(iw, ow);
    SourceInside(k, iw, ow);
    LaneIs(words, SourceOf(k, rate));
    FieldsOf(PhaseOf(k, rate), WindowIndex(SourceOf(k, rate)));
  }

  lemma EmitHasOutput(words: seq<nat>, iw: nat, ow: nat, x: nat)
    requires 0 < ow <= iw <= 4 * GROUPS && PhaseProgram(words, iw, ow) && x < iw && Lane(words, x) / 512 != 0
    ensures HasOutput(iw, ow, x)
  {
    hide Lane, LaneValue, PhaseOf, WindowIndex;
    LaneIs(words, x);
    var k: nat :| k < ow && SourceOf(k, StepRate(iw, ow)) == x;
    assert k * (iw * 65536 / ow) / 65536 == x;
  }

  lemma ProgramBits(words: seq<nat>, iw: nat, ow: nat)
    requires 0 < ow <= iw <= 4 * GROUPS && PhaseProgram(words, iw, ow)
    ensures LaneBits(words, iw, ow)
  {
    hide LaneAt, Lane, LaneValue, StepRate, SourceOf, PhaseOf, WindowIndex, Emits, OutputBits, HasOutput;
    forall k: nat | k < ow ensures OutputBits(words, iw, ow, k) {
      OutputHasBits(words, iw, ow, k);
    }
    forall x: nat | x < iw && Lane(words, x) / 512 != 0 ensures HasOutput(iw, ow, x) {
      EmitHasOutput(words, iw, ow, x);
    }
  }

  lemma StartsOnTrack(rate: nat, ow: nat)
    ensures Tracks(Counter(0, 0, 0), 0, rate, ow) && LanesDone([], 0, rate) && Holds([], [])
  {
  }

  // ------------------------------------------------------------ programming

  const H := 0x40000
  const V := 0x60000
  const RESET := 0x50000
  const PHASES := 0x42000      // the horizontal scaler's phase memory
  const PHASES_END := 0x44000
  const WORD32 := 4294967296

  datatype Error = EINVAL | EBUSY | EIO

  /** The scaler's registers.  They keep what is written; a read-back may still disagree. */
  class Registers {
    var cells: map<nat, nat>
    ghost var trail: seq<(nat, nat)>     // every write, in order
    ghost var mismatches: nat            // the read-backs that disagreed

    constructor ()
      ensures trail == []
    {
      cells, trail, mismatches := map[], [], 0;
    }

    method Write(reg: nat, value: nat)
      modifies this`cells, this`trail
      ensures cells == old(cells)[reg := value] && trail == old(trail) + [(reg, value)]
    {
      cells := cells[reg := value];
      trail := trail + [(reg, value)];
    }

    /** set: a write and its read-back. */
    method Set(reg: nat, value: nat) returns (ok: bool)
      modifies this
      ensures cells == old(cells)[reg := value] && trail == old(trail) + [(reg, value)]
      ensures mismatches == old(mismatches) + if ok then 0 else 1
    {
      Write(reg, value);
      ok := *;
      if !ok {
        mismatches := mismatches + 1;
      }
    }

    /** Read-back writes to different registers. */
    method SetAll(list: seq<(nat, nat)>) returns (ok: bool)
      requires Different(list)
      modifies this
      ensures ok ==> Stored(cells, list) && trail == old(trail) + list
      ensures Spares(old(cells), cells, list) && mismatches == old(mismatches) + if ok then 0 else 1
    {
      var i := 0;
      while i < |list|
        invariant i <= |list| && Stored(cells, list[..i]) && Spares(old(cells), cells, list)
        invariant trail == old(trail) + list[..i] && mismatches == old(mismatches)
      {
        ok := Set(list[i].0, list[i].1);
        if !ok {
          return;
        }
        i := i + 1;
      }
      assert list[..|list|] == list;
      ok := true;
    }
  }

  ghost predicate Different(list: seq<(nat, nat)>) {
    forall i: nat, j: nat :: i < j < |list| ==> list[i].0 != list[j].0
  }

  ghost predicate Stored(cells: map<nat, nat>, list: seq<(nat, nat)>) {
    forall i: nat :: i < |list| ==> list[i].0 in cells && cells[list[i].0] == list[i].1
  }

  /** Registers outside the list keep their contents. */
  ghost predicate Spares(was: map<nat, nat>, now: map<nat, nat>, list: seq<(nat, nat)>) {
    forall r: nat :: r in was && (forall i: nat :: i < |list| ==> list[i].0 != r) ==> r in now && now[r] == was[r]
  }

  /** The first n words of the phase memory, low half first. */
  ghost predicate Loaded(cells: map<nat, nat>, words: seq<nat>, n: nat) {
    forall g: nat :: g < n && g < |words| ==>
      && PHASES + 8 * g in cells && PHASES + 8 * g + 4 in cells
      && cells[PHASES + 8 * g + 4] * WORD32 + cells[PHASES + 8 * g] == words[g]
      && cells[PHASES + 8 * g] < WORD32 && cells[PHASES + 8 * g + 4] < WORD32
  }

  /** The writes of the phase memory. */
  function Halves(words: seq<nat>): (s: seq<(nat, nat)>)
    ensures |s| == 2 * |words|
  {
    seq<(nat, nat)>(2 * |words|, (i: nat) requires i < 2 * |words| =>
      (PHASES + 4 * i, if i % 2 == 0 then words[i / 2] % WORD32 else words[i / 2] / WORD32))
  }

  lemma NextHalves(words: seq<nat>, g: nat)
    requires g < |words|
    ensures Halves(words)[..2 * (g + 1)]
            == Halves(words)[..2 * g] + [(PHASES + 8 * g, words[g] % WORD32)] + [(PHASES + 8 * g + 4, words[g] / WORD32)]
  {
  }

  method LoadPhases(port: Registers, words: seq<nat>) returns (ok: bool)
    requires |words| == GROUPS && forall g: nat :: g < GROUPS ==> words[g] < 1099511627776
    modifies port
    ensures ok ==> Loaded(port.cells, words, GROUPS) && port.trail == old(port.trail) + Halves(words)
    ensures port.mismatches == old(port.mismatches) + if ok then 0 else 1
    ensures forall r: nat :: r in old(port.cells) && !(PHASES <= r < PHASES_END) ==>
              r in port.cells && port.cells[r] == old(port.cells)[r]
  {
    var g := 0;
    while g < GROUPS
      invariant g <= GROUPS && Loaded(port.cells, words, g)
      invariant port.trail == old(port.trail) + Halves(words)[..2 * g] && port.mismatches == old(port.mismatches)
      invariant forall r: nat :: r in old(port.cells) && !(PHASES <= r < PHASES_END) ==>
                  r in port.cells && port.cells[r] == old(port.cells)[r]
    {
      ok := port.Set(PHASES + 8 * g, words[g] % WORD32);
      if !ok {
        return;
      }
      ok := port.Set(PHASES + 8 * g + 4, words[g] / WORD32);
      if !ok {
        return;
      }
      NextHalves(words, g);
      g := g + 1;
    }
    ok := true;
  }

  predicate Supported(w: nat, h: nat) {
    (w == 1920 && h == 1080) || (w == 1280 && h == 720) || (w == 2560 && h == 1440)
  }

  /** Neither in the phase memory nor a control register. */
  predicate Plain(r: nat) {
    !(PHASES <= r < PHASES_END) && r != V && r != H
  }

  /** The registers of both scalers behind the memories: heights, widths, and rates. */
  function Geometry(iw: nat, ih: nat, ow: nat, oh: nat): (s: seq<(nat, nat)>)
    requires ow > 0 && oh > 0
    ensures |s| == 9
    ensures Different(s) && forall i: nat :: i < |s| ==> Plain(s[i].0) && (s[i].0 < H + 0x800 || V <= s[i].0 < V + 0x800)
  {
    [(V + 0x10, ih), (V + 0x18, iw), (V + 0x20, oh), (V + 0x28, StepRate(ih, oh)),
     (H + 0x10, oh), (H + 0x18, iw), (H + 0x20, ow), (H + 0x28, 0), (H + 0x30, StepRate(iw, ow))]
  }

  /** The coefficient memories: the same 192 words for both directions. */
  function Coefficients(filter: seq<nat>): (s: seq<(nat, nat)>)
    requires |filter| == 192
    ensures |s| == 384
    ensures Different(s) && forall i: nat :: i < |s| ==> Plain(s[i].0) && H + 0x800 <= s[i].0 && !(V <= s[i].0 < V + 0x800)
  {
    seq<(nat, nat)>(384, (i: nat) requires i < 384 =>
      ((if i % 2 == 0 then V else H) + 0x800 + i / 2 * 4, filter[i / 2]))
  }

  /** What a completed set-up leaves in the scaler. */
  ghost predicate Programmed(cells: map<nat, nat>, filter: seq<nat>, iw: nat, ih: nat, ow: nat, oh: nat)
    requires |filter| == 192 && 0 < ow <= iw <= 4 * GROUPS && oh > 0
  {
    && Stored(cells, Coefficients(filter)) && Stored(cells, Geometry(iw, ih, ow, oh))
    && exists words: seq<nat> ::
         |words| == GROUPS && Loaded(cells, words, GROUPS) && PhaseProgram(words, iw, ow)
  }

  /** The whole set-up, write by write: the reset is held and released, then come the
      coefficients, the phase memory, the geometry, and the start of both scalers. */
  ghost predicate SetUp(writes: seq<(nat, nat)>, filter: seq<nat>, words: seq<nat>, iw: nat, ih: nat, ow: nat, oh: nat)
    requires |filter| == 192 && |words| == 1024 && ow > 0 && oh > 0
  {
    && |writes| == 2445 && writes[0] == (0x50000, 0) && writes[1] == (0x50000, 3)
    && (forall i: nat :: i < 192 ==>
          writes[2 + 2 * i] == (0x60800 + 4 * i, filter[i]) && writes[3 + 2 * i] == (0x40800 + 4 * i, filter[i]))
    && (forall g: nat :: g < 1024 ==>
          && writes[386 + 2 * g] == (0x42000 + 8 * g, words[g] % 0x1_0000_0000)
          && writes[387 + 2 * g] == (0x42004 + 8 * g, words[g] / 0x1_0000_0000))
    && writes[2434..2443]
       == [(0x60010, ih), (0x60018, iw), (0x60020, oh), (0x60028, ih * 65536 / oh),
           (0x40010, oh), (0x40018, iw), (0x40020, ow), (0x40028, 0), (0x40030, iw * 65536 / ow)]
    && writes[2443] == (0x60000, 0x81) && writes[2444] == (0x40000, 0x81)
  }

  lemma InMiddle<T>(a: seq<T>, b: seq<T>, c: seq<T>, i: nat)
    requires i < |b|
    ensures (a + b + c)[|a| + i] == b[i]
  {
  }

  lemma CoefficientAt(filter: seq<nat>, i: nat)
    requires |filter| == 192 && i < 192
    ensures Coefficients(filter)[2 * i] == (0x60800 + 4 * i, filter[i])
    ensures Coefficients(filter)[2 * i + 1] == (0x40800 + 4 * i, filter[i])
  {
  }

  lemma HalfAt(words: seq<nat>, g: nat)
    requires g < |words|
    ensures Halves(words)[2 * g] == (0x42000 + 8 * g, words[g] % 0x1_0000_0000)
    ensures Halves(words)[2 * g + 1] == (0x42004 + 8 * g, words[g] / 0x1_0000_0000)
  {
  }

  lemma GeometryIs(iw: nat, ih: nat, ow: nat, oh: nat)
    requires ow > 0 && oh > 0
    ensures Geometry(iw, ih, ow, oh)
            == [(0x60010, ih), (0x60018, iw), (0x60020, oh), (0x60028, ih * 65536 / oh),
                (0x40010, oh), (0x40018, iw), (0x40020, ow), (0x40028, 0), (0x40030, iw * 65536 / ow)]
  {
  }

  lemma SetUpDone(was: seq<(nat, nat)>, now: seq<(nat, nat)>, filter: seq<nat>, words: seq<nat>,
                  iw: nat, ih: nat, ow: nat, oh: nat)
    requires |filter| == 192 && |words| == 1024 && ow > 0 && oh > 0
    requires now == was + [(RESET, 0)] + [(RESET, 3)] + Coefficients(filter) + Halves(words)
                    + Geometry(iw, ih, ow, oh) + [(V, 0x81)] + [(H, 0x81)]
    ensures was <= now && SetUp(now[|was|..], filter, words, iw, ih, ow, oh)
  {
    hide Coefficients, Halves, Geometry, Different, Plain;
    var c, h, m := Coefficients(filter), Halves(words), Geometry(iw, ih, ow, oh);
    var start: seq<(nat, nat)>, stop: seq<(nat, nat)> := [(RESET, 0), (RESET, 3)], [(V, 0x81), (H, 0x81)];
    var added := start + c + h + m + stop;
    assert now == was + added;
    assert now[|was|..] == added;
    forall i: nat | i < 192
      ensures added[2 + 2 * i] == (0x60800 + 4 * i, filter[i]) && added[3 + 2 * i] == (0x40800 + 4 * i, filter[i])
    {
      InMiddle(start, c, h + m + stop, 2 * i);
      InMiddle(start, c, h + m + stop, 2 * i + 1);
      assert added == start + c + (h + m + stop);
      CoefficientAt(filter, i);
    }
    forall g: nat | g < 1024
      ensures added[386 + 2 * g] == (0x42000 + 8 * g, words[g] % 0x1_0000_0000)
      ensures added[387 + 2 * g] == (0x42004 + 8 * g, words[g] / 0x1_0000_0000)
    {
      InMiddle(start + c, h, m + stop, 2 * g);
      InMiddle(start + c, h, m + stop, 2 * g + 1);
      assert added == start + c + h + (m + stop);
      HalfAt(words, g);
    }
    assert added[2434..2443] == m;
    GeometryIs(iw, ih, ow, oh);
  }

  /** The three filters of 64 phases and six taps, two taps to a word. */
  datatype Filters = Filters(threeToTwo: seq<nat>, fourToThree: seq<nat>, twoToOne: seq<nat>) {
    /** 1920 to 1280, 2560 to 1920, and 2560 to 1280. */
    ghost function For(iw: nat, ow: nat): seq<nat> {
      if iw == 1920 then threeToTwo else if ow == 1920 then fourToThree else twoToOne
    }
  }

  /** One of the three sizes, scaled down to one of them or kept. */
  ghost predicate Accepted(iw: nat, ih: nat, ow: nat, oh: nat) {
    var sizes := [(1280, 720), (1920, 1080), (2560, 1440)];
    (iw, ih) in sizes && (ow, oh) in sizes && ow <= iw
  }

  /** gc573_scaler_configure.  Only supported sizes are accepted, a running engine is left
      alone, and unless a read-back disagrees the set-up completes: then it is the whole list
      of writes in its order and leaves the coefficients, the geometry, and a phase memory
      for just these widths; the range error cannot occur. */
  method Configure(port: Registers, running: bool, filters: Filters, iw: nat, ih: nat, ow: nat, oh: nat)
    returns (ret: Option<Error>, enabled: bool)
    requires |filters.threeToTwo| == |filters.fourToThree| == |filters.twoToOne| == 192
    modifies port
    ensures ret == Some(EINVAL) <==> !Accepted(iw, ih, ow, oh)
    ensures ret == Some(EBUSY) <==> Accepted(iw, ih, ow, oh) && running
    ensures port.mismatches == old(port.mismatches) + if ret == Some(EIO) then 1 else 0
    ensures ret == Some(EINVAL) || ret == Some(EBUSY) || iw == ow ==>
              port.cells == old(port.cells) && port.trail == old(port.trail) && !enabled
    ensures ret.None? && iw != ow ==> enabled && Programmed(port.cells, filters.For(iw, ow), iw, ih, ow, oh)
    ensures ret.None? && iw != ow ==>
              && old(port.trail) <= port.trail
              && exists words: seq<nat> ::
                   && |words| == 1024 && LaneBits(words, iw, ow)
                   && SetUp(port.trail[|old(port.trail)|..], filters.For(iw, ow), words, iw, ih, ow, oh)
    ensures enabled ==> V in port.cells && H in port.cells && port.cells[V] == port.cells[H] == 0x81
  {
    hide PhaseProgram, Loaded, Coefficients, Geometry, Stored, Spares, Different, Programmed, LaneBits, SetUp, Halves;
    enabled := false;
    if !Supported(iw, ih) || !Supported(ow, oh) || ow > iw {
      return Some(EINVAL), enabled;
    }
    if running {
      return Some(EBUSY), enabled;
    }
    if iw == ow {
      return None, enabled;
    }
    var filter := if iw * 2 == ow * 3 then filters.threeToTwo
                  else if iw * 3 == ow * 4 then filters.fourToThree else filters.twoToOne;
    var ok := port.Set(RESET, 0);
    if !ok {
      return Some(EIO), enabled;
    }
    ok := port.Set(RESET, 3);
    if !ok {
      return Some(EIO), enabled;
    }
    ok := port.SetAll(Coefficients(filter));
    if !ok {
      return Some(EIO), enabled;
    }
    ghost var tabled := port.cells;
    var words, outputs := PhaseWords(iw, ow);
    ProgramShape(words, iw, ow);
    ok := LoadPhases(port, words);
    if !ok {
      return Some(EIO), enabled;
    }
    assert outputs == ow;
    ghost var loaded := port.cells;
    ok := port.SetAll(Geometry(iw, ih, ow, oh));
    if !ok {
      return Some(EIO), enabled;
    }
    AllKept(tabled, loaded, port.cells, port.cells[V := 0x81][H := 0x81], filter, words, iw, ih, ow, oh);
    port.Write(V, 0x81);
    port.Write(H, 0x81);
    SetUpDone(old(port.trail), port.trail, filter, words, iw, ih, ow, oh);
    enabled := true;
    return None, enabled;
  }

  /** No later write of the set-up disturbs an earlier one. */
  lemma AllKept(tabled: map<nat, nat>, loaded: map<nat, nat>, sized: map<nat, nat>, started: map<nat, nat>,
                filter: seq<nat>, words: seq<nat>, iw: nat, ih: nat, ow: nat, oh: nat)
    requires |filter| == 192 && 0 < ow <= iw <= 4 * GROUPS && oh > 0
    requires Stored(tabled, Coefficients(filter))
    requires |words| == GROUPS && PhaseProgram(words, iw, ow) && Loaded(loaded, words, GROUPS)
    requires forall r: nat :: r in tabled && !(PHASES <= r < PHASES_END) ==> r in loaded && loaded[r] == tabled[r]
    requires Stored(sized, Geometry(iw, ih, ow, oh)) && Spares(loaded, sized, Geometry(iw, ih, ow, oh))
    requires forall r: nat :: r in sized && r != V && r != H ==> r in started && started[r] == sized[r]
    ensures Programmed(started, filter, iw, ih, ow, oh)
  {
    hide PhaseProgram, StepRate;
    var table, sizes := Coefficients(filter), Geometry(iw, ih, ow, oh);
    forall i: nat | i < |table| ensures table[i].0 in started && started[table[i].0] == table[i].1 {
      assert table[i].0 in tabled && Plain(table[i].0);
      assert forall j: nat :: j < |sizes| ==> sizes[j].0 != table[i].0;
    }
    forall i: nat | i < |sizes| ensures sizes[i].0 in started && started[sizes[i].0] == sizes[i].1 {
      assert Plain(sizes[i].0);
    }
    forall r: nat | PHASES <= r < PHASES_END && r in loaded ensures r in started && started[r] == loaded[r] {
      assert forall j: nat :: j < |sizes| ==> sizes[j].0 != r;
    }
    StillLoaded(loaded, started, words);
  }

  lemma ProgramShape(words: seq<nat>, iw: nat, ow: nat)
    requires 0 < ow <= iw <= 4 * GROUPS && PhaseProgram(words, iw, ow)
    ensures |words| == GROUPS && forall g: nat :: g < GROUPS ==> words[g] < 1099511627776
  {
  }

  lemma StillLoaded(was: map<nat, nat>, now: map<nat, nat>, words: seq<nat>)
    requires Loaded(was, words, GROUPS)
    requires forall r: nat :: PHASES <= r < PHASES_END && r in was ==> r in now && now[r] == was[r]
    ensures Loaded(now, words, GROUPS)
  {
  }
}
