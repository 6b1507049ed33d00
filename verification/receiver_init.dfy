/** The masked-write table interpreter of driver/gc573_init.c, for any table. */
module ReceiverInit {

  import opened Bytes
  import opened BankedDevice

  datatype Error = EBUS | EBUSY | ENODEV | EOPNOTSUPP | ETIMEDOUT | EIO

  const ID: seq<bv8> := [0x54, 0x49, 0x05, 0x68]
  const MODE := 0x04
  const PLAIN: bv8 := 0xb1     // what MODE reads before the table

  /** The status reads behind bank and identification; the driver keeps what they return. */
  const STATUS_REGS: seq<nat> := [0x13, 0x16, 0x19, 0x04, 0x20, 0x21, 0x22, 0x23, 0x25, 0x26, 0x27, 0x2a, 0x2b,
                                  0x2d, 0x2e, 0x2f, 0x32, 0x35]
  datatype Entry = Entry(reg: nat, mask: bv8, value: bv8)

  function Step(s: Regs, e: Entry): Regs {
    Put(s, e.reg, Merge(Get(s, e.reg), e.mask, e.value))
  }

  /** The meaning of a table: its masked writes in order. */
  function Fold(s: Regs, table: seq<Entry>): Regs {
    if table == [] then s else Step(Fold(s, table[..|table| - 1]), table[|table| - 1])
  }

  lemma FoldNext(s: Regs, table: seq<Entry>, n: nat)
    requires n < |table|
    ensures Fold(s, table[..n + 1]) == Step(Fold(s, table[..n]), table[n])
  {
    assert table[..n + 1][..n] == table[..n];
  }

  /** The bank the table has selected: the last write to the bank register. */
  function BankAfter(bank: bv8, table: seq<Entry>): bv8 {
    if table == [] then bank
    else
      var e, before := table[|table| - 1], BankAfter(bank, table[..|table| - 1]);
      if e.reg == SELECT then Merge(before, e.mask, e.value) & 7 else before
  }

  lemma {:induction false} FoldBank(s: Regs, table: seq<Entry>)
    ensures BankOf(Fold(s, table)) == BankAfter(BankOf(s), table)
  {
    if table != [] {
      FoldBank(s, table[..|table| - 1]);
      var was, e := Fold(s, table[..|table| - 1]), table[|table| - 1];
      MergeLow(was.select, e.mask, e.value);
    }
  }

  lemma MergeLow(was: bv8, mask: bv8, value: bv8)
    ensures Merge(was, mask, value) & 7 == Merge(was & 7, mask, value) & 7
  {
  }

  /** The registers a table addresses, with the bank selected at that point. */
  function Targets(bank: bv8, table: seq<Entry>): set<(bv8, nat)> {
    if table == [] then {}
    else
      var e, before := table[|table| - 1], table[..|table| - 1];
      Targets(bank, before) + if e.reg == SELECT then {} else {(BankAfter(bank, before), e.reg)}
  }

  /** A table changes no register it does not address, and of an addressed one only bits
      some entry's mask covers. */
  lemma {:induction false} FoldKeepsOthers(s: Regs, table: seq<Entry>, bank: bv8, reg: nat, kept: bv8)
    requires forall e: Entry :: e in table && e.reg == reg ==> e.mask & kept == 0
    ensures Cell(Fold(s, table), bank, reg) & kept == Cell(s, bank, reg) & kept
    ensures (bank, reg) !in Targets(BankOf(s), table) ==> Cell(Fold(s, table), bank, reg) == Cell(s, bank, reg)
  {
    hide Step, Cell, Merge;
    if table != [] {
      var before, e := table[..|table| - 1], table[|table| - 1];
      assert e in table && forall x :: x in before ==> x in table;
      FoldKeepsOthers(s, before, bank, reg, kept);
      FoldBank(s, before);
      StepKeeps(Fold(s, before), e, bank, reg, kept);
    }
  }

  lemma StepKeeps(s: Regs, e: Entry, bank: bv8, reg: nat, kept: bv8)
    requires e.reg == reg ==> e.mask & kept == 0
    ensures Cell(Step(s, e), bank, reg) & kept == Cell(s, bank, reg) & kept
    ensures e.reg == SELECT || (BankOf(s), e.reg) != (bank, reg) ==> Cell(Step(s, e), bank, reg) == Cell(s, bank, reg)
  {
    hide Merge;
    if e.reg == reg {
      MergeKeeps(Get(s, reg), e.mask, e.value, kept);
    }
  }

  lemma MergeKeeps(was: bv8, mask: bv8, value: bv8, kept: bv8)
    requires mask & kept == 0
    ensures Merge(was, mask, value) & kept == was & kept
  {
  }

  /** The bits under an entry's mask are the entry's. */
  lemma StepSets(s: Regs, e: Entry)
    ensures SameBits(Get(Step(s, e), e.reg), e.value, e.mask)
  {
    hide Merge, SameBits;
    MergeSets(Get(s, e.reg), e.mask, e.value);
    assert Get(Put(s, e.reg, Merge(Get(s, e.reg), e.mask, e.value)), e.reg) == Merge(Get(s, e.reg), e.mask, e.value);
  }

  predicate SameBits(v: bv8, w: bv8, mask: bv8) {
    v & mask == w & mask
  }

  predicate Apart(m: bv8, n: bv8) {
    m & n == 0
  }

  lemma StepKeepsBits(s: Regs, e: Entry, bank: bv8, reg: nat, value: bv8, mask: bv8)
    requires e.reg == reg ==> Apart(e.mask, mask)
    requires SameBits(Cell(s, bank, reg), value, mask)
    ensures SameBits(Cell(Step(s, e), bank, reg), value, mask)
  {
    hide Step, Cell;
    StepKeeps(s, e, bank, reg, mask);
  }

  lemma MergeSets(was: bv8, mask: bv8, value: bv8)
    ensures SameBits(Merge(was, mask, value), value, mask)
  {
  }

  /** What an entry sets stays set unless a later entry covers one of its bits. */
  lemma {:induction false} FoldSets(s: Regs, table: seq<Entry>, i: nat)
    requires i < |table| && table[i].reg != SELECT
    requires forall j: nat :: i < j < |table| && table[j].reg == table[i].reg ==> Apart(table[j].mask, table[i].mask)
    ensures SameBits(Cell(Fold(s, table), BankAfter(BankOf(s), table[..i]), table[i].reg), table[i].value, table[i].mask)
  {
    hide Step, Cell, Merge, SameBits, Apart, BankAfter, Get;
    var n := |table| - 1;
    var before, e := table[..n], table[n];
    var bank := BankAfter(BankOf(s), table[..i]);
    if i == n {
      FoldBank(s, before);
      StepSets(Fold(s, before), e);
      StepCell(Fold(s, before), e);
    } else {
      assert before[i] == table[i] && before[..i] == table[..i];
      FoldSets(s, before, i);
      StepKeepsBits(Fold(s, before), e, bank, table[i].reg, table[i].value, table[i].mask);
    }
  }

  lemma StepCell(s: Regs, e: Entry)
    requires e.reg != SELECT
    ensures Get(Step(s, e), e.reg) == Cell(Step(s, e), BankOf(s), e.reg)
  {
  }

  /** A masked write on what was read is the table's step, outside the volatile registers. */
  lemma StepAgrees(s: Regs, t: Regs, e: Entry, read: bv8, loose: set<(bv8, nat)>)
    requires Agree(s, t, loose)
    requires e.reg == SELECT || (BankOf(s), e.reg) !in loose ==> read == Get(s, e.reg)
    ensures Agree(Put(s, e.reg, Merge(read, e.mask, e.value)), Step(t, e), loose)
  {
    PutAgrees(s, t, e.reg, Merge(read, e.mask, e.value), Merge(Get(t, e.reg), e.mask, e.value), loose);
  }

  /** What the driver reports: table entries completed, writes started, the bank it tracks,
      whether that bank was read back, and whether the whole table was walked. */
  datatype Report = Report(steps: nat, writes: nat, bank: bv8, verified: bool, complete: bool)

  /** The receiver answers in bank 0 with its own identification. */
  ghost predicate Identified(s: Regs, loose: set<(bv8, nat)>) {
    && BankOf(s) == 0
    && forall i: nat :: i < |ID| && (0 as bv8, i) !in loose ==> Cell(s, 0, i) == ID[i]
  }

  /** What a status read read: the bank, the four bytes of the identification, and the
      status registers in their order. */
  ghost predicate StatusAnswers(answers: seq<(nat, bv8)>, select: bv8, values: seq<bv8>) {
    && |answers| == 23 && |values| == 18 && answers[0] == (0x0f, select)
    && answers[1..5] == [(0, 0x54), (1, 0x49), (2, 0x05), (3, 0x68)]
    && forall k: nat :: k < 18 ==>
         answers[5 + k] == ([0x13, 0x16, 0x19, 0x04, 0x20, 0x21, 0x22, 0x23, 0x25, 0x26, 0x27, 0x2a, 0x2b, 0x2d, 0x2e, 0x2f,
                             0x32, 0x35][k], values[k])
  }

  /** Why a status read refuses, once it has read anything: a bank other than 0 in its first
      answer, or a byte that is not the identification's in the latest. */
  ghost predicate Refused(answers: seq<(nat, bv8)>, ret: Option<Error>) {
    && (ret == Some(EOPNOTSUPP) <==> |answers| == 1 && answers[0].1 & 7 != 0)
    && (answers != [] ==>
          && ret != Some(EBUSY)
          && (ret == Some(ENODEV) <==>
                2 <= |answers| <= 5 && answers[|answers| - 1].1 != [0x54, 0x49, 0x05, 0x68][|answers| - 2]))
  }

  /** The four bytes of the identification. */
  method Identify(chip: Chip) returns (ret: Option<Error>)
    requires BankOf(chip.regs) == 0
    modifies chip`seen, chip`answers, chip`faults
    ensures old(chip.answers) <= chip.answers && chip.faults == old(chip.faults) + if ret == Some(EBUS) then 1 else 0
    ensures ret.None? ==> Identified(chip.regs, chip.loose)
    ensures ret.None? ==> |chip.answers| == |old(chip.answers)| + 4
    ensures ret.None? ==> forall k: nat :: k < 4 ==> chip.answers[|old(chip.answers)| + k] == (k, ID[k])
    ensures ret.Some? ==> ret == Some(EBUS) || ret == Some(ENODEV)
    ensures ret.Some? ==> |chip.answers| <= |old(chip.answers)| + 4
    ensures ret.Some? ==> forall k: nat ::
              |old(chip.answers)| + k + 1 < |chip.answers| ==> chip.answers[|old(chip.answers)| + k] == (k, ID[k])
    ensures ret == Some(ENODEV) ==>
              && |old(chip.answers)| < |chip.answers|
              && chip.answers[|chip.answers| - 1].1 != ID[|chip.answers| - 1 - |old(chip.answers)|]
    ensures ret == Some(EBUS) && |old(chip.answers)| < |chip.answers| ==>
              |chip.answers| < |old(chip.answers)| + 4
              && chip.answers[|chip.answers| - 1].1 == ID[|chip.answers| - 1 - |old(chip.answers)|]
  {
    for i := 0 to |ID|
      invariant forall k: nat :: k < i && (0 as bv8, k) !in chip.loose ==> Cell(chip.regs, 0, k) == ID[k]
      invariant |chip.answers| == |old(chip.answers)| + i && old(chip.answers) <= chip.answers
      invariant chip.faults == old(chip.faults)
      invariant forall k: nat :: k < i ==> chip.answers[|old(chip.answers)| + k] == (k, ID[k])
    {
      var ok, v := chip.Read(i);
      if !ok {
        return Some(EBUS);
      }
      if v != ID[i] {
        return Some(ENODEV);
      }
    }
    return None;
  }

  /** The status registers in their order. */
  method ReadStatus(chip: Chip) returns (ret: Option<Error>, values: seq<bv8>)
    requires BankOf(chip.regs) == 0
    modifies chip`seen, chip`answers, chip`faults
    ensures old(chip.answers) <= chip.answers && chip.faults == old(chip.faults) + if ret == Some(EBUS) then 1 else 0
    ensures |chip.answers| == |old(chip.answers)| + |values| && |values| <= 18
    ensures ret.None? ==> |values| == 18 && ((0, MODE) !in chip.loose ==> values[3] == Cell(chip.regs, 0, MODE))
    ensures ret.Some? ==> |values| < 18 && ret == Some(EBUS)
    ensures forall k: nat :: k < |values| ==> chip.answers[|old(chip.answers)| + k] == (STATUS_REGS[k], values[k])
  {
    values := [];
    while |values| < |STATUS_REGS|
      invariant |values| <= |STATUS_REGS|
      invariant |values| > 3 && (0, MODE) !in chip.loose ==> values[3] == Cell(chip.regs, 0, MODE)
      invariant |chip.answers| == |old(chip.answers)| + |values| && old(chip.answers) <= chip.answers
      invariant chip.faults == old(chip.faults)
      invariant forall k: nat :: k < |values| ==> chip.answers[|old(chip.answers)| + k] == (STATUS_REGS[k], values[k])
    {
      var ok, v := chip.Read(STATUS_REGS[|values|]);
      if !ok {
        return Some(EBUS), values;
      }
      values := values + [v];
    }
    return None, values;
  }

  /** gc573_receiver_status: only reads; the bank first, then the identification. */
  method Status(chip: Chip) returns (ret: Option<Error>, select: bv8, values: seq<bv8>)
    modifies chip`seen, chip`answers, chip`faults
    ensures old(chip.answers) <= chip.answers && chip.faults == old(chip.faults) + if ret == Some(EBUS) then 1 else 0
    ensures Refused(chip.answers[|old(chip.answers)|..], ret)
    ensures ret.None? ==>
              && Identified(chip.regs, chip.loose) && select == chip.regs.select
              && StatusAnswers(chip.answers[|old(chip.answers)|..], select, values)
              && ((0, MODE) !in chip.loose ==> values[3] == Cell(chip.regs, 0, MODE))
    ensures ret.Some? ==> |chip.answers| < |old(chip.answers)| + 23
    ensures ret != Some(ETIMEDOUT) && ret != Some(EIO)
  {
    select, values := 0, [];
    var board: bool := *;
    if !board {
      return Some(ENODEV), select, values;
    }
    var enabled: bool := *;
    if enabled {
      return Some(EBUSY), select, values;
    }
    var ok, v := chip.Read(SELECT);
    if !ok {
      return Some(EBUS), select, values;
    }
    select := v;
    if select & 7 != 0 {
      return Some(EOPNOTSUPP), select, values;
    }
    ret := Identify(chip);
    if ret.Some? {
      return;
    }
    ghost var known := chip.answers;
    ret, values := ReadStatus(chip);
    if ret.Some? {
      return;
    }
    AnswersAre(old(chip.answers), known, chip.answers, select, values);
    return None, select, values;
  }

  lemma AnswersAre(was: seq<(nat, bv8)>, known: seq<(nat, bv8)>, now: seq<(nat, bv8)>, select: bv8, values: seq<bv8>)
    requires |known| == |was| + 5 && was + [(SELECT, select)] <= known <= now && |values| == 18 && |now| == |known| + 18
    requires forall k: nat :: k < 4 ==> known[|was| + 1 + k] == (k, ID[k])
    requires forall k: nat :: k < 18 ==> now[|known| + k] == (STATUS_REGS[k], values[k])
    ensures was <= now && StatusAnswers(now[|was|..], select, values)
  {
    var a := now[|was|..];
    assert a[0] == (was + [(SELECT, select)])[|was|];
    forall k: nat | k < 4 ensures a[1 + k] == (k, ID[k]) {
      assert a[1 + k] == now[|was| + 1 + k] == known[|was| + 1 + k];
    }
    assert ID[0] == 0x54 && ID[1] == 0x49 && ID[2] == 0x05 && ID[3] == 0x68;
    assert a[1 + 0] == (0, ID[0]) && a[1 + 1] == (1, ID[1]) && a[1 + 2] == (2, ID[2]) && a[1 + 3] == (3, ID[3]);
    assert a[1] == (0, 0x54) && a[2] == (1, 0x49) && a[3] == (2, 0x05) && a[4] == (3, 0x68);
    assert a[1..5] == [a[1], a[2], a[3], a[4]];
    forall k: nat | k < 18 ensures a[5 + k] == (STATUS_REGS[k], values[k]) {
      assert a[5 + k] == now[|known| + k];
    }
  }

  /** The chip holds the first n entries' masked writes, or one more: a write that failed
      may have landed. */
  ghost predicate Holds(now: Regs, start: Regs, table: seq<Entry>, n: nat, loose: set<(bv8, nat)>)
    requires n <= |table|
  {
    || Agree(now, Fold(start, table[..n]), loose)
    || (n < |table| && Agree(now, Fold(start, table[..n + 1]), loose))
  }

  /** One entry: read, masked write, and for the bank register a read-back. */
  method RunEntry(chip: Chip, e: Entry, r: Report) returns (ret: Option<Error>, r': Report)
    requires r.verified && r.bank == BankOf(chip.regs)
    modifies chip
    ensures ret.None? ==> r'.steps == r.steps + 1 && r'.verified && r'.writes == r.writes + 1
    ensures ret.Some? ==> r'.steps == r.steps && r'.writes <= r.writes + 1
    ensures r'.verified ==> r'.bank == BankOf(chip.regs)
    ensures |chip.log| == |old(chip.log)| + (r'.writes - r.writes) && old(chip.log) <= chip.log
    ensures chip.expiries == old(chip.expiries) + if ret == Some(ETIMEDOUT) then 1 else 0
    ensures ret.Some? ==> ret == Some(EBUS) || ret == Some(ETIMEDOUT)
    ensures ret != Some(ENODEV) && chip.faults == old(chip.faults) + if ret == Some(EBUS) then 1 else 0
    ensures r'.writes >= r.writes && r'.complete == r.complete && old(chip.answers) <= chip.answers
    ensures forall t: Regs :: Agree(old(chip.regs), t, chip.loose) ==>
              || Agree(chip.regs, Step(t, e), chip.loose)
              || (ret.Some? && Agree(chip.regs, t, chip.loose))
  {
    hide Agree, Merge, Step, Cell;
    r' := r;
    var late := chip.Expired();
    if late {
      return Some(ETIMEDOUT), r';
    }
    var ok, read := chip.Read(e.reg);
    if !ok {
      return Some(EBUS), r';
    }
    var value := Merge(read, e.mask, e.value);
    late := chip.Expired();
    if late {
      return Some(ETIMEDOUT), r';
    }
    forall t: Regs | Agree(chip.regs, t, chip.loose)
      ensures Agree(Put(chip.regs, e.reg, value), Step(t, e), chip.loose)
    {
      StepAgrees(chip.regs, t, e, read, chip.loose);
    }
    var started;
    ok, started := chip.Store(e.reg, value);
    r' := r'.(writes := r'.writes + if started then 1 else 0);
    if e.reg == SELECT && started {
      r' := r'.(verified := false);
    }
    if !ok {
      return Some(EBUS), r';
    }
    if e.reg == SELECT {
      late := chip.Expired();
      if late {
        return Some(ETIMEDOUT), r';
      }
      ok, read := chip.Read(SELECT);
      if !ok {
        return Some(EBUS), r';
      }
      if read != value {
        return Some(EIO), r';
      }
      r' := r'.(bank := value & 7, verified := true);
    }
    return None, r'.(steps := r'.steps + 1);
  }

  /** Every entry in turn; the table must end in bank 0. */
  method WalkTable(chip: Chip, table: seq<Entry>, start: Report) returns (ret: Option<Error>, r: Report)
    requires start == Report(0, 0, 0, true, false) && BankOf(chip.regs) == 0
    modifies chip
    ensures ret.None? <==> r.complete
    ensures r.complete ==>
              && Agree(chip.regs, Fold(old(chip.regs), table), chip.loose)
              && r.steps == |table| == r.writes && r.verified && BankAfter(0, table) == 0
    ensures r.steps <= |table| && Holds(chip.regs, old(chip.regs), table, r.steps, chip.loose)
    ensures r.verified ==> r.bank == BankOf(chip.regs)
    ensures r.steps <= r.writes <= r.steps + 1
    ensures |chip.log| == |old(chip.log)| + r.writes && old(chip.log) <= chip.log
    ensures old(chip.answers) <= chip.answers
    ensures chip.expiries == old(chip.expiries) + if ret == Some(ETIMEDOUT) then 1 else 0
    ensures ret.Some? ==>
              ret == Some(EBUS) || ret == Some(ETIMEDOUT) || (ret == Some(EIO) && BankAfter(0, table) != 0)
    ensures chip.faults == old(chip.faults) + if ret == Some(EBUS) then 1 else 0
  {
    hide Agree;
    r := start;
    SameAgrees(chip.regs, chip.loose);
    var i := 0;
    while i < |table|
      invariant i <= |table| && r.steps == i == r.writes && r.verified && !r.complete
      invariant r.bank == BankOf(chip.regs)
      invariant Agree(chip.regs, Fold(old(chip.regs), table[..i]), chip.loose)
      invariant |chip.log| == |old(chip.log)| + i && old(chip.log) <= chip.log && old(chip.answers) <= chip.answers
      invariant chip.faults == old(chip.faults) && chip.expiries == old(chip.expiries)
    {
      FoldNext(old(chip.regs), table, i);
      ret, r := RunEntry(chip, table[i], r);
      if ret.Some? {
        return;
      }
      i := i + 1;
    }
    assert table[..|table|] == table;
    FoldBank(old(chip.regs), table);
    SameBank(chip.regs, Fold(old(chip.regs), table), chip.loose);
    if r.bank != 0 {
      return Some(EIO), r;
    }
    return None, r.(complete := true);
  }

  /** The conditions under which the table is started. */
  ghost predicate Expected(s: Regs, loose: set<(bv8, nat)>) {
    && Identified(s, loose) && s.select == 0
    && ((0, MODE) !in loose ==> Cell(s, 0, MODE) == PLAIN)
  }

  /** What the table waits for: bank 0 and nothing else selected, the identification, and
      0xb1 in register 4. */
  predicate Starts(answers: seq<(nat, bv8)>) {
    && |answers| >= 23 && answers[0] == (0x0f, 0)
    && answers[1..5] == [(0, 0x54), (1, 0x49), (2, 0x05), (3, 0x68)] && answers[8] == (0x04, 0xb1)
  }

  lemma StartsIs(answers: seq<(nat, bv8)>, select: bv8, values: seq<bv8>)
    requires StatusAnswers(answers, select, values)
    ensures Starts(answers) <==> select == 0 && values[3] == PLAIN
    ensures forall later: seq<(nat, bv8)> :: answers <= later ==> (Starts(later) <==> Starts(answers))
  {
    assert answers[5 + 3] == (0x04, values[3]);
    forall later: seq<(nat, bv8)> | answers <= later ensures Starts(later) <==> Starts(answers) {
      assert later[1..5] == answers[1..5];
    }
  }

  /** gc573_receiver_init: the right chip in bank 0, the table, and a closing status read,
      whose error the driver returns with the table reported complete. */
  method RunTable(chip: Chip, table: seq<Entry>) returns (ret: Option<Error>, r: Report)
    modifies chip
    ensures r.complete ==>
              && Expected(old(chip.regs), chip.loose)
              && Agree(chip.regs, Fold(old(chip.regs), table), chip.loose)
              && r.steps == |table| == r.writes && r.verified && BankAfter(0, table) == 0
    ensures ret.None? ==> r.complete && Identified(chip.regs, chip.loose)
    ensures r.writes > 0 ==> Expected(old(chip.regs), chip.loose)
    ensures old(chip.answers) <= chip.answers && chip.faults == old(chip.faults) + if ret == Some(EBUS) then 1 else 0
    ensures ret == Some(ETIMEDOUT) ==> chip.expiries > old(chip.expiries)
    ensures ret == Some(EIO) ==> BankAfter(0, table) != 0
    ensures ret == Some(EOPNOTSUPP) || ret == Some(EBUSY) ==> r.writes == 0 || r.complete
    ensures r.complete || r.writes > 0 ==> Starts(chip.answers[|old(chip.answers)|..])
    ensures ret == Some(ENODEV) && !r.complete && |chip.answers| >= |old(chip.answers)| + 23 ==>
              !Starts(chip.answers[|old(chip.answers)|..])
    ensures r.steps <= |table| && Holds(chip.regs, old(chip.regs), table, r.steps, chip.loose)
    ensures r.verified ==> r.bank == BankOf(chip.regs)
    ensures r.steps <= r.writes <= r.steps + 1
    ensures |chip.log| == |old(chip.log)| + r.writes && old(chip.log) <= chip.log
  {
    hide Agree;
    r := Report(0, 0, 0, false, false);
    SameAgrees(chip.regs, chip.loose);
    var select, values;
    ret, select, values := Status(chip);
    if ret.Some? {
      return;
    }
    ghost var status := chip.answers;
    StartsIs(status[|old(chip.answers)|..], select, values);
    if select != 0 || values[3] != PLAIN {
      return Some(ENODEV), r;
    }
    r := r.(verified := true);
    ret, r := WalkTable(chip, table, r);
    if ret.Some? {
      return;
    }
    ret, select, values := Status(chip);
  }

  lemma SameAgrees(s: Regs, loose: set<(bv8, nat)>)
    ensures Agree(s, s, loose)
  {
  }

  lemma SameBank(s: Regs, t: Regs, loose: set<(bv8, nat)>)
    requires Agree(s, t, loose)
    ensures BankOf(s) == BankOf(t)
  {
  }
}
