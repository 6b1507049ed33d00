/** Programming the advertised EDID into the splitter's EDID memory and restoring the
    image found there first (driver/gc573_passthrough.c).

    The bus may fail at any transaction.  Control registers are trusted with nothing: the
    model keeps what was read from them and when they were written.  The memory keeps what
    is written, except the two checksum slots, which read as anything: the hardware serves
    those two bytes from registers 0xc9 and 0xca.
 */
module EdidSram {

  import opened Bytes
  import EdidSoundness
  import PassthroughEdid

  const SELECT := 0x0f
  const HPD := 0xab          // in bank 3
  const MAPPING := 0x4b
  const DDC := 0xc5
  const MAPPED: byte := 0xd9

  datatype Error = EBUS | EIO | EBADMSG | EINVAL | EOPNOTSUPP

  datatype Event =
    | ReadReg(bank: byte, reg: nat, value: byte)
    | WroteReg(bank: byte, reg: nat)
    | WroteMem(offset: nat)

  /** A checksum byte of one of the two blocks. */
  predicate Slot(i: nat) {
    i == 127 || i == 255
  }

  /** The value last read from a register with no write to it started since. */
  function Seen(log: seq<Event>, bank: byte, reg: nat): Option<byte> {
    if log == [] then None
    else
      var e := log[|log| - 1];
      if e.ReadReg? && e.bank == bank && e.reg == reg then Some(e.value)
      else if e.WroteReg? && e.bank == bank && e.reg == reg then None
      else Seen(log[..|log| - 1], bank, reg)
  }

  predicate DdcDisabled(v: byte) {
    v % 4 == 3 && v / 16 % 2 == 0
  }

  /** The memory was last seen mapped onto the bus. */
  ghost predicate Mapped(log: seq<Event>) {
    Seen(log, 0, 0x4b) == Some(0xd9)
  }

  /** A memory write is safe when the memory is mapped, hot-plug detect was last seen low,
      and the event just before the write saw the DDC slave disabled. */
  ghost predicate SafeAt(log: seq<Event>, i: nat)
    requires i < |log|
  {
    && Mapped(log[..i]) && Seen(log[..i], 3, 0xab) == Some(0)
    && i > 0 && log[i - 1].ReadReg? && log[i - 1].reg == 0xc5
    && log[i - 1].value as nat % 4 == 3 && log[i - 1].value as nat / 16 % 2 == 0
  }

  /** All memory writes since the log was `base` are safe. */
  ghost predicate Safe(base: seq<Event>, log: seq<Event>) {
    && base <= log
    && forall i: nat :: |base| <= i < |log| && log[i].WroteMem? ==> SafeAt(log, i)
  }

  /** The same image outside the two checksum slots. */
  ghost predicate SameImage(s: seq<byte>, t: seq<byte>) {
    && |s| == |t| == 256
    && forall i: nat :: i < 256 && i != 127 && i != 255 ==> s[i] == t[i]
  }

  /** The image, or the image with its first byte overwritten by 0, the first byte of every
      image that can be programmed. */
  ghost predicate SameOrZeroed(s: seq<byte>, t: seq<byte>) {
    |t| == 256 && (SameImage(s, t) || SameImage(s, t[0 := 0]))
  }

  /** An image with both checksum bytes recomputed. */
  function Resealed(image: seq<byte>): (s: seq<byte>)
    requires |image| == 256
    ensures |s| == 256
  {
    Sealed(image[..127]) + Sealed(image[128..255])
  }

  lemma ResealedIsSame(image: seq<byte>)
    requires |image| == 256
    ensures SameImage(Resealed(image), image)
    ensures Sum(Resealed(image)[..128]) % 256 == 0 && Sum(Resealed(image)[128..]) % 256 == 0
  {
    var s := Resealed(image);
    SumSealed(image[..127]);
    SumSealed(image[128..255]);
    assert s[..128] == Sealed(image[..127]) && s[128..] == Sealed(image[128..255]);
  }

  // ----------------------------------------------------------- the device

  /** How the bus and the chip behave: anyhow; or every transfer succeeds, every register
      reads as written and the checksum slots read as zero; or so too, except that the first
      memory write fails and lands. */
  datatype Behaviour = Anyhow | Works | LosesFirstWrite

  class Splitter {
    const behaviour: Behaviour
    var select: byte
    var cells: map<(byte, nat), byte>
    var sram: seq<byte>
    var memoryWritten: bool
    var log: seq<Event>

    constructor (sram: seq<byte>, behaviour: Behaviour)
      requires |sram| == 256
      ensures this.sram == sram && log == [] && this.behaviour == behaviour
      ensures !memoryWritten && DdcPresent(cells)
    {
      this.behaviour, this.sram, memoryWritten, select, log := behaviour, sram, false, 0, [];
      cells := map[(0, DDC) := 2];
    }

    predicate Loses() {
      behaviour == LosesFirstWrite
    }

    predicate Reliable() {
      behaviour != Anyhow
    }

    predicate Works() {
      behaviour == Behaviour.Works
    }

    function Stored(reg: nat): byte
      reads this`select, this`cells
    {
      if reg == SELECT then select else if (select, reg) in cells then cells[(select, reg)] else 0
    }

    function BankFor(reg: nat): byte
      reads this`select
    {
      if reg == SELECT then 0 else select
    }

    method Read(reg: nat) returns (ok: bool, v: byte)
      modifies this`log
      ensures Reliable() ==> ok && v == Stored(reg)
      ensures ok ==> log == old(log) + [ReadReg(BankFor(reg), reg, v)]
      ensures ok && reg == SELECT ==> v == select
      ensures !ok ==> log == old(log)
    {
      ok, v := *, *;
      if reg == SELECT || Reliable() {
        v := Stored(reg);
      }
      if Reliable() {
        ok := true;
      }
      if ok {
        log := log + [ReadReg(BankFor(reg), reg, v)];
      }
    }

    method Write(reg: nat, v: byte) returns (ok: bool, started: bool)
      modifies this`log, this`select, this`cells
      ensures ok ==> started
      ensures Reliable() ==>
                ok && (if reg == SELECT then select == v && cells == old(cells)
                       else cells == old(cells)[(select, reg) := v])
      ensures log == if started then old(log) + [WroteReg(old(BankFor(reg)), reg)] else old(log)
      ensures reg != SELECT || !started ==> select == old(select)
    {
      ok, started := *, *;
      if Reliable() {
        ok := true;
      }
      if ok {
        started := true;
      }
      if started {
        log := log + [WroteReg(BankFor(reg), reg)];
        var landed: bool := *;
        if ok || landed {
          if reg == SELECT {
            select := v;
          } else {
            cells := cells[(select, reg) := v];
          }
        }
      }
    }

    /** Four bytes of the memory; the checksum slots read as anything. */
    method ReadFour(offset: nat) returns (ok: bool, data: seq<byte>)
      requires offset % 4 == 0 && offset < 256 && |sram| == 256 && Mapped(log)
      ensures |data| == 4 && (Reliable() ==> ok)
      ensures Reliable() ==> forall j: nat :: j < 4 && Slot(offset + j) ==> data[j] == 0
      ensures ok ==> forall j: nat :: j < 4 && !Slot(offset + j) ==> data[j] == sram[offset + j]
    {
      ok := *;
      var slot: byte := *;
      if Reliable() {
        ok, slot := true, 0;
      }
      var n := offset + 3;
      data := if n == 127 || n == 255 then sram[offset..n] + [slot] else sram[offset..offset + 4];
    }

    /** A memory write.  One that fails may have landed; a checksum slot keeps nothing. */
    method WriteMem(offset: nat, v: byte) returns (ok: bool, started: bool)
      requires offset < 256 && |sram| == 256 && Mapped(log)
      modifies this`log, this`sram, this`memoryWritten
      ensures Loses() ==> (ok <==> old(memoryWritten)) && memoryWritten && sram == old(sram)[offset := v]
      ensures Works() ==> ok
      ensures ok ==> started && sram == old(sram)[offset := v]
      ensures started ==> log == old(log) + [WroteMem(offset)]
      ensures !started ==> log == old(log) && sram == old(sram)
      ensures sram == old(sram) || sram == old(sram)[offset := v]
    {
      ok, started := *, *;
      var landed: bool := *;
      if Reliable() {
        ok, started, landed := memoryWritten || !Loses(), true, true;
      }
      if ok {
        started := true;
      }
      if started {
        log := log + [WroteMem(offset)];
        memoryWritten := true;
        if ok || landed {
          sram := sram[offset := v];
        }
      }
    }
  }

  /** The DDC slave's status bits as a working splitter shows them; bit 0 is the driver's. */
  predicate DdcPresent(cells: map<(byte, nat), byte>) {
    (0, DDC) in cells && cells[(0, DDC)] as nat % 4 >= 2 && cells[(0, DDC)] as nat / 16 % 2 == 0
  }

  // --------------------------------------------------- lemmas about the log

  lemma SeenNext(log: seq<Event>, e: Event, bank: byte, reg: nat)
    ensures Seen(log + [e], bank, reg) ==
            if e.ReadReg? && e.bank == bank && e.reg == reg then Some(e.value)
            else if e.WroteReg? && e.bank == bank && e.reg == reg then None
            else Seen(log, bank, reg)
  {
    assert (log + [e])[..|log|] == log;
  }

  lemma SafeNext(base: seq<Event>, log: seq<Event>, e: Event)
    requires Safe(base, log)
    requires e.WroteMem? ==> SafeAt(log + [e], |log|)
    ensures Safe(base, log + [e])
  {
    var log' := log + [e];
    assert log'[..|log|] == log;
    forall i: nat | |base| <= i < |log'| && log'[i].WroteMem? ensures SafeAt(log', i) {
      if i < |log| {
        assert SafeAt(log, i) && log'[..i] == log[..i];
      }
    }
  }

  /** What a step that writes no memory does to the log: it stays safe, and registers other
      than the one addressed are seen as before. */
  ghost predicate Quietly(base: seq<Event>, log: seq<Event>, log': seq<Event>, bank: byte, reg: nat) {
    && (Safe(base, log) ==> Safe(base, log'))
    && forall b: byte, r: nat :: b != bank || r != reg ==> Seen(log', b, r) == Seen(log, b, r)
  }

  lemma QuietNext(base: seq<Event>, log: seq<Event>, log': seq<Event>, e: Event, bank: byte, reg: nat)
    requires Quietly(base, log, log', bank, reg) && !e.WroteMem?
    requires e.bank == bank && e.reg == reg
    ensures Quietly(base, log, log' + [e], bank, reg)
  {
    hide Seen, Safe;
    if Safe(base, log) {
      SafeNext(base, log', e);
    }
    forall b: byte, r: nat | b != bank || r != reg ensures Seen(log' + [e], b, r) == Seen(log, b, r) {
      SeenNext(log', e, b, r);
    }
  }

  lemma QuietStart(base: seq<Event>, log: seq<Event>, bank: byte, reg: nat)
    ensures Quietly(base, log, log, bank, reg)
  {
  }

  // ------------------------------------------------------------ bus steps

  function Masked(v: byte, mask: nat): nat
    requires mask == 255 || mask == 1
  {
    if mask == 255 then v else v % 2
  }

  function Target(v: byte, mask: nat, value: byte): byte
    requires mask == 255 || mask == 1
  {
    if mask == 255 then value else v - v % 2 + value % 2
  }

  /** What a masked write leaves in the registers. */
  function SetCells(cells: map<(byte, nat), byte>, select: byte, reg: nat, mask: nat, value: byte): map<(byte, nat), byte>
    requires mask == 255 || mask == 1
  {
    if reg == SELECT then cells
    else cells[(select, reg) := Target(if (select, reg) in cells then cells[(select, reg)] else 0, mask, value)]
  }

  lemma TargetReads(v: byte, mask: nat, value: byte)
    requires mask == 255 || mask == 1
    ensures Masked(Target(v, mask, value), mask) == Masked(value, mask)
    ensures mask == 255 ==> Target(v, mask, value) == value && forall w: byte :: Masked(w, 255) == w
  {
  }

  /** rxset: masked write with read-back.  The masks in use are a whole byte and bit 0. */
  method Set(chip: Splitter, reg: nat, mask: nat, value: byte, ghost base: seq<Event>)
    returns (ret: Option<Error>)
    requires mask == 255 || mask == 1
    modifies chip`log, chip`select, chip`cells
    ensures chip.Reliable() ==> ret.None? && chip.cells == SetCells(old(chip.cells), old(chip.select), reg, mask, value)
    ensures reg != SELECT ==> chip.select == old(chip.select)
    ensures reg == SELECT && mask == 255 && ret.None? ==> chip.select == value
    ensures Quietly(base, old(chip.log), chip.log, old(chip.BankFor(reg)), reg)
    ensures ret.None? ==>
              var seen := Seen(chip.log, old(chip.BankFor(reg)), reg);
              seen.Some? && Masked(seen.value, mask) == Masked(value, mask)
    ensures ret.Some? ==> ret == Some(EBUS) || ret == Some(EIO)
  {
    hide Seen, Safe, Quietly, Masked, Target;
    ghost var bank := chip.BankFor(reg);
    QuietStart(base, chip.log, bank, reg);
    var ok, v := chip.Read(reg);
    if !ok {
      return Some(EBUS);
    }
    QuietNext(base, old(chip.log), old(chip.log), ReadReg(bank, reg, v), bank, reg);
    ghost var log := chip.log;
    var target := Target(v, mask, value);
    TargetReads(v, mask, value);
    var started;
    ok, started := chip.Write(reg, target);
    if started {
      QuietNext(base, old(chip.log), log, WroteReg(bank, reg), bank, reg);
    }
    if !ok {
      return Some(EBUS);
    }
    log := chip.log;
    ok, v := chip.Read(reg);
    if !ok {
      return Some(EBUS);
    }
    assert chip.BankFor(reg) == bank;
    QuietNext(base, old(chip.log), log, ReadReg(bank, reg, v), bank, reg);
    SeenNext(log, ReadReg(bank, reg, v), bank, reg);
    if Masked(v, mask) != Masked(target, mask) {
      return Some(EIO);
    }
    return None;
  }

  datatype Control = Control(reg: nat, mask: nat, value: byte)

  const LOWER := [Control(SELECT, 255, 3), Control(HPD, 255, 0x4a), Control(HPD, 255, 0),
                  Control(0xac, 255, 0), Control(SELECT, 255, 0), Control(0x26, 255, 255),
                  Control(0x55, 255, 0), Control(0x34, 1, 0), Control(DDC, 1, 1)]

  const RAISE := [Control(SELECT, 255, 3), Control(HPD, 255, 0xca), Control(SELECT, 255, 0),
                  Control(0x26, 255, 0), Control(0x55, 255, 255)]

  /** The DDC registers for an EDID: its two checksum bytes, then the slave enabled. */
  function Serve(edid: seq<byte>): (s: seq<Control>)
    requires |edid| == 256
    ensures |s| == 7
  {
    [Control(0xc6, 255, 0), Control(0xc7, 255, 0), Control(0xc8, 255, 255),
     Control(0xc9, 255, edid[127]), Control(0xca, 255, edid[255]), Control(DDC, 1, 0), Control(0x34, 1, 1)]
  }

  /** The bank selected after the first n controls of a table. */
  function SelectAfter(select: byte, table: seq<Control>, n: nat): byte
    requires n <= |table|
  {
    if n == 0 then select
    else if table[n - 1].reg == SELECT then table[n - 1].value else SelectAfter(select, table, n - 1)
  }

  function BankAt(select: byte, table: seq<Control>, i: nat): byte
    requires i < |table|
  {
    if table[i].reg == SELECT then 0 else SelectAfter(select, table, i)
  }

  /** What a completed table leaves to be seen in a register: the last control that set it. */
  ghost predicate SetTo(log: seq<Event>, table: seq<Control>, n: nat, select: byte) {
    forall i: nat :: i < n <= |table| && (table[i].mask == 255 || table[i].mask == 1)
                     && (forall j: nat :: i < j < n ==>
                           BankAt(select, table, j) != BankAt(select, table, i) || table[j].reg != table[i].reg) ==>
      var seen := Seen(log, BankAt(select, table, i), table[i].reg);
      seen.Some? && Masked(seen.value, table[i].mask) == Masked(table[i].value, table[i].mask)
  }

  ghost predicate Whole(table: seq<Control>) {
    forall i: nat :: i < |table| ==>
      (table[i].mask == 255 || table[i].mask == 1) && (table[i].reg == SELECT ==> table[i].mask == 255)
  }

  /** A register no control of the table addresses is seen as before. */
  ghost predicate Spared(log: seq<Event>, log': seq<Event>, table: seq<Control>, n: nat, select: byte) {
    forall b: byte, r: nat ::
      (forall i: nat :: i < n <= |table| ==> BankAt(select, table, i) != b || table[i].reg != r) ==>
        Seen(log', b, r) == Seen(log, b, r)
  }

  /** A control took effect: its register is seen as set, all others as before. */
  ghost predicate Took(log: seq<Event>, log': seq<Event>, table: seq<Control>, n: nat, select: byte)
    requires Whole(table) && n < |table|
  {
    var c, bank := table[n], BankAt(select, table, n);
    && (forall b: byte, r: nat :: b != bank || r != c.reg ==> Seen(log', b, r) == Seen(log, b, r))
    && Seen(log', bank, c.reg).Some?
    && Masked(Seen(log', bank, c.reg).value, c.mask) == Masked(c.value, c.mask)
  }

  lemma SetToNext(log: seq<Event>, log': seq<Event>, table: seq<Control>, n: nat, select: byte)
    requires Whole(table) && n < |table| && SetTo(log, table, n, select) && Took(log, log', table, n, select)
    ensures SetTo(log', table, n + 1, select)
  {
    hide Seen, Masked, BankAt;
    forall i: nat | i < n + 1
                    && (forall j: nat :: i < j < n + 1 ==>
                          BankAt(select, table, j) != BankAt(select, table, i) || table[j].reg != table[i].reg)
      ensures var seen := Seen(log', BankAt(select, table, i), table[i].reg);
        seen.Some? && Masked(seen.value, table[i].mask) == Masked(table[i].value, table[i].mask)
    {
      if i < n {
        assert BankAt(select, table, n) != BankAt(select, table, i) || table[n].reg != table[i].reg;
      }
    }
  }

  lemma SparedNext(log: seq<Event>, log': seq<Event>, log'': seq<Event>, table: seq<Control>, n: nat, select: byte)
    requires Whole(table) && n < |table| && Spared(log, log', table, n, select)
    requires Took(log', log'', table, n, select)
    ensures Spared(log, log'', table, n + 1, select)
  {
    hide Seen, Masked, BankAt;
  }

  /** A table touches no bit of the DDC register but bit 0. */
  ghost predicate Gentle(table: seq<Control>) {
    forall i: nat :: i < |table| && table[i].reg == DDC ==> table[i].mask == 1
  }

  /** Bit 0 of the DDC register is as the control set it. */
  predicate DdcSet(cells: map<(byte, nat), byte>, value: byte) {
    (0, DDC) in cells && cells[(0, DDC)] as nat % 2 == value as nat % 2
  }

  /** Bit 0 alone decides nothing about presence; a masked write touches only bit 0. */
  lemma TargetDdc(v: byte, mask: nat, value: byte)
    requires mask == 255 || mask == 1
    ensures Target(v, mask, value) as nat % 2 == value as nat % 2
    ensures mask == 1 && v as nat % 4 >= 2 && v as nat / 16 % 2 == 0 ==>
              Target(v, mask, value) as nat % 4 >= 2 && Target(v, mask, value) as nat / 16 % 2 == 0
  {
    var t := Target(v, mask, value) as nat;
    if mask == 1 {
      assert t == 2 * (v as nat / 2) + value as nat % 2;
      HalfDecides(t, v as nat);
    }
  }

  lemma HalfDecides(t: nat, v: nat)
    requires t / 2 == v / 2
    ensures (t % 4 >= 2 <==> v % 4 >= 2) && t / 16 == v / 16
  {
    assert t / 16 == t / 2 / 8 && v / 16 == v / 2 / 8;
  }

  lemma ControlKeepsDdc(cells: map<(byte, nat), byte>, select: byte, c: Control)
    requires c.mask == 255 || c.mask == 1
    ensures var cells' := SetCells(cells, select, c.reg, c.mask, c.value);
      && (DdcPresent(cells) && (c.reg == DDC ==> c.mask == 1) ==> DdcPresent(cells'))
      && (c.reg == DDC && select == 0 ==> DdcSet(cells', c.value))
  {
    hide Target;
    TargetDdc(if (select, c.reg) in cells then cells[(select, c.reg)] else 0, c.mask, c.value);
  }

  /** Runs a table of controls until one fails. */
  method RunControls(chip: Splitter, table: seq<Control>, ghost base: seq<Event>) returns (ret: Option<Error>)
    requires Whole(table)
    modifies chip`log, chip`select, chip`cells
    ensures chip.Reliable() ==>
              && ret.None?
              && (DdcPresent(old(chip.cells)) && Gentle(table) ==> DdcPresent(chip.cells))
              && (|table| > 0 && table[|table| - 1].reg == DDC && BankAt(old(chip.select), table, |table| - 1) == 0 ==>
                    DdcSet(chip.cells, table[|table| - 1].value))
    ensures Safe(base, old(chip.log)) ==> Safe(base, chip.log)
    ensures ret.None? ==>
              && chip.select == SelectAfter(old(chip.select), table, |table|)
              && SetTo(chip.log, table, |table|, old(chip.select))
              && Spared(old(chip.log), chip.log, table, |table|, old(chip.select))
    ensures ret.Some? ==> ret == Some(EBUS) || ret == Some(EIO)
  {
    hide Seen, Safe, Masked, SetTo, Spared, DdcPresent, DdcSet, SetCells;
    var n := 0;
    ghost var select, first := chip.select, chip.log;
    NoControls(first, table, select);
    while n < |table|
      invariant n <= |table|
      invariant Safe(base, first) ==> Safe(base, chip.log)
      invariant chip.select == SelectAfter(select, table, n)
      invariant SetTo(chip.log, table, n, select) && Spared(first, chip.log, table, n, select)
      invariant chip.Reliable() && DdcPresent(old(chip.cells)) && Gentle(table) ==> DdcPresent(chip.cells)
      invariant chip.Reliable() && n > 0 && table[n - 1].reg == DDC && BankAt(select, table, n - 1) == 0 ==>
                  DdcSet(chip.cells, table[n - 1].value)
    {
      ghost var log := chip.log;
      ControlKeepsDdc(chip.cells, chip.select, table[n]);
      ret := Set(chip, table[n].reg, table[n].mask, table[n].value, base);
      if ret.Some? {
        return;
      }
      SetToNext(log, chip.log, table, n, select);
      SparedNext(first, log, chip.log, table, n, select);
      n := n + 1;
    }
    return None;
  }

  lemma NoControls(log: seq<Event>, table: seq<Control>, select: byte)
    ensures SetTo(log, table, 0, select) && Spared(log, log, table, 0, select)
  {
  }

  /** No later control of the table addresses the register. */
  ghost predicate Last(table: seq<Control>, i: nat)
    requires i < |table|
  {
    forall j: nat :: i < j < |table| ==> table[j].reg != table[i].reg
  }

  /** A register that a completed table set last by control i is seen so. */
  lemma SetAt(log: seq<Event>, table: seq<Control>, select: byte, i: nat)
    requires i < |table| && SetTo(log, table, |table|, select) && Last(table, i)
    requires table[i].mask == 255 || table[i].mask == 1
    ensures var seen := Seen(log, BankAt(select, table, i), table[i].reg);
      && seen.Some? && (table[i].mask == 255 ==> seen == Some(table[i].value))
      && (table[i].mask == 1 ==> seen.value % 2 == table[i].value % 2)
  {
    hide Seen, BankAt;
    TargetReads(table[i].value, 255, table[i].value);
  }

  lemma LowerBanks(select: byte)
    ensures |LOWER| == 9 && Whole(LOWER) && SelectAfter(select, LOWER, 9) == 0
    ensures Gentle(LOWER) && LOWER[8] == Control(DDC, 1, 1)
    ensures forall i: nat :: 1 <= i < 4 ==> BankAt(select, LOWER, i) == 3
    ensures forall i: nat :: 4 <= i < 9 ==> BankAt(select, LOWER, i) == 0
  {
    assert SelectAfter(select, LOWER, 1) == SelectAfter(select, LOWER, 2) == SelectAfter(select, LOWER, 3) == 3;
    assert SelectAfter(select, LOWER, 4) == 3;
    assert SelectAfter(select, LOWER, 5) == SelectAfter(select, LOWER, 6) == SelectAfter(select, LOWER, 7) == 0;
    assert SelectAfter(select, LOWER, 8) == 0;
  }

  /** After the first table hot-plug detect is seen low, in bank 0. */
  lemma LowerSays(log: seq<Event>, select: byte)
    requires SetTo(log, LOWER, |LOWER|, select)
    ensures Lowered(log) && SelectAfter(select, LOWER, |LOWER|) == 0
  {
    hide Seen, SetTo, BankAt, SelectAfter;
    LowerBanks(select);
    assert LOWER[2] == Control(0xab, 255, 0) && LOWER[3] == Control(0xac, 255, 0) && LOWER[4] == Control(0x0f, 255, 0);
    assert LOWER[5] == Control(0x26, 255, 255) && LOWER[6] == Control(0x55, 255, 0);
    assert LOWER[7] == Control(0x34, 1, 0) && LOWER[8] == Control(0xc5, 1, 1);
    SetAt(log, LOWER, select, 2);
    SetAt(log, LOWER, select, 3);
    SetAt(log, LOWER, select, 5);
    SetAt(log, LOWER, select, 6);
    SetAt(log, LOWER, select, 7);
    SetAt(log, LOWER, select, 8);
  }

  lemma ServeBanks(edid: seq<byte>)
    requires |edid| == 256
    ensures Whole(Serve(edid)) && Gentle(Serve(edid))
    ensures forall i: nat :: i <= 7 ==> SelectAfter(0, Serve(edid), i) == 0
    ensures forall i: nat :: i < 7 ==> BankAt(0, Serve(edid), i) == 0
  {
    var t := Serve(edid);
    assert t[0].reg == 0xc6 && t[1].reg == 0xc7 && t[2].reg == 0xc8 && t[3].reg == 0xc9;
    assert t[4].reg == 0xca && t[5].reg == DDC && t[6].reg == 0x34;
    assert SelectAfter(0, t, 1) == 0;
    assert SelectAfter(0, t, 2) == 0;
    assert SelectAfter(0, t, 3) == 0;
    assert SelectAfter(0, t, 4) == 0;
    assert SelectAfter(0, t, 5) == 0;
    assert SelectAfter(0, t, 6) == 0;
    assert SelectAfter(0, t, 7) == 0;
  }

  /** The DDC slave serves the source, with the checksum bytes of this EDID. */
  ghost predicate Served(log: seq<Event>, edid: seq<byte>)
    requires |edid| == 256
  {
    && Seen(log, 0, 0xc6) == Some(0) && Seen(log, 0, 0xc7) == Some(0) && Seen(log, 0, 0xc8) == Some(255)
    && Seen(log, 0, 0xc9) == Some(edid[127]) && Seen(log, 0, 0xca) == Some(edid[255])
    && Seen(log, 0, 0xc5).Some? && Seen(log, 0, 0xc5).value % 2 == 0
    && Seen(log, 0, 0x34).Some? && Seen(log, 0, 0x34).value % 2 == 1
  }

  /** The source may see the display again: hot-plug detect is raised. */
  ghost predicate Raised(log: seq<Event>) {
    Seen(log, 3, 0xab) == Some(0xca) && Seen(log, 0, 0x26) == Some(0) && Seen(log, 0, 0x55) == Some(255)
  }

  /** The source sees no display, and the DDC slave is off. */
  ghost predicate Lowered(log: seq<Event>) {
    && Seen(log, 3, 0xab) == Some(0) && Seen(log, 3, 0xac) == Some(0) && Seen(log, 0, 0x26) == Some(255)
    && Seen(log, 0, 0x55) == Some(0) && Seen(log, 0, 0x34).Some? && Seen(log, 0, 0x34).value % 2 == 0
    && Seen(log, 0, 0xc5).Some? && Seen(log, 0, 0xc5).value % 2 == 1
  }

  lemma ServeSays(log: seq<Event>, edid: seq<byte>)
    requires |edid| == 256 && SetTo(log, Serve(edid), 7, 0)
    ensures Served(log, edid)
  {
    hide Seen, SetTo, BankAt;
    ServeBanks(edid);
    var t := Serve(edid);
    ServeIs(edid);
    SetAt(log, t, 0, 0);
    SetAt(log, t, 0, 1);
    SetAt(log, t, 0, 2);
    SetAt(log, t, 0, 3);
    SetAt(log, t, 0, 4);
    SetAt(log, t, 0, 5);
    SetAt(log, t, 0, 6);
  }

  lemma ServeIs(edid: seq<byte>)
    requires |edid| == 256
    ensures var t := Serve(edid);
      && t[0] == Control(0xc6, 255, 0) && t[1] == Control(0xc7, 255, 0) && t[2] == Control(0xc8, 255, 255)
      && t[3] == Control(0xc9, 255, edid[127]) && t[4] == Control(0xca, 255, edid[255])
      && t[5] == Control(0xc5, 1, 0) && t[6] == Control(0x34, 1, 1)
  {
  }

  lemma RaiseBanks()
    ensures |RAISE| == 5 && Whole(RAISE) && Gentle(RAISE)
    ensures forall i: nat :: 1 <= i < 3 ==> SelectAfter(0, RAISE, i) == 3
    ensures forall i: nat :: 3 <= i <= 5 ==> SelectAfter(0, RAISE, i) == 0
    ensures BankAt(0, RAISE, 0) == 0 && BankAt(0, RAISE, 1) == 3 && BankAt(0, RAISE, 2) == 0
    ensures BankAt(0, RAISE, 3) == 0 && BankAt(0, RAISE, 4) == 0
  {
    assert SelectAfter(0, RAISE, 1) == SelectAfter(0, RAISE, 2) == 3;
    assert SelectAfter(0, RAISE, 3) == SelectAfter(0, RAISE, 4) == SelectAfter(0, RAISE, 5) == 0;
  }

  /** A register that no control of the table addresses is seen as before. */
  lemma SparedAt(log: seq<Event>, log': seq<Event>, table: seq<Control>, select: byte, bank: byte, reg: nat)
    requires Spared(log, log', table, |table|, select) && forall i: nat :: i < |table| ==> table[i].reg != reg
    ensures Seen(log', bank, reg) == Seen(log, bank, reg)
  {
    hide Seen, BankAt;
  }

  /** The last table raises hot-plug detect and leaves the checksum registers alone. */
  lemma RaiseSays(log: seq<Event>, log': seq<Event>, edid: seq<byte>)
    requires |edid| == 256 && Served(log, edid)
    requires SetTo(log', RAISE, |RAISE|, 0) && Spared(log, log', RAISE, |RAISE|, 0)
    ensures Served(log', edid) && Raised(log')
  {
    hide Seen, SetTo, Spared, BankAt, SelectAfter;
    RaiseBanks();
    assert RAISE[0] == Control(0x0f, 255, 3) && RAISE[1] == Control(0xab, 255, 0xca) && RAISE[2] == Control(0x0f, 255, 0);
    assert RAISE[3] == Control(0x26, 255, 0) && RAISE[4] == Control(0x55, 255, 255);
    SetAt(log', RAISE, 0, 1);
    SetAt(log', RAISE, 0, 3);
    SetAt(log', RAISE, 0, 4);
    SparedAt(log, log', RAISE, 0, 0, 0xc5);
    SparedAt(log, log', RAISE, 0, 0, 0xc6);
    SparedAt(log, log', RAISE, 0, 0, 0xc7);
    SparedAt(log, log', RAISE, 0, 0, 0xc8);
    SparedAt(log, log', RAISE, 0, 0, 0xc9);
    SparedAt(log, log', RAISE, 0, 0, 0xca);
    SparedAt(log, log', RAISE, 0, 0, 0x34);
  }

  // ---------------------------------------------------------- the driver

  /** What the driver refuses before it touches the chip. */
  function Refusal(edid: seq<byte>): Option<Error>
    requires |edid| == 256
  {
    if edid[..8] != PassthroughEdid.HEADER then Some(EBADMSG)
    else if edid[126] != 1 then Some(EINVAL)
    else if Sum(edid[..128]) % 256 != 0 || Sum(edid[128..]) % 256 != 0 then Some(EBADMSG)
    else None
  }

  /** What is refused, in bytes: a wrong header first, then the number of extensions, then a
      block that does not sum to zero. */
  lemma RefusalIs(edid: seq<byte>)
    requires |edid| == 256
    ensures Refusal(edid) ==
            if exists i: nat :: i < 8 && edid[i] != (if 0 < i < 7 then 255 else 0) then Some(EBADMSG)
            else if edid[126] != 1 then Some(EINVAL)
            else if Sum(edid[..128]) % 256 != 0 || Sum(edid[128..]) % 256 != 0 then Some(EBADMSG)
            else None
  {
    var header := edid[..8];
    if forall i: nat :: i < 8 ==> edid[i] == if 0 < i < 7 then 255 else 0 {
      assert header == PassthroughEdid.HEADER;
    } else {
      var i: nat :| i < 8 && edid[i] != if 0 < i < 7 then 255 else 0;
      assert header[i] != PassthroughEdid.HEADER[i];
    }
  }

  /** Every output of the EDID filter passes these gates. */
  lemma FilterPassesTheGates(data: seq<byte>, scaled: bool)
    requires PassthroughEdid.Filter(data, scaled).Ok?
    ensures var edid := PassthroughEdid.Filter(data, scaled).value.data;
      |edid| == 256 && Refusal(edid).None?
  {
    hide PassthroughEdid.Filter;
    EdidSoundness.OutputIsWellFormed(data, scaled);
  }

  class Passthrough {
    const prior: array<byte>
    var priorValid: bool
    var written: nat
    var error: Option<Error>

    constructor ()
      ensures !priorValid && written == 0 && error.None? && fresh(prior) && prior.Length == 256
    {
      prior := new byte[256](_ => 0);
      priorValid, written, error := false, 0, None;
    }
  }

  /** The driver's copy of the first image, once valid, is that image with its checksums;
      until then the memory has not been written. */
  ghost predicate Known(chip: Splitter, p: Passthrough, first: seq<byte>)
    reads chip, p, p.prior
  {
    && |chip.sram| == 256 && |first| == 256 && p.prior.Length == 256
    && if p.priorValid then p.prior[..] == Resealed(first) else SameImage(chip.sram, first)
  }

  /** Reads the whole memory; keeps it as the prior image the first time. */
  method Capture(chip: Splitter, p: Passthrough, ghost first: seq<byte>) returns (ret: Option<Error>)
    requires Known(chip, p, first) && Mapped(chip.log)
    modifies p`priorValid, p.prior
    ensures Known(chip, p, first) && (ret.None? ==> p.priorValid) && (chip.Reliable() ==> ret.None?)
    ensures ret.Some? ==> ret == Some(EBUS)
    ensures old(p.priorValid) ==> p.priorValid
  {
    hide Resealed;
    var i := 0;
    while i < 256
      invariant i <= 256 && i % 4 == 0 && p.priorValid == old(p.priorValid)
      invariant p.priorValid ==> p.prior[..] == old(p.prior[..])
      invariant !p.priorValid ==> forall k: nat :: k < i && !Slot(k) ==> p.prior[k] == chip.sram[k]
    {
      var ok, data := chip.ReadFour(i);
      if !ok {
        return Some(EBUS);
      }
      if !p.priorValid {
        var j := 0;
        while j < 4
          invariant j <= 4 && p.priorValid == old(p.priorValid)
          invariant forall k: nat :: k < i + j && !Slot(k) ==> p.prior[k] == chip.sram[k]
        {
          p.prior[i + j] := data[j];
          j := j + 1;
        }
      }
      i := i + 4;
    }
    if !p.priorValid {
      var sum := SumOf(p.prior, 0, 127);
      p.prior[127] := Negate(sum);
      sum := SumOf(p.prior, 128, 255);
      p.prior[255] := Negate(sum);
      p.priorValid := true;
      assert p.prior[..127] == first[..127] && p.prior[128..255] == first[128..255];
      ResealedIs(p.prior[..], first);
    }
    return None;
  }

  lemma ResealedIs(s: seq<byte>, image: seq<byte>)
    requires |s| == 256 && |image| == 256 && s[..127] == image[..127] && s[128..255] == image[128..255]
    requires s[127] == Negate(Sum(image[..127])) && s[255] == Negate(Sum(image[128..255]))
    ensures s == Resealed(image)
  {
    assert s == s[..127] + [s[127]] + (s[128..255] + [s[255]]);
  }

  /** What programming leaves in the memory. */
  ghost predicate Written(before: seq<byte>, now: seq<byte>, edid: seq<byte>, n: nat) {
    && |before| == |now| == |edid| == 256
    && (forall i: nat :: i < n && i < 256 && !Slot(i) ==> now[i] == edid[i])
    && (forall i: nat :: n <= i < 256 ==> now[i] == before[i])
  }

  /** Writes the image behind a fresh look at the DDC slave before every byte. */
  method WriteImage(chip: Splitter, p: Passthrough, edid: seq<byte>, ghost base: seq<Event>)
    returns (ret: Option<Error>)
    requires |edid| == 256 == |chip.sram| && chip.select == 0
    requires Safe(base, chip.log) && Seen(chip.log, 3, HPD) == Some(0) && Mapped(chip.log)
    modifies chip`log, chip`sram, chip`memoryWritten, p`written
    ensures chip.Loses() && !old(chip.memoryWritten) && DdcPresent(chip.cells) && DdcSet(chip.cells, 1) ==>
              ret == Some(EBUS) && chip.sram == old(chip.sram)[0 := edid[0]] && p.written == old(p.written)
    ensures chip.Works() && DdcPresent(chip.cells) && DdcSet(chip.cells, 1) ==> ret.None?
    ensures Safe(base, chip.log) && |chip.sram| == 256 && (ret.None? ==> Mapped(chip.log))
    ensures ret.None? ==> SameImage(chip.sram, edid) && p.written > old(p.written)
    ensures ret.Some? ==> ret == Some(EBUS) || ret == Some(EIO)
    ensures p.written == old(p.written) ==>
              chip.sram == old(chip.sram) || (ret.Some? && chip.sram == old(chip.sram)[0 := edid[0]])
    ensures p.written >= old(p.written)
  {
    hide Safe, Seen;
    var i := 0;
    while i < 256
      invariant i <= 256 && |chip.sram| == 256 && chip.select == 0
      invariant Safe(base, chip.log) && Seen(chip.log, 3, HPD) == Some(0) && Mapped(chip.log)
      invariant Written(old(chip.sram), chip.sram, edid, i)
      invariant if i == 0 then p.written == old(p.written) else p.written > old(p.written)
      invariant i == 0 ==> chip.memoryWritten == old(chip.memoryWritten) && chip.sram == old(chip.sram)
      invariant chip.Loses() && !old(chip.memoryWritten) && DdcPresent(chip.cells) && DdcSet(chip.cells, 1) ==> i == 0
    {
      if !Slot(i) {
        ghost var log := chip.log;
        var ok, v := chip.Read(DDC);
        if !ok {
          return Some(EBUS);
        }
        SafeNext(base, log, ReadReg(0, DDC, v));
        SeenNext(log, ReadReg(0, DDC, v), 3, HPD);
        SeenNext(log, ReadReg(0, DDC, v), 0, MAPPING);
        if !DdcDisabled(v) {
          return Some(EIO);
        }
        log := chip.log;
        var started;
        ok, started := chip.WriteMem(i, edid[i]);
        if started {
          WriteIsSafe(base, log, i);
          SeenNext(log, WroteMem(i), 3, HPD);
          SeenNext(log, WroteMem(i), 0, MAPPING);
        }
        if !ok {
          return Some(EBUS);
        }
        p.written := p.written + 1;
      }
      i := i + 1;
    }
    return None;
  }

  lemma WriteIsSafe(base: seq<Event>, log: seq<Event>, i: nat)
    requires Safe(base, log) && Seen(log, 3, HPD) == Some(0) && Mapped(log)
    requires log != [] && log[|log| - 1].ReadReg? && log[|log| - 1].reg == DDC && DdcDisabled(log[|log| - 1].value)
    ensures Safe(base, log + [WroteMem(i)])
  {
    assert (log + [WroteMem(i)])[..|log|] == log;
    SafeNext(base, log, WroteMem(i));
  }

  /** Compares the whole memory with the image; a checksum slot may read as zero. */
  method Compare(chip: Splitter, edid: seq<byte>) returns (ret: Option<Error>)
    requires |edid| == 256 == |chip.sram| && Mapped(chip.log)
    ensures ret.Some? ==> ret == Some(EBUS) || ret == Some(EIO)
    ensures ret.None? ==> SameImage(chip.sram, edid)
    ensures chip.Reliable() && SameImage(chip.sram, edid) ==> ret.None?
  {
    var i := 0;
    while i < 256
      invariant i <= 256 && i % 4 == 0
      invariant forall k: nat :: k < i && !Slot(k) ==> chip.sram[k] == edid[k]
    {
      var ok, data := chip.ReadFour(i);
      if !ok {
        return Some(EBUS);
      }
      var j := 0;
      while j < 4
        invariant j <= 4
        invariant forall k: nat :: k < i + j && !Slot(k) ==> chip.sram[k] == edid[k]
      {
        if Slot(i + j) {
          if data[j] != 0 && data[j] != edid[i + j] {
            return Some(EIO);
          }
        } else if data[j] != edid[i + j] {
          return Some(EIO);
        }
        j := j + 1;
      }
      i := i + 4;
    }
    return None;
  }

  /** What one call of the programming sequence promises. */
  twostate predicate Programmed(chip: Splitter, p: Passthrough, edid: seq<byte>, new ret: Option<Error>)
    requires |edid| == 256
    reads chip, p
  {
    && Safe(old(chip.log), chip.log)
    && p.written >= old(p.written) && (p.written > old(p.written) ==> p.priorValid)
    && (old(p.priorValid) ==> p.priorValid)
    && (ret.None? ==>
          && SameImage(chip.sram, edid) && Served(chip.log, edid) && Raised(chip.log)
          && p.priorValid && p.written > old(p.written))
    && (p.written == old(p.written) ==>
          || chip.sram == old(chip.sram)
          || (ret.Some? && edid[0] == 0 && |old(chip.sram)| == 256 && chip.sram == old(chip.sram)[0 := 0]))
    && (chip.Loses() && !old(chip.memoryWritten) && DdcPresent(old(chip.cells)) && Refusal(edid).None? ==>
          && ret == Some(EBUS) && p.priorValid && p.written == old(p.written)
          && edid[0] == 0 && |old(chip.sram)| == 256 && chip.sram == old(chip.sram)[0 := 0])
    && (chip.Works() && DdcPresent(old(chip.cells)) && Refusal(edid).None? ==> ret.None? && DdcPresent(chip.cells))
    && (Refusal(edid).Some? ==> ret == Refusal(edid) && chip.log == old(chip.log) && chip.sram == old(chip.sram))
  }

  /** gc573_passthrough_program_edid. */
  method Program(chip: Splitter, p: Passthrough, edid: seq<byte>, ghost first: seq<byte>)
    returns (ret: Option<Error>)
    requires |edid| == 256 && Known(chip, p, first)
    modifies chip, p`priorValid, p`written, p.prior
    ensures Known(chip, p, first) && Programmed(chip, p, edid, ret)
  {
    hide Safe, Seen, Served, Resealed, SetTo, Spared, Whole, SelectAfter, Quietly, SameImage, DdcPresent, DdcSet,
         Gentle, Refusal;
    ghost var base := chip.log;
    StartsWithZero(edid);
    SafeStart(base);
    ret := Refusal(edid);
    if ret.Some? {
      return;
    }
    LowerBanks(chip.select);
    ghost var select := chip.select;
    ret := RunControls(chip, LOWER, base);
    if ret.Some? {
      return;
    }
    LowerSays(chip.log, select);
    ret := MapMemory(chip, base);
    if ret.Some? {
      return;
    }
    ret := Capture(chip, p, first);
    if ret.Some? {
      return;
    }
    ret := WriteImage(chip, p, edid, base);
    if ret.Some? {
      return;
    }
    ret := Compare(chip, edid);
    if ret.Some? {
      return;
    }
    ServeBanks(edid);
    ret := RunControls(chip, Serve(edid), base);
    if ret.Some? {
      return;
    }
    ServeSays(chip.log, edid);
    RaiseBanks();
    ghost var log := chip.log;
    ret := RunControls(chip, RAISE, base);
    if ret.None? {
      RaiseSays(log, chip.log, edid);
    }
  }

  lemma StartsWithZero(edid: seq<byte>)
    requires |edid| == 256
    ensures Refusal(edid).None? ==> edid[0] == 0
  {
    if edid[..8] == PassthroughEdid.HEADER {
      assert edid[0] == edid[..8][0];
    }
  }

  lemma SafeStart(log: seq<Event>)
    ensures Safe(log, log)
  {
  }

  /** Maps the memory onto the bus and looks at the DDC slave. */
  method MapMemory(chip: Splitter, ghost base: seq<Event>) returns (ret: Option<Error>)
    requires chip.select == 0 && Safe(base, chip.log) && Seen(chip.log, 3, HPD) == Some(0)
    modifies chip`log, chip`select, chip`cells
    ensures chip.Reliable() && DdcPresent(old(chip.cells)) && DdcSet(old(chip.cells), 1) ==>
              ret.None? && DdcPresent(chip.cells) && DdcSet(chip.cells, 1)
    ensures Safe(base, chip.log) && Seen(chip.log, 3, HPD) == Some(0)
    ensures chip.select == 0 && (ret.None? ==> Mapped(chip.log))
    ensures ret.Some? ==> ret == Some(EBUS) || ret == Some(EIO) || ret == Some(EOPNOTSUPP)
  {
    hide Safe, Seen;
    ghost var log := chip.log;
    var ok, v := chip.Read(MAPPING);
    if !ok {
      return Some(EBUS);
    }
    Other(base, log, ReadReg(0, MAPPING, v));
    log := chip.log;
    var started;
    ok, started := chip.Write(MAPPING, MAPPED);
    if started {
      Other(base, log, WroteReg(0, MAPPING));
    }
    if !ok {
      return Some(EBUS);
    }
    log := chip.log;
    ok, v := chip.Read(MAPPING);
    if !ok {
      return Some(EBUS);
    }
    Other(base, log, ReadReg(0, MAPPING, v));
    SeenNext(log, ReadReg(0, MAPPING, v), 0, MAPPING);
    if v != MAPPED {
      return Some(EIO);
    }
    log := chip.log;
    ok, v := chip.Read(DDC);
    if !ok {
      return Some(EBUS);
    }
    Other(base, log, ReadReg(0, DDC, v));
    SeenNext(log, ReadReg(0, DDC, v), 0, MAPPING);
    return if DdcDisabled(v) then None else Some(EOPNOTSUPP);
  }

  lemma Other(base: seq<Event>, log: seq<Event>, e: Event)
    requires Safe(base, log) && !e.WroteMem? && e.bank == 0
    ensures Safe(base, log + [e]) && Seen(log + [e], 3, HPD) == Seen(log, 3, HPD)
  {
    SafeNext(base, log, e);
    SeenNext(log, e, 3, HPD);
  }

  // ------------------------------------------------- any number of programs

  /** What every run of programming keeps.  Before the first completed byte write the memory
      still holds the first image, unless that very write failed and landed: then its first
      byte is 0, and the failure is latched. */
  ghost predicate History(chip: Splitter, p: Passthrough, first: seq<byte>)
    reads chip, p, p.prior
  {
    && Known(chip, p, first)
    && (p.written == 0 ==> SameImage(chip.sram, first) || (p.error.Some? && SameOrZeroed(chip.sram, first)))
    && (p.written > 0 ==> p.priorValid)
  }

  lemma HistoryStarts(chip: Splitter, p: Passthrough)
    requires |chip.sram| == 256 == p.prior.Length && !p.priorValid && p.written == 0
    ensures History(chip, p, chip.sram)
  {
  }

  lemma ZeroedFirst(before: seq<byte>, first: seq<byte>)
    requires SameImage(before, first)
    ensures |before| == 256 && SameOrZeroed(before[0 := 0], first) && SameOrZeroed(before, first)
  {
  }

  /** The programming phase of gc573_passthrough_poll: an error is latched and ends it. */
  method Advertise(chip: Splitter, p: Passthrough, edid: seq<byte>, ghost first: seq<byte>)
    returns (ret: Option<Error>)
    requires |edid| == 256 && History(chip, p, first)
    modifies chip, p, p.prior
    ensures History(chip, p, first) && Safe(old(chip.log), chip.log)
    ensures ret.None? ==> old(p.error).None? && SameImage(chip.sram, edid) && Served(chip.log, edid)
    ensures chip.Works() && old(p.error.None? && DdcPresent(chip.cells)) && Refusal(edid).None? ==>
              ret.None? && p.error.None? && DdcPresent(chip.cells) && p.written > 0
    ensures chip.Loses() && old(p.error.None? && !chip.memoryWritten && DdcPresent(chip.cells))
            && Refusal(edid).None? ==>
              ret == p.error == Some(EBUS) && p.priorValid && p.written == old(p.written)
              && |old(chip.sram)| == 256 && chip.sram == old(chip.sram)[0 := 0]
  {
    hide Safe, Seen, Served, Resealed, SameImage, SameOrZeroed, Refusal, DdcPresent;
    SafeStart(chip.log);
    if p.error.Some? {
      return p.error;
    }
    if p.written == 0 {
      ZeroedFirst(chip.sram, first);
    }
    ret := Program(chip, p, edid, first);
    if ret.Some? {
      p.error := ret;
    }
  }

  /** gc573_passthrough_restore, up to the transmitter clean-up that follows it: a success
      means the memory shows the first image again, with checksum bytes that fit it, except
      that a first byte write that failed is not replayed.  The byte it may have left is 0,
      so an image that starts with 0 is always back. */
  method Restore(chip: Splitter, p: Passthrough, ghost first: seq<byte>) returns (ret: Option<Error>)
    requires History(chip, p, first)
    modifies chip, p`priorValid, p`written, p.prior
    ensures History(chip, p, first) && Safe(old(chip.log), chip.log)
    ensures ret.None? ==> SameOrZeroed(chip.sram, first)
    ensures ret.None? && (p.written > 0 || p.error.None? || first[0] == 0) ==> SameImage(chip.sram, first)
    ensures ret.None? && old(p.written) > 0 ==>
              Served(chip.log, Resealed(first)) && Raised(chip.log)
    ensures chip.Works() && old(p.written) > 0 && old(p.error).None? && DdcPresent(old(chip.cells))
            && Refusal(Resealed(first)).None? ==>
              ret.None?
    ensures old(p.written) == 0 ==>
              && ret.None? && chip.log == old(chip.log) && chip.sram == old(chip.sram)
              && p.written == 0 && p.priorValid == old(p.priorValid)
    ensures old(p.written) > 0 && old(p.priorValid) && old(p.error).None? && Refusal(Resealed(first)).Some? ==>
              ret == Refusal(Resealed(first)) && chip.sram == old(chip.sram)
  {
    hide Safe, Seen, Served, Resealed, SameImage, SameOrZeroed, Refusal, DdcPresent;
    SafeStart(chip.log);
    ZeroedIsSame(chip.sram, first);
    if !p.priorValid || p.written == 0 {
      return None;
    }
    var settled: bool := *;
    if p.error.Some? && !settled {
      return p.error;
    }
    ret := Program(chip, p, p.prior[..], first);
    ResealedImage(first);
    if ret.None? {
      SameImageTransitive(chip.sram, Resealed(first), first);
      ZeroedIsSame(chip.sram, first);
    }
  }

  lemma ZeroedIsSame(s: seq<byte>, first: seq<byte>)
    ensures SameImage(s, first) ==> SameOrZeroed(s, first)
    ensures SameOrZeroed(s, first) && first[0] == 0 ==> SameImage(s, first)
  {
    if |first| == 256 && first[0] == 0 {
      assert first[0 := 0] == first;
    }
  }

  /** What a successful restore may show is the first image, for every such run, exactly
      when that image starts with 0. */
  lemma RestoreIsExact(first: seq<byte>)
    requires |first| == 256
    ensures (forall s: seq<byte> :: SameOrZeroed(s, first) ==> SameImage(s, first)) <==> first[0] == 0
  {
    if first[0] == 0 {
      forall s: seq<byte> | SameOrZeroed(s, first) ensures SameImage(s, first) {
        ZeroedIsSame(s, first);
      }
    } else {
      assert SameOrZeroed(first[0 := 0], first) && !SameImage(first[0 := 0], first);
    }
  }

  lemma ResealedImage(first: seq<byte>)
    requires |first| == 256
    ensures SameImage(Resealed(first), first)
  {
    ResealedIsSame(first);
  }

  lemma SameImageTransitive(s: seq<byte>, t: seq<byte>, u: seq<byte>)
    requires SameImage(s, t) && SameImage(t, u)
    ensures SameImage(s, u)
  {
  }

  /** Whether the first image can be put back depends on its header and extension count
      only; its checksums never stand in the way. */
  lemma RestoreRefuses(first: seq<byte>)
    requires |first| == 256
    ensures Refusal(Resealed(first)).Some? <==> first[..8] != PassthroughEdid.HEADER || first[126] != 1
  {
    ResealedIsSame(first);
    var s := Resealed(first);
    assert s[..8] == first[..8] by {
      assert forall i: nat :: i < 8 ==> s[i] == first[i];
    }
    assert s[126] == first[126];
  }

  /** An image that can be programmed. */
  function PlainImage(): (s: seq<byte>)
    ensures |s| == 256 && Refusal(s).None?
  {
    var image := PassthroughEdid.HEADER + Zeros(118) + [1, 0] + Zeros(128);
    assert image[..8] == PassthroughEdid.HEADER;
    RestoreRefuses(image);
    Resealed(image)
  }

  /** On a splitter that works, an EDID that is not refused is shown, and the first image is
      put back behind it, exactly when its header and its extension count are right. */
  method RoundTrip(first: seq<byte>, edid: seq<byte>)
    returns (chip: Splitter, shown: seq<byte>, restored: Option<Error>)
    requires |first| == 256 == |edid| && Refusal(edid).None?
    ensures SameImage(shown, edid)
    ensures restored.None? <==> first[..8] == [0, 255, 255, 255, 255, 255, 255, 0] && first[126] == 1
    ensures SameImage(chip.sram, if restored.None? then first else edid)
  {
    hide Refusal, DdcPresent, Safe, Served, SameImage, Resealed, SameOrZeroed;
    chip := new Splitter(first, Works);
    var p := new Passthrough();
    FirstIsItself(first);
    HistoryStarts(chip, p);
    var advertised := Advertise(chip, p, edid, first);
    assert advertised.None?;
    shown := chip.sram;
    RestoreRefuses(first);
    restored := Restore(chip, p, first);
  }

  lemma FirstIsItself(first: seq<byte>)
    requires |first| == 256
    ensures SameImage(first, first)
  {
  }

  /** The run: the very first byte write of the first program fails and lands, and the
      restore then reports success without touching the chip. */
  method LoseFirstByte(first: seq<byte>)
    returns (chip: Splitter, p: Passthrough, restored: Option<Error>)
    requires |first| == 256
    ensures restored.None? && chip.sram == first[0 := 0] && p.written == 0 && p.priorValid && p.error.Some?
    ensures SameImage(chip.sram, first) <==> first[0] == 0
  {
    hide Refusal, DdcPresent, Safe, Served;
    var edid := PlainImage();
    chip := new Splitter(first, LosesFirstWrite);
    p := new Passthrough();
    HistoryStarts(chip, p);
    var advertised := Advertise(chip, p, edid, first);
    restored := Restore(chip, p, first);
    assert advertised == Some(EBUS);
    if first[0] == 0 {
      assert first[0 := 0] == first;
    }
  }
}
