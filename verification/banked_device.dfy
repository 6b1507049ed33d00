/** A chip with banked byte registers behind a bus that may fail at any transaction.

    Register 0x0f is the same in every bank; its low three bits select the bank.  Some
    registers are volatile: counters, status and self-clearing bits.  Nothing is promised
    about what they hold; every other register keeps what was last written to it.
 */
module BankedDevice {

  import opened Bytes

  const SELECT := 0x0f

  datatype Regs = Regs(select: bv8, cells: map<(bv8, nat), bv8>)

  function Cell(s: Regs, bank: bv8, reg: nat): bv8 {
    if (bank, reg) in s.cells then s.cells[(bank, reg)] else 0
  }

  function BankOf(s: Regs): bv8 {
    s.select & 7
  }

  function Get(s: Regs, reg: nat): bv8 {
    if reg == SELECT then s.select else Cell(s, BankOf(s), reg)
  }

  function Put(s: Regs, reg: nat, value: bv8): Regs {
    if reg == SELECT then s.(select := value) else s.(cells := s.cells[(BankOf(s), reg) := value])
  }

  /** A masked write keeps the bits outside its mask. */
  function Merge(was: bv8, mask: bv8, value: bv8): bv8 {
    (was & !mask) | (value & mask)
  }

  /** The same bank, and the same contents outside the volatile registers. */
  ghost predicate Agree(s: Regs, t: Regs, loose: set<(bv8, nat)>) {
    && s.select == t.select
    && forall bank: bv8, reg: nat :: (bank, reg) !in loose ==> Cell(s, bank, reg) == Cell(t, bank, reg)
  }

  lemma PutAgrees(s: Regs, t: Regs, reg: nat, v: bv8, w: bv8, loose: set<(bv8, nat)>)
    requires Agree(s, t, loose)
    requires reg == SELECT || (BankOf(s), reg) !in loose ==> v == w
    ensures Agree(Put(s, reg, v), Put(t, reg, w), loose)
  {
    var s', t' := Put(s, reg, v), Put(t, reg, w);
    forall bank: bv8, r: nat | (bank, r) !in loose ensures Cell(s', bank, r) == Cell(t', bank, r) {
      assert Cell(s, bank, r) == Cell(t, bank, r);
    }
  }

  /** One write that was started: where it went, what the driver had just read there if
      that was its latest read, and the value. */
  datatype Write = Write(bank: bv8, reg: nat, was: Option<bv8>, value: bv8)

  class Chip {
    var regs: Regs
    var log: seq<Write>
    var seen: Option<(nat, bv8)>
    ghost var answers: seq<(nat, bv8)>     // every register read that returned a value
    ghost var faults: nat                  // the transactions that failed
    ghost var expiries: nat                // the looks at the clock that came too late
    const loose: set<(bv8, nat)>

    constructor (regs: Regs, loose: set<(bv8, nat)>)
      ensures this.regs == regs && this.loose == loose && log == []
    {
      this.regs, this.loose, log, seen, answers, faults, expiries := regs, loose, [], None, [], 0, 0;
    }

    /** A look at the clock. */
    method Expired() returns (late: bool)
      modifies this`expiries
      ensures expiries == old(expiries) + if late then 1 else 0
    {
      late := *;
      if late {
        expiries := expiries + 1;
      }
    }

    /** A register read; a failing bus returns no value. */
    method Read(reg: nat) returns (ok: bool, value: bv8)
      modifies this`seen, this`answers, this`faults
      ensures faults == old(faults) + if ok then 0 else 1
      ensures ok ==> seen == Some((reg, value)) && answers == old(answers) + [(reg, value)]
      ensures !ok ==> answers == old(answers)
      ensures ok && (reg == SELECT || (BankOf(regs), reg) !in loose) ==> value == Get(regs, reg)
    {
      ok := *;
      value := Get(regs, reg);
      if reg != SELECT && (BankOf(regs), reg) in loose {
        value := *;
      }
      if ok {
        seen := Some((reg, value));
        answers := answers + [(reg, value)];
      } else {
        faults := faults + 1;
      }
    }

    function Was(reg: nat): Option<bv8>
      reads this`seen
    {
      if seen.Some? && seen.value.0 == reg then Some(seen.value.1) else None
    }

    /** A register write.  A write that was started but did not succeed may have landed. */
    method Store(reg: nat, value: bv8) returns (ok: bool, started: bool)
      modifies this`regs, this`log, this`faults
      ensures faults == old(faults) + if ok then 0 else 1
      ensures ok ==> started && regs == Put(old(regs), reg, value)
      ensures !ok ==> regs == old(regs) || regs == Put(old(regs), reg, value)
      ensures started ==> log == old(log) + [Write(BankOf(old(regs)), reg, Was(reg), value)]
      ensures !started ==> regs == old(regs) && log == old(log)
    {
      ok, started := *, *;
      if ok {
        started := true;
      } else {
        faults := faults + 1;
      }
      if started {
        log := log + [Write(BankOf(regs), reg, Was(reg), value)];
        var landed: bool := *;
        if ok || landed {
          regs := Put(regs, reg, value);
        }
      }
    }
  }
}
