/** Reading the display's EDID over the transmitter's DDC engine (driver/gc573_sink.c).

    The three engine controls keep what is written to them.  After a start command, a done
    bit without an error bit means the FIFO holds the requested bytes of the display.  The
    display's memory is `display`, the same throughout one read.
 */
module SinkRead {

  import opened Bytes
  import opened PassthroughEdid

  const MAX_BYTES := 512
  const CHUNK := 32

  datatype Failure = EBUS | EIO | ENOLINK | ETIMEDOUT | EBADMSG | E2BIG | EINVAL

  const CONTROLS: seq<nat> := [0x28, 0x19, 0x1d]
  const MASKS: seq<nat> := [1, 4, 8]

  predicate IsControl(reg: nat) {
    reg == 0x28 || reg == 0x19 || reg == 0x1d
  }

  function WithBit(v: byte, mask: nat): byte
    requires mask == 1 || mask == 4 || mask == 8
  {
    if v / mask % 2 == 1 then v else v + mask
  }

  predicate DdcError(status: byte) {
    status / 8 % 8 != 0
  }

  predicate DdcDone(status: byte) {
    status >= 128
  }

  /** The engine's status says that the transfer was made: bit 7, and none of bits 3 to 5. */
  predicate Served(status: byte) {
    status >= 128 && status / 8 % 8 == 0
  }

  /** Bytes of the display's memory. */
  function Piece(display: nat -> byte, from: nat, n: nat): (s: seq<byte>)
    ensures |s| == n
  {
    seq<byte>(n, (i: nat) => display(from + i))
  }

  /** One single-byte transfer that the engine was told to make on the display: the device
      address, its register, the byte count, the direction, and the byte written. */
  datatype Access = Access(device: byte, reg: byte, count: byte, write: bool, value: byte)

  const SCDC: byte := 0xa8

  /** The transmitter port: its controls, the DDC request registers, and the FIFO.
      `accesses` are the single transfers started so far, `answered` what the last one
      read from the display. */
  class Port {
    const display: nat -> byte
    var controls: map<nat, byte>
    var request: map<nat, byte>
    var started: bool
    var reading: bool
    var fifo: seq<byte>
    var accesses: seq<Access>
    var answered: Option<byte>
    ghost var answers: seq<(nat, byte)>    // every register read that returned a value
    ghost var faults: nat                  // the register transfers that failed

    constructor (display: nat -> byte, controls: map<nat, byte>)
      requires controls.Keys == {0x28, 0x19, 0x1d}
      ensures this.display == display && this.controls == controls && Valid()
    {
      this.display, this.controls := display, controls;
      request, started, reading, fifo, accesses, answered := map[], false, false, [], [], None;
      answers, faults := [], 0;
    }

    ghost predicate Valid()
      reads this`controls
    {
      controls.Keys == {0x28, 0x19, 0x1d}
    }

    /** The controls that let the driver use the DDC engine for the display's EDID. */
    ghost predicate EngineOn()
      requires Valid()
      reads this`controls
    {
      controls[0x28] % 2 == 1 && controls[0x19] / 4 % 2 == 1 && controls[0x1d] / 8 % 2 == 1
    }

    function Asked(reg: nat): byte
      reads this`request
    {
      if reg in request then request[reg] else 0
    }

    /** The bytes a request asks for: offset 0x2a of segment 0x2d, 0x2b of them. */
    function Reply(): seq<byte>
      reads this`request
    {
      Piece(display, Asked(0x2d) as int * 256 + Asked(0x2a) as int, Asked(0x2b))
    }

    /** The single transfer that a start command makes of the request registers. */
    function Single(command: byte): Access
      reads this`request
    {
      Access(Asked(0x29), Asked(0x2a), Asked(0x2b), command == 1, if command == 1 then Asked(0x30) else 0)
    }

    method Read(reg: nat) returns (ok: bool, v: byte)
      requires Valid()
      modifies this`fifo, this`started, this`reading, this`answered, this`answers, this`faults
      ensures answers == (if ok then old(answers) + [(reg, v)] else old(answers)) && faults == old(faults) + if ok then 0 else 1
      ensures ok && IsControl(reg) ==> v == controls[reg]
      ensures reg != 0x2f && reg != 0x30 ==> fifo == old(fifo) && started == old(started)
      ensures ok && reg == 0x2f && EngineOn() && old(started) && Served(v) ==> fifo == Reply()
      ensures reg == 0x2f && !(ok && old(started) && Served(v)) ==> started == old(started)
      ensures reg != 0x2f ==> reading == old(reading) && answered == old(answered)
      ensures reg == 0x2f && !(ok && Served(v)) ==> reading == old(reading)
      ensures ok && reg == 0x2f && old(reading) && !old(started) && Served(v) ==>
                answered.Some? && fifo == [answered.value]
      ensures ok && reg == 0x30 && old(fifo) != [] ==> old(fifo) == [v] + fifo
    {
      ok, v := *, *;
      if reg in controls {
        v := controls[reg];
      } else if reg == 0x2f {
        if ok && started && Served(v) {
          fifo := Reply();
          started := false;
        } else if ok && reading && Served(v) {
          var b: byte := *;
          fifo, answered, reading := [b], Some(b), false;
        }
      } else if reg == 0x30 && fifo != [] {
        v, fifo := fifo[0], fifo[1..];
      }
      if ok {
        answers := answers + [(reg, v)];
      } else {
        faults := faults + 1;
      }
    }

    /** A write.  One that fails may have landed. */
    method Write(reg: nat, v: byte) returns (ok: bool)
      requires Valid()
      modifies this`controls, this`request, this`started, this`reading, this`fifo, this`accesses, this`faults
      ensures Valid() && faults == old(faults) + if ok then 0 else 1
      ensures controls == old(controls) || (IsControl(reg) && controls == old(controls)[reg := v])
      ensures ok && IsControl(reg) ==> controls == old(controls)[reg := v]
      ensures ok && !IsControl(reg) ==> request == old(request)[reg := v]
      ensures ok && reg == 0x2e ==> started == (v == 3) && reading == (v == 0)
      ensures accesses == old(accesses) || (reg == 0x2e && v <= 1 && accesses == old(accesses) + [old(Single(v))])
      ensures ok && reg == 0x2e && v <= 1 ==> accesses == old(accesses) + [old(Single(v))]
    {
      ok := *;
      if !ok {
        faults := faults + 1;
      }
      var landed: bool := *;
      if ok || landed {
        if reg in controls {
          controls := controls[reg := v];
        } else {
          if reg == 0x2e {
            if v <= 1 {
              accesses := accesses + [Single(v)];
            }
            started, reading, fifo := v == 3, v == 0, [];
          }
          request := request[reg := v];
        }
      }
    }
  }

  // ------------------------------------------------------------ bus steps

  /** wr: a status read, then the write. */
  method WriteAfterRead(port: Port, reg: nat, v: byte) returns (ret: Option<Failure>)
    requires port.Valid()
    modifies port
    ensures port.Valid() && (ret.Some? ==> ret == Some(EBUS))
    ensures old(port.answers) <= port.answers && port.faults == old(port.faults) + if ret.Some? then 1 else 0
    ensures ret.None? ==> |port.answers| == |old(port.answers)| + 1 && port.answers[|old(port.answers)|].0 == 3
    ensures port.answered == old(port.answered)
    ensures port.controls == old(port.controls)
            || (IsControl(reg) && port.controls == old(port.controls)[reg := v])
    ensures ret.None? && IsControl(reg) ==> port.controls == old(port.controls)[reg := v]
    ensures ret.None? && !IsControl(reg) ==> port.request == old(port.request)[reg := v]
    ensures ret.None? && reg == 0x2e ==> port.started == (v == 3) && port.reading == (v == 0)
    ensures port.accesses == old(port.accesses)
            || (reg == 0x2e && v <= 1 && port.accesses == old(port.accesses) + [old(port.Single(v))])
    ensures ret.None? && reg == 0x2e && v <= 1 ==> port.accesses == old(port.accesses) + [old(port.Single(v))]
  {
    var ok, status := port.Read(3);
    if !ok {
      return Some(EBUS);
    }
    ok := port.Write(reg, v);
    return if ok then None else Some(EBUS);
  }

  /** set: a control write with read-back. */
  method SetControl(port: Port, reg: nat, v: byte) returns (ret: Option<Failure>)
    requires port.Valid() && IsControl(reg)
    modifies port
    ensures port.Valid()
    ensures port.controls == old(port.controls) || port.controls == old(port.controls)[reg := v]
    ensures ret.None? ==> port.controls == old(port.controls)[reg := v]
    ensures ret.Some? ==> ret == Some(EBUS)
    ensures old(port.answers) <= port.answers && port.faults == old(port.faults) + if ret.Some? then 1 else 0
    ensures ret.None? ==> |port.answers| == |old(port.answers)| + 2 && port.answers[|old(port.answers)| + 1] == (reg, v)
    ensures port.accesses == old(port.accesses) && port.answered == old(port.answered)
  {
    ret := WriteAfterRead(port, reg, v);
    if ret.Some? {
      return;
    }
    var ok, observed := port.Read(reg);
    return if !ok then Some(EBUS) else if observed != v then Some(EIO) else None;
  }

  /** How one 32-byte request ended: bytes, a missing display, a request to abort, or a bus
      failure after which nothing more is sent. */
  datatype Chunk = Bytes(data: seq<byte>) | Absent | Abort(why: Failure) | Broken

  predicate Requests(request: map<nat, byte>, chunk: nat) {
    && 0x2a in request && request[0x2a] == chunk % 256
    && 0x2b in request && request[0x2b] == CHUNK
    && 0x2d in request && request[0x2d] == chunk / 256
  }

  /** The request and its start command. */
  method Request(port: Port, chunk: nat) returns (ok: bool)
    requires port.Valid() && chunk < 65536
    modifies port
    ensures port.Valid() && port.controls == old(port.controls)
    ensures ok ==> port.started && Requests(port.request, chunk)
    ensures old(port.answers) <= port.answers && port.faults == old(port.faults) + if ok then 0 else 1
  {
    var commands: seq<(nat, byte)> :=
      [(0x2e, 9), (0x29, 0xa0), (0x2a, chunk % 256), (0x2b, 32), (0x2c, 0), (0x2d, chunk / 256)];
    var i := 0;
    while i < |commands|
      invariant i <= |commands| && port.Valid() && port.controls == old(port.controls)
      invariant old(port.answers) <= port.answers && port.faults == old(port.faults)
      invariant i > 2 ==> 0x2a in port.request && port.request[0x2a] == chunk % 256
      invariant i > 3 ==> 0x2b in port.request && port.request[0x2b] == CHUNK
      invariant i > 5 ==> 0x2d in port.request && port.request[0x2d] == chunk / 256
    {
      var ret := WriteAfterRead(port, commands[i].0, commands[i].1);
      if ret.Some? {
        return false;
      }
      i := i + 1;
    }
    var ret := WriteAfterRead(port, 0x2e, 3);
    return ret.None?;
  }

  /** A status sample without the done bit and without an error bit. */
  ghost predicate Silent(a: (nat, byte)) {
    a.0 == 0x2f && a.1 < 128 && a.1 / 8 % 8 == 0
  }

  /** How a poll ends: at the first sample that is not silent, an error bit before the done
      bit, or after twenty silent ones. */
  ghost predicate Polled(answers: seq<(nat, byte)>, from: nat, why: Option<Failure>)
    requires from < |answers|
  {
    var last := answers[|answers| - 1];
    && (forall i: nat :: from <= i < |answers| - 1 ==> Silent(answers[i])) && last.0 == 0x2f
    && (why == Some(EIO) <==> last.1 / 8 % 8 != 0) && (why.None? <==> last.1 >= 128 && last.1 / 8 % 8 == 0)
    && (why == Some(ETIMEDOUT) ==> Silent(last) && |answers| == from + 20)
  }

  /** Polls the engine: up to twenty samples until done or an error bit. */
  method Await(port: Port) returns (ok: bool, why: Option<Failure>)
    requires port.Valid()
    modifies port`fifo, port`started, port`reading, port`answered, port`answers, port`faults
    ensures old(port.answers) <= port.answers && port.faults == old(port.faults) + if ok then 0 else 1
    ensures ok ==> |old(port.answers)| < |port.answers| <= |old(port.answers)| + 20
    ensures ok ==> Polled(port.answers, |old(port.answers)|, why)
    ensures why.Some? ==> ok && (why == Some(EIO) || why == Some(ETIMEDOUT))
    ensures ok && why.None? && port.EngineOn() && old(port.started) ==> port.fifo == port.Reply()
    ensures ok && why.None? && old(port.reading) && !old(port.started) ==>
              port.answered.Some? && port.fifo == [port.answered.value]
  {
    var polls := 0;
    while polls < 20
      invariant port.started == old(port.started) && port.reading == old(port.reading) && polls <= 20
      invariant |port.answers| == |old(port.answers)| + polls && old(port.answers) <= port.answers
      invariant port.faults == old(port.faults)
      invariant forall i: nat :: |old(port.answers)| <= i < |port.answers| ==> Silent(port.answers[i])
    {
      var status;
      ok, status := port.Read(0x2f);
      if !ok {
        return false, None;
      }
      if DdcError(status) {
        return true, Some(EIO);
      }
      if DdcDone(status) {
        return true, None;
      }
      polls := polls + 1;
    }
    return true, Some(ETIMEDOUT);
  }

  method TakeFifo(port: Port, count: nat) returns (ok: bool, data: seq<byte>)
    requires port.Valid() && |port.fifo| == count
    modifies port`fifo, port`started, port`reading, port`answered, port`answers, port`faults
    ensures ok ==> data == old(port.fifo)
    ensures old(port.answers) <= port.answers && port.faults == old(port.faults) + if ok then 0 else 1
  {
    data := [];
    while |data| < count
      invariant |data| <= count && data + port.fifo == old(port.fifo)
      invariant old(port.answers) <= port.answers && port.faults == old(port.faults)
    {
      var b;
      ok, b := port.Read(0x30);
      if !ok {
        return;
      }
      data := data + [b];
    }
    ok := true;
  }

  // ------------------------------------------------- why a read is given up

  /** The display is gone, as its status says. */
  ghost predicate Gone(a: (nat, byte)) {
    a.0 == 3 && a.1 % 2 == 0
  }

  /** The engine reports an error. */
  ghost predicate Erred(a: (nat, byte)) {
    a.0 == 0x2f && a.1 / 8 % 8 != 0
  }

  /** Twenty silent samples from place i. */
  ghost predicate Quiet(answers: seq<(nat, byte)>, i: nat)
    requires i + 20 <= |answers|
  {
    forall k: nat :: i <= k < i + 20 ==> Silent(answers[k])
  }

  ghost predicate ZeroSum(display: nat -> byte, b: nat) {
    Sum(Piece(display, b, 128)) % 256 == 0
  }

  /** The display's memory does not hold an EDID: a wrong header, or a block with a wrong sum. */
  ghost predicate Malformed(display: nat -> byte) {
    || Piece(display, 0, 8) != [0, 255, 255, 255, 255, 255, 255, 0]
    || exists b: nat :: b < 512 && b % 128 == 0 && !ZeroSum(display, b)
  }

  /** What must have been read, from place `from` on, or be wrong with the display's memory,
      for a failure. */
  ghost predicate Cause(why: Failure, display: nat -> byte, from: nat, answers: seq<(nat, byte)>) {
    match why
    case ENOLINK => exists i: nat :: from <= i < |answers| && Gone(answers[i])
    case EIO => exists i: nat :: from <= i < |answers| && Erred(answers[i])
    case ETIMEDOUT => exists i: nat :: from <= i && i + 20 <= |answers| && Quiet(answers, i)
    case EBADMSG => Malformed(display)
    case E2BIG => display(126) > 3
    case _ => false
  }

  lemma CauseLasts(why: Failure, display: nat -> byte, from: nat, answers: seq<(nat, byte)>, from': nat,
                   more: seq<(nat, byte)>)
    requires Cause(why, display, from, answers) && from' <= from && answers <= more
    ensures Cause(why, display, from', more)
  {
    hide Gone, Erred, Malformed;
    match why {
      case ENOLINK =>
        var i: nat :| from <= i < |answers| && Gone(answers[i]);
        assert Gone(more[i]);
      case EIO =>
        var i: nat :| from <= i < |answers| && Erred(answers[i]);
        assert Erred(more[i]);
      case ETIMEDOUT =>
        var i: nat :| from <= i && i + 20 <= |answers| && Quiet(answers, i);
        assert Quiet(more, i);
      case _ =>
    }
  }

  lemma GoneIs(answers: seq<(nat, byte)>, from: nat, display: nat -> byte)
    requires from < |answers| && Gone(answers[from])
    ensures Cause(ENOLINK, display, from, answers)
  {
  }

  lemma PolledCause(answers: seq<(nat, byte)>, from: nat, why: Failure, display: nat -> byte)
    requires from < |answers| && Polled(answers, from, Some(why)) && (why == EIO || why == ETIMEDOUT)
    ensures Cause(why, display, from, answers)
  {
    if why == EIO {
      assert Erred(answers[|answers| - 1]);
    } else {
      assert Quiet(answers, from);
    }
  }

  lemma ReplyIsChunk(display: nat -> byte, chunk: nat)
    ensures Piece(display, chunk / 256 * 256 + chunk % 256, CHUNK) == Piece(display, chunk, CHUNK)
  {
  }

  method ReadChunk(port: Port, chunk: nat) returns (r: Chunk)
    requires port.Valid() && port.EngineOn() && chunk < 65536
    modifies port
    ensures port.Valid() && port.controls == old(port.controls)
    ensures r.Bytes? ==> r.data == Piece(port.display, chunk, CHUNK)
    ensures r.Abort? ==> r.why == EIO || r.why == ETIMEDOUT
    ensures old(port.answers) <= port.answers && port.faults == old(port.faults) + if r.Broken? then 1 else 0
    ensures r.Absent? ==> Cause(ENOLINK, port.display, |old(port.answers)|, port.answers)
    ensures r.Abort? ==> Cause(r.why, port.display, |old(port.answers)|, port.answers)
  {
    hide Cause, Polled, Piece;
    ghost var before := port.answers;
    var ok, status := port.Read(3);
    if !ok {
      return Broken;
    }
    if status % 2 == 0 {
      GoneIs(port.answers, |before|, port.display);
      return Absent;
    }
    ok := Request(port, chunk);
    if !ok {
      return Broken;
    }
    ReplyIsChunk(port.display, chunk);
    var why;
    ghost var requested := port.answers;
    ok, why := Await(port);
    if !ok {
      return Broken;
    }
    if why.Some? {
      PolledCause(port.answers, |requested|, why.value, port.display);
      CauseLasts(why.value, port.display, |requested|, port.answers, |before|, port.answers);
      return Abort(why.value);
    }
    var data;
    ok, data := TakeFifo(port, CHUNK);
    return if ok then Bytes(data) else Broken;
  }

  /** The newest twenty samples were all silent. */
  ghost predicate NeverSettled(answers: seq<(nat, byte)>) {
    |answers| >= 20 && forall i: nat :: |answers| - 20 <= i < |answers| ==> Silent(answers[i])
  }

  /** Stops the engine after an error; only a settled engine is worth restoring. */
  method AbortEngine(port: Port) returns (cleanup: Option<Failure>)
    requires port.Valid()
    modifies port
    ensures port.Valid() && port.controls == old(port.controls) && port.accesses == old(port.accesses)
    ensures old(port.answers) <= port.answers
    ensures port.faults == old(port.faults) + if cleanup == Some(EBUS) then 1 else 0
    ensures cleanup.Some? ==> cleanup == Some(EBUS) || (cleanup == Some(ETIMEDOUT) && NeverSettled(port.answers))
    ensures cleanup.None? ==>
              port.answers != [] && port.answers[|port.answers| - 1].0 == 0x2f && !NeverSettled(port.answers)
  {
    cleanup := WriteAfterRead(port, 0x2e, 15);
    if cleanup.Some? {
      return;
    }
    var polls := 0;
    while polls < 20
      invariant port.Valid() && port.controls == old(port.controls) && port.accesses == old(port.accesses)
      invariant old(port.answers) <= port.answers && port.faults == old(port.faults) && polls <= 20
      invariant |port.answers| == |old(port.answers)| + 1 + polls
      invariant forall i: nat :: |old(port.answers)| + 1 <= i < |port.answers| ==> Silent(port.answers[i])
    {
      var ok, status := port.Read(0x2f);
      if !ok {
        return Some(EBUS);
      }
      if DdcError(status) || DdcDone(status) {
        return None;
      }
      polls := polls + 1;
    }
    return Some(ETIMEDOUT);
  }

  /** Puts the three controls back, last one first. */
  method RestoreControls(port: Port, saved: map<nat, byte>) returns (ret: Option<Failure>)
    requires port.Valid() && saved.Keys == {0x28, 0x19, 0x1d}
    modifies port
    ensures port.Valid() && (ret.None? ==> port.controls == saved) && (ret.Some? ==> ret == Some(EBUS))
    ensures old(port.answers) <= port.answers && port.faults == old(port.faults) + if ret.Some? then 1 else 0
  {
    ret := SetControl(port, 0x1d, saved[0x1d]);
    if ret.Some? {
      return;
    }
    ret := SetControl(port, 0x19, saved[0x19]);
    if ret.Some? {
      return;
    }
    ret := SetControl(port, 0x28, saved[0x28]);
  }

  /** The bit of the mask is set, and no other bit changed. */
  ghost predicate On(was: byte, now: byte, mask: nat)
    requires mask == 1 || mask == 4 || mask == 8
  {
    now as nat / mask % 2 == 1 && (now == was || now as nat == was as nat + mask)
  }

  lemma SetsBit(v: byte, mask: nat)
    requires mask == 1 || mask == 4 || mask == 8
    ensures On(v, WithBit(v, mask), mask)
  {
  }

  method SaveControls(port: Port) returns (ok: bool, saved: map<nat, byte>)
    requires port.Valid()
    modifies port
    ensures port.Valid() && port.controls == old(port.controls)
    ensures ok ==> saved == port.controls
    ensures old(port.answers) <= port.answers && port.faults == old(port.faults) + if ok then 0 else 1
  {
    saved := map[];
    var i := 0;
    while i < 3
      invariant i <= 3 && port.Valid() && port.controls == old(port.controls)
      invariant old(port.answers) <= port.answers && port.faults == old(port.faults)
      invariant saved.Keys == set k: nat | k < i :: CONTROLS[k]
      invariant forall k: nat :: k < i ==> saved[CONTROLS[k]] == port.controls[CONTROLS[k]]
    {
      var v;
      ok, v := port.Read(CONTROLS[i]);
      if !ok {
        return;
      }
      saved := saved[CONTROLS[i] := v];
      i := i + 1;
    }
    assert saved.Keys == {CONTROLS[0], CONTROLS[1], CONTROLS[2]};
    ok := true;
  }

  /** Bit 0, bit 2 and bit 3 are set, one in each control, and nothing else changed. */
  ghost predicate AllOn(was: map<nat, byte>, now: map<nat, byte>)
    requires was.Keys == now.Keys == {0x28, 0x19, 0x1d}
  {
    On(was[0x28], now[0x28], 1) && On(was[0x19], now[0x19], 4) && On(was[0x1d], now[0x1d], 8)
  }

  method EnableControls(port: Port, saved: map<nat, byte>) returns (ret: Option<Failure>)
    requires port.Valid() && saved.Keys == {0x28, 0x19, 0x1d}
    modifies port
    ensures port.Valid() && (ret.Some? ==> ret == Some(EBUS))
    ensures old(port.answers) <= port.answers && port.faults == old(port.faults) + if ret.Some? then 1 else 0
    ensures ret.None? ==> port.EngineOn() && AllOn(saved, port.controls)
  {
    hide WithBit, On;
    var i := 0;
    while i < 3
      invariant i <= 3 && port.Valid() && old(port.answers) <= port.answers && port.faults == old(port.faults)
      invariant forall k: nat :: k < i ==> On(saved[CONTROLS[k]], port.controls[CONTROLS[k]], MASKS[k])
    {
      SetsBit(saved[CONTROLS[i]], MASKS[i]);
      ret := SetControl(port, CONTROLS[i], WithBit(saved[CONTROLS[i]], MASKS[i]));
      if ret.Some? {
        return;
      }
      i := i + 1;
    }
    assert CONTROLS[0] == 0x28 && CONTROLS[1] == 0x19 && CONTROLS[2] == 0x1d;
    assert MASKS[0] == 1 && MASKS[1] == 4 && MASKS[2] == 8;
    EngineIsOn(port, saved);
    return None;
  }

  lemma EngineIsOn(port: Port, saved: map<nat, byte>)
    requires port.Valid() && saved.Keys == {0x28, 0x19, 0x1d} && AllOn(saved, port.controls)
    ensures port.EngineOn()
  {
  }

  /** Saves the three controls, then sets each one's bit. */
  method TakeControls(port: Port) returns (ret: Option<Failure>, saved: map<nat, byte>)
    requires port.Valid()
    modifies port
    ensures port.Valid() && (ret.Some? ==> ret == Some(EBUS))
    ensures old(port.answers) <= port.answers && port.faults == old(port.faults) + if ret.Some? then 1 else 0
    ensures ret.None? ==> saved == old(port.controls) && port.EngineOn() && AllOn(saved, port.controls)
  {
    var ok;
    ok, saved := SaveControls(port);
    if !ok {
      return Some(EBUS), saved;
    }
    ret := EnableControls(port, saved);
  }

  /** Blocks that sum to zero, behind the EDID header, as many as the base block says. */
  ghost predicate Whole(data: seq<byte>) {
    && 128 <= |data| <= 512 && |data| == EdidLength(data[126]) && data[..8] == HEADER
    && forall b: nat :: b < |data| && b % 128 == 0 ==> BlockSums(data, b)
  }

  predicate BlockSums(data: seq<byte>, b: nat) {
    b + 128 <= |data| && Sum(data[b..b + 128]) % 256 == 0
  }

  /** The chunks read so far are the display's first bytes and every full block is valid. */
  ghost predicate Progress(edid: seq<byte>, display: nat -> byte, bytes: nat) {
    && bytes <= |edid| && edid[..bytes] == Piece(display, 0, bytes)
    && (forall b: nat :: b + 128 <= bytes && b % 128 == 0 ==> BlockSums(edid, b))
    && (bytes >= 128 ==> edid[..8] == HEADER)
  }

  lemma ChunkAdds(old': seq<byte>, edid: seq<byte>, display: nat -> byte, bytes: nat)
    requires |edid| == |old'| && bytes + CHUNK <= |edid| && bytes % CHUNK == 0
    requires Progress(old', display, bytes)
    requires edid[..bytes] == old'[..bytes] && edid[bytes..bytes + CHUNK] == Piece(display, bytes, CHUNK)
    requires (bytes + CHUNK) % 128 == 0 ==> BlockSums(edid, bytes + CHUNK - 128)
    requires bytes + CHUNK == 128 ==> edid[..8] == HEADER
    ensures Progress(edid, display, bytes + CHUNK)
  {
    hide HEADER;
    forall i: nat | i < bytes + CHUNK ensures edid[i] == display(i) {
      if i < bytes {
        assert edid[i] == edid[..bytes][i] == old'[..bytes][i] == Piece(display, 0, bytes)[i];
      } else {
        assert edid[i] == edid[bytes..bytes + CHUNK][i - bytes];
      }
    }
    forall b: nat | b + 128 <= bytes + CHUNK && b % 128 == 0 ensures BlockSums(edid, b) {
      if b + 128 <= bytes {
        assert BlockSums(old', b);
        assert edid[b..b + 128] == edid[..bytes][b..b + 128] == old'[..bytes][b..b + 128] == old'[b..b + 128];
      } else {
        assert b == bytes + CHUNK - 128;
      }
    }
    if bytes >= 128 {
      assert edid[..8] == edid[..bytes][..8] == old'[..bytes][..8] == old'[..8];
    }
  }

  /** How the collection of all chunks ended. */
  datatype Outcome = Finished | Refused(why: Failure) | Stopped(why: Failure) | BusFailed

  /** The gates behind one more chunk: the block sum, and for the base block the header and
      the number of extensions. */
  method Check(edid: array<byte>, bytes: nat) returns (why: Option<Failure>)
    requires 128 <= bytes <= edid.Length == MAX_BYTES && bytes % 128 == 0
    ensures why.None? ==> BlockSums(edid[..], bytes - 128)
    ensures why.None? && bytes == 128 ==> edid[..8] == HEADER && EdidLength(edid[126]) <= MAX_BYTES
    ensures why == Some(E2BIG) ==> bytes == 128 && EdidLength(edid[126]) > MAX_BYTES
    ensures why == Some(EBADMSG) ==> !BlockSums(edid[..], bytes - 128) || (bytes == 128 && edid[..8] != HEADER)
    ensures why.Some? ==> why == Some(EBADMSG) || why == Some(E2BIG)
  {
    hide HEADER;
    var sum := SumOf(edid, bytes - 128, bytes);
    assert edid[..][bytes - 128..bytes - 128 + 128] == edid[bytes - 128..bytes];
    if sum % 256 != 0 {
      return Some(EBADMSG);
    }
    if bytes == 128 {
      if edid[..8] != HEADER {
        return Some(EBADMSG);
      }
      if EdidLength(edid[126]) > MAX_BYTES {
        return Some(E2BIG);
      }
    }
    return None;
  }

  /** One chunk, stored behind the earlier ones and checked. */
  method AddChunk(port: Port, edid: array<byte>, bytes: nat) returns (end: Outcome)
    requires port.Valid() && port.EngineOn()
    requires edid.Length == MAX_BYTES && bytes + CHUNK <= MAX_BYTES && bytes % CHUNK == 0
    requires Progress(edid[..], port.display, bytes)
    modifies port, edid
    ensures port.Valid() && port.controls == old(port.controls)
    ensures Progress(edid[..], port.display, if end.Finished? then bytes + CHUNK else bytes)
    ensures old(port.answers) <= port.answers && port.faults == old(port.faults) + if end.BusFailed? then 1 else 0
    ensures end.Refused? || end.Stopped? ==>
              end.why != EBUS && Cause(end.why, port.display, |old(port.answers)|, port.answers)
    ensures end.Stopped? ==> end.why == EIO || end.why == ETIMEDOUT
    ensures end.Finished? && bytes + CHUNK == 128 ==>
              edid[126] == port.display(126) && EdidLength(edid[126]) <= MAX_BYTES
  {
    hide Progress, HEADER, Piece, BlockSums, EdidLength, Cause;
    var chunk := ReadChunk(port, bytes);
    match chunk {
      case Broken => return BusFailed;
      case Absent => return Refused(ENOLINK);
      case Abort(why) => return Stopped(why);
      case Bytes(data) =>
        ghost var was := edid[..];
        assert |data| == CHUNK by { PieceSize(port.display, bytes); }
        StoreChunk(edid, bytes, data);
        SamePrefix(was, edid[..], port.display, bytes);
        var why: Option<Failure> := None;
        if (bytes + CHUNK) % 128 == 0 {
          why := Check(edid, bytes + CHUNK);
        }
        if bytes + CHUNK == 128 {
          ExtensionByte(edid[..], port.display, bytes, data);
        }
        if why.Some? {
          RefusalCause(was, edid[..], port.display, bytes, why.value, |old(port.answers)|, port.answers);
          return Refused(why.value);
        }
        ChunkAdds(was, edid[..], port.display, bytes);
        return Finished;
    }
  }

  lemma RefusalCause(was: seq<byte>, edid: seq<byte>, display: nat -> byte, bytes: nat, why: Failure,
                     from: nat, answers: seq<(nat, byte)>)
    requires |edid| == |was| == 512 && bytes + CHUNK <= 512 && bytes % CHUNK == 0 && bytes + CHUNK >= 128
    requires Progress(was, display, bytes) && (bytes + CHUNK) % 128 == 0
    requires edid[..bytes] == was[..bytes] && edid[bytes..bytes + CHUNK] == Piece(display, bytes, CHUNK)
    requires || (why == EBADMSG && (!BlockSums(edid, bytes + CHUNK - 128) || (bytes + CHUNK == 128 && edid[..8] != HEADER)))
             || (why == E2BIG && bytes + CHUNK == 128 && EdidLength(edid[126]) > MAX_BYTES)
    ensures Cause(why, display, from, answers)
  {
    hide HEADER, BlockSums, Piece;
    var b := bytes + CHUNK - 128;
    StoredIsDisplay(was, edid, display, bytes);
    PieceOf(edid, display, b, 128, bytes + CHUNK);
    PieceOf(edid, display, 0, 8, bytes + CHUNK);
    HeaderIs();
    if why == EBADMSG && !BlockSums(edid, b) {
      SumIs(edid, display, b);
    } else if why == E2BIG {
      assert edid[126] == display(126);
    }
  }

  lemma HeaderIs()
    ensures HEADER == [0, 255, 255, 255, 255, 255, 255, 0]
  {
  }

  lemma SumIs(edid: seq<byte>, display: nat -> byte, b: nat)
    requires b + 128 <= |edid| && edid[b..b + 128] == Piece(display, b, 128) && b < 512 && b % 128 == 0
    ensures BlockSums(edid, b) <==> ZeroSum(display, b)
    ensures !BlockSums(edid, b) ==> Malformed(display)
  {
  }

  lemma StoredIsDisplay(was: seq<byte>, edid: seq<byte>, display: nat -> byte, bytes: nat)
    requires |edid| == |was| && bytes + CHUNK <= |edid| && Progress(was, display, bytes)
    requires edid[..bytes] == was[..bytes] && edid[bytes..bytes + CHUNK] == Piece(display, bytes, CHUNK)
    ensures forall i: nat :: i < bytes + CHUNK ==> edid[i] == display(i)
  {
    hide HEADER, BlockSums;
    forall i: nat | i < bytes + CHUNK ensures edid[i] == display(i) {
      if i < bytes {
        assert edid[i] == edid[..bytes][i] == was[..bytes][i] == Piece(display, 0, bytes)[i];
      } else {
        assert edid[i] == edid[bytes..bytes + CHUNK][i - bytes];
      }
    }
  }

  lemma PieceOf(edid: seq<byte>, display: nat -> byte, from: nat, n: nat, known: nat)
    requires from + n <= known <= |edid| && forall i: nat :: i < known ==> edid[i] == display(i)
    ensures edid[from..from + n] == Piece(display, from, n)
  {
  }

  lemma PieceSize(display: nat -> byte, from: nat)
    ensures |Piece(display, from, CHUNK)| == CHUNK
  {
  }

  method StoreChunk(edid: array<byte>, at: nat, data: seq<byte>)
    requires at + |data| <= edid.Length
    modifies edid
    ensures edid[..at] == old(edid[..at]) && edid[at..at + |data|] == data
    ensures edid[..][..at] == old(edid[..])[..at] && edid[..][at..at + |data|] == data
  {
    var i := 0;
    while i < |data|
      invariant i <= |data| && edid[..at] == old(edid[..at]) && edid[at..at + i] == data[..i]
    {
      edid[at + i] := data[i];
      i := i + 1;
    }
    assert edid[..][..at] == edid[..at] && edid[..][at..at + |data|] == edid[at..at + |data|];
    assert old(edid[..])[..at] == old(edid[..at]);
  }

  method Collect(port: Port, edid: array<byte>) returns (end: Outcome, bytes: nat)
    requires port.Valid() && port.EngineOn() && edid.Length == MAX_BYTES
    modifies port, edid
    ensures port.Valid() && port.controls == old(port.controls)
    ensures bytes <= MAX_BYTES && Progress(edid[..], port.display, bytes)
    ensures end.Finished? ==> 128 <= bytes == EdidLength(port.display(126))
    ensures old(port.answers) <= port.answers && port.faults == old(port.faults) + if end.BusFailed? then 1 else 0
    ensures end.Refused? || end.Stopped? ==>
              end.why != EBUS && Cause(end.why, port.display, |old(port.answers)|, port.answers)
    ensures end.Stopped? ==> end.why == EIO || end.why == ETIMEDOUT
  {
    hide Progress, HEADER, Cause;
    var limit := 128;
    bytes, end := 0, Finished;
    NoProgress(edid[..], port.display);
    while bytes < limit
      invariant port.Valid() && port.controls == old(port.controls) && end.Finished?
      invariant bytes <= limit <= MAX_BYTES && bytes % CHUNK == 0
      invariant limit == if bytes < 128 then 128 else EdidLength(port.display(126))
      invariant Progress(edid[..], port.display, bytes)
      invariant old(port.answers) <= port.answers && port.faults == old(port.faults)
      decreases MAX_BYTES - bytes
    {
      ghost var before := port.answers;
      end := AddChunk(port, edid, bytes);
      if !end.Finished? {
        if end.Refused? || end.Stopped? {
          CauseLasts(end.why, port.display, |before|, port.answers, |old(port.answers)|, port.answers);
        }
        return;
      }
      bytes := bytes + CHUNK;
      if bytes == 128 {
        limit := EdidLength(edid[126]);
      }
    }
  }

  lemma NoProgress(edid: seq<byte>, display: nat -> byte)
    ensures Progress(edid, display, 0)
  {
  }

  /** A chunk that was refused leaves the earlier ones as they were. */
  lemma SamePrefix(was: seq<byte>, edid: seq<byte>, display: nat -> byte, bytes: nat)
    requires Progress(was, display, bytes) && |was| == |edid| && bytes <= |was| && edid[..bytes] == was[..bytes]
    ensures Progress(edid, display, bytes)
  {
    hide HEADER;
    forall b: nat | b + 128 <= bytes && b % 128 == 0 ensures BlockSums(edid, b) {
      assert BlockSums(was, b);
      assert edid[b..b + 128] == edid[..bytes][b..b + 128] == was[..bytes][b..b + 128] == was[b..b + 128];
    }
    if bytes >= 128 {
      assert edid[..8] == edid[..bytes][..8] == was[..bytes][..8] == was[..8];
    }
  }

  lemma ExtensionByte(edid: seq<byte>, display: nat -> byte, bytes: nat, data: seq<byte>)
    requires bytes + CHUNK == 128 <= |edid| && data == Piece(display, bytes, CHUNK)
    requires edid[bytes..bytes + CHUNK] == data
    ensures edid[126] == display(126)
  {
    assert edid[bytes..bytes + CHUNK][30] == edid[126];
  }

  datatype Report = Report(bytes: nat, restored: bool, complete: bool)

  /** gc573_sink_read.  A completed read holds exactly the display's EDID, valid block by
      block, and has put the engine's controls back; a read that was given up but restored
      has put them back too. */
  method ReadDisplay(port: Port, edid: array<byte>) returns (ret: Option<Failure>, r: Report)
    requires port.Valid() && edid.Length == MAX_BYTES
    modifies port, edid
    ensures port.Valid() && (ret.None? <==> r.complete) && (r.complete ==> r.restored)
    ensures r.restored ==> port.controls == old(port.controls)
    ensures r.complete ==>
              && r.bytes == 128 * (1 + port.display(126) as nat) <= 512
              && edid[..r.bytes] == Piece(port.display, 0, r.bytes) && Whole(edid[..r.bytes])
    ensures old(port.answers) <= port.answers
    ensures ret.Some? && ret != Some(EBUS) ==> Cause(ret.value, port.display, |old(port.answers)|, port.answers)
    ensures ret == Some(EBUS) ==> port.faults > old(port.faults) || port.answers == old(port.answers)
    ensures ret.Some? && ret != Some(EBUS) && port.faults == old(port.faults) ==>
              r.restored || r.bytes == 0 || NeverSettled(port.answers)
  {
    hide Progress, Whole, HEADER, Cause, NeverSettled;
    r := Report(0, false, false);
    ghost var before := port.answers;
    var reachable: bool := *;
    if !reachable {
      return Some(EBUS), r;
    }
    var ok, status := port.Read(3);
    if !ok {
      return Some(EBUS), r;
    }
    if status % 2 == 0 {
      GoneIs(port.answers, |before|, port.display);
      return Some(ENOLINK), r;
    }
    var saved;
    ret, saved := TakeControls(port);
    if ret.Some? {
      return;
    }
    ghost var start := port.answers;
    var end, bytes := Collect(port, edid);
    r := r.(bytes := bytes);
    ghost var read := port.answers;
    match end {
      case BusFailed =>
        ret := Some(EBUS);
        return;
      case Stopped(why) =>
        ret := Some(why);
        var cleanup := AbortEngine(port);
        CauseLasts(why, port.display, |start|, read, |before|, port.answers);
        if cleanup.Some? {
          return;
        }
      case Refused(why) =>
        ret := Some(why);
        CauseLasts(why, port.display, |start|, read, |before|, port.answers);
      case Finished =>
        ret := None;
        ProgressIsWhole(edid[..], port.display, bytes);
        assert edid[..bytes] == edid[..][..bytes];
    }
    ghost var cleaned := port.answers;
    var cleanup := RestoreControls(port, saved);
    if ret.Some? {
      CauseLasts(ret.value, port.display, |before|, cleaned, |before|, port.answers);
    }
    if cleanup.Some? {
      ret := if ret.Some? then ret else cleanup;
      return;
    }
    r := r.(restored := true, complete := ret.None?);
  }

  lemma ProgressIsWhole(edid: seq<byte>, display: nat -> byte, bytes: nat)
    requires Progress(edid, display, bytes) && 128 <= bytes <= MAX_BYTES && bytes == EdidLength(display(126))
    ensures bytes <= |edid| && edid[..bytes] == Piece(display, 0, bytes) && Whole(edid[..bytes])
  {
    hide HEADER;
    var data := edid[..bytes];
    assert data[126] == display(126) && data[..8] == edid[..8];
    forall b: nat | b < bytes && b % 128 == 0 ensures BlockSums(data, b) {
      assert BlockSums(edid, b);
      assert data[b..b + 128] == edid[b..b + 128];
    }
  }

  // ------------------------------------------------------------------ SCDC

  /** The SCDC registers (HDMI 2.0, section 10.4) and values that may be asked for. */
  predicate ScdcAllowed(reg: nat, write: bool, value: byte) {
    && reg in {1, 2, 0x20, 0x21, 0x40}
    && (write ==> (reg == 2 && value == 1) || (reg == 0x20 && (value == 0 || value == 3)))
  }

  lemma AllowedIs(reg: byte, write: bool, value: byte)
    ensures ScdcAllowed(reg, write, value) <==>
              !(|| reg !in [0x01, 0x02, 0x20, 0x21, 0x40]
                || (write && (reg, value) !in [(0x02, 1), (0x20, 0), (0x20, 3)]))
  {
  }

  /** The transfer that reads or writes one SCDC register of the display. */
  ghost function ScdcAccess(reg: byte, write: bool, value: byte): Access {
    Access(0xa8, reg, 1, write, if write then value else 0)
  }

  predicate Prepared(request: map<nat, byte>, a: Access) {
    && 0x29 in request && request[0x29] == a.device && 0x2a in request && request[0x2a] == a.reg
    && 0x2b in request && request[0x2b] == a.count && (a.write ==> 0x30 in request && request[0x30] == a.value)
  }

  /** The request of one SCDC transfer and its start command.  Whatever fails, no other
      transfer is started. */
  method ScdcRequest(port: Port, reg: byte, write: bool, value: byte) returns (ok: bool)
    requires port.Valid()
    modifies port
    ensures port.Valid() && port.controls == old(port.controls)
    ensures port.accesses == old(port.accesses) || port.accesses == old(port.accesses) + [ScdcAccess(reg, write, value)]
    ensures ok ==> port.accesses == old(port.accesses) + [ScdcAccess(reg, write, value)]
    ensures ok && !write ==> port.reading && !port.started
    ensures old(port.answers) <= port.answers && port.faults == old(port.faults) + if ok then 0 else 1
  {
    var ops: seq<(nat, byte)> := [(0x2e, 9), (0x29, SCDC), (0x2a, reg), (0x2b, 1), (0x2c, 0)];
    var i := 0;
    while i < |ops|
      invariant i <= |ops| && port.Valid() && port.controls == old(port.controls)
      invariant port.accesses == old(port.accesses)
      invariant old(port.answers) <= port.answers && port.faults == old(port.faults)
      invariant i > 1 ==> 0x29 in port.request && port.request[0x29] == SCDC
      invariant i > 2 ==> 0x2a in port.request && port.request[0x2a] == reg
      invariant i > 3 ==> 0x2b in port.request && port.request[0x2b] == 1
    {
      var ret := WriteAfterRead(port, ops[i].0, ops[i].1);
      if ret.Some? {
        return false;
      }
      i := i + 1;
    }
    if write {
      var ret := WriteAfterRead(port, 0x30, value);
      if ret.Some? {
        return false;
      }
    }
    assert Prepared(port.request, ScdcAccess(reg, write, value));
    var ret := WriteAfterRead(port, 0x2e, if write then 1 else 0);
    return ret.None?;
  }

  /** Behind the poll: stop the engine after an error, take the byte of a read, and put the
      control back. */
  method FinishScdc(port: Port, write: bool, value: byte, saved: byte, why: Option<Failure>)
    returns (ret: Option<Failure>, answer: byte, retryable: bool)
    requires port.Valid() && (why.Some? ==> why == Some(EIO) || why == Some(ETIMEDOUT))
    requires why.None? && !write ==> port.answered.Some? && port.fifo == [port.answered.value]
    modifies port
    ensures port.Valid() && port.accesses == old(port.accesses) && old(port.answers) <= port.answers
    ensures ret.None? && !write ==> port.answered == Some(answer)
    ensures ret.None? || retryable ==> port.controls == old(port.controls)[0x28 := saved]
    ensures ret == if why.Some? then why else if port.faults > old(port.faults) then Some(EBUS) else None
    ensures old(port.faults) <= port.faults
    ensures retryable <==> why.Some? && !write && port.faults == old(port.faults) && !NeverSettled(port.answers)
  {
    answer, retryable := value, false;
    if why.Some? {
      var cleanup := AbortEngine(port);
      if cleanup.Some? {
        return why, answer, false;
      }
    } else if !write {
      var ok;
      ghost var took := port.fifo;
      ok, answer := port.Read(0x30);
      if !ok {
        return Some(EBUS), answer, false;
      }
      assert took[0] == ([answer] + port.fifo)[0];
    }
    ghost var before := port.answers;
    var cleanup := SetControl(port, 0x28, saved);
    if cleanup.None? {
      assert !Silent(port.answers[|before| + 1]);
    }
    retryable := why.Some? && !write && cleanup.None?;
    ret := if why.Some? then why else cleanup;
  }

  /** The request, the poll and what follows, with the engine's control at hand. */
  method RunScdc(port: Port, reg: byte, write: bool, value: byte, saved: byte)
    returns (ret: Option<Failure>, answer: byte, retryable: bool)
    requires port.Valid()
    modifies port
    ensures port.Valid() && old(port.answers) <= port.answers && old(port.faults) <= port.faults
    ensures port.accesses == old(port.accesses) || port.accesses == old(port.accesses) + [ScdcAccess(reg, write, value)]
    ensures ret.None? ==> port.accesses == old(port.accesses) + [ScdcAccess(reg, write, value)]
    ensures ret.None? && !write ==> port.answered == Some(answer)
    ensures ret.None? || retryable ==> port.controls == old(port.controls)[0x28 := saved]
    ensures ret.None? || ret == Some(EIO) || ret == Some(ETIMEDOUT) || ret == Some(EBUS)
    ensures port.faults > old(port.faults) ==> ret.Some? && !retryable
    ensures ret == Some(EBUS) ==> port.faults > old(port.faults)
    ensures retryable <==>
              (ret == Some(EIO) || ret == Some(ETIMEDOUT)) && !write && port.faults == old(port.faults)
              && !NeverSettled(port.answers)
  {
    hide NeverSettled;
    var ok := ScdcRequest(port, reg, write, value);
    if !ok {
      return Some(EBUS), value, false;
    }
    var why;
    ok, why := Await(port);
    if !ok {
      return Some(EBUS), value, false;
    }
    ret, answer, retryable := FinishScdc(port, write, value, saved, why);
  }

  /** gc573_sink_scdc.  Nothing but the one transfer asked for is ever started; a success
      has made it, and a read returns what the display answered.  A success, and every
      failure that may be observed again, leaves the engine's controls as they were; only a
      read is ever retryable, and only for a display that is missing or that failed, never
      for a bus failure. */
  method Scdc(port: Port, reg: byte, write: bool, value: byte)
    returns (ret: Option<Failure>, answer: byte, retryable: bool)
    requires port.Valid()
    modifies port
    ensures port.Valid()
    ensures port.accesses == old(port.accesses) || port.accesses == old(port.accesses) + [ScdcAccess(reg, write, value)]
    ensures ret.None? ==> port.accesses == old(port.accesses) + [ScdcAccess(reg, write, value)]
    ensures ret.None? && !write ==> port.answered == Some(answer)
    ensures ret == Some(EINVAL) <==>
              || reg !in [0x01, 0x02, 0x20, 0x21, 0x40]
              || (write && (reg, value) !in [(0x02, 1), (0x20, 0), (0x20, 3)])
    ensures ret == Some(EINVAL) || ret == Some(ENOLINK) ==> port.accesses == old(port.accesses)
    ensures ret == Some(EINVAL) ==> !retryable && port.controls == old(port.controls) && port.answers == old(port.answers)
    ensures ret.None? || retryable ==> port.controls == old(port.controls)
    ensures ret == Some(ENOLINK) ==> (retryable <==> !write) && port.controls == old(port.controls)
    ensures old(port.answers) <= port.answers
    ensures ret == Some(ENOLINK) <==>
              ret != Some(EINVAL) && |port.answers| == |old(port.answers)| + 1 && port.answers[|old(port.answers)|].1 % 2 == 0
    ensures port.faults > old(port.faults) ==> ret.Some? && !retryable
    ensures ret == Some(EBUS) ==> port.faults > old(port.faults)
    ensures ret == Some(EIO) || ret == Some(ETIMEDOUT) ==>
              (retryable <==> !write && port.faults == old(port.faults) && !NeverSettled(port.answers))
    ensures ret.None? || ret in [Some(EINVAL), Some(ENOLINK), Some(EBUS), Some(EIO), Some(ETIMEDOUT)]
  {
    hide NeverSettled, ScdcAllowed;
    answer, retryable := value, false;
    AllowedIs(reg, write, value);
    if !ScdcAllowed(reg, write, value) {
      ret := Some(EINVAL);
      return;
    }
    var ok, status := port.Read(3);
    if !ok {
      return Some(EBUS), answer, false;
    }
    if status % 2 == 0 {
      return Some(ENOLINK), answer, !write;
    }
    var saved;
    ok, saved := port.Read(0x28);
    if !ok {
      return Some(EBUS), answer, false;
    }
    ret := SetControl(port, 0x28, saved - saved % 2);
    if ret.Some? {
      return;
    }
    ret, answer, retryable := RunScdc(port, reg, write, value, saved);
    assert old(port.controls)[0x28 := saved] == old(port.controls);
  }

  // -------------------------------------------------- what the filter sees

  lemma {:induction false} ScanGoesThrough(data: seq<byte>, b: nat, info: Info, scaled: bool)
    requires Whole(data) && b % 128 == 0 && b <= |data| && |data| % 128 == 0
    requires forall k: nat :: k + 128 <= |data| && k % 128 == 0 ==> BlocksAt(data, k).Some?
    ensures Scan(data, b, info, scaled).Some?
    decreases |data| - b
  {
    hide BlocksAt, AbsorbAll, HEADER, EdidLength;
    if b < |data| {
      assert BlockSums(data, b);
      ScanGoesThrough(data, b + 128, AbsorbAll(info, BlocksAt(data, b).value, scaled), scaled);
    }
  }

  /** The filter never refuses a completed read for its length, its header or a checksum: it
      calls the message bad only for the data blocks of a CTA extension. */
  lemma ReadPassesTheGates(data: seq<byte>, scaled: bool)
    requires Whole(data)
    ensures Filter(data, scaled) != Err(Invalid)
    ensures Filter(data, scaled) == Err(BadMessage) ==>
              exists b: nat :: 0 < b && b + 128 <= |data| && b % 128 == 0 && BlocksAt(data, b).None?
  {
    hide BlocksAt, AbsorbAll, HEADER;
    if forall b: nat :: 0 < b && b + 128 <= |data| && b % 128 == 0 ==> BlocksAt(data, b).Some? {
      BaseHasNoBlocks(data);
      ScanGoesThrough(data, 0, NO_INFO, scaled);
    }
  }

  lemma BaseHasNoBlocks(data: seq<byte>)
    requires |data| >= 128
    ensures BlocksAt(data, 0).Some?
  {
  }
}
