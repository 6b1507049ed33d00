/** The crash-safe cold start of tools/start-capture.py: six checked hardware phases and the
    hand-over to the driver, with a checkpoint file that says how far they got.

    One call of `Initialize` is one process.  It may die between any two steps: `life` is
    the number of steps it is granted.  The hardware is trusted with this: the first write
    of phase 0 takes the GPIO register off its cold value for the rest of the boot, and a
    phase that reports success has written something.
 */
module StartupCheckpoint {

  import opened Bytes

  const PHASES := 18       // all phases of the list; the first six run in this process
  const HANDOVER := 6

  datatype Content =
    | Checkpoint(version: nat, boot: nat, device: nat, next: int, pending: bool)
    | Garbage

  datatype Exit = Died | Refused | Failed | Waiting | HandedOver | Completed | Preserved

  /** The phases 0, 1, ..., n - 1 in order. */
  function UpTo(n: nat): (s: seq<nat>)
    ensures |s| == n && forall i :: 0 <= i < n ==> s[i] == i
  {
    seq(n, i => i)
  }

  lemma Prefixes(before: seq<nat>, after: seq<nat>)
    requires before == UpTo(|before|) && after == UpTo(|after|) && |before| <= |after|
    ensures before <= after
  {
  }

  class Startup {
    const boot: nat
    const device: nat
    var disk: Option<Content>
    var cold: bool             // the GPIO register reads its cold value
    var loaded: bool           // the capture module was loaded
    ghost var effects: seq<nat>  // phases whose first hardware write was made, in order
    ghost var failures: nat      // commands that failed

    /** read_checkpoint accepts the file. */
    predicate Readable(c: Content) {
      c.Checkpoint? && c.version == 1 && c.boot == boot && c.device == device && 0 <= c.next <= PHASES
    }

    /** A checkpoint of this boot and card that may be resumed. */
    ghost predicate Resumable(disk: Option<Content>) {
      && disk.Some? && disk.value.Checkpoint? && disk.value.version == 1 && disk.value.boot == boot
      && disk.value.device == device && 0 <= disk.value.next <= 18 && !disk.value.pending
    }

    /** The effects so far are the first phases in order, and a readable checkpoint tells
        how many: exactly when it is not pending, and within one when it is. */
    ghost predicate Valid()
      reads this
    {
      var n := |effects|;
      && effects == UpTo(n) && n <= HANDOVER + 1 && (cold <==> n == 0)
      && (disk.Some? && Readable(disk.value) ==>
            var c := disk.value;
            c.next <= HANDOVER && if c.pending then n == c.next || n == c.next + 1 else n == c.next)
    }

    /** A boot: whatever file is there is from another boot. */
    constructor (boot: nat, device: nat, disk: Option<Content>)
      requires disk.Some? && disk.value.Checkpoint? ==> disk.value.boot != boot
      ensures Valid() && effects == [] && cold && !loaded
    {
      this.boot, this.device, this.disk := boot, device, disk;
      cold, loaded, effects, failures := true, false, [], 0;
    }

    /** save_checkpoint: a temporary file is written and renamed over the old one. */
    method Save(index: nat, pending: bool)
      modifies this`disk
      ensures disk == Some(Checkpoint(1, boot, device, index, pending))
    {
      disk := Some(Checkpoint(1, boot, device, index, pending));
    }

    /** The first hardware write of a phase. */
    method Touch(index: nat)
      modifies this`cold, this`effects
      ensures effects == old(effects) + [index] && !cold
    {
      effects := effects + [index];
      cold := false;
    }

    /** One phase between its two checkpoints: the command may fail, before or after its
        first write, and the process may die. */
    method RunPhase(index: nat, life: nat) returns (exit: Option<Exit>, left: nat)
      requires Valid() && index < HANDOVER && |effects| == index
      requires disk == Some(Checkpoint(1, boot, device, index, true))
      modifies this`cold, this`effects, this`failures
      ensures Valid() && left <= life && |effects| >= index
      ensures exit.None? ==> |effects| == index + 1 && left == life - 2
      ensures exit.Some? ==> (exit == Some(Died) && life < 2) || exit == Some(Failed)
      ensures failures == old(failures) + if exit == Some(Failed) then 1 else 0
    {
      left := life;
      if left == 0 {
        return Some(Died), left;
      }
      left := left - 1;
      var preflight: bool := *;
      if !preflight {
        failures := failures + 1;
        return Some(Failed), left;
      }
      Touch(index);
      if left == 0 {
        return Some(Died), left;
      }
      left := left - 1;
      var succeeds: bool := *;
      if !succeeds {
        failures := failures + 1;
        return Some(Failed), left;
      }
      return None, left;
    }

    /** The phases from `start` on, each between its two checkpoints. */
    method RunPhases(start: nat, life: nat) returns (exit: Option<Exit>, left: nat)
      requires Valid() && start <= HANDOVER && |effects| == start
      requires disk == Some(Checkpoint(1, boot, device, start, false))
      modifies this`disk, this`cold, this`effects, this`failures
      ensures Valid() && old(effects) <= effects
      ensures exit.None? ==>
                disk == Some(Checkpoint(1, boot, device, HANDOVER, false)) && |effects| == HANDOVER && left + 24 >= life
      ensures exit.Some? ==> (exit == Some(Died) && life < 24) || exit == Some(Failed)
      ensures failures == old(failures) + if exit == Some(Failed) then 1 else 0
    {
      hide UpTo;
      left := life;
      var index := start;
      while index < HANDOVER
        invariant start <= index <= HANDOVER && Valid() && old(effects) <= effects && index == |effects|
        invariant disk == Some(Checkpoint(1, boot, device, index, false))
        invariant left + 4 * index >= life && failures == old(failures)
      {
        if left == 0 {
          return Some(Died), left;
        }
        left := left - 1;
        Save(index, true);
        ghost var before := effects;
        exit, left := RunPhase(index, left);
        Prefixes(before, effects);
        if exit.Some? {
          return;
        }
        if left == 0 {
          return Some(Died), left;
        }
        left := left - 1;
        Save(index + 1, false);
        index := index + 1;
      }
      return None, left;
    }

    /** initialize, cold-start path.  `ready` and `inputReady` are what the status file and
        the FPGA report.  A process that lives through its 27 steps reaches the hand-over,
        from a cold card or a checkpoint that may be resumed, unless a command fails. */
    method Initialize(life: nat, ready: bool, inputReady: bool) returns (exit: Exit)
      requires Valid()
      modifies this`disk, this`cold, this`loaded, this`effects, this`failures
      ensures Valid() && old(effects) <= effects
      ensures exit == HandedOver ==> effects == [0, 1, 2, 3, 4, 5, 6]
      ensures effects != old(effects) ==> old(cold) || Resumable(old(disk))
      ensures exit == Preserved <==> old(loaded) && ready
      ensures exit == Refused <==>
                !(old(loaded) && ready) && !inputReady && life > 0 && !old(cold) && !Resumable(old(disk))
      ensures exit == Refused ==> disk == old(disk) && effects == old(effects)
      ensures failures == old(failures) + if exit == Failed then 1 else 0
      ensures exit == Died ==> life < 27
      ensures !(old(loaded) && ready) && life >= 27 && failures == old(failures) ==>
                || (inputReady && exit == Completed)
                || (!inputReady && exit == if old(cold) || Resumable(old(disk)) then HandedOver else Refused)
    {
      var left := life;
      if loaded && ready {
        if left > 0 {
          disk := None;
        }
        return Preserved;
      }
      if inputReady {
        if left == 0 {
          return Died;
        }
        var loads: bool := *;
        if !loads {
          failures := failures + 1;
          return Failed;
        }
        loaded := true;
        if left == 1 {
          return Died;
        }
        disk := None;
        return Completed;
      }
      if left == 0 {
        return Died;
      }
      left := left - 1;
      var index: nat := 0;
      if cold {
        Save(index, false);
      } else if disk.None? || !Readable(disk.value) || disk.value.pending {
        return Refused;
      } else {
        index := disk.value.next;
      }
      var stop;
      stop, left := RunPhases(index, left);
      if stop.Some? {
        return stop.value;
      }
      exit := HandOver(HANDOVER, left);
    }

    /** The module is loaded and goes on with the remaining phases. */
    method HandOver(index: nat, life: nat) returns (exit: Exit)
      requires Valid() && disk == Some(Checkpoint(1, boot, device, index, false)) && index == HANDOVER
      modifies this`disk, this`cold, this`loaded, this`effects, this`failures
      ensures Valid() && old(effects) <= effects
      ensures exit == HandedOver || exit == Failed || (exit == Died && life < 2)
      ensures failures == old(failures) + if exit == Failed then 1 else 0
      ensures exit == HandedOver ==> effects == [0, 1, 2, 3, 4, 5, 6]
    {
      if life == 0 {
        return Died;
      }
      Save(index, true);
      var loads: bool := *;
      if !loads {
        failures := failures + 1;
        return Failed;
      }
      if life == 1 {
        return Died;
      }
      Touch(index);
      loaded := true;
      return HandedOver;
    }
  }
}
