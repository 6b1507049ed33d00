/** The fields and locked sections of driver/gc573_capture.c, updated in place.

    Every method does exactly what one step of CaptureRing says; the theorems of
    CaptureRingSafety are about those steps.
 */
module CaptureDevice {
  import opened DmaRing
  import opened Bytes
  import opened CaptureRing

  class Capture {
    const ring: Ring
    const ringDone: array<Completion>
    var ringConsume: nat
    var completedBank: nat
    var ringStarted: bool
    var ringActive: bool
    var stopping: bool
    /** The slot bits of register 0x304. */
    var queueRegister: set<nat>

    ghost predicate Valid()
      reads this, ring
    {
      ring.Valid() && ringDone.Length == SLOTS && ringConsume < SLOTS && completedBank < SLOTS
    }

    ghost function View(): Driver
      reads this, ring, ringDone
    {
      Driver(ring.pending, ring.next, ringDone[..], ringConsume, completedBank, ringStarted, ringActive, stopping)
    }

    /** cap_enable's share: no request is pending and no completion is left over. */
    constructor (ringActive: bool)
      ensures Valid() && fresh(ring) && fresh(ringDone)
      ensures View() == Driver({}, 0, NONE_DONE, 0, 0, false, ringActive, false) && queueRegister == {}
    {
      ring := new Ring();
      ringDone := new Completion[SLOTS](_ => Count(0));
      ringConsume, completedBank, ringStarted, this.ringActive, stopping := 0, 0, false, ringActive, false;
      queueRegister := {};
    }

    /** The locked part of cap_interrupt. */
    method Interrupt(status: nat)
      requires Valid() && ringActive
      modifies ring, ringDone
      ensures Valid() && View() == Decoded(old(View()), status)
    {
      var completed := ring.Complete(status);
      for i := 0 to 4
        invariant Valid()
        invariant ring.pending == old(ring.pending) - completed
        invariant ring.next == if completed == {} then old(ring.next) else status % SLOTS
        invariant forall k :: 0 <= k < 4 ==>
          ringDone[k] == if k < i && k in completed then old(ringDone[k]).Complete() else old(ringDone[k])
      {
        if i in completed {
          ringDone[i] := ringDone[i].Complete();
        }
      }
      assert ringDone[..] == CompleteEach(old(ringDone[..]), completed);
    }

    /** The first cap_ring_transfer queues every slot. */
    method StartRing(status: nat)
      requires Valid() && !ringStarted
      modifies this, ring
      ensures Valid() && View() == Armed(old(View()), status) && queueRegister == ALL_SLOTS
    {
      ringConsume := status % 4;
      ring.next := ringConsume;
      ring.pending := {0, 1, 2, 3};
      ringStarted := true;
      queueRegister := {0, 1, 2, 3};
    }

    /** The rest of cap_ring_transfer once the wait is over. */
    method TakeSlot(slot: nat) returns (ok: bool)
      requires Valid() && slot < SLOTS
      modifies this
      ensures Valid() && queueRegister == old(queueRegister)
      ensures ok == !stopping
      ensures View() == if ok then Accepted(old(View()), slot) else old(View())
    {
      if stopping {
        return false;
      }
      completedBank := slot;
      ringConsume := (slot + 1) % 4;
      return true;
    }

    /** cap_ring_refill; `matches` is the outcome of cap_input_matches. */
    method Refill(matches: bool)
      requires Valid()
      modifies this, ring, ringDone
      ensures Valid()
      ensures var queued := !stopping && matches;
        && View() == (if queued then Refilled(old(View()), completedBank) else old(View()))
        && queueRegister == (if queued then old(queueRegister) + {completedBank} else old(queueRegister))
    {
      if stopping || !matches {
        return;
      }
      ringDone[completedBank] := Count(0);
      ring.pending := ring.pending + {completedBank};
      queueRegister := queueRegister + {completedBank};
    }
  }
}
