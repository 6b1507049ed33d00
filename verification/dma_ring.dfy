/** The four-slot completion decoder of driver/gc573_dma_ring.h.

    Hardware reports only the slot it finished last, as 1..4.  A late interrupt can
    cover several completions, so the decoder walks from the next expected slot to
    the reported one and refuses to cross a slot that software never queued.
    The pending bit mask is modelled as the set of its slot numbers.
 */
module DmaRing {

  const SLOTS := 4

  /** The slot that absolute position `p` falls on when position 0 is slot `start`. */
  function SlotOf(start: nat, p: nat): (s: nat)
    ensures s < SLOTS
  {
    (start + p) % SLOTS
  }

  /** `count` consecutive slots from `start` on. */
  function Span(start: nat, count: nat): set<nat>
  {
    if count == 0 then {} else Span(start, count - 1) + {SlotOf(start, count - 1)}
  }

  /** How many completions a valid status stands for: the cyclic distance from the
      next expected slot to the reported one, inclusive. */
  function Distance(next: nat, status: nat): (n: nat)
    requires next < SLOTS && 1 <= status <= SLOTS
    ensures 1 <= n <= SLOTS
  {
    (status - 1 - next) % SLOTS + 1
  }

  /** The completions a status reveals: all slots up to the reported one when every
      one of them is queued, and nothing otherwise. */
  function Completed(pending: set<nat>, next: nat, status: nat): set<nat>
    requires next < SLOTS
  {
    if 1 <= status <= SLOTS && Span(next, Distance(next, status)) <= pending
    then Span(next, Distance(next, status))
    else {}
  }

  lemma {:induction false} SpanMembers(start: nat, count: nat)
    ensures forall s :: s in Span(start, count) <==> exists k :: 0 <= k < count && s == SlotOf(start, k)
  {
    if count > 0 {
      SpanMembers(start, count - 1);
      forall s ensures s in Span(start, count) <==> exists k :: 0 <= k < count && s == SlotOf(start, k) {
        if s in Span(start, count - 1) {
          var k :| 0 <= k < count - 1 && s == SlotOf(start, k);
          assert 0 <= k < count;
        } else if s == SlotOf(start, count - 1) {
          assert 0 <= count - 1 < count;
        }
      }
    }
  }

  /** A ring and its decoder, updated in place by the interrupt handler. */
  class Ring {
    var pending: set<nat>
    var next: nat

    ghost predicate Valid() reads this {
      next < SLOTS && forall s :: s in pending ==> s < SLOTS
    }

    constructor ()
      ensures Valid() && pending == {} && next == 0
    {
      pending, next := {}, 0;
    }

    /** gc573_dma_ring_complete: one walk over the ring. */
    method Complete(status: nat) returns (done: set<nat>)
      requires Valid()
      modifies this
      ensures Valid()
      ensures done == Completed(old(pending), old(next), status)
      ensures pending == old(pending) - done
      ensures next == if done == {} then old(next) else status % SLOTS
    {
      hide SlotOf, Distance;
      done := {};
      if status < 1 || status > 4 || status - 1 !in pending {
        if 1 <= status <= 4 {
          LastOfSpan(next, status);
        }
        return;
      }
      var first, slot := next, next;
      WalkStep(first, status, 0);
      for i := 0 to 4
        invariant i < Distance(first, status) <= 4
        invariant slot == SlotOf(first, i)
        invariant done == Span(first, i) && done <= pending
        invariant pending == old(pending) && next == first
      {
        if slot !in pending {
          SpanGrows(first, i + 1, Distance(first, status));
          done := {};
          return;
        }
        done := done + {slot};
        WalkStep(first, status, i);
        if slot == status - 1 {
          pending := pending - done;
          next := (slot + 1) % 4;
          return;
        }
        slot := (slot + 1) % 4;
      }
    }
  }

  /** One step of the walk, and how it meets the reported slot. */
  lemma WalkStep(next: nat, status: nat, i: nat)
    requires next < SLOTS && 1 <= status <= SLOTS && i < Distance(next, status)
    ensures SlotOf(next, 0) == next
    ensures (SlotOf(next, i) + 1) % SLOTS == SlotOf(next, i + 1)
    ensures SlotOf(next, i) == status - 1 <==> i + 1 == Distance(next, status)
  {
  }

  lemma LastOfSpan(next: nat, status: nat)
    requires next < SLOTS && 1 <= status <= SLOTS
    ensures status - 1 in Span(next, Distance(next, status))
    ensures SlotOf(next, Distance(next, status) - 1) == status - 1
  {
  }

  lemma {:induction false} SpanGrows(start: nat, m: nat, n: nat)
    requires m <= n
    ensures Span(start, m) <= Span(start, n)
    decreases n - m
  {
    if m < n {
      SpanGrows(start, m, n - 1);
    }
  }

  lemma DistanceIsCount(start: nat, reported: nat, count: nat, status: nat)
    requires 1 <= count <= SLOTS
    requires status == SlotOf(start, reported + count - 1) + 1
    ensures Distance(SlotOf(start, reported), status) == count
    ensures status % SLOTS == SlotOf(start, reported + count)
  {
    var a, b := (start + reported) / 4, (start + reported + count - 1) / 4;
    assert SlotOf(start, reported) == start + reported - 4 * a;
    assert status - 1 == start + reported + count - 1 - 4 * b;
    assert status - 1 - SlotOf(start, reported) == count - 1 + 4 * (a - b);
    assert (count - 1 + 4 * (a - b)) % 4 == count - 1;
  }

  /** Decoding is exact: when `count` (1..4) completions happened since the last
      decode, the status names the last of them, and all their slots are queued,
      precisely those slots come out and the ring moves past them. */
  lemma DecodeExact(pending: set<nat>, start: nat, reported: nat, count: nat, status: nat)
    requires 1 <= count <= SLOTS
    requires status == SlotOf(start, reported + count - 1) + 1
    requires Span(SlotOf(start, reported), count) <= pending
    ensures Completed(pending, SlotOf(start, reported), status) == Span(SlotOf(start, reported), count)
    ensures status % SLOTS == SlotOf(start, reported + count)
  {
    DistanceIsCount(start, reported, count, status);
  }

  /** A completion is never inferred across a slot that was not queued, and a status
      with no new completion is harmless while its slot has not been queued again. */
  lemma DecodeStopsAtHole(pending: set<nat>, start: nat, reported: nat, count: nat, status: nat, hole: nat)
    requires 1 <= count <= SLOTS
    requires status == SlotOf(start, reported + count - 1) + 1
    requires hole < count && SlotOf(start, reported + hole) !in pending
    ensures Completed(pending, SlotOf(start, reported), status) == {}
  {
    DistanceIsCount(start, reported, count, status);
    SpanMembers(SlotOf(start, reported), count);
    assert SlotOf(start, reported + hole) == SlotOf(SlotOf(start, reported), hole);
  }

  /** What the interrupt bit is needed for: a repeated status whose slot has been
      queued again is read as a full lap when all four slots are queued. */
  lemma RepeatedStatusIsFullLap(next: nat, status: nat)
    requires next < SLOTS && 1 <= status <= SLOTS && status % SLOTS == next
    ensures Completed({0, 1, 2, 3}, next, status) == {0, 1, 2, 3}
  {
    assert Distance(next, status) == 4;
    assert Span(next, 4) == {next, (next + 1) % 4, (next + 2) % 4, (next + 3) % 4} by {
      assert Span(next, 4) == Span(next, 3) + {SlotOf(next, 3)};
      assert Span(next, 3) == Span(next, 2) + {SlotOf(next, 2)};
      assert Span(next, 2) == Span(next, 1) + {SlotOf(next, 1)};
      assert Span(next, 1) == {SlotOf(next, 0)};
    }
  }
}
