/** The V4L2 buffers of driver/gc573_capture.c: the list filled by cap_buf_queue, the
    worker that takes one buffer at a time, and the streaming start and stop.

    Every method is one stretch the driver performs under the list lock or with the worker
    stopped; they may be called in any order their preconditions allow.
 */
module BufferQueue {

  import opened Bytes

  type Buffer = nat

  /** How a buffer was given back: with a frame and its number, failed, or as not used. */
  datatype State = Done(sequence: nat) | Error | Queued

  datatype Return = Return(buffer: Buffer, state: State)

  function Buffers(returned: seq<Return>): (s: seq<Buffer>)
    ensures |s| == |returned|
  {
    if returned == [] then [] else Buffers(returned[..|returned| - 1]) + [returned[|returned| - 1].buffer]
  }

  /** The number of frames among the returns. */
  function Frames(returned: seq<Return>): nat {
    if returned == [] then 0
    else Frames(returned[..|returned| - 1]) + if returned[|returned| - 1].state.Done? then 1 else 0
  }

  /** Frames are numbered 0, 1, 2, ... in the order they are given back. */
  ghost predicate Numbered(returned: seq<Return>) {
    forall i: nat :: i < |returned| && returned[i].state.Done? ==>
      returned[i].state.sequence == Frames(returned[..i])
  }

  lemma ReturnOne(returned: seq<Return>, r: Return)
    ensures Buffers(returned + [r]) == Buffers(returned) + [r.buffer]
    ensures Frames(returned + [r]) == Frames(returned) + if r.state.Done? then 1 else 0
    ensures Numbered(returned) && (r.state.Done? ==> r.state.sequence == Frames(returned)) ==>
              Numbered(returned + [r])
  {
    var all := returned + [r];
    assert all[..|returned|] == returned;
    if Numbered(returned) && (r.state.Done? ==> r.state.sequence == Frames(returned)) {
      forall i: nat | i < |all| && all[i].state.Done? ensures all[i].state.sequence == Frames(all[..i]) {
        if i < |returned| {
          assert all[..i] == returned[..i];
        }
      }
    }
  }

  lemma {:induction false} ConcatBuffers(s: seq<Return>, t: seq<Return>)
    ensures Buffers(s + t) == Buffers(s) + Buffers(t)
  {
    if t == [] {
      assert s + t == s;
    } else {
      var front, last := t[..|t| - 1], t[|t| - 1];
      ConcatBuffers(s, front);
      assert s + t == s + front + [last];
      ReturnOne(s + front, last);
      ReturnOne(front, last);
      assert front + [last] == t;
    }
  }

  /** Every buffer ever queued was given back exactly once, in the order of the list, or is
      with the worker, or is still in the list. */
  ghost predicate Accounted(given: seq<Buffer>, earlier: seq<Return>, returned: seq<Return>,
                            held: Option<Buffer>, queued: seq<Buffer>) {
    given == Buffers(earlier) + Buffers(returned) + (if held.Some? then [held.value] else []) + queued
  }

  lemma AccountTake(given: seq<Buffer>, earlier: seq<Return>, returned: seq<Return>, queued: seq<Buffer>)
    requires Accounted(given, earlier, returned, None, queued) && queued != []
    ensures Accounted(given, earlier, returned, Some(queued[0]), queued[1..])
  {
    assert queued == [queued[0]] + queued[1..];
  }

  lemma AccountReturn(given: seq<Buffer>, earlier: seq<Return>, returned: seq<Return>, b: Buffer,
                      queued: seq<Buffer>, state: State)
    requires Accounted(given, earlier, returned, Some(b), queued)
    requires Numbered(returned) && (state.Done? ==> state.sequence == Frames(returned))
    ensures var returned' := returned + [Return(b, state)];
      && Accounted(given, earlier, returned', None, queued) && Numbered(returned')
      && Frames(returned') == Frames(returned) + if state.Done? then 1 else 0
  {
    ReturnOne(returned, Return(b, state));
  }

  lemma AccountRestart(given: seq<Buffer>, earlier: seq<Return>, returned: seq<Return>, queued: seq<Buffer>)
    requires Accounted(given, earlier, returned, None, queued)
    ensures Accounted(given, earlier + returned, [], None, queued) && Numbered([]) && Frames([]) == 0
  {
    ConcatBuffers(earlier, returned);
  }

  lemma AllReturned(given: seq<Buffer>, earlier: seq<Return>, returned: seq<Return>)
    requires Accounted(given, earlier, returned, None, [])
    ensures Buffers(earlier) + Buffers(returned) == given
  {
  }

  /** Behind `before`, the buffers came back in the order of the list, all in one state. */
  ghost predicate AllBack(before: seq<Return>, after: seq<Return>, list: seq<Buffer>, state: State) {
    && |after| == |before| + |list| && before <= after
    && forall i: nat :: |before| <= i < |after| ==> after[i] == Return(list[i - |before|], state)
  }

  class Queue {
    var queued: seq<Buffer>
    var held: Option<Buffer>
    var thread: bool         // a worker was started and not yet joined
    var running: bool        // its loop has not ended
    var stopping: bool
    var sequence: nat
    var failed: bool
    ghost var given: seq<Buffer>
    ghost var earlier: seq<Return>     // before the current stream
    ghost var returned: seq<Return>    // since it was started

    ghost predicate Valid()
      reads this
    {
      && Accounted(given, earlier, returned, held, queued)
      && Numbered(returned) && sequence == Frames(returned)
      && (held.Some? ==> running) && (running ==> thread)
    }

    constructor ()
      ensures Valid() && given == [] && !thread
    {
      queued, held, thread, running, stopping, sequence, failed := [], None, false, false, false, 0, false;
      given, earlier, returned := [], [], [];
    }

    /** cap_buf_queue. */
    method BufQueue(b: Buffer)
      requires Valid()
      modifies this`queued, this`given
      ensures Valid() && given == old(given) + [b] && queued == old(queued) + [b]
    {
      queued := queued + [b];
      given := given + [b];
    }

    /** cap_return_buffers. */
    method ReturnBuffers(ghost state: State)
      requires Valid() && held.None? && !state.Done?
      modifies this`queued, this`returned
      ensures Valid() && queued == [] && Buffers(earlier) + Buffers(returned) == given
      ensures AllBack(old(returned), returned, old(queued), state)
    {
      hide Accounted, Numbered, Frames, Buffers;
      ghost var list, n := queued, 0;
      while queued != []
        invariant Valid() && n <= |list| && queued == list[n..]
        invariant AllBack(old(returned), returned, list[..n], state)
        decreases |queued|
      {
        AccountTake(given, earlier, returned, queued);
        AccountReturn(given, earlier, returned, queued[0], queued[1..], state);
        returned := returned + [Return(queued[0], state)];
        queued, n := queued[1..], n + 1;
      }
      assert list[..n] == list;
      AllReturned(given, earlier, returned);
    }

    /** cap_start_streaming: on failure all buffers go back unused. */
    method StartStreaming(inputMatches: bool, enables: bool, creates: bool) returns (ok: bool)
      requires Valid() && !thread
      modifies this
      ensures Valid() && given == old(given)
      ensures ok <==> (inputMatches ==> enables) && creates
      ensures ok ==> thread && running && !stopping && queued == old(queued) && returned == [] && sequence == 0
      ensures !ok ==> !thread && queued == [] && Buffers(earlier) + Buffers(returned) == given
      ensures !ok ==> AllBack([], returned, old(queued), Queued)
      ensures earlier == old(earlier) + old(returned)
    {
      hide Accounted, Numbered, Frames, Buffers;
      AccountRestart(given, earlier, returned, queued);
      stopping, sequence, failed := false, 0, false;
      earlier, returned := earlier + returned, [];
      if inputMatches && !enables {
        failed := true;
        ReturnBuffers(Queued);
        return false;
      }
      if !creates {
        ReturnBuffers(Queued);
        return false;
      }
      thread, running := true, true;
      return true;
    }

    /** The worker looks for work: it ends when told to stop, else it takes the oldest
        buffer, if any. */
    method Take()
      requires Valid() && running && held.None?
      modifies this`queued, this`held, this`running
      ensures Valid()
      ensures running == !stopping
      ensures running && old(queued) != [] ==> held == Some(old(queued)[0]) && queued == old(queued)[1..]
      ensures !running || old(queued) == [] ==> held.None? && queued == old(queued)
    {
      hide Accounted, Numbered, Frames, Buffers;
      if stopping {
        running := false;
      } else if queued != [] {
        AccountTake(given, earlier, returned, queued);
        held, queued := Some(queued[0]), queued[1..];
      }
    }

    /** The worker ends a buffer.  `transferred` says that the transfer, including any wait
        for a lost input to come back, brought a frame with its guard bytes intact; any
        other end stops the worker. */
    method Finish(transferred: bool)
      requires Valid() && running && held.Some?
      modifies this`held, this`running, this`sequence, this`failed, this`returned
      ensures Valid() && held.None?
      ensures var good := transferred && !stopping;
        && running == good
        && returned == old(returned) + [Return(old(held).value, if good then Done(old(sequence)) else Error)]
        && sequence == old(sequence) + (if good then 1 else 0)
        && (failed <==> old(failed) || (!good && !stopping))
    {
      hide Accounted, Numbered, Frames, Buffers;
      var b := held.value;
      if !transferred || stopping {
        if !stopping {
          failed := true;
        }
        AccountReturn(given, earlier, returned, b, queued, Error);
        returned := returned + [Return(b, Error)];
        running := false;
      } else {
        AccountReturn(given, earlier, returned, b, queued, Done(sequence));
        returned := returned + [Return(b, Done(sequence))];
        sequence := sequence + 1;
      }
      held := None;
    }

    /** cap_stop_streaming: the worker sees the flag at its next check and is joined, then
        the list is emptied.  Nothing is left with the driver. */
    method StopStreaming()
      requires Valid()
      modifies this
      ensures Valid() && !thread && !running && held.None? && queued == []
      ensures given == old(given) && Buffers(earlier) + Buffers(returned) == given
      ensures earlier == old(earlier) && sequence == old(sequence)
      ensures AllBack(old(returned), returned, (if old(held).Some? then [old(held).value] else []) + old(queued), Error)
    {
      hide Accounted, Numbered, Frames, Buffers;
      stopping := true;
      if running && held.Some? {
        var transferred: bool := *;
        Finish(transferred);
      }
      if running {
        Take();
      }
      thread := false;
      ReturnBuffers(Error);
    }
  }

  /** A frame given back later in the stream has the higher number. */
  lemma FramesInOrder(returned: seq<Return>, i: nat, j: nat)
    requires Numbered(returned) && i < j < |returned| && returned[i].state.Done? && returned[j].state.Done?
    ensures returned[i].state.sequence < returned[j].state.sequence < Frames(returned)
  {
    hide Frames;
    FramesGrow(returned, i, j);
    FramesGrow(returned, j, |returned|);
    assert returned[..|returned|] == returned;
  }

  lemma {:induction false} FramesGrow(returned: seq<Return>, i: nat, j: nat)
    requires i <= j <= |returned|
    ensures Frames(returned[..i]) <= Frames(returned[..j])
    ensures i < j && returned[i].state.Done? ==> Frames(returned[..i]) < Frames(returned[..j])
    decreases j
  {
    if i < j {
      assert returned[..j][..j - 1] == returned[..j - 1];
      FramesGrow(returned, i, j - 1);
    }
  }
}
