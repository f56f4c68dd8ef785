/**
 The handoff of `WLFrameOutput`: the producer's callback sets one flag under the
 mutex; the run loop tests it, waits at most a quarter of a second when it is
 clear, and takes one frame when it is set.
 */
module FrameHandoff {
  import opened Wayland

  datatype Handoff = Handoff(
    flag: bool,            // mFrameAvailable
    waiting: bool,         // the run loop is inside waitRelative
    queue: seq<Frame>,     // queued by the producer, not yet acquired; first in, first out
    produced: seq<Frame>,  // history: frames queued
    taken: seq<Frame>,     // history: frames acquired
    callbacks: nat,        // history: onFrameAvailable calls
    attempts: nat,         // history: acquisitions attempted
    failures: nat,         // history: attempts that failed with a frame available
    empties: nat,          // history: attempts that found no frame
    coalesced: nat,        // history: callbacks that found the flag already set
    heard: nat,            // history: callbacks made when the last attempt began
    iterations: nat)       // history: returns of inputBufferLocked

  datatype Step =
    | Queue(frame: Frame)    // the producer queues a frame
    | Callback               // its callback runs: one for each frame queued
    | Poll(acquires: bool)   // inputBufferLocked runs until it returns or waits
    | WaitEnds               // the wait is signalled or times out: inputBufferLocked returns

  const START := Handoff(false, false, [], [], [], 0, 0, 0, 0, 0, 0, 0)

  /** The acquisition: a failure leaves the frame in the queue. */
  function Acquire(h: Handoff, acquires: bool): Handoff {
    if h.queue == [] then h.(empties := h.empties + 1)
    else if !acquires then h.(failures := h.failures + 1)
    else h.(taken := h.taken + [h.queue[0]], queue := h.queue[1..])
  }

  function Next(h: Handoff, s: Step): Handoff {
    match s
    case Queue(f) => h.(queue := h.queue + [f], produced := h.produced + [f])
    case Callback =>
      if h.callbacks < |h.produced|
      then h.(flag := true, callbacks := h.callbacks + 1, coalesced := h.coalesced + (if h.flag then 1 else 0))
      else h
    case Poll(acquires) =>
      if h.waiting then h
      else if !h.flag then h.(waiting := true)
      else Acquire(h.(flag := false, attempts := h.attempts + 1, heard := h.callbacks, iterations := h.iterations + 1), acquires)
    case WaitEnds =>
      if h.waiting then h.(waiting := false, iterations := h.iterations + 1) else h
  }

  function Run(h: Handoff, steps: seq<Step>): Handoff
    decreases |steps|
  {
    if steps == [] then h else Run(Next(h, steps[0]), steps[1..])
  }

  predicate Inv(h: Handoff) {
    && h.heard <= h.callbacks && (h.flag <==> h.callbacks > h.heard)
    && h.callbacks == h.attempts + h.coalesced + (if h.flag then 1 else 0)
    && h.callbacks <= |h.produced|
    && h.attempts == |h.taken| + h.failures + h.empties
    && h.taken + h.queue == h.produced
    && h.empties == 0
  }

  lemma NextKeeps(h: Handoff, s: Step)
    requires Inv(h)
    ensures Inv(Next(h, s))
  {
    match s
    case Queue(f) => assert h.taken + (h.queue + [f]) == h.produced + [f];
    case Callback =>
    case Poll(acquires) =>
      if !h.waiting && h.flag {
        assert |h.taken| + |h.queue| == |h.produced|;
        assert h.queue != [];
        assert h.taken + [h.queue[0]] + h.queue[1..] == h.taken + h.queue;
      }
    case WaitEnds =>
  }

  lemma {:induction false} RunKeeps(h: Handoff, steps: seq<Step>)
    requires Inv(h)
    ensures Inv(Run(h, steps))
    decreases |steps|
  {
    if steps != [] {
      NextKeeps(h, steps[0]);
      RunKeeps(Next(h, steps[0]), steps[1..]);
    }
  }

  /**
   Exact accounts in every reachable state: the flag is set exactly when a
   callback has come since the last attempt; no attempt ever finds the queue
   empty; frames leave in the order they came; and the backlog is what was
   coalesced, what failed, what has not called back and what is flagged.
   */
  lemma HandoffAccounts(steps: seq<Step>)
    ensures var h := Run(START, steps);
      && (h.flag <==> h.callbacks > h.heard)
      && h.attempts + (if h.flag then 1 else 0) <= h.callbacks <= |h.produced|
      && h.empties == 0
      && h.taken + h.queue == h.produced
      && |h.queue| == h.coalesced + h.failures + (|h.produced| - h.callbacks) + (if h.flag then 1 else 0)
  {
    RunKeeps(START, steps);
    var h := Run(START, steps);
    assert |h.taken| + |h.queue| == |h.produced|;
  }

  /**
   At rest, with every frame called back and no failure, the frame last taken is
   behind the newest one by exactly the callbacks that were coalesced.
   */
  lemma RestingLag(steps: seq<Step>)
    requires var h := Run(START, steps); !h.flag && h.callbacks == |h.produced| && h.failures == 0
    ensures var h := Run(START, steps);
      && |h.queue| == h.coalesced <= |h.produced|
      && h.taken == h.produced[..|h.produced| - h.coalesced]
  {
    HandoffAccounts(steps);
    var h := Run(START, steps);
    assert h.produced[..|h.taken|] == h.taken;
  }

  // ---------- no lost wake-up ----------

  /** Since `from`, either an acquisition was attempted, or the flag is still set and at most one wait has ended. */
  predicate Woken(from: Handoff, h: Handoff) {
    || h.attempts > from.attempts
    || (&& h.attempts == from.attempts && h.flag
        && (if from.waiting && h.waiting then h.iterations == from.iterations
            else !h.waiting && h.iterations == from.iterations + (if from.waiting then 1 else 0)))
  }

  lemma {:induction false} StaysWoken(from: Handoff, h: Handoff, steps: seq<Step>)
    requires Woken(from, h)
    ensures Woken(from, Run(h, steps))
    decreases |steps|
  {
    if steps != [] {
      assert Woken(from, Next(h, steps[0]));
      StaysWoken(from, Next(h, steps[0]), steps[1..]);
    }
  }

  /** Whatever interleaves after a callback, two returns of inputBufferLocked include an attempt to acquire. */
  lemma NoLostWakeup(h: Handoff, steps: seq<Step>)
    requires h.callbacks < |h.produced|
    ensures var after := Next(h, Callback);
      var later := Run(after, steps);
      later.iterations >= after.iterations + 2 ==> later.attempts > after.attempts
  {
    StaysWoken(Next(h, Callback), Next(h, Callback), steps);
  }

  /** One return is not always enough: a callback that comes during the wait is served by the next iteration. */
  lemma OneReturnMayMiss(f: Frame)
    ensures var h := Run(START, [Poll(true), Queue(f)]);
      var after := Next(h, Callback);
      var later := Run(after, [WaitEnds]);
      later.iterations == after.iterations + 1 && later.attempts == after.attempts
  {
    var h1 := Next(START, Poll(true));
    assert [Poll(true), Queue(f)][1..] == [Queue(f)];
    assert Run(h1, [Queue(f)]) == Run(Next(h1, Queue(f)), [Queue(f)][1..]);
    var h := Next(h1, Queue(f));
    assert Run(START, [Poll(true), Queue(f)]) == h;
    var after := Next(h, Callback);
    assert Run(after, [WaitEnds]) == Run(Next(after, WaitEnds), [WaitEnds][1..]);
  }

  /** Two frames whose callbacks coalesce: at rest, with nothing failed, the second stays in the queue. */
  lemma LagReachable(f: Frame, g: Frame)
    ensures var h := Run(START, [Queue(f), Queue(g), Callback, Callback, Poll(true)]);
      && !h.flag && !h.waiting && h.callbacks == |h.produced| && h.failures == 0
      && h.taken == [f] && h.queue == [g] && h.coalesced == 1
  {
    var steps := [Queue(f), Queue(g), Callback, Callback, Poll(true)];
    var h1 := Next(START, steps[0]);
    var h2 := Next(h1, steps[1]);
    var h3 := Next(h2, steps[2]);
    var h4 := Next(h3, steps[3]);
    var h5 := Next(h4, steps[4]);
    assert Run(h5, steps[5..]) == h5;
    assert Run(h4, steps[4..]) == Run(h5, steps[4..][1..]) && steps[4..][1..] == steps[5..];
    assert Run(h3, steps[3..]) == Run(h4, steps[3..][1..]) && steps[3..][1..] == steps[4..];
    assert Run(h2, steps[2..]) == Run(h3, steps[2..][1..]) && steps[2..][1..] == steps[3..];
    assert Run(h1, steps[1..]) == Run(h2, steps[1..][1..]) && steps[1..][1..] == steps[2..];
    assert Run(START, steps) == Run(h1, steps[1..]);
  }

  lemma {:induction false} RunSnoc(h: Handoff, steps: seq<Step>, s: Step)
    ensures Run(h, steps + [s]) == Next(Run(h, steps), s)
    decreases |steps|
  {
    hide Next;
    if steps == [] {
      assert [] + [s] == [s] && [s][1..] == [];
      assert Run(h, [s]) == Run(Next(h, s), []);
    } else {
      assert (steps + [s])[1..] == steps[1..] + [s];
      RunSnoc(Next(h, steps[0]), steps[1..], s);
    }
  }

  /** The i-th step is a callback that finds the flag already set. */
  predicate CoalescesAt(steps: seq<Step>, i: nat)
    requires i < |steps|
  {
    var h := Run(START, steps[..i]);
    steps[i].Callback? && h.flag && h.callbacks < |h.produced|
  }

  ghost predicate SomeCoalesce(steps: seq<Step>) {
    exists i :: 0 <= i < |steps| && CoalescesAt(steps, i)
  }

  lemma SnocCoalesce(steps: seq<Step>, s: Step)
    ensures SomeCoalesce(steps + [s]) <==> SomeCoalesce(steps) || CoalescesAt(steps + [s], |steps|)
  {
    hide Run;
    var all := steps + [s];
    forall i | 0 <= i < |steps|
      ensures CoalescesAt(all, i) <==> CoalescesAt(steps, i)
    {
      assert all[..i] == steps[..i];
    }
  }

  lemma {:induction false} CoalescedIff(steps: seq<Step>)
    ensures Run(START, steps).coalesced > 0 <==> SomeCoalesce(steps)
    decreases |steps|
  {
    hide CoalescesAt, SomeCoalesce;
    if steps == [] {
      NoneCoalesce();
    } else {
      var before, s := steps[..|steps| - 1], steps[|steps| - 1];
      assert steps == before + [s];
      CoalescedIff(before);
      RunSnoc(START, before, s);
      SnocCoalesce(before, s);
      CoalescesLast(before, s);
    }
  }

  lemma NoneCoalesce()
    ensures !SomeCoalesce([])
  {
  }

  lemma CoalescesLast(steps: seq<Step>, s: Step)
    ensures var h := Run(START, steps);
      CoalescesAt(steps + [s], |steps|) <==> s.Callback? && h.flag && h.callbacks < |h.produced|
  {
    assert (steps + [s])[..|steps|] == steps;
  }

  /** At rest, with every frame called back and no failure, frames are left behind exactly when some callback found the flag set. */
  lemma LeftBehindIff(steps: seq<Step>)
    requires var h := Run(START, steps); !h.flag && h.callbacks == |h.produced| && h.failures == 0
    ensures Run(START, steps).queue != [] <==> SomeCoalesce(steps)
  {
    hide Run, SomeCoalesce;
    RestingLag(steps);
    CoalescedIff(steps);
  }

  /** What has once been coalesced stays behind for good: no later step brings the backlog below it. */
  lemma {:induction false} LagStays(h: Handoff, steps: seq<Step>)
    requires Inv(h)
    ensures |Run(h, steps).queue| >= h.coalesced
    decreases |steps|
  {
    if steps == [] {
      assert |h.taken| + |h.queue| == |h.produced|;
    } else {
      NextKeeps(h, steps[0]);
      LagStays(Next(h, steps[0]), steps[1..]);
    }
  }
}
