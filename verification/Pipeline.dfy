/**
 The whole way of a frame, in one machine: the producer queues it, the run loop
 takes and locks it, which calls pushFrame, and the surface shows it. The calls of
 pushFrame interleave with the producer, with the compositor and with the
 dispatch thread; the loop goes on when pushFrame has returned.
 */
module Pipeline {
  import opened Wrappers
  import opened Compositor
  import opened Wayland
  import W = WindowRun
  import T = WindowTheorems
  import L = FrameLoop
  import C = Consumer
  import H = FrameHandoff

  datatype Step =
    | Queue(frame: Frame)          // the producer queues a frame
    | Callback                     // its callback runs
    | Poll(outcome: L.Outcome)     // inputBufferLocked, up to the push if it locks a frame
    | WaitEnds                     // its wait ends
    | Window(step: W.Step)         // a call of initialize or pushFrame, or an event
    | Return                       // pushFrame has returned: the frame is recorded and unlocked

  /** serving: the results of an iteration whose pushFrame is under way. */
  datatype Joint = Joint(l: L.Loop, m: W.Machine, serving: Option<L.Outcome>)

  function Start(c0: nat, polite: bool, garbage: ObjId): Joint {
    Joint(L.Start(c0), W.Start(true, polite, garbage), None)
  }

  /** The iteration up to and including the lock. */
  function Taken(l: L.Loop, o: L.Outcome): L.Loop {
    L.Loop(H.Next(l.h, H.Poll(o.acquires)), C.LockNext(l.c, true, L.ItemFor(l.h, o), o.slotBuffer, o.lock).0, l.stuckAt)
  }

  /** The rest of the iteration: the unlock, unless the table was overrun. */
  function Given(l: L.Loop, o: L.Outcome): L.Loop {
    if l.c.overrun || !o.lock.Locked? then l else L.AfterLock(l.h, l.c, l.stuckAt, o.lock.address, o.unlock)
  }

  /** The run loop begins after initialize, and stands still inside pushFrame. */
  predicate Ready(j: Joint) {
    j.serving.None? && j.m.pc.Idle? && !j.l.c.overrun
  }

  /** While inputBufferLocked runs it holds the mutex, so no callback gets in; the producer can still queue. */
  function Next(j: Joint, s: Step): Joint {
    match s
    case Queue(f) => j.(l := L.Next(j.l, L.Queue(f)))
    case Callback => if j.serving.Some? then j else j.(l := L.Next(j.l, L.Callback))
    case WaitEnds => if j.serving.Some? then j else j.(l := L.Next(j.l, L.WaitEnds))
    case Poll(o) =>
      if !Ready(j) then j
      else if L.LocksFrom(j.l.h, L.Poll(o)) then Joint(Taken(j.l, o), W.Next(j.m, W.Push(j.l.h.queue[0])), Some(o))
      else j.(l := L.Next(j.l, L.Poll(o)))
    case Window(w) => if w.Push? then j else j.(m := W.Next(j.m, w))
    case Return =>
      if j.serving.Some? && j.m.pc.Idle? then j.(l := Given(j.l, j.serving.value), serving := None) else j
  }

  function Run(j: Joint, steps: seq<Step>): Joint
    decreases |steps|
  {
    if steps == [] then j else Run(Next(j, steps[0]), steps[1..])
  }

  // ---------- the link ----------

  /** pushFrame has been called for exactly the frames locked, and is under way only inside an iteration. */
  predicate Linked(j: Joint) {
    && j.m.pushes == j.l.c.pushed
    && (j.m.pc.Pushing() ==> j.serving.Some?) && (j.serving.Some? ==> !j.m.pc.Booting())
  }

  /** Only Push pushes, and no other step begins a pushFrame or an initialize. */
  predicate NoPush(m: W.Machine, m': W.Machine) {
    m'.pushes == m.pushes && (m'.pc.Pushing() ==> m.pc.Pushing()) && (m'.pc.Booting() ==> m.pc.Booting())
  }

  lemma BootPushes(m: W.Machine)
    requires m.pc.Booting()
    ensures NoPush(m, W.AdvanceBoot(m))
  {
    hide Apply, W.BootCall;
  }

  lemma MakePushes(m: W.Machine)
    requires m.pc.Creating()
    ensures NoPush(m, W.AdvancePush(m))
  {
    hide Apply, CreateBufferCall, ContentOf;
  }

  lemma ListenPushes(m: W.Machine)
    requires m.pc.Mapped? || m.pc.Listening? || m.pc.Attaching?
    ensures NoPush(m, W.AdvancePush(m))
  {
    hide Apply;
  }

  lemma CommitPushes(m: W.Machine)
    requires m.pc.Damaging? || m.pc.Committing? || m.pc.Idle? || m.pc.Crashed?
    ensures NoPush(m, W.AdvancePush(m))
  {
    hide Apply;
  }

  lemma DispatchPushes(m: W.Machine)
    ensures NoPush(m, W.DispatchNext(m))
  {
    hide Apply;
  }

  lemma CompositorPushes(m: W.Machine, w: W.Step)
    requires w.SendConfigure? || w.SendDone? || w.SendSync?
    ensures NoPush(m, W.CompositorStep(m, w))
  {
    hide Apply;
  }

  lemma WindowPushes(m: W.Machine, w: W.Step)
    requires !w.Push?
    ensures NoPush(m, W.Next(m, w))
  {
    hide W.AdvancePush, W.AdvanceBoot, W.DispatchNext, W.CompositorStep;
    if m.pc.Booting() { BootPushes(m); }
    else if m.pc.Creating() { MakePushes(m); }
    else if m.pc.Mapped? || m.pc.Listening? || m.pc.Attaching? { ListenPushes(m); }
    else { CommitPushes(m); }
    DispatchPushes(m);
    if !w.Advance? && !w.Dispatch? {
      CompositorPushes(m, w);
    }
  }

  lemma LoopPushes(l: L.Loop, s: L.Step)
    requires !L.LocksFrom(l.h, s)
    ensures L.Next(l, s).c.pushed == l.c.pushed
  {
    hide C.Find;
  }

  lemma TakenPushes(l: L.Loop, o: L.Outcome)
    requires L.LocksFrom(l.h, L.Poll(o))
    ensures Taken(l, o).c.pushed == l.c.pushed + [l.h.queue[0]]
  {
  }

  lemma GivenKeeps(l: L.Loop, o: L.Outcome)
    ensures Given(l, o).c.pushed == l.c.pushed && Given(l, o).h == l.h && Given(l, o).c.overrun == l.c.overrun
  {
    hide C.Find;
  }

  lemma StepLinked(j: Joint, s: Step)
    requires Linked(j)
    ensures Linked(Next(j, s))
  {
    hide L.Next, W.Next, Taken, Given, L.LocksFrom;
    match s
    case Queue(f) => QuietStep(j.l, L.Queue(f)); LoopPushes(j.l, L.Queue(f));
    case Callback => QuietStep(j.l, L.Callback); LoopPushes(j.l, L.Callback);
    case WaitEnds => QuietStep(j.l, L.WaitEnds); LoopPushes(j.l, L.WaitEnds);
    case Poll(o) =>
      if L.LocksFrom(j.l.h, L.Poll(o)) {
        TakenFrom(j.l.h, o);
        TakenPushes(j.l, o);
        if Ready(j) {
          PushBegins(j.m, j.l.h.queue[0]);
        }
      } else {
        LoopPushes(j.l, L.Poll(o));
      }
    case Window(w) => if !w.Push? { WindowPushes(j.m, w); }
    case Return => if j.serving.Some? { GivenKeeps(j.l, j.serving.value); }
  }

  lemma QuietStep(l: L.Loop, s: L.Step)
    requires !s.Poll?
    ensures !L.LocksFrom(l.h, s)
  {
  }

  lemma TakenFrom(h: H.Handoff, o: L.Outcome)
    requires L.LocksFrom(h, L.Poll(o))
    ensures h.queue != [] && h.flag && !h.waiting && o.acquires && o.lock.Locked?
  {
  }

  lemma PushBegins(m: W.Machine, f: Frame)
    requires m.pc.Idle?
    ensures W.Next(m, W.Push(f)).pushes == m.pushes + [f] && !W.Next(m, W.Push(f)).pc.Booting()
  {
  }

  // ---------- each component runs as it does alone ----------

  /** What a step is to the window manager. */
  function WindowSteps(j: Joint, s: Step): seq<W.Step> {
    match s
    case Window(w) => if w.Push? then [] else [w]
    case Poll(o) => if Ready(j) && L.LocksFrom(j.l.h, L.Poll(o)) then [W.Push(j.l.h.queue[0])] else []
    case _ => []
  }

  /** What a step is to the run loop: an iteration happens, as a whole, when it begins. */
  function LoopSteps(j: Joint, s: Step): seq<L.Step> {
    match s
    case Queue(f) => [L.Queue(f)]
    case Callback => if j.serving.Some? then [] else [L.Callback]
    case WaitEnds => if j.serving.Some? then [] else [L.WaitEnds]
    case Poll(o) => if Ready(j) then [L.Poll(o)] else []
    case _ => []
  }

  function AllWindowSteps(j: Joint, steps: seq<Step>): seq<W.Step>
    decreases |steps|
  {
    if steps == [] then [] else WindowSteps(j, steps[0]) + AllWindowSteps(Next(j, steps[0]), steps[1..])
  }

  function AllLoopSteps(j: Joint, steps: seq<Step>): seq<L.Step>
    decreases |steps|
  {
    if steps == [] then [] else LoopSteps(j, steps[0]) + AllLoopSteps(Next(j, steps[0]), steps[1..])
  }

  /** The run loop once the iteration under way is over. */
  function Settled(j: Joint): L.Loop {
    if j.serving.Some? then Given(j.l, j.serving.value) else j.l
  }

  lemma OneWindow(m: W.Machine, w: W.Step)
    ensures W.Run(m, [w]) == W.Next(m, w) && W.Run(m, []) == m
  {
    hide W.Next;
    assert [w][1..] == [];
  }

  lemma OneLoop(l: L.Loop, s: L.Step)
    ensures L.Run(l, [s]) == L.Next(l, s) && L.Run(l, []) == l
  {
    hide L.Next;
    assert [s][1..] == [];
  }

  lemma WindowAlone(j: Joint, s: Step)
    ensures Next(j, s).m == W.Run(j.m, WindowSteps(j, s))
  {
    hide L.Next, W.Next, W.Run, Taken, Given, L.LocksFrom, Ready;
    OneWindow(j.m, W.Advance);
    if s.Window? {
      OneWindow(j.m, s.step);
    } else if s.Poll? && Ready(j) && L.LocksFrom(j.l.h, L.Poll(s.outcome)) {
      TakenFrom(j.l.h, s.outcome);
      OneWindow(j.m, W.Push(j.l.h.queue[0]));
    }
  }

  /** Taking a frame and giving it back make one iteration. */
  lemma ServeSplits(l: L.Loop, o: L.Outcome)
    requires L.LocksFrom(l.h, L.Poll(o)) && !l.c.overrun
    ensures L.Next(l, L.Poll(o)) == Given(Taken(l, o), o)
  {
    hide H.Next, C.Find, C.Unlock;
  }

  /** Queueing a frame and finishing the iteration commute. */
  lemma QueueCommutes(l: L.Loop, o: L.Outcome, f: Frame)
    ensures Given(L.Next(l, L.Queue(f)), o) == L.Next(Given(l, o), L.Queue(f))
  {
    hide H.Next, C.Unlock;
    GivenKeeps(l, o);
  }

  lemma LoopAlone(j: Joint, s: Step)
    ensures Settled(Next(j, s)) == L.Run(Settled(j), LoopSteps(j, s))
  {
    hide L.Next, L.Run, W.Next, Taken, Given, L.LocksFrom;
    OneLoop(Settled(j), L.WaitEnds);
    OneLoop(Settled(j), L.Callback);
    match s
    case Queue(f) =>
      OneLoop(Settled(j), L.Queue(f));
      if j.serving.Some? {
        QueueCommutes(j.l, j.serving.value, f);
      }
    case Poll(o) =>
      OneLoop(Settled(j), L.Poll(o));
      if Ready(j) && L.LocksFrom(j.l.h, L.Poll(o)) {
        ServeSplits(j.l, o);
      }
    case _ =>
  }

  lemma {:induction false} LoopRunConcat(l: L.Loop, a: seq<L.Step>, b: seq<L.Step>)
    ensures L.Run(l, a + b) == L.Run(L.Run(l, a), b)
    decreases |a|
  {
    hide L.Next;
    if a == [] {
      assert a + b == b;
    } else {
      assert (a + b)[1..] == a[1..] + b;
      LoopRunConcat(L.Next(l, a[0]), a[1..], b);
    }
  }

  /** In every joint run the window manager runs as it would alone, and so does the loop, up to the iteration under way. */
  lemma {:induction false} ComponentsAlone(j: Joint, steps: seq<Step>)
    ensures Run(j, steps).m == W.Run(j.m, AllWindowSteps(j, steps))
    ensures Settled(Run(j, steps)) == L.Run(Settled(j), AllLoopSteps(j, steps))
    ensures Linked(j) ==> Linked(Run(j, steps))
    decreases |steps|
  {
    hide Next, Settled, WindowSteps, LoopSteps, Linked, W.Next, L.Next;
    if steps != [] {
      var next := Next(j, steps[0]);
      WindowAlone(j, steps[0]);
      LoopAlone(j, steps[0]);
      if Linked(j) {
        StepLinked(j, steps[0]);
      }
      ComponentsAlone(next, steps[1..]);
      W.RunConcat(j.m, WindowSteps(j, steps[0]), AllWindowSteps(next, steps[1..]));
      LoopRunConcat(Settled(j), LoopSteps(j, steps[0]), AllLoopSteps(next, steps[1..]));
    }
  }

  // ---------- end to end ----------

  /** Every poll of the run meets results that satisfy good. */
  predicate AllOutcomes(steps: seq<Step>, good: L.Outcome -> bool) {
    forall i :: 0 <= i < |steps| && steps[i].Poll? ==> good(steps[i].outcome)
  }

  predicate LoopOutcomes(steps: seq<L.Step>, good: L.Outcome -> bool) {
    forall i :: 0 <= i < |steps| && steps[i].Poll? ==> good(steps[i].outcome)
  }

  lemma {:induction false} OutcomesCarryOver(j: Joint, steps: seq<Step>, good: L.Outcome -> bool)
    requires AllOutcomes(steps, good)
    ensures LoopOutcomes(AllLoopSteps(j, steps), good)
    decreases |steps|
  {
    hide Next;
    if steps != [] {
      assert steps[0].Poll? ==> good(steps[0].outcome);
      forall i | 0 <= i < |steps| - 1 ensures steps[1..][i] == steps[i + 1] {}
      OutcomesCarryOver(Next(j, steps[0]), steps[1..], good);
    }
  }

  predicate Addressed(o: L.Outcome) {
    o.lock.Locked? ==> o.lock.address != C.UNUSED_ID
  }

  predicate Lockable(o: L.Outcome) {
    o.lock.Locked?
  }

  predicate Unlockable(o: L.Outcome) {
    o.unlock.Unlocked?
  }

  /** How far the frames pushed are behind the frames produced. */
  function Lag(h: H.Handoff): int {
    h.coalesced + h.failures + (|h.produced| - h.callbacks) + (if h.flag then 1 else 0)
  }

  /** The compositor configures before it answers the roundtrip, or has raised no error all the same. */
  predicate Accepted(c0: nat, polite: bool, garbage: ObjId, steps: seq<Step>) {
    polite || Run(Start(c0, polite, garbage), steps).m.server.error.None?
  }

  /**
   In every state of every joint run, whatever fails: pushFrame has been called for
   exactly the frames locked, each once and in order, and the surface has shown all
   of them but the one whose pushFrame is under way.
   */
  lemma PushesAreLocks(c0: nat, polite: bool, garbage: ObjId, steps: seq<Step>)
    requires Accepted(c0, polite, garbage, steps)
    ensures var j := Run(Start(c0, polite, garbage), steps);
      && j.m.pushes == j.l.c.pushed
      && |j.m.server.presented| + (if j.m.pc.Pushing() then 1 else 0) == |j.l.c.pushed|
      && (j.m.pc.Pushing() ==> j.serving.Some?)
  {
    hide Run, T.Reached, L.Start;
    var start := Start(c0, polite, garbage);
    assert Linked(start) by { StartsEmpty(c0); }
    ComponentsAlone(start, steps);
    ReachedIsRun(polite, garbage, AllWindowSteps(start, steps));
    T.ShownContents(true, polite, garbage, AllWindowSteps(start, steps));
  }

  lemma StartsEmpty(c0: nat)
    ensures L.Start(c0).c.pushed == []
  {
  }

  lemma ReachedIsRun(polite: bool, garbage: ObjId, calls: seq<W.Step>)
    ensures T.Reached(true, polite, garbage, calls) == W.Run(W.Start(true, polite, garbage), calls)
  {
  }

  /** In the loop alone: the frames pushed, followed by those still queued, are those produced. */
  lemma LoopAccounts(c0: nat, steps: seq<L.Step>)
    requires c0 < C.SIZE_T && L.AllNonNull(steps) && L.LocksSucceed(steps)
    ensures var l := L.Run(L.Start(c0), steps);
      && l.c.pushed + l.h.queue == l.h.produced
      && |l.h.queue| == Lag(l.h)
  {
    hide L.Run, L.EntryOk, C.Inv;
    L.StartInv(c0);
    L.RunKeeps(L.Start(c0), c0, steps);
    var l := L.Run(L.Start(c0), steps);
    assert L.Start(c0).c.abandoned == [];
    assert |l.h.taken| + |l.h.queue| == |l.h.produced|;
  }

  /** The same in the joint machine, at every moment of an iteration. */
  lemma PushedIsProduced(c0: nat, polite: bool, garbage: ObjId, steps: seq<Step>)
    requires c0 < C.SIZE_T && AllOutcomes(steps, Addressed) && AllOutcomes(steps, Lockable)
    ensures var j := Run(Start(c0, polite, garbage), steps);
      && j.l.c.pushed + j.l.h.queue == j.l.h.produced && |j.l.h.queue| == Lag(j.l.h)
  {
    hide Run, L.Run, Lag;
    var start := Start(c0, polite, garbage);
    ComponentsAlone(start, steps);
    OutcomesCarryOver(start, steps, Addressed);
    OutcomesCarryOver(start, steps, Lockable);
    LoopAccounts(c0, AllLoopSteps(start, steps));
    var j := Run(start, steps);
    if j.serving.Some? {
      GivenKeeps(j.l, j.serving.value);
    }
  }

  /**
   From producer to surface, in every state: with no failed lock, what the surface
   has shown is exactly the frames the producer queued, in order and rebuilt to the
   descriptor, short of the lag (frames coalesced, not acquired, not called back, or
   just flagged) and of the one being pushed, if and only if handles are stable
   among those frames.
   */
  lemma ShowsWhatWasProduced(c0: nat, polite: bool, garbage: ObjId, steps: seq<Step>)
    requires c0 < C.SIZE_T && AllOutcomes(steps, Addressed) && AllOutcomes(steps, Lockable)
    requires Accepted(c0, polite, garbage, steps)
    ensures var j := Run(Start(c0, polite, garbage), steps);
      var n := |j.l.h.produced| - Lag(j.l.h) - (if j.m.pc.Pushing() then 1 else 0);
      && 0 <= n <= |j.l.h.produced|
      && (j.m.server.presented == T.Intended(j.l.h.produced[..n]) <==> T.Stable(j.l.h.produced[..n]))
      && (T.Stable(j.l.h.produced[..n]) ==> |j.m.server.presented| == n && forall i :: 0 <= i < n ==>
            var shown, f := j.m.server.presented[i], j.l.h.produced[i];
            && shown.content.native == f.native && shown.content.width == f.width && shown.content.height == f.height
            && shown.content.stride == f.stride && shown.content.format == f.format
            && shown.damage == Some((f.width, f.height)))
  {
    hide Run, T.Reached, T.Intended, T.Stable, Lag;
    var start := Start(c0, polite, garbage);
    var calls := AllWindowSteps(start, steps);
    PushesAreLocks(c0, polite, garbage, steps);
    PushedIsProduced(c0, polite, garbage, steps);
    ComponentsAlone(start, steps);
    ReachedIsRun(polite, garbage, calls);
    T.ShowsPushedIffStable(polite, garbage, calls);
    var j := Run(start, steps);
    var n := |j.m.server.presented|;
    assert T.Completed(j.m) == j.l.h.produced[..n];
    IntendedFields(j.l.h.produced, n);
  }

  lemma IntendedFields(frames: seq<Frame>, n: nat)
    requires n <= |frames|
    ensures var shown := T.Intended(frames[..n]);
      |shown| == n && forall i :: 0 <= i < n ==>
        && shown[i].content.native == frames[i].native
        && shown[i].content.width == frames[i].width && shown[i].content.height == frames[i].height
        && shown[i].content.stride == frames[i].stride && shown[i].content.format == frames[i].format
        && shown[i].damage == Some((frames[i].width, frames[i].height))
  {
    forall i | 0 <= i < n
      ensures T.Intended(frames[..n])[i].content.native == frames[i].native
      ensures T.Intended(frames[..n])[i].content.width == frames[i].width
      ensures T.Intended(frames[..n])[i].content.height == frames[i].height
      ensures T.Intended(frames[..n])[i].content.stride == frames[i].stride
      ensures T.Intended(frames[..n])[i].content.format == frames[i].format
      ensures T.Intended(frames[..n])[i].damage == Some((frames[i].width, frames[i].height))
    {
      T.UpdateFields(frames[i], frames[i]);
    }
  }

  /** With unlocks that succeed, the one entry is free whenever the loop is about to take a frame. */
  lemma FreeWhenReady(c0: nat, polite: bool, garbage: ObjId, steps: seq<Step>)
    requires c0 < C.SIZE_T && AllOutcomes(steps, Addressed) && AllOutcomes(steps, Unlockable)
    ensures var j := Run(Start(c0, polite, garbage), steps);
      && !j.l.c.overrun && (j.serving.None? ==> C.HasFree(j.l.c.table) && j.l.c.released == j.l.c.locks)
  {
    hide Run, L.Run, C.HasFree;
    var start := Start(c0, polite, garbage);
    ComponentsAlone(start, steps);
    OutcomesCarryOver(start, steps, Addressed);
    OutcomesCarryOver(start, steps, Unlockable);
    L.TableAlwaysFree(c0, AllLoopSteps(start, steps));
    var j := Run(start, steps);
    if j.serving.Some? {
      GivenKeeps(j.l, j.serving.value);
    }
  }
}
