/**
 `VirtualDisplayManager::run`: inputBufferLocked over and over, driving a
 `WLConsumer` whose table has one entry. Each frame taken is locked, which also
 pushes it to the compositor, and unlocked at once.
 */
module FrameLoop {
  import opened Wrappers
  import opened Wayland
  import C = Consumer
  import H = FrameHandoff

  /** What the calls of one iteration return. */
  datatype Outcome = Outcome(acquires: bool, slot: int, slotBuffer: Frame, lock: C.LockResult, unlock: C.UnlockResult)

  datatype Step =
    | Queue(frame: Frame)
    | Callback
    | Poll(outcome: Outcome)
    | WaitEnds

  datatype Loop = Loop(
    h: H.Handoff,
    c: C.State,
    stuckAt: Option<nat>) // history: locks made when an unlock first failed

  const TABLE_SIZE := 1

  function Start(c0: nat): Loop {
    Loop(H.START, C.Start(TABLE_SIZE, c0), None)
  }

  function ItemFor(h: H.Handoff, o: Outcome): C.AcquireResult {
    if h.queue == [] then C.NoBufferAvailable
    else if !o.acquires then C.AcquireFailed(-1)
    else C.Acquired(o.slot, Some(h.queue[0]))
  }

  /** The buffer is unlocked where it was locked; the result is not looked at. */
  function AfterLock(h: H.Handoff, c: C.State, stuckAt: Option<nat>, address: nat, result: C.UnlockResult): Loop {
    var (c', status) := C.Unlock(c, address, result);
    Loop(h, c', if status != C.Ok && stuckAt.None? then Some(|c.locks|) else stuckAt)
  }

  /** The part of inputBufferLocked after the flag is reset. */
  function Serve(l: Loop, o: Outcome): Loop {
    var h := H.Next(l.h, H.Poll(o.acquires));
    match o.lock
    case LockFailed(_) => Loop(h, C.LockNext(l.c, true, ItemFor(l.h, o), o.slotBuffer, o.lock).0, l.stuckAt)
    case Locked(address) =>
      var (c, status) := C.LockNext(l.c, true, ItemFor(l.h, o), o.slotBuffer, o.lock);
      if status != C.Ok || c.overrun then Loop(h, c, l.stuckAt)
      else AfterLock(h, c, l.stuckAt, address, o.unlock)
  }

  /** Once memory beyond the table is written nothing more is said. */
  function Next(l: Loop, s: Step): Loop {
    if l.c.overrun then l
    else match s
      case Queue(f) => l.(h := H.Next(l.h, H.Queue(f)))
      case Callback => l.(h := H.Next(l.h, H.Callback))
      case WaitEnds => l.(h := H.Next(l.h, H.WaitEnds))
      case Poll(o) =>
        if l.h.waiting || !l.h.flag then l.(h := H.Next(l.h, H.Poll(o.acquires))) else Serve(l, o)
  }

  function Run(l: Loop, steps: seq<Step>): Loop
    decreases |steps|
  {
    if steps == [] then l else Run(Next(l, steps[0]), steps[1..])
  }

  /** A successful lockAsync gives a non-null address. */
  predicate NonNull(s: Step) {
    s.Poll? && s.outcome.lock.Locked? ==> s.outcome.lock.address != C.UNUSED_ID
  }

  predicate AllNonNull(steps: seq<Step>) {
    forall i :: 0 <= i < |steps| ==> NonNull(steps[i])
  }

  predicate UnlocksSucceed(steps: seq<Step>) {
    forall i :: 0 <= i < |steps| && steps[i].Poll? ==> steps[i].outcome.unlock.Unlocked?
  }

  predicate LocksSucceed(steps: seq<Step>) {
    forall i :: 0 <= i < |steps| && steps[i].Poll? ==> steps[i].outcome.lock.Locked?
  }

  function HeldBuffers(held: seq<C.Held>): seq<Frame> {
    seq(|held|, i requires 0 <= i < |held| => held[i].buffer)
  }

  /** The one entry: free and everything released, or taken for good by a failed unlock. */
  ghost predicate EntryOk(c: C.State, stuckAt: Option<nat>) {
    && |c.table| == TABLE_SIZE
    && (c.overrun ==> stuckAt.Some? && |c.locks| > stuckAt.value)
    && (!c.overrun && stuckAt.None? ==> !c.table[0].Used() && c.released == c.locks)
    && (!c.overrun && stuckAt.Some? ==> c.table[0].Used() && |c.locks| == stuckAt.value)
  }

  ghost predicate Inv(l: Loop, c0: nat) {
    && H.Inv(l.h)
    && EntryOk(l.c, l.stuckAt)
    && (!l.c.overrun ==> C.Inv(l.c, c0))
    && HeldBuffers(l.c.acquired) == l.h.taken
    && l.c.pushed == C.BuffersOf(l.c.locks)
    && (l.c.abandoned == [] ==> l.c.pushed == l.h.taken)
  }

  lemma StartInv(c0: nat)
    requires c0 < C.SIZE_T
    ensures Inv(Start(c0), c0) && Start(c0).stuckAt.None?
  {
    hide C.Inv;
    C.StartInv(TABLE_SIZE, c0);
    var l := Start(c0);
    assert HeldBuffers(l.c.acquired) == [] && C.BuffersOf(l.c.locks) == [];
  }

  /** An iteration that takes no buffer, or cannot lock it. */
  lemma FruitlessKeeps(l: Loop, c0: nat, o: Outcome)
    requires Inv(l, c0) && !l.c.overrun && l.h.flag && !l.h.waiting
    requires l.h.queue == [] || !o.acquires || o.lock.LockFailed?
    ensures Inv(Serve(l, o), c0) && !Serve(l, o).c.overrun && Serve(l, o).stuckAt == l.stuckAt
  {
    hide H.Inv, C.Inv;
    H.NextKeeps(l.h, H.Poll(o.acquires));
    if l.h.queue != [] && o.acquires {
      C.AbandonKeeps(l.c, c0, C.Held(o.slot, l.h.queue[0]));
      assert HeldBuffers(l.c.acquired + [C.Held(o.slot, l.h.queue[0])]) == l.h.taken + [l.h.queue[0]];
    }
  }

  /** A lock that succeeds while the entry is taken overruns the table. */
  lemma OverrunKeeps(l: Loop, c0: nat, o: Outcome)
    requires Inv(l, c0) && !l.c.overrun && l.h.flag && !l.h.waiting
    requires l.h.queue != [] && o.acquires && o.lock.Locked? && l.stuckAt.Some?
    ensures Inv(Serve(l, o), c0) && Serve(l, o).c.overrun
  {
    hide H.Inv, C.Inv;
    H.NextKeeps(l.h, H.Poll(o.acquires));
    C.HistorySnoc(l.c.locks, C.Record(o.slot, l.h.queue[0], o.lock.address));
    assert HeldBuffers(l.c.acquired + [C.Held(o.slot, l.h.queue[0])]) == l.h.taken + [l.h.queue[0]];
  }

  /** A lock that succeeds with the entry free is undone by its unlock, or leaves the entry taken. */
  lemma FruitfulKeeps(l: Loop, c0: nat, o: Outcome)
    requires Inv(l, c0) && !l.c.overrun && l.h.flag && !l.h.waiting
    requires l.h.queue != [] && o.acquires && o.lock.Locked? && o.lock.address != C.UNUSED_ID && l.stuckAt.None?
    ensures Inv(Serve(l, o), c0) && !Serve(l, o).c.overrun
    ensures Serve(l, o).stuckAt.Some? <==> o.unlock.UnlockFailed?
  {
    hide H.Inv, C.Inv, C.LatestAt, C.HeldBy;
    var f, a := l.h.queue[0], o.lock.address;
    var r := C.Record(o.slot, f, a);
    H.NextKeeps(l.h, H.Poll(o.acquires));
    C.LockKeeps(l.c, c0, o.slot, C.Acquired(o.slot, Some(f)), o.slotBuffer, a);
    var c1 := C.LockNext(l.c, true, C.Acquired(o.slot, Some(f)), o.slotBuffer, o.lock).0;
    assert c1.table == [C.AcquiredBuffer(o.slot, Some(f), a)];
    C.HistorySnoc(l.c.locks, r);
    assert HeldBuffers(l.c.acquired + [C.Held(o.slot, f)]) == l.h.taken + [f];
    if o.unlock.Unlocked? {
      C.UnlockKeeps(c1, c0, a);
    }
  }

  lemma NextKeeps(l: Loop, c0: nat, s: Step)
    requires Inv(l, c0) && NonNull(s)
    ensures Inv(Next(l, s), c0)
    ensures (s.Poll? ==> s.outcome.unlock.Unlocked?) ==> Next(l, s).stuckAt == l.stuckAt
    ensures (s.Poll? ==> s.outcome.lock.Locked?) ==> Next(l, s).c.abandoned == l.c.abandoned
  {
    hide H.Inv, C.Inv, H.Next, Serve, EntryOk;
    if !l.c.overrun {
      match s
      case Queue(f) => H.NextKeeps(l.h, H.Queue(f)); QuietHandoff(l.h, H.Queue(f));
      case Callback => H.NextKeeps(l.h, H.Callback); QuietHandoff(l.h, H.Callback);
      case WaitEnds => H.NextKeeps(l.h, H.WaitEnds); QuietHandoff(l.h, H.WaitEnds);
      case Poll(o) =>
        if l.h.waiting || !l.h.flag {
          H.NextKeeps(l.h, H.Poll(o.acquires));
          QuietHandoff(l.h, H.Poll(o.acquires));
        } else if l.h.queue == [] || !o.acquires || o.lock.LockFailed? {
          FruitlessKeeps(l, c0, o);
          AbandonsOnlyOnFailure(l, o);
        } else if l.stuckAt.Some? {
          OverrunKeeps(l, c0, o);
          StuckStays(l, o);
          AbandonsOnlyOnFailure(l, o);
        } else {
          FruitfulKeeps(l, c0, o);
          AbandonsOnlyOnFailure(l, o);
        }
    }
  }

  lemma StuckStays(l: Loop, o: Outcome)
    requires l.stuckAt.Some?
    ensures Serve(l, o).stuckAt == l.stuckAt
  {
  }

  lemma AbandonsOnlyOnFailure(l: Loop, o: Outcome)
    ensures o.lock.Locked? ==> Serve(l, o).c.abandoned == l.c.abandoned
  {
  }

  lemma QuietHandoff(h: H.Handoff, s: H.Step)
    requires s.Poll? ==> h.waiting || !h.flag
    ensures H.Next(h, s).taken == h.taken
  {
  }

  lemma {:induction false} RunKeeps(l: Loop, c0: nat, steps: seq<Step>)
    requires Inv(l, c0) && AllNonNull(steps)
    ensures Inv(Run(l, steps), c0)
    ensures UnlocksSucceed(steps) ==> Run(l, steps).stuckAt == l.stuckAt
    ensures LocksSucceed(steps) ==> Run(l, steps).c.abandoned == l.c.abandoned
    decreases |steps|
  {
    hide Inv, Next;
    if steps != [] {
      NextKeeps(l, c0, steps[0]);
      RunKeeps(Next(l, steps[0]), c0, steps[1..]);
    }
  }

  /**
   If unlocking never fails, then in every reachable state every entry is unused
   and the counter has its initial value: the unchecked search of the next
   lockNextBuffer is in bounds. Every buffer locked has been released, in
   order, and the frames pushed to the compositor are exactly the buffers
   locked, in the order they were acquired.
   */
  lemma TableAlwaysFree(c0: nat, steps: seq<Step>)
    requires c0 < C.SIZE_T && AllNonNull(steps) && UnlocksSucceed(steps)
    ensures var l := Run(Start(c0), steps);
      && !l.c.overrun
      && (forall i :: 0 <= i < |l.c.table| ==> !l.c.table[i].Used())
      && C.HasFree(l.c.table)
      && l.c.count == c0
      && l.c.released == l.c.locks
      && l.c.pushed == C.BuffersOf(l.c.locks)
      && HeldBuffers(l.c.acquired) + l.h.queue == l.h.produced
  {
    hide Run, Start, C.DistinctIds, C.Recorded, C.Balanced;
    StartInv(c0);
    RunKeeps(Start(c0), c0, steps);
    var l := Run(Start(c0), steps);
    assert C.Occupied(l.c.table) == 0 by {
      assert l.c.table[..0] == [];
    }
  }

  // ---------- the loop drives the table ----------

  /** What one step does to the table: nothing, a lock, or a lock and its unlock. */
  function TableOps(l: Loop, s: Step): seq<C.Op> {
    if l.c.overrun || !s.Poll? || l.h.waiting || !l.h.flag then []
    else
      var o := s.outcome;
      var lock := C.LockOp(true, ItemFor(l.h, o), o.slotBuffer, o.lock);
      if !o.lock.Locked? || !C.Acquires(lock) || C.Apply(l.c, lock).overrun then [lock]
      else [lock, C.UnlockOp(o.lock.address, o.unlock)]
  }

  function AllTableOps(l: Loop, steps: seq<Step>): seq<C.Op>
    decreases |steps|
  {
    if steps == [] then [] else TableOps(l, steps[0]) + AllTableOps(Next(l, steps[0]), steps[1..])
  }

  lemma StepDrives(l: Loop, s: Step)
    ensures Next(l, s).c == C.Run(l.c, TableOps(l, s))
  {
    hide H.Next, C.LockNext, C.Unlock;
    var ops := TableOps(l, s);
    if ops != [] {
      LockStatus(l.c, ItemFor(l.h, s.outcome), s.outcome.slotBuffer, s.outcome.lock);
      var c := C.Apply(l.c, ops[0]);
      if |ops| == 1 {
        assert ops[1..] == [];
        assert C.Run(c, []) == c;
      } else {
        assert ops[1..][1..] == [];
        assert C.Run(C.Apply(c, ops[1]), []) == C.Apply(c, ops[1]);
      }
    }
  }

  lemma LockStatus(c: C.State, item: C.AcquireResult, slotBuffer: Frame, lock: C.LockResult)
    ensures C.LockNext(c, true, item, slotBuffer, lock).1 == C.Ok <==> item.Acquired? && lock.Locked?
  {
  }

  lemma {:induction false} TableRunConcat(c: C.State, a: seq<C.Op>, b: seq<C.Op>)
    ensures C.Run(c, a + b) == C.Run(C.Run(c, a), b)
    decreases |a|
  {
    if a == [] {
      assert a + b == b;
    } else {
      assert (a + b)[1..] == a[1..] + b;
      TableRunConcat(C.Apply(c, a[0]), a[1..], b);
    }
  }

  /** A run of the loop takes the table through a run of the operations it makes. */
  lemma {:induction false} LoopDrives(l: Loop, steps: seq<Step>)
    ensures Run(l, steps).c == C.Run(l.c, AllTableOps(l, steps))
    decreases |steps|
  {
    hide Next, TableOps, C.Apply;
    if steps != [] {
      StepDrives(l, steps[0]);
      LoopDrives(Next(l, steps[0]), steps[1..]);
      TableRunConcat(l.c, TableOps(l, steps[0]), AllTableOps(Next(l, steps[0]), steps[1..]));
    }
  }

  /**
   Whatever fails: the items acquired are the frames taken from the queue, in
   order; the frames pushed are those of them whose lock succeeded, in the same
   order; and those whose lock failed are abandoned.
   */
  lemma PushedInAcquireOrder(c0: nat, steps: seq<Step>)
    requires c0 < C.SIZE_T && AllNonNull(steps)
    ensures var l, ops := Run(Start(c0), steps), AllTableOps(Start(c0), steps);
      && l.c.acquired == C.ItemsOf(ops, C.AnyResult)
      && l.c.pushed == HeldBuffers(C.ItemsOf(ops, C.Succeeded))
      && l.c.abandoned == C.ItemsOf(ops, C.LockRefused)
      && HeldBuffers(l.c.acquired) + l.h.queue == l.h.produced
  {
    hide Run, C.Run, C.Inv, EntryOk, C.ItemsOf, AllTableOps;
    LoopDrives(Start(c0), steps);
    C.LocksInAcquireOrder(Start(c0).c, AllTableOps(Start(c0), steps));
    StartInv(c0);
    RunKeeps(Start(c0), c0, steps);
    assert C.HeldBy(Start(c0).c.locks) == [];
    var l := Run(Start(c0), steps);
    assert l.c.pushed == HeldBuffers(C.HeldBy(l.c.locks));
  }

  // ---------- when the table is overrun, from the steps alone ----------

  function HandoffStep(s: Step): H.Step {
    match s
    case Queue(f) => H.Queue(f)
    case Callback => H.Callback
    case Poll(o) => H.Poll(o.acquires)
    case WaitEnds => H.WaitEnds
  }

  function HandoffSteps(steps: seq<Step>): seq<H.Step> {
    seq(|steps|, i requires 0 <= i < |steps| => HandoffStep(steps[i]))
  }

  /** A poll that finds the flag set takes a frame and locks it. */
  predicate LocksFrom(h: H.Handoff, s: Step) {
    && s.Poll? && h.flag && !h.waiting && h.queue != []
    && s.outcome.acquires && s.outcome.lock.Locked?
  }

  /** The i-th step locks a frame: the handoff is given by the steps before it, whatever locks and unlocks return. */
  predicate LocksAt(steps: seq<Step>, i: nat)
    requires i < |steps|
  {
    LocksFrom(H.Run(H.START, HandoffSteps(steps[..i])), steps[i])
  }

  /** The i-th step locks a frame and cannot unlock it. */
  predicate StaysLocked(steps: seq<Step>, i: nat)
    requires i < |steps|
  {
    LocksAt(steps, i) && steps[i].outcome.unlock.UnlockFailed?
  }

  ghost predicate SomeStaysLocked(steps: seq<Step>) {
    exists i :: 0 <= i < |steps| && StaysLocked(steps, i)
  }

  ghost predicate LockAfterFailure(steps: seq<Step>) {
    exists i, j :: 0 <= i < j < |steps| && StaysLocked(steps, i) && LocksAt(steps, j)
  }

  lemma {:induction false} RunSnoc(l: Loop, steps: seq<Step>, s: Step)
    ensures Run(l, steps + [s]) == Next(Run(l, steps), s)
    decreases |steps|
  {
    hide Next;
    if steps == [] {
      assert [] + [s] == [s] && [s][1..] == [];
      assert Run(l, [s]) == Run(Next(l, s), []);
    } else {
      assert (steps + [s])[1..] == steps[1..] + [s];
      RunSnoc(Next(l, steps[0]), steps[1..], s);
    }
  }

  lemma PollEffect(l: Loop, c0: nat, s: Step)
    requires Inv(l, c0) && !l.c.overrun && NonNull(s) && s.Poll? && l.h.flag && !l.h.waiting
    ensures var l' := Next(l, s);
      && l'.h == H.Next(l.h, HandoffStep(s))
      && (l'.c.overrun <==> LocksFrom(l.h, s) && l.stuckAt.Some?)
      && (!l'.c.overrun ==>
            (l'.stuckAt.Some? <==> l.stuckAt.Some? || (LocksFrom(l.h, s) && s.outcome.unlock.UnlockFailed?)))
  {
    hide Inv, H.Next, C.LockNext, C.Unlock;
    var o := s.outcome;
    if l.h.queue == [] || !o.acquires || o.lock.LockFailed? {
      FruitlessKeeps(l, c0, o);
    } else if l.stuckAt.Some? {
      OverrunKeeps(l, c0, o);
    } else {
      FruitfulKeeps(l, c0, o);
    }
  }

  lemma StepEffect(l: Loop, c0: nat, s: Step)
    requires Inv(l, c0) && !l.c.overrun && NonNull(s)
    ensures var l' := Next(l, s);
      && l'.h == H.Next(l.h, HandoffStep(s))
      && (l'.c.overrun <==> LocksFrom(l.h, s) && l.stuckAt.Some?)
      && (!l'.c.overrun ==>
            (l'.stuckAt.Some? <==> l.stuckAt.Some? || (LocksFrom(l.h, s) && s.outcome.unlock.UnlockFailed?)))
  {
    hide Inv, H.Next, Serve;
    if s.Poll? && l.h.flag && !l.h.waiting {
      PollEffect(l, c0, s);
    }
  }

  lemma SnocLocks(steps: seq<Step>, s: Step)
    ensures var all, locks := steps + [s], LocksFrom(H.Run(H.START, HandoffSteps(steps)), s);
      && (LocksAt(all, |steps|) <==> locks)
      && (StaysLocked(all, |steps|) <==> locks && s.outcome.unlock.UnlockFailed?)
      && (forall i :: 0 <= i < |steps| ==>
            && (LocksAt(all, i) <==> LocksAt(steps, i)) && (StaysLocked(all, i) <==> StaysLocked(steps, i)))
  {
    hide H.Run;
    var all := steps + [s];
    assert all[..|steps|] == steps;
    forall i | 0 <= i < |steps|
      ensures all[..i] == steps[..i] && all[i] == steps[i]
    {
    }
  }

  lemma SnocFailure(steps: seq<Step>, s: Step)
    ensures var all, locks := steps + [s], LocksFrom(H.Run(H.START, HandoffSteps(steps)), s);
      && (SomeStaysLocked(all) <==> SomeStaysLocked(steps) || (locks && s.outcome.unlock.UnlockFailed?))
      && (LockAfterFailure(all) <==> LockAfterFailure(steps) || (locks && SomeStaysLocked(steps)))
  {
    hide LocksAt, LocksFrom, HandoffSteps, H.Run;
    var all, n := steps + [s], |steps|;
    SnocLocks(steps, s);
    if SomeStaysLocked(steps) {
      var i :| 0 <= i < n && StaysLocked(steps, i);
      assert StaysLocked(all, i);
      if LocksAt(all, n) {
        assert LockAfterFailure(all);
      }
    }
    if LockAfterFailure(steps) {
      var i, j :| 0 <= i < j < n && StaysLocked(steps, i) && LocksAt(steps, j);
      assert StaysLocked(all, i) && LocksAt(all, j);
    }
    if LockAfterFailure(all) {
      var i, j :| 0 <= i < j < |all| && StaysLocked(all, i) && LocksAt(all, j);
      assert StaysLocked(steps, i);
    }
  }

  lemma {:induction false} FailureTracks(c0: nat, steps: seq<Step>)
    requires c0 < C.SIZE_T && AllNonNull(steps)
    ensures var l := Run(Start(c0), steps);
      && Inv(l, c0)
      && (l.c.overrun <==> LockAfterFailure(steps))
      && (!l.c.overrun ==>
            l.h == H.Run(H.START, HandoffSteps(steps)) && (l.stuckAt.Some? <==> SomeStaysLocked(steps)))
    decreases |steps|
  {
    hide Inv, Next, H.Next, LockAfterFailure, SomeStaysLocked, LocksFrom;
    if steps == [] {
      StartInv(c0);
      NothingYet();
    } else {
      var k := |steps| - 1;
      var before, s := steps[..k], steps[k];
      assert steps == before + [s];
      FailureTracks(c0, before);
      var l := Run(Start(c0), before);
      RunSnoc(Start(c0), before, s);
      NextKeeps(l, c0, s);
      SnocFailure(before, s);
      if l.c.overrun {
        OverrunStays(l, s);
      } else {
        StepEffect(l, c0, s);
        H.RunSnoc(H.START, HandoffSteps(before), HandoffStep(s));
        assert HandoffSteps(steps) == HandoffSteps(before) + [HandoffStep(s)];
      }
    }
  }

  lemma NothingYet()
    ensures !LockAfterFailure([]) && !SomeStaysLocked([]) && HandoffSteps([]) == []
  {
  }

  lemma OverrunStays(l: Loop, s: Step)
    requires l.c.overrun
    ensures Next(l, s) == l
  {
  }

  /** The table is overrun exactly when some step locks a frame after an earlier step could not unlock one. */
  lemma OverrunIffLockAfterFailure(c0: nat, steps: seq<Step>)
    requires c0 < C.SIZE_T && AllNonNull(steps)
    ensures Run(Start(c0), steps).c.overrun <==> LockAfterFailure(steps)
  {
    hide Run, Inv, LockAfterFailure;
    FailureTracks(c0, steps);
  }

  /** Two frames, the first of which cannot be unlocked: the second lock writes beyond the table. */
  lemma OverrunReachable(c0: nat, f: Frame, g: Frame, first: Outcome, second: Outcome)
    requires c0 < C.SIZE_T && first.acquires && second.acquires
    requires first.lock.Locked? && first.lock.address != C.UNUSED_ID && first.unlock.UnlockFailed?
    requires second.lock.Locked? && second.lock.address != C.UNUSED_ID
    ensures Run(Start(c0), [Queue(f), Callback, Poll(first), Queue(g), Callback, Poll(second)]).c.overrun
  {
    hide H.Next, LocksFrom;
    var steps := [Queue(f), Callback, Poll(first), Queue(g), Callback, Poll(second)];
    TakenTwice(f, g, first, second);
    assert steps[..2] == [Queue(f), Callback];
    assert steps[..5] == [Queue(f), Callback, Poll(first), Queue(g), Callback];
    assert StaysLocked(steps, 2) && LocksAt(steps, 5);
    OverrunIffLockAfterFailure(c0, steps);
  }

  /** Both polls find the flag set and a frame queued. */
  lemma TakenTwice(f: Frame, g: Frame, first: Outcome, second: Outcome)
    requires first.acquires && second.acquires && first.lock.Locked? && second.lock.Locked?
    ensures LocksFrom(H.Run(H.START, HandoffSteps([Queue(f), Callback])), Poll(first))
    ensures LocksFrom(H.Run(H.START, HandoffSteps([Queue(f), Callback, Poll(first), Queue(g), Callback])), Poll(second))
  {
    var h1 := H.Next(H.Next(H.START, H.Queue(f)), H.Callback);
    var h2 := H.Next(H.Next(H.Next(h1, H.Poll(true)), H.Queue(g)), H.Callback);
    TwoSteps(H.START, H.Queue(f), H.Callback);
    TwoSteps(H.Next(h1, H.Poll(true)), H.Queue(g), H.Callback);
    H.RunSnoc(H.START, [H.Queue(f), H.Callback], H.Poll(true));
    var three := [H.Queue(f), H.Callback] + [H.Poll(true)];
    H.RunSnoc(H.START, three, H.Queue(g));
    H.RunSnoc(H.START, three + [H.Queue(g)], H.Callback);
    assert HandoffSteps([Queue(f), Callback]) == [H.Queue(f), H.Callback];
    assert HandoffSteps([Queue(f), Callback, Poll(first), Queue(g), Callback]) == three + [H.Queue(g)] + [H.Callback];
  }

  lemma TwoSteps(h: H.Handoff, a: H.Step, b: H.Step)
    ensures H.Run(h, [a, b]) == H.Next(H.Next(h, a), b)
  {
    hide H.Next;
    assert [a, b] == [a] + [b];
    H.RunSnoc(h, [a], b);
    H.RunSnoc(h, [], a);
    assert [] + [a] == [a];
  }
}
