/**
 Where pushFrame and its callers fall short, and exactly when: the window in
 which a listener is added to the null proxy, handles whose contents change
 under the cache, and a compositor that answers the roundtrip unconfigured.
 */
module WindowHazards {
  import opened Wrappers
  import opened Wayland
  import opened Compositor
  import opened WindowLog
  import opened WindowRun
  import opened WindowInvariant
  import opened WindowTheorems
  import opened PushRun

  // ---------- the frame callback's listener ----------

  ghost predicate OnlyEvents(steps: seq<Step>) {
    forall s :: s in steps ==> !s.Advance? && !s.Push?
  }

  /** Some earlier frame callback has been committed and its handler has not yet reset the pointer. */
  ghost predicate Awaited(m: Machine) {
    || m.server.activeCallbacks != multiset{}
    || exists i :: (if m.cleared then 1 else 0) <= i < |m.queue| && m.queue[i].DoneEvent?
  }

  ghost predicate StillListening(m: Machine, m': Machine) {
    && m'.pc == m.pc && m'.clears >= m.clears
    && m'.framePtr == (if m'.clears > m.clears then NULL_OBJECT else m.framePtr)
  }

  lemma DispatchKeepsListening(m: Machine)
    requires m.pc.Listening?
    ensures StillListening(m, DispatchNext(m))
  {
    hide Apply;
  }

  lemma EventKeepsListening(m: Machine, s: Step)
    requires m.pc.Listening? && !s.Advance? && !s.Push?
    ensures StillListening(m, Next(m, s))
  {
    hide Apply, DispatchNext;
    DispatchKeepsListening(m);
  }

  /** While the listener is missing, the pointer is lost exactly when some handler resets it. */
  lemma {:induction false} ListeningWindow(m: Machine, events: seq<Step>)
    requires m.pc.Listening? && OnlyEvents(events)
    ensures StillListening(m, Run(m, events))
    decreases |events|
  {
    hide Next;
    if events != [] {
      EventKeepsListening(m, events[0]);
      ListeningWindow(Next(m, events[0]), events[1..]);
    }
  }

  lemma EventKeepsCalm(m: Machine, s: Step)
    requires Inv(m) && m.pc.Listening? && !s.Advance? && !s.Push? && !Awaited(m)
    ensures !Awaited(Next(m, s)) && Next(m, s).clears == m.clears
  {
    hide Connection, Picture, ConfiguresOk, CallbacksOk;
    if s.Dispatch? {
      CalmDispatch(m);
    } else {
      CalmCompositor(m, s);
    }
  }

  lemma CalmDispatch(m: Machine)
    requires Inv(m) && m.pc.Listening? && !Awaited(m)
    ensures !Awaited(DispatchNext(m)) && DispatchNext(m).clears == m.clears
  {
    hide Connection, Picture, ConfiguresOk, CallbacksOk, Apply;
    var m' := DispatchNext(m);
    if m.queue != [] {
      var e := m.queue[0];
      assert e.DoneEvent? ==> m.cleared;
      assert m'.queue == m.queue[1..];
      assert m.cleared ==> e.DoneEvent?;
      assert m'.server.activeCallbacks == m.server.activeCallbacks by {
        if e.ConfigureEvent? { AckLeavesCallbacks(m.server, e.serial); }
        DoneLeavesCallbacks(m.server, if e.DoneEvent? then e.callback else 0);
      }
      forall i | 0 <= i < |m'.queue| ensures !m'.queue[i].DoneEvent? {
        assert m'.queue[i] == m.queue[i + 1];
      }
    }
  }

  lemma AckLeavesCallbacks(s: Server, serial: Serial)
    ensures Apply(s, AckConfigure(serial)).activeCallbacks == s.activeCallbacks
  {
  }

  lemma DoneLeavesCallbacks(s: Server, cb: ObjId)
    ensures Apply(s, DestroyCallback(cb)).activeCallbacks == s.activeCallbacks
  {
  }

  lemma CalmCompositor(m: Machine, s: Step)
    requires Inv(m) && m.pc.Listening? && !Awaited(m) && (s.SendConfigure? || s.SendDone? || s.SendSync?)
    ensures !Awaited(CompositorStep(m, s)) && CompositorStep(m, s).clears == m.clears
  {
    hide Connection, Picture, ConfiguresOk, CallbacksOk, PointerOk;
    var m' := CompositorStep(m, s);
    assert m'.queue == m.queue || (s.SendConfigure? && m'.queue == m.queue + [ConfigureEvent(s.serial)]);
  }

  lemma {:induction false} CalmWindow(m: Machine, events: seq<Step>)
    requires Inv(m) && m.pc.Listening? && OnlyEvents(events) && !Awaited(m)
    ensures Run(m, events).clears == m.clears
    decreases |events|
  {
    hide Next, Inv, Awaited;
    if events != [] {
      EventKeepsCalm(m, events[0]);
      EventKeepsListening(m, events[0]);
      NextKeeps(m, events[0]);
      CalmWindow(Next(m, events[0]), events[1..]);
    }
  }

  lemma DispatchMoves(m: Machine)
    requires Inv(m) && m.pc.Listening? && m.queue != []
    ensures var m1 := Next(m, Dispatch);
      && Inv(m1) && m1.pc.Listening?
      && (if m.queue[0].DoneEvent? && !m.cleared then m1.clears > m.clears
          else m1.queue == m.queue[1..] && !m1.cleared && m1.clears == m.clears)
  {
    hide Connection, Picture, ConfiguresOk, CallbacksOk, Apply;
    NextKeeps(m, Dispatch);
    EventKeepsListening(m, Dispatch);
    assert m.cleared ==> m.queue[0].DoneEvent?;
  }

  /** With an unhandled done event in the queue, dispatching on resets the pointer. */
  lemma {:induction false} DispatchResets(m: Machine, i: nat) returns (events: seq<Step>)
    requires Inv(m) && m.pc.Listening?
    requires (if m.cleared then 1 else 0) <= i < |m.queue| && m.queue[i].DoneEvent?
    ensures OnlyEvents(events) && Run(m, events).clears > m.clears
    decreases i
  {
    hide Next, Inv, Run;
    var m1 := Next(m, Dispatch);
    DispatchMoves(m);
    OneStep(m, Dispatch);
    events := [Dispatch];
    if i > 0 && !(m.queue[0].DoneEvent? && !m.cleared) {
      var rest := DispatchResets(m1, i - 1);
      events := [Dispatch] + rest;
      RunConcat(m, [Dispatch], rest);
    }
  }

  /** An awaited callback can come back inside the window. */
  lemma AwaitedResets(m: Machine) returns (events: seq<Step>)
    requires Inv(m) && m.pc.Listening? && Awaited(m)
    ensures OnlyEvents(events) && Run(m, events).clears > m.clears
  {
    hide Connection, Picture, ConfiguresOk, CallbacksOk, Apply;
    if i :| (if m.cleared then 1 else 0) <= i < |m.queue| && m.queue[i].DoneEvent? {
      events := DispatchResets(m, i);
    } else {
      var cb :| cb in m.server.activeCallbacks;
      var m1 := Next(m, SendDone(cb));
      NextKeeps(m, SendDone(cb));
      EventKeepsListening(m, SendDone(cb));
      assert m1.queue == m.queue + [DoneEvent(cb)];
      var rest := DispatchResets(m1, |m.queue|);
      events := [SendDone(cb)] + rest;
      RunConcat(m, [SendDone(cb)], rest);
      OneStep(m, SendDone(cb));
    }
  }

  /** The run of one pushFrame from requesting its callback to adding the listener, with events in between. */
  function ThroughWindow(events: seq<Step>): seq<Step> {
    [Advance] + events + [Advance]
  }

  lemma WindowOpens(m: Machine, events: seq<Step>)
    requires Inv(m) && m.pc.Mapped? && OnlyEvents(events)
    ensures var m1 := Next(m, Advance);
      && m1.pc.Listening? && m1.framePtr != NULL_OBJECT && Inv(m1) && m1.clears == m.clears
      && (Awaited(m1) <==> Awaited(m))
      && (Run(m, ThroughWindow(events)).pc.Crashed? <==> Run(m1, events).clears > m1.clears)
  {
    hide Run, Picture, Events, Apply, IdsOk;
    var m1 := Next(m, Advance);
    NextKeeps(m, Advance);
    assert m.nextId > 0 && m1.server.activeCallbacks == m.server.activeCallbacks by {
      RequestFrameConnection(m);
    }
    OneStep(m, Advance);
    RunConcat(m, [Advance], events);
    RunConcat(m, [Advance] + events, [Advance]);
    ListeningWindow(m1, events);
    OneStep(Run(m1, events), Advance);
  }

  /**
   pushFrame can add its listener to the null proxy if and only if, when it
   requests its frame callback, an earlier one is still awaited. (The loop that
   would have waited for it is commented out.)
   */
  lemma NullListenerIffAwaited(m: Machine)
    requires Inv(m) && m.pc.Mapped?
    ensures (exists events :: OnlyEvents(events) && Run(m, ThroughWindow(events)).pc.Crashed?) <==> Awaited(m)
  {
    hide Run, Next, Inv, Awaited, OnlyEvents;
    var m1 := Next(m, Advance);
    forall events | OnlyEvents(events)
      ensures Run(m, ThroughWindow(events)).pc.Crashed? ==> Awaited(m)
    {
      WindowOpens(m, events);
      if !Awaited(m) {
        CalmWindow(m1, events);
      }
    }
    if Awaited(m) {
      WindowOpens(m, []) by { assert OnlyEvents([]) by { NoEvents(); } }
      var events := AwaitedResets(m1);
      WindowOpens(m, events);
    }
  }

  lemma NoEvents()
    ensures OnlyEvents([])
  {
  }

  // ---------- runs that show the hazards are real ----------

  /** After initialize, each uninterrupted push extends a reachable run. */
  lemma PushExtends(garbage: ObjId, steps: seq<Step>, f: Frame) returns (more: seq<Step>)
    requires Reached(true, true, garbage, steps).pc.Idle?
    ensures var m, m' := Reached(true, true, garbage, steps), Reached(true, true, garbage, more);
      && steps <= more
      && m'.pc.Idle? && m'.pushes == m.pushes + [f] && m'.queue == m.queue && m'.cleared == m.cleared
      && ClientOf(m') == Pushed(ClientOf(m), f) && m.nextId > 0 && m'.caching
  {
    hide Run, Next, Picture, Events, PhaseOk, HandlesOk;
    var m := Reached(true, true, garbage, steps);
    ReachedInv(true, true, garbage, steps);
    RunKeepsMode(Start(true, true, garbage), steps);
    PushUninterrupted(m, f);
    var push := PushSteps(f.ptr in m.bufferMap, f);
    more := steps + push;
    RunConcat(Start(true, true, garbage), steps, push);
  }

  /** A second frame pushed before the first one's callback has come back can hit the null proxy. */
  lemma NullListenerReachable(garbage: ObjId, serial: Serial, f: Frame, g: Frame) returns (steps: seq<Step>)
    requires f.ptr == g.ptr
    ensures Reached(true, true, garbage, steps).pc == Crashed(g)
  {
    hide Run, Next, Connection, Picture, ConfiguresOk, PushSteps, First, Last;
    var start := Start(true, true, garbage);
    InitializeRun(garbage, [serial]);
    var once := PushExtends(garbage, InitializeSteps([serial]), f);
    var m := Reached(true, true, garbage, once);
    AwaitedAfterPush(garbage, once);
    var m1 := Next(m, Push(g));
    MapHitPush(m, g);
    ReachedInv(true, true, garbage, once);
    NextKeeps(m, Push(g));
    NullListenerIffAwaited(m1);
    var events :| OnlyEvents(events) && Run(m1, ThroughWindow(events)).pc.Crashed?;
    steps := once + ([Push(g)] + ThroughWindow(events));
    RunConcat(start, once, [Push(g)] + ThroughWindow(events));
    RunConcat(m, [Push(g)], ThroughWindow(events));
    OneStep(m, Push(g));
    CrashedFrame(m1, events);
  }

  lemma MapHitPush(m: Machine, g: Frame)
    requires m.pc.Idle? && m.caching && g.ptr in m.bufferMap
    ensures Next(m, Push(g)) == m.(pushes := m.pushes + [g], pc := Mapped(g))
  {
  }

  lemma CrashedFrame(m: Machine, events: seq<Step>)
    requires Inv(m) && m.pc.Mapped? && OnlyEvents(events) && Run(m, ThroughWindow(events)).pc.Crashed?
    ensures Run(m, ThroughWindow(events)).pc.frame == m.pc.frame
  {
    hide Apply, Run, Inv;
    var m1 := Next(m, Advance);
    OneStep(m, Advance);
    RunConcat(m, [Advance], events);
    RunConcat(m, [Advance] + events, [Advance]);
    ListeningWindow(m1, events);
    OneStep(Run(m1, events), Advance);
  }

  /** Right after a push whose pointer survives and with nothing queued, a callback is with the compositor. */
  lemma AwaitedAfterPush(garbage: ObjId, steps: seq<Step>)
    requires var m := Reached(true, true, garbage, steps); m.pc.Idle? && m.queue == [] && m.framePtr != NULL_OBJECT
    ensures Awaited(Reached(true, true, garbage, steps))
  {
    hide Run, Next, Connection, CacheOk, MakingOk, PresentedOk, Events;
    ReachedInv(true, true, garbage, steps);
    CallbacksConserved(true, true, garbage, steps);
    var m := Reached(true, true, garbage, steps);
    assert m.framePtr in m.server.activeCallbacks;
  }

  lemma FirstOfTwo(f: Frame, g: Frame)
    requires f.ptr == g.ptr
    ensures Has([f, g], f.ptr) && First([f, g], f.ptr) == f
  {
    var both := [f, g];
    assert both[..1] == [f] && [f][0].ptr == f.ptr && [f][..0] == [];
    assert both[0].ptr == f.ptr;
  }

  lemma IntendedOfTwo(f: Frame, g: Frame, shown: seq<Update>)
    requires |shown| == 2 && shown[1] == UpdateOf(f, g) && ContentOf(f) != ContentOf(g)
    ensures shown != Intended([f, g])
  {
  }

  /** A handle pushed again with other contents: the surface keeps showing the old ones, damaged to the new size. */
  lemma StaleContentReachable(garbage: ObjId, serial: Serial, f: Frame, g: Frame) returns (steps: seq<Step>)
    requires f.ptr == g.ptr && ContentOf(f) != ContentOf(g)
    ensures var m := Reached(true, true, garbage, steps);
      && m.pc.Idle? && m.pushes == [f, g]
      && |m.server.presented| == 2 && m.server.presented[0] == UpdateOf(f, f) && m.server.presented[1] == UpdateOf(f, g)
      && m.server.presented != Intended([f, g])
  {
    hide Reached, PushSteps, First, Intended, UpdateOf, ContentOf, InitializeSteps, ClientOf, Pushed;
    InitializeRun(garbage, [serial]);
    var once := PushExtends(garbage, InitializeSteps([serial]), f);
    steps := PushExtends(garbage, once, g);
    assert Reached(true, true, garbage, steps).pushes == [f, g];
    ShownContents(true, true, garbage, steps);
    FirstOfTwo(f, g);
    IntendedOfTwo(f, g, Reached(true, true, garbage, steps).server.presented);
  }

  // ---------- the first configure ----------

  /** The compositor's state after the first `n` requests of initialize. */
  ghost predicate Booted(s: Server, n: nat) {
    && s.error.None? && s.handles == map[] && s.buffers == map[] && s.acked == []
    && s.pendingBuffer.None? && s.currentBuffer.None? && s.pendingDamage.None? && s.pendingCallbacks == multiset{}
    && s.hasSurface == (n >= 1) && s.hasXdg == (n >= 2) && s.hasRole == (n >= 3)
    && forall id :: id in s.used ==> id <= n && id <= 3
  }

  lemma BootedStep(s: Server, n: nat, id: ObjId)
    requires n < BOOT_CALLS && Booted(s, n) && id == (if n < 3 then n + 1 else 4)
    ensures Booted(Apply(s, BootCall(n, id)), n + 1)
  {
    hide Apply, BootCall;
    BootEffect(s, n, id);
  }

  lemma {:induction false} BootReplay(n: nat)
    requires n <= BOOT_CALLS
    ensures Booted(Replay(BootCalls(n)), n)
  {
    hide Apply, BootCall, Booted, BootCalls, ApplyAll;
    if n == 0 {
      FreshIsBooted();
    } else {
      var id := if n - 1 < 3 then n else 4;
      BootReplay(n - 1);
      BootCallsSnoc(n - 1);
      ApplyAllSnoc(FRESH_SERVER, BootCalls(n - 1), BootCall(n - 1, id));
      BootedStep(Replay(BootCalls(n - 1)), n - 1, id);
    }
  }

  lemma FreshIsBooted()
    ensures Booted(Replay(BootCalls(0)), 0)
  {
  }

  /** What the connection holds when the roundtrip is answered with no configure and a frame is then pushed. */
  function UnconfiguredLog(f: Frame): seq<Entry> {
    BootCalls(BOOT_CALLS) + [Commit] + Encode(Item(ContentOf(f), 4, 5)) + [RequestFrame(6), Attach(5)]
  }

  lemma UnconfiguredRejected(f: Frame)
    ensures Replay(UnconfiguredLog(f)).error == Some(UnconfiguredBuffer)
  {
    hide Apply, BootCalls, Encode;
    var boot, item := BootCalls(BOOT_CALLS), Item(ContentOf(f), 4, 5);
    BootReplay(BOOT_CALLS);
    CommitEffect(Replay(boot));
    ApplyAllSnoc(FRESH_SERVER, boot, Commit);
    var s := OnCommit(Replay(boot));
    ServerRebuilds(s, item);
    ApplyAllConcat(FRESH_SERVER, boot + [Commit], Encode(item));
    var s1 := ApplyAll(s, Encode(item));
    RequestFrameEffect(s1, 6);
    ApplyAllSnoc(FRESH_SERVER, boot + [Commit] + Encode(item), RequestFrame(6));
    ApplyAllSnoc(FRESH_SERVER, boot + [Commit] + Encode(item) + [RequestFrame(6)], Attach(5));
    UnconfiguredAttach(Apply(s1, RequestFrame(6)), 5);
    assert UnconfiguredLog(f) == boot + [Commit] + Encode(item) + [RequestFrame(6)] + [Attach(5)];
  }

  lemma UnconfiguredAttach(s: Server, b: ObjId)
    requires s.error.None? && s.hasSurface && s.hasXdg && s.acked == [] && b in s.buffers
    ensures Apply(s, Attach(b)).error == Some(UnconfiguredBuffer)
  {
  }

  /** The roundtrip is answered at once, initialize ends, and the frame's buffer is made. */
  lemma UnconfiguredPush(m: Machine, f: Frame)
    requires m.caching && !m.polite && m.pc == Roundtrip && m.queue == [] && !m.cleared && !m.syncSent
    requires m.bufferMap == map[] && m.nextId > 0
    ensures var m' := Run(m, [SendSync, Dispatch, Advance, Push(f)] + Advances(f.native.numFds + 2));
      && m'.pc == Mapped(f) && m'.nextId == m.nextId + 2 && m'.bufferMap == map[f.ptr := m.nextId + 1]
      && m'.log == m.log + [Commit] + Encode(Item(ContentOf(f), m.nextId, m.nextId + 1))
  {
    hide Apply, Run, Encode, AdvancePush;
    var m1 := Next(Next(Next(m, SendSync), Dispatch), Advance);
    assert m1.pc == Idle && m1.log == m.log + [Commit] && m1.nextId == m.nextId && m1.bufferMap == map[] && m1.caching;
    FourSteps(m, SendSync, Dispatch, Advance, Push(f));
    RunConcat(m, [SendSync, Dispatch, Advance, Push(f)], Advances(f.native.numFds + 2));
    CreateRun(m1, f);
  }

  /**
   The hypothesis on the compositor is needed: if it answers the roundtrip
   before any configure, initialize returns all the same and the first pushed
   frame is a protocol error.
   */
  lemma UnconfiguredReachable(garbage: ObjId, f: Frame) returns (steps: seq<Step>)
    ensures Run(Start(true, false, garbage), steps).server.error == Some(UnconfiguredBuffer)
  {
    hide Apply, Run, Next, BootCalls, Encode;
    var m0 := Start(true, false, garbage);
    BootRun(true, false, garbage, BOOT_CALLS);
    var boot, push := Advances(BOOT_CALLS), [SendSync, Dispatch, Advance, Push(f)] + Advances(f.native.numFds + 2);
    var m1 := Run(m0, boot);
    UnconfiguredPush(m1, f);
    var m2 := Run(m1, push);
    ListenRun(m2);
    var m3 := Run(m2, Advances(2));
    OneAdvance(m3);
    CallStep(m3);
    steps := boot + push + Advances(2) + Advances(1);
    RunConcat(m0, boot, push);
    RunConcat(m0, boot + push, Advances(2));
    RunConcat(m0, boot + push + Advances(2), Advances(1));
    assert Run(m0, steps).log == UnconfiguredLog(f);
    RunReplays(m0, steps);
    UnconfiguredRejected(f);
  }

  lemma FourSteps(m: Machine, a: Step, b: Step, c: Step, d: Step)
    ensures Run(m, [a, b, c, d]) == Next(Next(Next(Next(m, a), b), c), d)
  {
    hide Next;
    assert [a, b, c, d] == [a] + ([b] + ([c] + [d]));
    RunConcat(m, [a], [b] + ([c] + [d]));
    OneStep(m, a);
    var m1 := Next(m, a);
    RunConcat(m1, [b], [c] + [d]);
    OneStep(m1, b);
    var m2 := Next(m1, b);
    RunConcat(m2, [c], [d]);
    OneStep(m2, c);
    OneStep(Next(m2, c), d);
  }

  /** The connection when the roundtrip is answered with no configure, one comes later, and then a frame is pushed. */
  function LateLog(serial: Serial, f: Frame): seq<Entry> {
    BootCalls(BOOT_CALLS) + [Commit, SentConfigure(serial), AckConfigure(serial)]
    + Encode(Item(ContentOf(f), 4, 5)) + ShowCalls(6, 5, f)
  }

  /** initialize ends with nothing acknowledged. */
  lemma UnconfiguredResume(m: Machine)
    requires !m.polite && m.pc == Roundtrip && m.queue == [] && !m.cleared && !m.syncSent
    requires m.server.error.None? && m.server.hasSurface
    ensures Run(m, [SendSync, Dispatch, Advance])
      == m.(log := m.log + [Commit], server := OnCommit(m.server), framePtr := NULL_OBJECT, pc := Idle, syncSent := true)
  {
    hide Apply, Run;
    CommitEffect(m.server);
    OneStep(m, SendSync);
    OneStep(Next(m, SendSync), Dispatch);
    OneStep(Next(Next(m, SendSync), Dispatch), Advance);
    RunConcat(m, [SendSync], [Dispatch]);
    RunConcat(m, [SendSync, Dispatch], [Advance]);
    assert [SendSync] + [Dispatch] == [SendSync, Dispatch] && [SendSync, Dispatch] + [Advance] == [SendSync, Dispatch, Advance];
  }

  lemma LateConfigure(m: Machine, serial: Serial)
    requires m.pc == Idle && m.queue == [] && m.server.hasRole
    ensures var m' := Run(m, [SendConfigure(serial), Dispatch]);
      && m'.log == m.log + [SentConfigure(serial), AckConfigure(serial)]
      && m' == m.(log := m'.log, server := m'.server, sent := m'.sent)
  {
    hide Apply, Run;
    OneStep(m, SendConfigure(serial));
    OneStep(Next(m, SendConfigure(serial)), Dispatch);
    RunConcat(m, [SendConfigure(serial)], [Dispatch]);
    assert [SendConfigure(serial)] + [Dispatch] == [SendConfigure(serial), Dispatch];
  }

  lemma LateLogAcknowledged(serial: Serial, f: Frame)
    ensures AttachesAfterAck(LateLog(serial, f))
  {
    hide LateLog;
    var log, n := LateLog(serial, f), BOOT_CALLS + 3;
    LateLogStart(serial, f);
    forall i | 0 <= i < |log| && log[i].Attach?
      ensures Acknowledged(log[..i])
    {
      assert log[..i][n - 1] == AckConfigure(serial);
    }
  }

  lemma LateLogStart(serial: Serial, f: Frame)
    ensures var log, n := LateLog(serial, f), BOOT_CALLS + 3;
      |log| >= n && log[n - 1] == AckConfigure(serial) && forall i :: 0 <= i < n ==> !log[i].Attach?
  {
    hide Encode, ShowCalls;
    var log := LateLog(serial, f);
    forall i | 0 <= i < BOOT_CALLS
      ensures log[i] == BootCalls(BOOT_CALLS)[i] && !BootCalls(BOOT_CALLS)[i].Attach?
    {
      assert BootCalls(BOOT_CALLS)[i] == BootCall(i, if i < 3 then i + 1 else 4);
    }
  }

  /** An unconfigured answer need not be fatal: a configure acknowledged before the first frame is in time. */
  lemma LateConfigureAccepted(garbage: ObjId, serial: Serial, f: Frame) returns (steps: seq<Step>)
    ensures var m := Reached(true, false, garbage, steps);
      m.pc.Idle? && m.pushes == [f] && m.server.error.None? && m.server.presented == [UpdateOf(f, f)]
  {
    hide Apply, Run, Next, BootCalls, Encode, Pushed, PushSteps, Booted, AttachesAfterAck;
    var m0 := Start(true, false, garbage);
    BootRun(true, false, garbage, BOOT_CALLS);
    BootReplay(BOOT_CALLS);
    var boot, resume, late := Advances(BOOT_CALLS), [SendSync, Dispatch, Advance], [SendConfigure(serial), Dispatch];
    var m1 := Run(m0, boot);
    BootedRole(m1.server);
    UnconfiguredResume(m1);
    LateConfigure(Run(m1, resume), serial);
    var m2 := Run(Run(m1, resume), late);
    PushUninterrupted(m2, f);
    steps := boot + resume + late + PushSteps(false, f);
    RunConcat(m0, boot, resume);
    RunConcat(m0, boot + resume, late);
    RunConcat(m0, boot + resume + late, PushSteps(false, f));
    assert m2.log == BootCalls(BOOT_CALLS) + [Commit, SentConfigure(serial), AckConfigure(serial)];
    var m := Reached(true, false, garbage, steps);
    LatePushed(m2, serial, f);
    assert m.log == LateLog(serial, f);
    LateLogAcknowledged(serial, f);
    NoErrorIffAcknowledged(true, false, garbage, steps);
    ShownContents(true, false, garbage, steps);
    assert m.pushes == [f];
    FirstOfOne(f);
  }

  lemma BootedRole(s: Server)
    requires Booted(s, BOOT_CALLS)
    ensures s.hasRole && s.hasSurface && s.error.None?
  {
  }

  lemma LatePushed(m: Machine, serial: Serial, f: Frame)
    requires m.nextId == 4 && m.bufferMap == map[]
    requires m.log == BootCalls(BOOT_CALLS) + [Commit, SentConfigure(serial), AckConfigure(serial)]
    ensures Pushed(ClientOf(m), f).log == LateLog(serial, f)
  {
    hide BootCalls, Encode, ShowCalls;
  }

  lemma FirstOfOne(f: Frame)
    ensures Has([f], f.ptr) && First([f], f.ptr) == f
  {
    assert [f][0].ptr == f.ptr && [f][..0] == [];
  }
}
