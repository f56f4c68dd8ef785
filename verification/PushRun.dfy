/**
 `pushFrame` and `initialize` from call to return with no event in between but
 those they wait for, and how they match the calls of the class.
 */
module PushRun {
  import opened Wayland
  import opened Compositor
  import opened WindowRun
  import opened WindowInvariant
  import opened WindowTheorems

  /** The state that `WaylandSingleWindowManager` itself holds, and its calls so far. */
  datatype Client = Client(nextId: ObjId, bufferMap: map<HandlePtr, ObjId>, framePtr: ObjId, log: seq<Entry>)

  function ClientOf(m: Machine): Client {
    Client(m.nextId, m.bufferMap, m.framePtr, m.log)
  }

  /** The calls that put a buffer on the surface. */
  function ShowCalls(callback: ObjId, buffer: ObjId, f: Frame): seq<Entry> {
    [RequestFrame(callback), Attach(buffer), Damage(f.width, f.height), Commit]
  }

  /** A whole pushFrame: the wire form of the buffer if its handle is new, then the surface update. */
  function Pushed(c: Client, f: Frame): Client {
    if f.ptr in c.bufferMap then
      Client(c.nextId + 1, c.bufferMap, c.nextId, c.log + ShowCalls(c.nextId, c.bufferMap[f.ptr], f))
    else
      var item := Item(ContentOf(f), c.nextId, c.nextId + 1);
      Client(c.nextId + 3, c.bufferMap[f.ptr := item.buffer], c.nextId + 2,
             c.log + Encode(item) + ShowCalls(c.nextId + 2, item.buffer, f))
  }

  function Advances(n: nat): seq<Step> {
    seq(n, _ => Advance)
  }

  function PushSteps(hit: bool, f: Frame): seq<Step> {
    [Push(f)] + Advances(if hit then 5 else f.native.numFds + 7)
  }

  lemma AdvancesSplit(m: Machine, a: nat, b: nat)
    ensures Run(m, Advances(a + b)) == Run(Run(m, Advances(a)), Advances(b))
  {
    assert Advances(a + b) == Advances(a) + Advances(b);
    RunConcat(m, Advances(a), Advances(b));
  }

  lemma OneStep(m: Machine, s: Step)
    ensures Run(m, [s]) == Next(m, s)
  {
    hide Next;
    assert Run(m, [s]) == Run(Next(m, s), [s][1..]);
  }

  lemma OneAdvance(m: Machine)
    ensures Run(m, Advances(1)) == Next(m, Advance)
  {
    hide Next;
    assert Advances(1) == [Advance];
    OneStep(m, Advance);
  }

  /** What a stretch of uninterrupted calls leaves alone. */
  ghost predicate Quiet(m: Machine, m': Machine) {
    && m'.caching == m.caching && m'.polite == m.polite && m'.pushes == m.pushes && m'.queue == m.queue
    && m'.cleared == m.cleared && m'.sent == m.sent && m'.syncSent == m.syncSent
  }

  /** One descriptor on its way, seen from the client. */
  lemma AddFdStep(m: Machine)
    requires m.pc.Adding? && m.pc.k < m.pc.frame.native.numFds
    ensures var m', f, h, k := Next(m, Advance), m.pc.frame, m.pc.handle, m.pc.k;
      && Quiet(m, m') && m'.pc == Adding(f, h, k + 1)
      && ClientOf(m') == ClientOf(m).(log := m.log + [AddFd(h, f.native.data[k])])
  {
    hide Apply;
  }

  lemma CreateStep(m: Machine)
    requires m.pc.Adding? && m.pc.k >= m.pc.frame.native.numFds
    ensures var m', f, h := Next(m, Advance), m.pc.frame, m.pc.handle;
      && Quiet(m, m') && m'.pc == Dropping(f, h, m.nextId)
      && ClientOf(m') == ClientOf(m).(nextId := m.nextId + 1, log := m.log + [CreateBufferCall(ContentOf(f), h, m.nextId)])
  {
    hide Apply, CreateBufferCall, ContentOf;
  }

  lemma DropStep(m: Machine)
    requires m.pc.Dropping?
    ensures var m', f := Next(m, Advance), m.pc.frame;
      && Quiet(m, m') && m'.pc == Mapped(f)
      && ClientOf(m') == ClientOf(m).(bufferMap := m.bufferMap[f.ptr := m.pc.buffer], log := m.log + [DestroyHandle(m.pc.handle)])
  {
    hide Apply;
  }

  /** One call on the way from the map entry to the commit, seen from the client. */
  lemma CallStep(m: Machine)
    requires m.pc.Pushing() && !m.pc.Creating() && !m.pc.Crashed? && (m.pc.Attaching? ==> m.pc.frame.ptr in m.bufferMap)
    ensures var m' := Next(m, Advance);
      && Quiet(m, m')
      && match m.pc {
        case Mapped(f) =>
          m'.pc == Listening(f) && ClientOf(m') == Client(m.nextId + 1, m.bufferMap, m.nextId, m.log + [RequestFrame(m.nextId)])
        case Listening(f) =>
          m'.pc == (if m.framePtr == NULL_OBJECT then Crashed(f) else Attaching(f)) && ClientOf(m') == ClientOf(m)
        case Attaching(f) => m'.pc == Damaging(f) && ClientOf(m') == ClientOf(m).(log := m.log + [Attach(m.bufferMap[f.ptr])])
        case Damaging(f) => m'.pc == Committing(f) && ClientOf(m') == ClientOf(m).(log := m.log + [Damage(f.width, f.height)])
        case Committing(f) => m'.pc == Idle && ClientOf(m') == ClientOf(m).(log := m.log + [Commit])
        case _ => true
      }
  {
    hide Apply;
  }

  lemma {:induction false} AddFdsRun(m: Machine, n: nat)
    requires m.pc.Adding? && m.pc.k + n == m.pc.frame.native.numFds
    ensures var m', f := Run(m, Advances(n)), m.pc.frame;
      && m'.pc == Adding(f, m.pc.handle, f.native.numFds) && Quiet(m, m')
      && ClientOf(m') == ClientOf(m).(log := m.log + AddFds(m.pc.handle, Fds(f.native)[m.pc.k..]))
    decreases n
  {
    hide Next;
    var Adding(f, h, k) := m.pc;
    if n == 0 {
      assert AddFds(h, Fds(f.native)[k..]) == [];
    } else {
      var m1 := Next(m, Advance);
      AddFdStep(m);
      OneAdvance(m);
      AdvancesSplit(m, 1, n - 1);
      AddFdsRun(m1, n - 1);
      var rest := Fds(f.native)[k..];
      assert AddFds(h, rest) == [AddFd(h, f.native.data[k])] + AddFds(h, rest[1..]);
      assert rest[1..] == Fds(f.native)[k + 1..];
    }
  }

  lemma TwoAdvances(m: Machine)
    ensures Run(m, Advances(2)) == Next(Next(m, Advance), Advance)
  {
    hide Next;
    AdvancesSplit(m, 1, 1);
    OneAdvance(m);
    OneAdvance(Next(m, Advance));
  }

  /** All descriptors sent: the buffer is created, the handle destroyed, the map updated. */
  lemma BuildRun(m: Machine)
    requires m.pc.Adding? && m.pc.k == m.pc.frame.native.numFds
    ensures var m', f, h, b := Run(m, Advances(2)), m.pc.frame, m.pc.handle, m.nextId;
      && m'.pc == Mapped(f) && Quiet(m, m')
      && ClientOf(m') == Client(b + 1, m.bufferMap[f.ptr := b], m.framePtr,
                                m.log + [CreateBufferCall(ContentOf(f), h, b), DestroyHandle(h)])
  {
    hide Next, Run, CreateBufferCall, ContentOf;
    TwoAdvances(m);
    CreateStep(m);
    DropStep(Next(m, Advance));
  }

  lemma ListenRun(m: Machine)
    requires m.pc.Mapped? && m.nextId > 0
    ensures var m' := Run(m, Advances(2));
      && m'.pc == Attaching(m.pc.frame) && Quiet(m, m')
      && ClientOf(m') == Client(m.nextId + 1, m.bufferMap, m.nextId, m.log + [RequestFrame(m.nextId)])
  {
    hide Next, Run, CreateBufferCall, ContentOf;
    TwoAdvances(m);
    CallStep(m);
    CallStep(Next(m, Advance));
  }

  lemma AttachRun(m: Machine)
    requires m.pc.Attaching? && m.pc.frame.ptr in m.bufferMap
    ensures var m', f := Run(m, Advances(3)), m.pc.frame;
      && m'.pc == Idle && Quiet(m, m')
      && ClientOf(m') == ClientOf(m).(log := m.log + [Attach(m.bufferMap[f.ptr]), Damage(f.width, f.height), Commit])
  {
    hide Next, Run;
    AdvancesSplit(m, 2, 1);
    TwoAdvances(m);
    var m1 := Next(m, Advance);
    var m2 := Next(m1, Advance);
    OneAdvance(m2);
    CallStep(m);
    CallStep(m1);
    CallStep(m2);
  }

  lemma ShowRun(m: Machine)
    requires m.pc.Mapped? && m.pc.frame.ptr in m.bufferMap && m.nextId > 0
    ensures var m', f := Run(m, Advances(5)), m.pc.frame;
      && m'.pc == Idle && Quiet(m, m')
      && ClientOf(m') == Client(m.nextId + 1, m.bufferMap, m.nextId, m.log + ShowCalls(m.nextId, m.bufferMap[f.ptr], f))
  {
    hide Run;
    AdvancesSplit(m, 2, 3);
    ListenRun(m);
    AttachRun(Run(m, Advances(2)));
  }

  /** From create_handle to the map entry. */
  lemma CreateRun(m: Machine, f: Frame)
    requires m.pc.Idle? && m.caching && f.ptr !in m.bufferMap
    ensures var m', item := Run(Next(m, Push(f)), Advances(f.native.numFds + 2)), Item(ContentOf(f), m.nextId, m.nextId + 1);
      && m'.pc == Mapped(f) && Quiet(m.(pushes := m.pushes + [f]), m')
      && ClientOf(m') == Client(m.nextId + 2, m.bufferMap[f.ptr := item.buffer], m.framePtr, m.log + Encode(item))
  {
    hide Apply, Run, AdvancePush;
    var item := Item(ContentOf(f), m.nextId, m.nextId + 1);
    var n := f.native.numFds;
    var m1 := Next(m, Push(f));
    AdvancesSplit(m1, n, 2);
    AddFdsRun(m1, n);
    assert Fds(f.native)[0..] == Fds(f.native);
    BuildRun(Run(m1, Advances(n)));
    assert m.log + [CreateHandle(item.handle, n, Ints(f.native))] + AddFds(item.handle, Fds(f.native))
         + [CreateBufferCall(item.content, item.handle, item.buffer), DestroyHandle(item.handle)]
        == m.log + Encode(item);
  }

  lemma MissRun(m: Machine, f: Frame)
    requires m.pc.Idle? && m.caching && f.ptr !in m.bufferMap
    ensures var m' := Run(Next(m, Push(f)), Advances(f.native.numFds + 7));
      && m'.pc.Idle? && Quiet(m.(pushes := m.pushes + [f]), m')
      && ClientOf(m') == Pushed(ClientOf(m), f)
  {
    hide Run, Next, ShowCalls, Encode, CreateBufferCall;
    var m1, n := Next(m, Push(f)), f.native.numFds;
    AdvancesSplit(m1, n + 2, 5);
    CreateRun(m, f);
    ShowRun(Run(m1, Advances(n + 2)));
  }

  lemma HitRun(m: Machine, f: Frame)
    requires m.pc.Idle? && m.caching && f.ptr in m.bufferMap && m.nextId > 0
    ensures var m' := Run(Next(m, Push(f)), Advances(5));
      && m'.pc.Idle? && Quiet(m.(pushes := m.pushes + [f]), m')
      && ClientOf(m') == Pushed(ClientOf(m), f)
  {
    hide Run, AdvancePush, ShowCalls, Apply;
    ShowRun(Next(m, Push(f)));
  }

  /**
   With no event in between, the calls of pushFrame are exactly: on a hit, the
   four surface requests with the buffer of the map; on a miss, the wire form
   of the buffer first.
   */
  lemma PushUninterrupted(m: Machine, f: Frame)
    requires m.pc.Idle? && m.caching && m.nextId > 0
    ensures var m' := Run(m, PushSteps(f.ptr in m.bufferMap, f));
      && m'.pc.Idle? && Quiet(m.(pushes := m.pushes + [f]), m')
      && ClientOf(m') == Pushed(ClientOf(m), f)
  {
    hide Run, Next, Pushed, Quiet, ClientOf;
    var n := if f.ptr in m.bufferMap then 5 else f.native.numFds + 7;
    RunConcat(m, [Push(f)], Advances(n));
    OneStep(m, Push(f));
    if f.ptr in m.bufferMap { HitRun(m, f); } else { MissRun(m, f); }
  }

  // ---------- initialize ----------

  /** The first `n` requests of initialize. */
  function BootCalls(n: nat): seq<Entry>
    requires n <= BOOT_CALLS
  {
    seq(n, k requires 0 <= k < n => BootCall(k, if k < 3 then k + 1 else 4))
  }

  lemma BootCallsSnoc(n: nat)
    requires n < BOOT_CALLS
    ensures BootCalls(n + 1) == BootCalls(n) + [BootCall(n, if n < 3 then n + 1 else 4)]
  {
  }

  lemma BootStep(m: Machine)
    requires m.pc.Boot? && m.pc.k < BOOT_CALLS
    ensures Next(m, Advance) == m.Call(BootCall(m.pc.k, m.nextId)).(
      nextId := if m.pc.k < 3 then m.nextId + 1 else m.nextId,
      pc := if m.pc.k + 1 < BOOT_CALLS then Boot(m.pc.k + 1) else Roundtrip)
  {
    hide Apply, BootCall;
  }

  lemma {:induction false} BootRun(caching: bool, polite: bool, garbage: ObjId, n: nat)
    requires n <= BOOT_CALLS
    ensures Run(Start(caching, polite, garbage), Advances(n)) ==
      Start(caching, polite, garbage).(
        nextId := if n < 3 then n + 1 else 4,
        pc := if n < BOOT_CALLS then Boot(n) else Roundtrip,
        log := BootCalls(n), server := Replay(BootCalls(n)))
  {
    hide Apply, BootCall, Next;
    var m := Start(caching, polite, garbage);
    if n == 0 {
      assert Run(m, Advances(0)) == m;
    } else {
      var m1 := Run(m, Advances(n - 1));
      BootRun(caching, polite, garbage, n - 1);
      AdvancesSplit(m, n - 1, 1);
      OneAdvance(m1);
      BootStep(m1);
      var call := BootCall(n - 1, if n - 1 < 3 then n else 4);
      BootCallsSnoc(n - 1);
      ApplyAllSnoc(FRESH_SERVER, BootCalls(n - 1), call);
    }
  }

  function ConfigureSteps(serials: seq<Serial>): seq<Step> {
    seq(|serials|, i requires 0 <= i < |serials| => SendConfigure(serials[i]))
  }

  function Queued(serials: seq<Serial>): seq<Event> {
    seq(|serials|, i requires 0 <= i < |serials| => ConfigureEvent(serials[i]))
  }

  function AcksOf(serials: seq<Serial>): seq<Entry> {
    seq(|serials|, i requires 0 <= i < |serials| => AckConfigure(serials[i]))
  }

  function SentLog(serials: seq<Serial>): seq<Entry> {
    seq(|serials|, i requires 0 <= i < |serials| => SentConfigure(serials[i]))
  }

  lemma SerialsSplit(serials: seq<Serial>)
    requires serials != []
    ensures ConfigureSteps(serials) == [SendConfigure(serials[0])] + ConfigureSteps(serials[1..])
    ensures Queued(serials) == [ConfigureEvent(serials[0])] + Queued(serials[1..])
    ensures AcksOf(serials) == [AckConfigure(serials[0])] + AcksOf(serials[1..])
    ensures SentLog(serials) == [SentConfigure(serials[0])] + SentLog(serials[1..])
  {
  }

  lemma ConfigureStep(m: Machine, serial: Serial)
    requires m.pc == Roundtrip && m.server.hasRole
    ensures var m' := Next(m, SendConfigure(serial));
      && m' == m.(queue := m.queue + [ConfigureEvent(serial)], log := m.log + [SentConfigure(serial)],
                  sent := m.sent + [serial], server := m'.server)
      && m'.server.hasRole
  {
  }

  lemma {:induction false} ConfigureRun(m: Machine, serials: seq<Serial>)
    requires m.pc == Roundtrip && m.server.hasRole
    ensures var m' := Run(m, ConfigureSteps(serials));
      m' == m.(queue := m.queue + Queued(serials), log := m.log + SentLog(serials), sent := m.sent + serials, server := m'.server)
    decreases |serials|
  {
    hide Next;
    if serials == [] {
      assert m.queue + Queued([]) == m.queue && m.log + SentLog([]) == m.log && m.sent + serials == m.sent;
    } else {
      hide Queued, SentLog, ConfigureSteps;
      var s := serials[0];
      var m1 := Next(m, SendConfigure(s));
      ConfigureStep(m, s);
      SerialsSplit(serials);
      RunConcat(m, [SendConfigure(s)], ConfigureSteps(serials[1..]));
      OneStep(m, SendConfigure(s));
      ConfigureRun(m1, serials[1..]);
      assert m.queue + Queued(serials) == m.queue + [ConfigureEvent(s)] + Queued(serials[1..]);
      assert m.log + SentLog(serials) == m.log + [SentConfigure(s)] + SentLog(serials[1..]);
      assert m.sent + serials == m.sent + [s] + serials[1..];
    }
  }

  function Dispatches(n: nat): seq<Step> {
    seq(n, _ => Dispatch)
  }

  lemma AckDispatch(m: Machine, serial: Serial, rest: seq<Event>)
    requires m.pc == Roundtrip && m.queue == [ConfigureEvent(serial)] + rest
    ensures Next(m, Dispatch) == m.(queue := rest, log := m.log + [AckConfigure(serial)], server := Next(m, Dispatch).server)
  {
    hide Apply;
  }

  lemma SyncDispatch(m: Machine)
    requires m.pc == Roundtrip && m.queue == [SyncEvent]
    ensures Next(m, Dispatch) == m.(queue := [], pc := Resume)
  {
  }

  lemma {:induction false} DispatchRun(m: Machine, serials: seq<Serial>)
    requires m.pc == Roundtrip && m.queue == Queued(serials) + [SyncEvent]
    ensures var m' := Run(m, Dispatches(|serials| + 1));
      m' == m.(queue := [], pc := Resume, log := m.log + AcksOf(serials), server := m'.server)
    decreases |serials|
  {
    hide Next, Run, AcksOf, Queued, Dispatches;
    var m1 := Next(m, Dispatch);
    DispatchesSplit(m, |serials|);
    if serials == [] {
      NothingQueued(m1);
      assert m.queue == [SyncEvent];
      SyncDispatch(m);
    } else {
      var rest := Queued(serials[1..]) + [SyncEvent];
      SerialsSplit(serials);
      assert m.queue == [ConfigureEvent(serials[0])] + rest;
      AckDispatch(m, serials[0], rest);
      DispatchRun(m1, serials[1..]);
      assert m.log + AcksOf(serials) == m.log + [AckConfigure(serials[0])] + AcksOf(serials[1..]);
    }
  }

  lemma DispatchesSplit(m: Machine, n: nat)
    ensures Run(m, Dispatches(n + 1)) == Run(Next(m, Dispatch), Dispatches(n))
  {
    hide Next, Run;
    assert Dispatches(n + 1) == [Dispatch] + Dispatches(n);
    RunConcat(m, [Dispatch], Dispatches(n));
    OneStep(m, Dispatch);
  }

  lemma NothingQueued(m: Machine)
    ensures Queued([]) == [] && AcksOf([]) == [] && Run(m, Dispatches(0)) == m
  {
  }

  function InitializeSteps(serials: seq<Serial>): seq<Step> {
    Advances(BOOT_CALLS) + ConfigureSteps(serials) + [SendSync] + Dispatches(|serials| + 1) + [Advance]
  }

  /** The connection after initialize: the events that arrive during the roundtrip, and the calls. */
  function InitializeLog(serials: seq<Serial>): seq<Entry> {
    BootCalls(BOOT_CALLS) + SentLog(serials) + AcksOf(serials) + [Commit]
  }

  /** At the roundtrip the surface has its role. */
  lemma RoleAtRoundtrip(garbage: ObjId)
    ensures Run(Start(true, true, garbage), Advances(BOOT_CALLS)).pc == Roundtrip
    ensures Run(Start(true, true, garbage), Advances(BOOT_CALLS)).server.hasRole
  {
    hide Run, Next, IdsOk, HandlesOk, Picture, Events;
    ReachedInv(true, true, garbage, Advances(BOOT_CALLS));
    BootRun(true, true, garbage, BOOT_CALLS);
  }

  /** initialize reaches its end, with every configure of the roundtrip acknowledged in order before the last commit. */
  lemma InitializeRun(garbage: ObjId, serials: seq<Serial>)
    requires serials != []
    ensures var m := Reached(true, true, garbage, InitializeSteps(serials));
      && m.pc.Idle? && m.pushes == [] && m.queue == [] && !m.cleared && m.sent == serials
      && ClientOf(m) == Client(4, map[], NULL_OBJECT, InitializeLog(serials))
  {
    hide Run, Apply, BootCalls;
    var m0 := Start(true, true, garbage);
    BootRun(true, true, garbage, BOOT_CALLS);
    RoleAtRoundtrip(garbage);
    var m1 := Run(m0, Advances(BOOT_CALLS));
    ConfigureRun(m1, serials);
    var m2 := Run(m1, ConfigureSteps(serials));
    OneStep(m2, SendSync);
    var m3 := Run(m2, [SendSync]);
    DispatchRun(m3, serials);
    var m4 := Run(m3, Dispatches(|serials| + 1));
    OneStep(m4, Advance);
    RunConcat(m0, Advances(BOOT_CALLS), ConfigureSteps(serials));
    RunConcat(m0, Advances(BOOT_CALLS) + ConfigureSteps(serials), [SendSync]);
    RunConcat(m0, Advances(BOOT_CALLS) + ConfigureSteps(serials) + [SendSync], Dispatches(|serials| + 1));
    RunConcat(m0, Advances(BOOT_CALLS) + ConfigureSteps(serials) + [SendSync] + Dispatches(|serials| + 1), [Advance]);
  }
}
