/**
 The window manager at work, one library call at a time.

 `initialize` and `pushFrame` run on one thread; the dispatch thread that the
 base class starts handles the compositor's events in between any two of their
 calls. A run is any sequence of steps; a step that is not enabled changes
 nothing, so every statement about runs holds for all sequences.
 */
module WindowRun {
  import opened Wayland
  import opened Compositor

  datatype Event = ConfigureEvent(serial: Serial) | DoneEvent(callback: ObjId) | SyncEvent

  /** Where the calling thread stands in `initialize` or `pushFrame`. */
  datatype Pc =
    | Boot(k: nat)                                     // before the k-th request of initialize
    | Roundtrip                                        // waiting for the sync reply
    | Resume                                           // the sync reply has been handled
    | Idle
    | Adding(frame: Frame, handle: ObjId, k: nat)      // k descriptors sent
    | Dropping(frame: Frame, handle: ObjId, buffer: ObjId) // buffer created, handle not yet destroyed
    | Mapped(frame: Frame)                             // buffer_map has the frame's handle
    | Listening(frame: Frame)                          // frame callback stored, listener not yet added
    | Attaching(frame: Frame)
    | Damaging(frame: Frame)
    | Committing(frame: Frame)
    | Crashed(frame: Frame)                            // a listener was added to the null proxy
  {
    predicate Booting() {
      Boot? || Roundtrip? || Resume?
    }

    predicate Pushing() {
      !Booting() && !Idle?
    }

    predicate Creating() {
      Adding? || Dropping?
    }
  }

  datatype Step =
    | Advance                       // the calling thread makes its next call
    | Push(frame: Frame)            // pushFrame is called
    | SendConfigure(serial: Serial) // the compositor sends xdg_surface.configure
    | SendDone(callback: ObjId)     // the compositor finishes a committed frame callback
    | SendSync                      // the compositor answers the roundtrip
    | Dispatch                      // the dispatch thread takes its next action

  datatype Machine = Machine(
    caching: bool,          // false: a pushFrame that never finds its handle in the map
    polite: bool,           // the compositor configures before it answers the roundtrip
    nextId: ObjId,
    bufferMap: map<HandlePtr, ObjId>,
    framePtr: ObjId,
    pc: Pc,
    queue: seq<Event>,      // sent by the compositor, handler not finished
    cleared: bool,          // the frame handler in progress has reset frame_callback_ptr
    log: seq<Entry>,
    server: Server,
    pushes: seq<Frame>,     // history: frames given to pushFrame
    requested: seq<ObjId>,  // history: frame callbacks requested
    destroyed: seq<ObjId>,  // history: frame callbacks destroyed
    clears: nat,            // history: times the handler has reset frame_callback_ptr
    sent: seq<Serial>,      // history: serials sent
    syncSent: bool)
  {
    function Call(e: Entry): Machine {
      this.(log := log + [e], server := Apply(server, e))
    }
  }

  /** frame_callback_ptr is not set before initialize ends: it starts as anything. */
  function Start(caching: bool, polite: bool, garbage: ObjId): Machine {
    Machine(caching, polite, 1, map[], garbage, Boot(0), [], false, [], FRESH_SERVER, [], [], [], 0, [], false)
  }

  const BOOT_CALLS := 7

  function BootCall(k: nat, id: ObjId): Entry
    requires k < BOOT_CALLS
  {
    if k == 0 then CreateSurface(id)
    else if k == 1 then GetXdgSurface(id)
    else if k == 2 then GetToplevel(id)
    else if k == 3 then SetToplevel(Title)
    else if k == 4 then SetToplevel(AppId)
    else if k == 5 then SetToplevel(Fullscreen)
    else Commit
  }

  function AdvanceBoot(m: Machine): Machine
    requires m.pc.Booting()
  {
    match m.pc
    case Boot(k) =>
      if k >= BOOT_CALLS then m
      else m.Call(BootCall(k, m.nextId)).(
          nextId := if k < 3 then m.nextId + 1 else m.nextId,
          pc := if k + 1 < BOOT_CALLS then Boot(k + 1) else Roundtrip)
    case Resume => m.Call(Commit).(framePtr := NULL_OBJECT, pc := Idle)
    case _ => m
  }

  function AdvancePush(m: Machine): Machine
    requires !m.pc.Booting()
  {
    match m.pc
    case Adding(f, h, k) =>
      if k < f.native.numFds then m.Call(AddFd(h, f.native.data[k])).(pc := Adding(f, h, k + 1))
      else m.Call(CreateBufferCall(ContentOf(f), h, m.nextId)).(nextId := m.nextId + 1, pc := Dropping(f, h, m.nextId))
    case Dropping(f, h, b) =>
      m.Call(DestroyHandle(h)).(bufferMap := m.bufferMap[f.ptr := b], pc := Mapped(f))
    case Mapped(f) =>
      m.Call(RequestFrame(m.nextId)).(
        nextId := m.nextId + 1, framePtr := m.nextId, requested := m.requested + [m.nextId], pc := Listening(f))
    case Listening(f) =>
      m.(pc := if m.framePtr == NULL_OBJECT then Crashed(f) else Attaching(f))
    case Attaching(f) =>
      if f.ptr in m.bufferMap then m.Call(Attach(m.bufferMap[f.ptr])).(pc := Damaging(f)) else m
    case Damaging(f) => m.Call(Damage(f.width, f.height)).(pc := Committing(f))
    case Committing(_) => m.Call(Commit).(pc := Idle)
    case _ => m
  }

  function BeginPush(m: Machine, f: Frame): Machine {
    if m.pc != Idle then m
    else if m.caching && f.ptr in m.bufferMap then m.(pushes := m.pushes + [f], pc := Mapped(f))
    else m.Call(CreateHandle(m.nextId, f.native.numFds, Ints(f.native))).(
        nextId := m.nextId + 1, pushes := m.pushes + [f], pc := Adding(f, m.nextId, 0))
  }

  /** xdg_surface_configure and frame_callback, one visible action at a time. */
  function DispatchNext(m: Machine): Machine {
    if m.queue == [] then m
    else match m.queue[0]
      case ConfigureEvent(serial) => m.Call(AckConfigure(serial)).(queue := m.queue[1..])
      case DoneEvent(cb) =>
        if !m.cleared then m.(framePtr := NULL_OBJECT, cleared := true, clears := m.clears + 1)
        else m.Call(DestroyCallback(cb)).(destroyed := m.destroyed + [cb], cleared := false, queue := m.queue[1..])
      case SyncEvent => m.(queue := m.queue[1..], pc := if m.pc == Roundtrip then Resume else m.pc)
  }

  function CompositorStep(m: Machine, s: Step): Machine
    requires s.SendConfigure? || s.SendDone? || s.SendSync?
  {
    match s
    case SendConfigure(serial) =>
      if m.server.hasRole then m.Call(SentConfigure(serial)).(queue := m.queue + [ConfigureEvent(serial)], sent := m.sent + [serial])
      else m
    case SendDone(cb) =>
      if cb in m.server.activeCallbacks then m.Call(SentDone(cb)).(queue := m.queue + [DoneEvent(cb)])
      else m
    case SendSync =>
      if m.pc == Roundtrip && !m.syncSent && (m.polite ==> m.sent != [])
      then m.(queue := m.queue + [SyncEvent], syncSent := true)
      else m
  }

  function Next(m: Machine, s: Step): Machine {
    if m.pc.Crashed? then m
    else match s
      case Advance => if m.pc.Booting() then AdvanceBoot(m) else AdvancePush(m)
      case Push(f) => BeginPush(m, f)
      case Dispatch => DispatchNext(m)
      case _ => CompositorStep(m, s)
  }

  function Run(m: Machine, steps: seq<Step>): Machine
    decreases |steps|
  {
    if steps == [] then m else Run(Next(m, steps[0]), steps[1..])
  }

  lemma {:induction false} RunConcat(m: Machine, a: seq<Step>, b: seq<Step>)
    ensures Run(m, a + b) == Run(Run(m, a), b)
    decreases |a|
  {
    if a == [] {
      assert a + b == b;
    } else {
      assert (a + b)[1..] == a[1..] + b;
      RunConcat(Next(m, a[0]), a[1..], b);
    }
  }

  // ---------- histories ----------

  predicate Has(pushes: seq<Frame>, p: HandlePtr) {
    exists i :: 0 <= i < |pushes| && pushes[i].ptr == p
  }

  /** The first frame pushed under handle `p`. */
  function First(pushes: seq<Frame>, p: HandlePtr): Frame
    requires Has(pushes, p)
  {
    var k := |pushes| - 1;
    if Has(pushes[..k], p) then First(pushes[..k], p) else pushes[k]
  }

  /** The latest frame pushed under handle `p`. */
  function Last(pushes: seq<Frame>, p: HandlePtr): Frame
    requires Has(pushes, p)
  {
    var k := |pushes| - 1;
    if pushes[k].ptr == p then pushes[k] else Last(pushes[..k], p)
  }

  /** The frame whose buffer the map keeps for `p`. */
  function Kept(caching: bool, pushes: seq<Frame>, p: HandlePtr): Frame
    requires Has(pushes, p)
  {
    if caching then First(pushes, p) else Last(pushes, p)
  }

  lemma HasSnoc(pushes: seq<Frame>, f: Frame, p: HandlePtr)
    ensures Has(pushes + [f], p) <==> Has(pushes, p) || f.ptr == p
  {
    var all := pushes + [f];
    if Has(pushes, p) {
      var i :| 0 <= i < |pushes| && pushes[i].ptr == p;
      assert all[i].ptr == p;
    }
    if f.ptr == p {
      assert all[|pushes|].ptr == p;
    }
  }

  lemma KeptSnoc(caching: bool, pushes: seq<Frame>, f: Frame, p: HandlePtr)
    requires Has(pushes + [f], p)
    ensures caching && Has(pushes, p) ==> Kept(caching, pushes + [f], p) == First(pushes, p)
    ensures !Has(pushes, p) ==> Kept(caching, pushes + [f], p) == f
    ensures !caching && f.ptr == p ==> Kept(caching, pushes + [f], p) == f
    ensures !caching && f.ptr != p ==> Has(pushes, p) && Kept(caching, pushes + [f], p) == Last(pushes, p)
  {
  }

  function SerialOf(e: Event): seq<Serial> {
    if e.ConfigureEvent? then [e.serial] else []
  }

  function DoneOf(e: Event): multiset<ObjId> {
    if e.DoneEvent? then multiset{e.callback} else multiset{}
  }

  function Serials(queue: seq<Event>): seq<Serial> {
    if queue == [] then [] else SerialOf(queue[0]) + Serials(queue[1..])
  }

  function Dones(queue: seq<Event>): multiset<ObjId> {
    if queue == [] then multiset{} else DoneOf(queue[0]) + Dones(queue[1..])
  }

  /** Every sync reply in the queue has a configure before it. */
  predicate SyncGuarded(queue: seq<Event>) {
    queue != [] && !queue[0].ConfigureEvent? ==> !queue[0].SyncEvent? && SyncGuarded(queue[1..])
  }

  lemma {:induction false} SerialsSnoc(queue: seq<Event>, e: Event)
    ensures Serials(queue + [e]) == Serials(queue) + SerialOf(e)
  {
    hide SerialOf;
    SnocTail(queue, e);
    if queue != [] {
      SerialsSnoc(queue[1..], e);
    }
  }

  lemma {:induction false} DonesSnoc(queue: seq<Event>, e: Event)
    ensures Dones(queue + [e]) == Dones(queue) + DoneOf(e)
  {
    hide DoneOf;
    SnocTail(queue, e);
    if queue != [] {
      DonesSnoc(queue[1..], e);
    }
  }

  lemma {:induction false} GuardSnoc(queue: seq<Event>, e: Event)
    ensures SyncGuarded(queue) && (e.SyncEvent? ==> Serials(queue) != []) ==> SyncGuarded(queue + [e])
  {
    SnocTail(queue, e);
    if queue != [] {
      GuardSnoc(queue[1..], e);
    }
  }

  lemma SnocTail(queue: seq<Event>, e: Event)
    ensures (queue + [e])[1..] == if queue == [] then [] else queue[1..] + [e]
  {
  }

  /** An event at the tail of the queue. */
  lemma QueueSnoc(queue: seq<Event>, e: Event)
    ensures Serials(queue + [e]) == Serials(queue) + SerialOf(e)
    ensures Dones(queue + [e]) == Dones(queue) + DoneOf(e)
    ensures SyncGuarded(queue) && (e.SyncEvent? ==> Serials(queue) != []) ==> SyncGuarded(queue + [e])
  {
    hide Serials, Dones, SyncGuarded, SerialOf, DoneOf;
    SerialsSnoc(queue, e);
    DonesSnoc(queue, e);
    GuardSnoc(queue, e);
  }
}
