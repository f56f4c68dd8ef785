/**
 What every step of the window manager keeps. The one step that can break it is
 an attach before any configure is acknowledged, which a compositor that sends
 its first configure before it answers the roundtrip rules out.
 */
module WindowInvariant {
  import opened Wrappers
  import opened Wayland
  import opened Compositor
  import opened WindowLog
  import opened WindowRun

  /** The pushes whose handle the map already accounts for. */
  function Settled(m: Machine): seq<Frame> {
    if m.pc.Creating() && m.pushes != [] then m.pushes[..|m.pushes| - 1] else m.pushes
  }

  /** The buffer created but not yet in the map. */
  function Loose(pc: Pc): set<ObjId> {
    if pc.Dropping? then {pc.buffer} else {}
  }

  function UpdateOf(kept: Frame, f: Frame): Update {
    Update(ContentOf(kept), Some((f.width, f.height)))
  }

  /** The update that the i-th push commits. */
  function Shown(caching: bool, pushes: seq<Frame>, i: nat): Update
    requires i < |pushes|
  {
    assert pushes[..i + 1][i].ptr == pushes[i].ptr;
    UpdateOf(Kept(caching, pushes[..i + 1], pushes[i].ptr), pushes[i])
  }

  ghost predicate IdsOk(nextId: ObjId, used: set<ObjId>, buffers: map<ObjId, Content>, requested: seq<ObjId>) {
    && nextId >= 1
    && (forall id :: id in used ==> 0 < id < nextId)
    && (forall id :: id in buffers ==> id < nextId)
    && (forall id :: id in multiset(requested) ==> 0 < id < nextId)
  }

  ghost predicate PhaseOk(pc: Pc, pushes: seq<Frame>, hasSurface: bool, hasXdg: bool, hasRole: bool, queue: seq<Event>) {
    && (pc.Booting() ==> pushes == [])
    && (pc.Pushing() ==> pushes != [] && pushes[|pushes| - 1] == pc.frame)
    && (pc.Boot? ==> pc.k < BOOT_CALLS && hasSurface == (pc.k >= 1) && hasXdg == (pc.k >= 2) && hasRole == (pc.k >= 3))
    && (!pc.Boot? ==> hasSurface && hasXdg && hasRole)
    && (queue != [] ==> hasRole)
  }

  ghost predicate HandlesOk(pc: Pc, handles: map<ObjId, RemoteHandle>, nextId: ObjId) {
    match pc
    case Adding(f, h, k) =>
      && k <= f.native.numFds && h < nextId
      && handles == map[h := RemoteHandle(f.native.numFds, Ints(f.native), Fds(f.native)[..k], false)]
    case Dropping(f, h, b) => handles.Keys == {h}
    case _ => handles == map[]
  }

  /** The map and the compositor's buffers, over the settled pushes. */
  ghost predicate CacheOk(caching: bool, settled: seq<Frame>, bufferMap: map<HandlePtr, ObjId>,
                          buffers: map<ObjId, Content>, loose: set<ObjId>) {
    && (forall p :: p in bufferMap <==> Has(settled, p))
    && (forall p :: p in bufferMap ==>
          && bufferMap[p] in buffers
          && buffers[bufferMap[p]] == ContentOf(Kept(caching, settled, p)))
    && (caching ==>
          && buffers.Keys == bufferMap.Values + loose
          && |buffers| == |bufferMap| + |loose|
          && forall p, q :: p in bufferMap && q in bufferMap && bufferMap[p] == bufferMap[q] ==> p == q)
    && (!caching ==> |buffers| == |settled| + |loose|)
  }

  /** Where the frame being pushed stands. */
  ghost predicate MakingOk(caching: bool, pc: Pc, bufferMap: map<HandlePtr, ObjId>, buffers: map<ObjId, Content>) {
    && (pc.Pushing() && !pc.Creating() ==> pc.frame.ptr in bufferMap)
    && (pc.Creating() && caching ==> pc.frame.ptr !in bufferMap)
    && (pc.Dropping? ==>
          && pc.buffer in buffers && buffers[pc.buffer] == ContentOf(pc.frame)
          && pc.buffer !in bufferMap.Values)
  }

  ghost predicate SurfaceOk(pc: Pc, bufferMap: map<HandlePtr, ObjId>, pendingBuffer: Option<ObjId>,
                            pendingDamage: Option<(int, int)>, currentBuffer: Option<ObjId>, pendingCallbacks: multiset<ObjId>) {
    && (pc.Booting() ==> currentBuffer.None?)
    && (pc.Booting() || pc.Idle? || pc.Creating() || pc.Mapped? ==> pendingCallbacks == multiset{})
    && pendingBuffer == (if (pc.Damaging? || pc.Committing?) && pc.frame.ptr in bufferMap then Some(bufferMap[pc.frame.ptr]) else None)
    && pendingDamage == (if pc.Committing? then Some((pc.frame.width, pc.frame.height)) else None)
  }

  ghost predicate PresentedOk(caching: bool, pushes: seq<Frame>, pushing: bool, presented: seq<Update>) {
    && |presented| == |pushes| - (if pushing then 1 else 0)
    && forall i :: 0 <= i < |presented| ==> presented[i] == Shown(caching, pushes, i)
  }

  ghost predicate ConfiguresOk(polite: bool, booted: bool, unacked: seq<Serial>, acked: seq<Serial>, queue: seq<Event>,
                               sent: seq<Serial>) {
    && sent == acked + unacked
    && unacked == Serials(queue)
    && (polite ==> acked != [] || SyncGuarded(queue))
    && (polite && booted ==> acked != [])
  }

  /** Frame callbacks requested and not yet destroyed: uncommitted, at the compositor, or on their way back. */
  function Outstanding(m: Machine): multiset<ObjId> {
    m.server.pendingCallbacks + m.server.activeCallbacks + Dones(m.queue)
  }

  ghost predicate CallbacksOk(requested: seq<ObjId>, destroyed: seq<ObjId>, outstanding: multiset<ObjId>) {
    && multiset(requested) == multiset(destroyed) + outstanding
    && (forall id :: multiset(requested)[id] <= 1)
  }

  ghost predicate PointerOk(booting: bool, framePtr: ObjId, requested: seq<ObjId>, destroyed: seq<ObjId>,
                            queue: seq<Event>, cleared: bool) {
    && (cleared ==> queue != [] && queue[0].DoneEvent?)
    && (booting ==> requested == [])
    && (!booting ==>
          framePtr == NULL_OBJECT
          || (&& requested != [] && framePtr == requested[|requested| - 1]
              && framePtr !in multiset(destroyed)
              && (cleared ==> queue[0].callback != framePtr)))
  }

  /** The requests are well formed and the compositor has raised no error. */
  ghost predicate Connection(m: Machine) {
    && m.server.error.None?
    && IdsOk(m.nextId, m.server.used, m.server.buffers, m.requested)
    && PhaseOk(m.pc, m.pushes, m.server.hasSurface, m.server.hasXdg, m.server.hasRole, m.queue)
    && HandlesOk(m.pc, m.server.handles, m.nextId)
  }

  /** The buffers, the surface state and the committed updates agree with the pushes. */
  ghost predicate Picture(m: Machine) {
    && CacheOk(m.caching, Settled(m), m.bufferMap, m.server.buffers, Loose(m.pc))
    && MakingOk(m.caching, m.pc, m.bufferMap, m.server.buffers)
    && SurfaceOk(m.pc, m.bufferMap, m.server.pendingBuffer, m.server.pendingDamage, m.server.currentBuffer, m.server.pendingCallbacks)
    && PresentedOk(m.caching, m.pushes, m.pc.Pushing(), m.server.presented)
  }

  /** Configures and frame callbacks are accounted for. */
  ghost predicate Events(m: Machine) {
    && ConfiguresOk(m.polite, !m.pc.Boot? && !m.pc.Roundtrip?, m.server.unacked, m.server.acked, m.queue, m.sent)
    && CallbacksOk(m.requested, m.destroyed, Outstanding(m))
    && PointerOk(m.pc.Booting(), m.framePtr, m.requested, m.destroyed, m.queue, m.cleared)
  }

  ghost predicate Inv(m: Machine) {
    Connection(m) && Picture(m) && Events(m)
  }

  lemma StartInv(caching: bool, polite: bool, garbage: ObjId)
    ensures Inv(Start(caching, polite, garbage))
  {
    assert multiset(Start(caching, polite, garbage).requested) == multiset{};
  }

  // ---------- steps that leave a part alone ----------

  ghost predicate SamePicture(m: Machine, m': Machine) {
    && m'.caching == m.caching && m'.pushes == m.pushes && m'.bufferMap == m.bufferMap
    && m'.server.buffers == m.server.buffers && m'.server.presented == m.server.presented
    && m'.server.pendingBuffer == m.server.pendingBuffer && m'.server.pendingDamage == m.server.pendingDamage
    && m'.server.currentBuffer == m.server.currentBuffer
    && (m'.server.pendingCallbacks == m.server.pendingCallbacks || (m.pc.Mapped? && m'.pc.Listening?))
    && (m'.pc == m.pc
        || (m.pc.Booting() && (m'.pc.Booting() || m'.pc.Idle?))
        || (m.pc.Adding? && m'.pc.Adding? && m'.pc.frame == m.pc.frame)
        || (m.pc.Mapped? && m'.pc.Listening? && m'.pc.frame == m.pc.frame)
        || (m.pc.Listening? && (m'.pc.Attaching? || m'.pc.Crashed?) && m'.pc.frame == m.pc.frame))
  }

  lemma PictureFrame(m: Machine, m': Machine)
    requires Picture(m) && SamePicture(m, m') && Connection(m)
    ensures Picture(m')
  {
    hide CacheOk, PresentedOk, IdsOk, HandlesOk;
  }

  ghost predicate SameEvents(m: Machine, m': Machine) {
    && m'.polite == m.polite && m'.server.unacked == m.server.unacked && m'.server.acked == m.server.acked
    && m'.queue == m.queue && m'.sent == m.sent && m'.cleared == m.cleared
    && m'.requested == m.requested && m'.destroyed == m.destroyed
    && Outstanding(m') == Outstanding(m)
    && m'.framePtr == m.framePtr
    && m'.pc.Booting() == m.pc.Booting()
    && (m'.pc.Boot? || m'.pc.Roundtrip?) == (m.pc.Boot? || m.pc.Roundtrip?)
  }

  lemma EventsFrame(m: Machine, m': Machine)
    requires Events(m) && SameEvents(m, m')
    ensures Events(m')
  {
  }

  /** Events touch none of what the requests are checked against. */
  ghost predicate SameConnection(m: Machine, m': Machine) {
    && m'.polite == m.polite && m'.server.error == m.server.error && m'.nextId == m.nextId
    && m'.server.used == m.server.used && m'.server.buffers == m.server.buffers && m'.requested == m.requested
    && m'.pushes == m.pushes && m'.server.handles == m.server.handles
    && m'.server.hasSurface == m.server.hasSurface && m'.server.hasXdg == m.server.hasXdg
    && m'.server.hasRole == m.server.hasRole && (m'.queue != [] ==> m.server.hasRole)
    && (m'.pc == m.pc || (m.pc == Roundtrip && m'.pc == Resume))
  }

  lemma ConnectionFrame(m: Machine, m': Machine)
    requires Connection(m) && SameConnection(m, m')
    ensures Connection(m')
  {
  }

  // ---------- what each call does to a healthy compositor ----------

  lemma BootEffect(s: Server, k: nat, id: ObjId)
    requires k < BOOT_CALLS && s.error.None? && s.Takes(id) && s.pendingBuffer.None? && s.currentBuffer.None? && s.pendingDamage.None?
    requires s.hasSurface == (k >= 1) && s.hasXdg == (k >= 2) && s.hasRole == (k >= 3) && s.pendingCallbacks == multiset{}
    ensures Apply(s, BootCall(k, id)) ==
      s.(used := if k < 3 then s.used + {id} else s.used, hasSurface := true, hasXdg := k >= 1, hasRole := k >= 2)
  {
    assert s.activeCallbacks + multiset{} == s.activeCallbacks;
  }

  lemma CommitEffect(s: Server)
    requires s.error.None? && s.hasSurface
    ensures Apply(s, Commit) == OnCommit(s)
  {
  }

  lemma CreateBufferEffect(s: Server, c: Content, h: ObjId, b: ObjId)
    requires s.error.None? && s.Takes(b)
    requires h in s.handles && s.handles[h] == RemoteHandle(c.native.numFds, Ints(c.native), Fds(c.native), false)
    ensures Apply(s, CreateBufferCall(c, h, b)) ==
      s.(used := s.used + {b}, handles := s.handles[h := s.handles[h].(spent := true)], buffers := s.buffers[b := c])
  {
    assert Fds(c.native) + Ints(c.native) == c.native.data;
  }

  lemma DropEffect(s: Server, h: ObjId)
    requires s.error.None? && h in s.handles
    ensures Apply(s, DestroyHandle(h)) == s.(handles := s.handles - {h})
  {
  }

  lemma RequestFrameEffect(s: Server, id: ObjId)
    requires s.error.None? && s.Takes(id) && s.hasSurface
    ensures Apply(s, RequestFrame(id)) == s.(used := s.used + {id}, pendingCallbacks := s.pendingCallbacks + multiset{id})
  {
  }

  lemma AttachEffect(s: Server, b: ObjId)
    requires s.error.None? && s.hasSurface && b in s.buffers && s.acked != []
    ensures Apply(s, Attach(b)) == s.(pendingBuffer := Some(b))
  {
  }

  lemma DamageEffect(s: Server, w: int, h: int)
    requires s.error.None? && s.hasSurface
    ensures Apply(s, Damage(w, h)) == s.(pendingDamage := Some((w, h)))
  {
  }

  lemma AckEffect(s: Server, serial: Serial)
    requires s.error.None? && s.hasRole && s.unacked != [] && s.unacked[0] == serial
    ensures Apply(s, AckConfigure(serial)) == s.(unacked := s.unacked[1..], acked := s.acked + [serial])
  {
  }

  lemma SentEffect(s: Server, serial: Serial, id: ObjId)
    requires s.error.None?
    ensures Apply(s, SentConfigure(serial)) == s.(unacked := s.unacked + [serial])
    ensures Apply(s, SentDone(id)) == s.(activeCallbacks := s.activeCallbacks - multiset{id})
  {
  }

  // ---------- initialize ----------

  lemma BootCallEffect(m: Machine)
    requires Inv(m) && m.pc.Boot?
    ensures var m' := AdvanceBoot(m);
      && m' == m.(log := m'.log, nextId := if m.pc.k < 3 then m.nextId + 1 else m.nextId,
                  pc := if m.pc.k + 1 < BOOT_CALLS then Boot(m.pc.k + 1) else Roundtrip,
                  server := m.server.(used := if m.pc.k < 3 then m.server.used + {m.nextId} else m.server.used,
                                      hasSurface := true, hasXdg := m.pc.k >= 1, hasRole := m.pc.k >= 2))
  {
    hide Apply, Events, CacheOk, MakingOk, PresentedOk, HandlesOk, BootCall;
    BootEffect(m.server, m.pc.k, m.nextId);
  }

  lemma BootConnection(m: Machine)
    requires Inv(m) && m.pc.Boot?
    ensures Connection(AdvanceBoot(m))
    ensures SamePicture(m, AdvanceBoot(m)) && SameEvents(m, AdvanceBoot(m))
  {
    hide AdvanceBoot, Events, Picture;
    BootCallEffect(m);
  }

  lemma BootKeeps(m: Machine)
    requires Inv(m) && m.pc.Boot?
    ensures Inv(AdvanceBoot(m))
  {
    hide AdvanceBoot, Connection, Picture, Events, SamePicture, SameEvents;
    BootConnection(m);
    PictureFrame(m, AdvanceBoot(m));
    EventsFrame(m, AdvanceBoot(m));
  }

  lemma ResumeKeeps(m: Machine)
    requires Inv(m) && m.pc.Resume?
    ensures Inv(AdvanceBoot(m))
  {
    hide Apply, CacheOk, PresentedOk, ConfiguresOk;
    CommitEffect(m.server);
    var m' := AdvanceBoot(m);
    assert Outstanding(m') == Outstanding(m);
    PictureFrame(m, m');
  }

  // ---------- pushFrame ----------

  /** Later pushes do not change what an earlier push committed. */
  lemma ShownSnoc(caching: bool, pushes: seq<Frame>, f: Frame)
    ensures forall i :: 0 <= i < |pushes| ==> Shown(caching, pushes + [f], i) == Shown(caching, pushes, i)
  {
    forall i | 0 <= i < |pushes| ensures Shown(caching, pushes + [f], i) == Shown(caching, pushes, i) {
      assert (pushes + [f])[..i + 1] == pushes[..i + 1];
    }
  }

  /** A hit settles at once: the map keeps what it had. */
  lemma CacheHit(settled: seq<Frame>, f: Frame, bufferMap: map<HandlePtr, ObjId>, buffers: map<ObjId, Content>)
    requires CacheOk(true, settled, bufferMap, buffers, {}) && f.ptr in bufferMap
    ensures CacheOk(true, settled + [f], bufferMap, buffers, {})
  {
    forall p ensures Has(settled + [f], p) <==> Has(settled, p) {
      HasSnoc(settled, f, p);
    }
    forall p | p in bufferMap ensures Kept(true, settled + [f], p) == Kept(true, settled, p) {
      KeptSnoc(true, settled, f, p);
    }
  }

  lemma BeginHitKeeps(m: Machine, f: Frame)
    requires Inv(m) && m.pc.Idle? && m.caching && f.ptr in m.bufferMap
    ensures Inv(BeginPush(m, f))
  {
    hide Apply, IdsOk, CacheOk, ConfiguresOk, CallbacksOk, PointerOk, Shown;
    var m' := BeginPush(m, f);
    CacheHit(m.pushes, f, m.bufferMap, m.server.buffers);
    ShownSnoc(m.caching, m.pushes, f);
    EventsFrame(m, m');
  }

  lemma BeginMissConnection(m: Machine, f: Frame)
    requires Inv(m) && m.pc.Idle? && !(m.caching && f.ptr in m.bufferMap)
    ensures var m' := BeginPush(m, f);
      && Connection(m') && SameEvents(m, m')
      && m' == m.(log := m'.log, server := m.server.(used := m'.server.used, handles := m'.server.handles), nextId := m'.nextId,
                  pushes := m.pushes + [f], pc := Adding(f, m.nextId, 0))
  {
    hide Apply, Picture, Events;
    ApplyCreateHandle(m.server, m.nextId, f.native.numFds, Ints(f.native));
    assert Fds(f.native)[..0] == [];
  }

  lemma BeginMissPicture(m: Machine, f: Frame)
    requires Inv(m) && m.pc.Idle? && !(m.caching && f.ptr in m.bufferMap)
    ensures Picture(BeginPush(m, f))
  {
    hide Apply, BeginPush, Connection, Events, CacheOk, Shown;
    BeginMissConnection(m, f);
    var m' := BeginPush(m, f);
    assert Settled(m') == m.pushes;
    ShownSnoc(m.caching, m.pushes, f);
  }

  lemma BeginMissKeeps(m: Machine, f: Frame)
    requires Inv(m) && m.pc.Idle? && !(m.caching && f.ptr in m.bufferMap)
    ensures Inv(BeginPush(m, f))
  {
    hide BeginPush, Connection, Picture, Events, SameEvents;
    BeginMissConnection(m, f);
    BeginMissPicture(m, f);
    EventsFrame(m, BeginPush(m, f));
  }

  lemma AddFdKeeps(m: Machine)
    requires Inv(m) && m.pc.Adding? && m.pc.k < m.pc.frame.native.numFds
    ensures Inv(AdvancePush(m))
  {
    hide Apply, Picture, Events, IdsOk;
    var Adding(f, h, k) := m.pc;
    assert Fds(f.native)[..k + 1] == Fds(f.native)[..k] + [f.native.data[k]];
    ApplyAddFd(m.server, h, f.native.data[k]);
    PictureFrame(m, AdvancePush(m));
    EventsFrame(m, AdvancePush(m));
  }

  lemma CreateBufferConnection(m: Machine)
    requires Inv(m) && m.pc.Adding? && m.pc.k == m.pc.frame.native.numFds
    ensures var m', f := AdvancePush(m), m.pc.frame;
      && Connection(m') && SameEvents(m, m')
      && m.nextId !in m.server.buffers
      && m' == m.(log := m'.log, nextId := m.nextId + 1, pc := Dropping(f, m.pc.handle, m.nextId),
                  server := m.server.(used := m'.server.used, handles := m'.server.handles,
                                      buffers := m.server.buffers[m.nextId := ContentOf(f)]))
  {
    hide Apply, Picture, Events;
    var Adding(f, h, k) := m.pc;
    assert Fds(f.native)[..k] == Fds(f.native);
    CreateBufferEffect(m.server, ContentOf(f), h, m.nextId);
  }

  /** A buffer that no entry of the map names yet. */
  lemma CacheCreate(caching: bool, settled: seq<Frame>, bufferMap: map<HandlePtr, ObjId>, buffers: map<ObjId, Content>,
                    b: ObjId, c: Content)
    requires CacheOk(caching, settled, bufferMap, buffers, {}) && b !in buffers
    ensures CacheOk(caching, settled, bufferMap, buffers[b := c], {b})
    ensures b !in bufferMap.Values
  {
    assert buffers[b := c].Keys == buffers.Keys + {b};
  }

  lemma CreateBufferKeeps(m: Machine)
    requires Inv(m) && m.pc.Adding? && m.pc.k == m.pc.frame.native.numFds
    ensures Inv(AdvancePush(m))
  {
    hide Apply, AdvancePush, Connection, Events, CacheOk, PresentedOk, SameEvents;
    var m' := AdvancePush(m);
    CreateBufferConnection(m);
    assert Settled(m') == Settled(m);
    CacheCreate(m.caching, Settled(m), m.bufferMap, m.server.buffers, m.nextId, ContentOf(m.pc.frame));
    EventsFrame(m, m');
  }

  lemma DropConnection(m: Machine)
    requires Inv(m) && m.pc.Dropping?
    ensures var m', f := AdvancePush(m), m.pc.frame;
      && Connection(m') && SameEvents(m, m')
      && m' == m.(log := m'.log, pc := Mapped(f), bufferMap := m.bufferMap[f.ptr := m.pc.buffer],
                  server := m.server.(handles := map[]))
  {
    hide Apply, Picture, Events, IdsOk;
    DropEffect(m.server, m.pc.handle);
    assert m.server.handles - {m.pc.handle} == map[];
  }

  /** With an injective map, inserting a fresh pair keeps values, count and injectivity in step. */
  lemma InsertFresh(bufferMap: map<HandlePtr, ObjId>, p: HandlePtr, b: ObjId)
    requires p !in bufferMap && b !in bufferMap.Values
    ensures bufferMap[p := b].Values == bufferMap.Values + {b}
  {
    var map' := bufferMap[p := b];
    forall v | v in bufferMap.Values + {b} ensures v in map'.Values {
      if v == b {
        assert map'[p] == b;
      } else {
        var q :| q in bufferMap && bufferMap[q] == v;
        assert map'[q] == v;
      }
    }
  }

  /** Every entry of the map, after the insertion, names the buffer of the frame it keeps. */
  lemma InsertedEntry(caching: bool, settled: seq<Frame>, f: Frame, bufferMap: map<HandlePtr, ObjId>,
                      buffers: map<ObjId, Content>, b: ObjId, p: HandlePtr)
    requires CacheOk(caching, settled, bufferMap, buffers, {b})
    requires b in buffers && buffers[b] == ContentOf(f)
    requires caching ==> f.ptr !in bufferMap
    ensures var map' := bufferMap[f.ptr := b];
      && (p in map' <==> Has(settled + [f], p))
      && (p in map' ==> map'[p] in buffers && buffers[map'[p]] == ContentOf(Kept(caching, settled + [f], p)))
  {
    hide First, Last;
    HasSnoc(settled, f, p);
    if Has(settled + [f], p) {
      KeptSnoc(caching, settled, f, p);
    }
  }

  /** The map takes the new buffer: a first one when caching, a replacement otherwise. */
  lemma CacheInsert(caching: bool, settled: seq<Frame>, f: Frame, bufferMap: map<HandlePtr, ObjId>,
                    buffers: map<ObjId, Content>, b: ObjId)
    requires CacheOk(caching, settled, bufferMap, buffers, {b})
    requires b in buffers && buffers[b] == ContentOf(f) && b !in bufferMap.Values
    requires caching ==> f.ptr !in bufferMap
    ensures CacheOk(caching, settled + [f], bufferMap[f.ptr := b], buffers, {})
  {
    hide Kept, Has;
    forall p {
      InsertedEntry(caching, settled, f, bufferMap, buffers, b, p);
    }
    if caching {
      InsertInjective(bufferMap, buffers, f.ptr, b);
    }
  }

  /** An injective map onto the buffers but one stays injective, and onto all of them, when it takes that one. */
  lemma InsertInjective(bufferMap: map<HandlePtr, ObjId>, buffers: map<ObjId, Content>, p: HandlePtr, b: ObjId)
    requires p !in bufferMap && b !in bufferMap.Values
    requires buffers.Keys == bufferMap.Values + {b} && |buffers| == |bufferMap| + 1
    requires forall q, r :: q in bufferMap && r in bufferMap && bufferMap[q] == bufferMap[r] ==> q == r
    ensures var map' := bufferMap[p := b];
      && buffers.Keys == map'.Values && |buffers| == |map'|
      && forall q, r :: q in map' && r in map' && map'[q] == map'[r] ==> q == r
  {
    InsertFresh(bufferMap, p, b);
    assert forall q :: q in bufferMap ==> bufferMap[q] in bufferMap.Values;
  }

  lemma DropKeeps(m: Machine)
    requires Inv(m) && m.pc.Dropping?
    ensures Inv(AdvancePush(m))
  {
    hide Apply, AdvancePush, Connection, Events, CacheOk, PresentedOk, SameEvents;
    var m', f := AdvancePush(m), m.pc.frame;
    DropConnection(m);
    assert m.pushes == Settled(m) + [f] by {
      hide Picture;
      DropFrame(m);
    }
    CacheInsert(m.caching, Settled(m), f, m.bufferMap, m.server.buffers, m.pc.buffer);
    EventsFrame(m, m');
  }

  lemma DropFrame(m: Machine)
    requires Connection(m) && m.pc.Creating()
    ensures m.pushes == Settled(m) + [m.pc.frame]
  {
  }

  lemma RequestFrameConnection(m: Machine)
    requires Inv(m) && m.pc.Mapped?
    ensures var m' := AdvancePush(m);
      && Connection(m') && SamePicture(m, m') && m.nextId !in multiset(m.requested) && m.nextId > 0
      && m' == m.(log := m'.log, nextId := m'.nextId, framePtr := m.nextId, requested := m.requested + [m.nextId], pc := m'.pc,
                  server := m.server.(used := m'.server.used, pendingCallbacks := m.server.pendingCallbacks + multiset{m.nextId}))
      && m'.pc == Listening(m.pc.frame)
  {
    hide Apply, Picture, Events;
    RequestFrameEffect(m.server, m.nextId);
  }

  lemma RequestFrameKeeps(m: Machine)
    requires Inv(m) && m.pc.Mapped?
    ensures Inv(AdvancePush(m))
  {
    hide Apply, AdvancePush, Connection, Picture, SamePicture, ConfiguresOk;
    var m' := AdvancePush(m);
    RequestFrameConnection(m);
    PictureFrame(m, m');
    assert multiset(m'.requested) == multiset(m.requested) + multiset{m.nextId};
    assert Outstanding(m') == Outstanding(m) + multiset{m.nextId};
    assert m.nextId !in multiset(m.destroyed) && m.nextId !in Outstanding(m);
    assert m.cleared ==> m.queue[0].callback in Dones(m.queue);
  }

  lemma ListenKeeps(m: Machine)
    requires Inv(m) && m.pc.Listening?
    ensures Inv(AdvancePush(m))
  {
    hide IdsOk, Picture, Events;
    PictureFrame(m, AdvancePush(m));
    EventsFrame(m, AdvancePush(m));
  }

  /** The buffer about to be attached exists. */
  lemma AttachesExisting(m: Machine)
    requires Connection(m) && Picture(m) && m.pc.Attaching?
    ensures m.pc.frame.ptr in m.bufferMap && m.bufferMap[m.pc.frame.ptr] in m.server.buffers
    ensures m.server.error.None? && m.server.hasSurface && m.server.hasXdg
  {
    hide IdsOk, HandlesOk, PresentedOk, SurfaceOk, Kept, Has;
  }

  lemma AttachConnection(m: Machine)
    requires Inv(m) && m.pc.Attaching? && m.server.acked != []
    ensures var m', f := AdvancePush(m), m.pc.frame;
      && f.ptr in m.bufferMap && SameEvents(m, m')
      && m' == m.(log := m'.log, pc := Damaging(f), server := m.server.(pendingBuffer := Some(m.bufferMap[f.ptr])))
  {
    hide Apply, Connection, Picture, Events;
    AttachesExisting(m);
    AttachEffect(m.server, m.bufferMap[m.pc.frame.ptr]);
  }

  lemma AttachKeeps(m: Machine)
    requires Inv(m) && m.pc.Attaching? && m.server.acked != []
    ensures Inv(AdvancePush(m))
  {
    hide AdvancePush, IdsOk, CacheOk, PresentedOk, Events, SameEvents;
    AttachConnection(m);
    EventsFrame(m, AdvancePush(m));
  }

  lemma AckedBeforePush(m: Machine)
    requires Inv(m) && m.polite && m.pc.Pushing()
    ensures m.server.acked != []
  {
  }

  lemma DamageKeeps(m: Machine)
    requires Inv(m) && m.pc.Damaging?
    ensures Inv(AdvancePush(m))
  {
    hide Apply, IdsOk, CacheOk, PresentedOk, Events;
    DamageEffect(m.server, m.pc.frame.width, m.pc.frame.height);
    EventsFrame(m, AdvancePush(m));
  }

  lemma CommitConnection(m: Machine)
    requires Inv(m) && m.pc.Committing?
    ensures var m' := AdvancePush(m);
      && Connection(m') && SameEvents(m, m')
      && m' == m.(log := m'.log, server := OnCommit(m.server), pc := Idle)
      && m.server.hasSurface
  {
    hide Apply, Picture, Events, IdsOk;
    CommitEffect(m.server);
    assert Outstanding(AdvancePush(m)) == Outstanding(m);
  }

  /** The commit shows the buffer that the map keeps for the frame being pushed. */
  lemma CommitPresents(m: Machine)
    requires Inv(m) && m.pc.Committing?
    ensures m.pushes != []
    ensures OnCommit(m.server).presented == m.server.presented + [Shown(m.caching, m.pushes, |m.pushes| - 1)]
  {
    hide Events, IdsOk, HandlesOk, PresentedOk, First, Last;
    LastPush(m);
    assert m.server.hasSurface;
    assert m.pushes[..|m.pushes|] == m.pushes;
  }

  lemma CommitKeeps(m: Machine)
    requires Inv(m) && m.pc.Committing?
    ensures Inv(AdvancePush(m))
  {
    hide Apply, AdvancePush, Connection, Events, SameEvents, CacheOk, Shown;
    var m' := AdvancePush(m);
    CommitConnection(m);
    EventsFrame(m, m');
    CommitPresents(m);
  }

  lemma LastPush(m: Machine)
    requires Connection(m) && m.pc.Pushing()
    ensures m.pushes != [] && m.pushes[|m.pushes| - 1] == m.pc.frame
  {
  }

  // ---------- events ----------

  /** A new event at the tail of the queue. */
  ghost predicate Enqueues(m: Machine, m': Machine, e: Event) {
    && m'.polite == m.polite && m'.queue == m.queue + [e] && m'.cleared == m.cleared && m'.pc == m.pc
    && m'.framePtr == m.framePtr && m'.destroyed == m.destroyed && m'.requested == m.requested
    && m'.server.acked == m.server.acked
    && m'.sent == m.sent + SerialOf(e) && m'.server.unacked == m.server.unacked + SerialOf(e)
    && m.server.pendingCallbacks + m.server.activeCallbacks
       == m'.server.pendingCallbacks + m'.server.activeCallbacks + DoneOf(e)
    && (e.SyncEvent? && m.polite ==> m.sent != [])
  }

  lemma EnqueueConfigures(polite: bool, booted: bool, unacked: seq<Serial>, acked: seq<Serial>, queue: seq<Event>,
                          sent: seq<Serial>, e: Event)
    requires ConfiguresOk(polite, booted, unacked, acked, queue, sent) && (e.SyncEvent? && polite ==> sent != [])
    ensures ConfiguresOk(polite, booted, unacked + SerialOf(e), acked, queue + [e], sent + SerialOf(e))
  {
    hide Serials, SyncGuarded, SerialOf;
    QueueSnoc(queue, e);
  }

  lemma EnqueueEvents(m: Machine, m': Machine, e: Event)
    requires Events(m) && Enqueues(m, m', e)
    ensures Events(m')
  {
    hide ConfiguresOk, CallbacksOk, Serials, SyncGuarded;
    EnqueueConfigures(m.polite, !m.pc.Boot? && !m.pc.Roundtrip?, m.server.unacked, m.server.acked, m.queue, m.sent, e);
    QueueSnoc(m.queue, e);
    assert Outstanding(m') == Outstanding(m);
    assert m'.queue != [] && (m.queue != [] ==> m'.queue[0] == m.queue[0]);
  }

  lemma EnqueueKeeps(m: Machine, m': Machine, e: Event)
    requires Inv(m) && Enqueues(m, m', e) && SameConnection(m, m') && SamePicture(m, m')
    ensures Inv(m')
  {
    hide Connection, Picture, Events, Enqueues, SameConnection, SamePicture;
    ConnectionFrame(m, m');
    PictureFrame(m, m');
    EnqueueEvents(m, m', e);
  }

  lemma CompositorKeeps(m: Machine, s: Step)
    requires Inv(m) && (s.SendConfigure? || s.SendDone? || s.SendSync?)
    ensures Inv(CompositorStep(m, s))
  {
    hide CompositorStep, Connection, Picture, Events, SameConnection, SamePicture, Enqueues;
    var m' := CompositorStep(m, s);
    if m' != m {
      CompositorEnqueues(m, s);
      EnqueueKeeps(m, m', m'.queue[|m.queue|]);
    }
  }

  lemma CompositorEnqueues(m: Machine, s: Step)
    requires Inv(m) && (s.SendConfigure? || s.SendDone? || s.SendSync?)
    requires CompositorStep(m, s) != m
    ensures var m' := CompositorStep(m, s);
      && |m'.queue| > |m.queue| && Enqueues(m, m', m'.queue[|m.queue|])
      && SameConnection(m, m') && SamePicture(m, m')
  {
    hide Inv, CompositorStep, SameConnection, SamePicture, Enqueues;
    match s
    case SendConfigure(_) => ConfigureEnqueues(m, s);
    case SendDone(_) => DoneEnqueues(m, s);
    case SendSync => SyncEnqueues(m, s);
  }

  lemma ConfigureEnqueues(m: Machine, s: Step)
    requires Inv(m) && s.SendConfigure? && CompositorStep(m, s) != m
    ensures var m' := CompositorStep(m, s);
      && |m'.queue| > |m.queue| && Enqueues(m, m', m'.queue[|m.queue|])
      && SameConnection(m, m') && SamePicture(m, m')
  {
    hide Apply, Picture, Events, IdsOk, HandlesOk, PhaseOk;
    SentEffect(m.server, s.serial, 0);
    assert m.server.unacked + [s.serial] == m.server.unacked + SerialOf(ConfigureEvent(s.serial));
  }

  lemma DoneEnqueues(m: Machine, s: Step)
    requires Inv(m) && s.SendDone? && CompositorStep(m, s) != m
    ensures var m' := CompositorStep(m, s);
      && |m'.queue| > |m.queue| && Enqueues(m, m', m'.queue[|m.queue|])
      && SameConnection(m, m') && SamePicture(m, m')
  {
    hide Apply, Picture, Events, IdsOk, HandlesOk, PhaseOk;
    RoleAssigned(m, s);
    SentEffect(m.server, 0, s.callback);
    assert multiset{s.callback} + (m.server.activeCallbacks - multiset{s.callback}) == m.server.activeCallbacks;
  }

  lemma SyncEnqueues(m: Machine, s: Step)
    requires Inv(m) && s.SendSync? && CompositorStep(m, s) != m
    ensures var m' := CompositorStep(m, s);
      && |m'.queue| > |m.queue| && Enqueues(m, m', m'.queue[|m.queue|])
      && SameConnection(m, m') && SamePicture(m, m')
  {
    hide Apply, Picture, Events, IdsOk, HandlesOk, PhaseOk;
    RoleAssigned(m, s);
  }

  /** Nothing arrives for the surface before its role exists. */
  lemma RoleAssigned(m: Machine, s: Step)
    requires Inv(m) && (s.SendConfigure? || s.SendDone? || s.SendSync?)
    requires CompositorStep(m, s) != m
    ensures m.server.hasRole
  {
    hide Apply, CacheOk, PresentedOk, ConfiguresOk;
    if s.SendDone? {
      assert s.callback in Outstanding(m);
      assert s.callback in multiset(m.requested);
    }
  }

  lemma FrontNeedsRole(m: Machine)
    requires Connection(m) && m.queue != []
    ensures m.server.error.None? && m.server.hasRole
  {
  }

  lemma AckStep(m: Machine)
    requires Inv(m) && m.queue != [] && m.queue[0].ConfigureEvent?
    ensures var m' := DispatchNext(m);
      && SameConnection(m, m') && SamePicture(m, m')
      && m' == m.(log := m'.log, queue := m.queue[1..],
                  server := m.server.(unacked := m.server.unacked[1..], acked := m.server.acked + [m.queue[0].serial]))
  {
    hide Apply, Connection, Picture;
    FrontNeedsRole(m);
    AckEffect(m.server, m.queue[0].serial);
  }

  /** The front configure is the oldest one the compositor waits for. */
  lemma AckKeeps(m: Machine)
    requires Inv(m) && m.queue != [] && m.queue[0].ConfigureEvent?
    ensures Inv(DispatchNext(m))
  {
    hide DispatchNext, Connection, Picture, Events, SamePicture, SameConnection;
    var m' := DispatchNext(m);
    AckStep(m);
    ConnectionFrame(m, m');
    PictureFrame(m, m');
    AckEvents(m, m');
  }

  lemma AckEvents(m: Machine, m': Machine)
    requires Events(m) && m.queue != [] && m.queue[0].ConfigureEvent?
    requires m'.queue == m.queue[1..] && m'.sent == m.sent && m'.server.unacked == m.server.unacked[1..]
    requires m'.server.acked == m.server.acked + [m.queue[0].serial] && m'.polite == m.polite && m'.pc == m.pc
    requires m'.server.pendingCallbacks == m.server.pendingCallbacks && m'.server.activeCallbacks == m.server.activeCallbacks
    requires m'.requested == m.requested && m'.destroyed == m.destroyed && m'.framePtr == m.framePtr && m'.cleared == m.cleared
    ensures Events(m')
  {
    hide ConfiguresOk, CallbacksOk, Serials, SyncGuarded;
    assert Outstanding(m') == Outstanding(m) by {
      assert Dones(m'.queue) == Dones(m.queue);
    }
    AckConfigures(m.polite, !m.pc.Boot? && !m.pc.Roundtrip?, m.server.unacked, m.server.acked, m.queue, m.sent);
  }

  lemma AckConfigures(polite: bool, booted: bool, unacked: seq<Serial>, acked: seq<Serial>, queue: seq<Event>,
                      sent: seq<Serial>)
    requires ConfiguresOk(polite, booted, unacked, acked, queue, sent) && queue != [] && queue[0].ConfigureEvent?
    ensures unacked != [] && ConfiguresOk(polite, booted, unacked[1..], acked + [queue[0].serial], queue[1..], sent)
  {
    assert unacked == [queue[0].serial] + Serials(queue[1..]);
  }

  lemma ClearKeeps(m: Machine)
    requires Inv(m) && m.queue != [] && m.queue[0].DoneEvent? && !m.cleared
    ensures Inv(DispatchNext(m))
  {
    hide Connection, Picture, ConfiguresOk, CallbacksOk;
    var m' := DispatchNext(m);
    FrontNeedsRole(m);
    ConnectionFrame(m, m');
    PictureFrame(m, m');
    assert Outstanding(m') == Outstanding(m);
  }

  lemma DestroyCallbackStep(m: Machine)
    requires Inv(m) && m.queue != [] && m.queue[0].DoneEvent? && m.cleared
    ensures var m' := DispatchNext(m);
      && SameConnection(m, m') && SamePicture(m, m')
      && m' == m.(log := m'.log, queue := m.queue[1..], cleared := false, destroyed := m.destroyed + [m.queue[0].callback])
  {
    hide Connection, Picture, Events;
    FrontNeedsRole(m);
  }

  lemma DestroyCallbackKeeps(m: Machine)
    requires Inv(m) && m.queue != [] && m.queue[0].DoneEvent? && m.cleared
    ensures Inv(DispatchNext(m))
  {
    hide DispatchNext, Connection, Picture, SamePicture, SameConnection;
    var m', cb := DispatchNext(m), m.queue[0].callback;
    DestroyCallbackStep(m);
    ConnectionFrame(m, m');
    PictureFrame(m, m');
    assert multiset(m'.destroyed) == multiset(m.destroyed) + multiset{cb};
    assert Outstanding(m) == Outstanding(m') + multiset{cb};
  }

  lemma SyncStep(m: Machine)
    requires Inv(m) && m.queue != [] && m.queue[0].SyncEvent?
    ensures var m' := DispatchNext(m);
      && SameConnection(m, m') && SamePicture(m, m')
      && m' == m.(queue := m.queue[1..], pc := if m.pc == Roundtrip then Resume else m.pc)
  {
    hide Connection, Picture, Events;
    FrontNeedsRole(m);
  }

  lemma SyncKeeps(m: Machine)
    requires Inv(m) && m.queue != [] && m.queue[0].SyncEvent?
    ensures Inv(DispatchNext(m))
  {
    hide DispatchNext, Connection, Picture, SamePicture, SameConnection;
    var m' := DispatchNext(m);
    SyncStep(m);
    ConnectionFrame(m, m');
    PictureFrame(m, m');
    assert Outstanding(m') == Outstanding(m);
  }

  // ---------- every step, every run ----------

  /** The next step attaches a buffer although no configure has been acknowledged. */
  predicate Premature(m: Machine, s: Step) {
    s.Advance? && m.pc.Attaching? && m.server.acked == []
  }

  /** Such a step is the end of the connection. */
  lemma PrematureFails(m: Machine, s: Step) returns (b: ObjId)
    requires Inv(m) && Premature(m, s)
    ensures Next(m, s).server.error == Some(UnconfiguredBuffer) && m.server.acked == []
    ensures Next(m, s).log == m.log + [Attach(b)]
  {
    hide Connection, Picture, Events;
    AttachesExisting(m);
    b := m.bufferMap[m.pc.frame.ptr];
  }

  lemma AdvancePushKeeps(m: Machine)
    requires Inv(m) && !m.pc.Booting() && !Premature(m, Advance)
    ensures Inv(AdvancePush(m))
  {
    match m.pc
    case Adding(f, h, k) =>
      if k < f.native.numFds { AddFdKeeps(m); } else { AddingBound(m); CreateBufferKeeps(m); }
    case Dropping(_, _, _) => DropKeeps(m);
    case Mapped(_) => RequestFrameKeeps(m);
    case Listening(_) => ListenKeeps(m);
    case Attaching(_) => AttachKeeps(m);
    case Damaging(_) => DamageKeeps(m);
    case Committing(_) => CommitKeeps(m);
    case _ =>
  }

  lemma AddingBound(m: Machine)
    requires Connection(m) && m.pc.Adding?
    ensures m.pc.k <= m.pc.frame.native.numFds
  {
  }

  lemma NextKeeps(m: Machine, s: Step)
    requires Inv(m) && !Premature(m, s)
    ensures Inv(Next(m, s))
  {
    hide Inv, AdvancePush, BeginPush, DispatchNext, CompositorStep;
    match s
    case Advance =>
      if m.pc.Boot? { BootKeeps(m); }
      else if m.pc.Resume? { ResumeKeeps(m); }
      else if !m.pc.Booting() { AdvancePushKeeps(m); }
    case Push(f) => PushKeeps(m, f);
    case Dispatch => DispatchKeeps(m);
    case _ => CompositorKeeps(m, s);
  }

  lemma PushKeeps(m: Machine, f: Frame)
    requires Inv(m)
    ensures Inv(BeginPush(m, f))
  {
    hide Inv;
    if m.pc.Idle? {
      if m.caching && f.ptr in m.bufferMap { BeginHitKeeps(m, f); } else { BeginMissKeeps(m, f); }
    }
  }

  lemma DispatchKeeps(m: Machine)
    requires Inv(m)
    ensures Inv(DispatchNext(m))
  {
    hide Inv;
    if m.queue != [] {
      match m.queue[0]
      case ConfigureEvent(_) => AckKeeps(m);
      case DoneEvent(_) => if m.cleared { DestroyCallbackKeeps(m); } else { ClearKeeps(m); }
      case SyncEvent => SyncKeeps(m);
    }
  }

  /** With a compositor that configures first, the invariant holds in every reachable state, however everything interleaves. */
  lemma {:induction false} RunKeeps(m: Machine, steps: seq<Step>)
    requires Inv(m) && m.polite
    ensures Inv(Run(m, steps))
    decreases |steps|
  {
    hide Inv, Next;
    if steps != [] {
      if m.pc.Attaching? {
        AckedBeforePush(m);
      }
      NextKeeps(m, steps[0]);
      StepLogs(m, steps[0]);
      RunKeeps(Next(m, steps[0]), steps[1..]);
    }
  }

  /** With any compositor, the invariant holds unless the connection ended in an unconfigured buffer. */
  lemma {:induction false} RunKeepsOrFails(m: Machine, steps: seq<Step>)
    requires Inv(m)
    ensures Inv(Run(m, steps)) || Run(m, steps).server.error == Some(UnconfiguredBuffer)
    decreases |steps|
  {
    hide Inv, Next, Premature;
    if steps != [] {
      if Premature(m, steps[0]) {
        var _ := PrematureFails(m, steps[0]);
        RunFailed(Next(m, steps[0]), steps[1..]);
      } else {
        NextKeeps(m, steps[0]);
        RunKeepsOrFails(Next(m, steps[0]), steps[1..]);
      }
    }
  }
}
