/**
 The compositor, as the protocol documents describe it: it replays the entries
 of the connection one by one and stops at the first protocol error.
 */
module Compositor {
  import opened Wrappers
  import opened Wayland

  datatype Error =
    | BadObject          // unknown object, or an id that is already taken
    | TooManyFds         // android_wlegl_handle.too_many_fds
    | BadHandle          // android_wlegl.bad_handle
    | BadSurface         // xdg_surface made from a surface that has a buffer
    | NotConstructed     // xdg_surface used before its role is assigned
    | UnconfiguredBuffer // buffer attached before the first configure is acknowledged
    | BadSerial          // acknowledging a configure that was not sent

  /** An android_wlegl_handle under construction; `spent` once a buffer was made from it. */
  datatype RemoteHandle = RemoteHandle(numFds: nat, ints: seq<int>, fds: seq<int>, spent: bool)

  /** One surface update made visible by a commit. */
  datatype Update = Update(content: Content, damage: Option<(int, int)>)

  datatype Server = Server(
    error: Option<Error>,
    used: set<ObjId>,
    handles: map<ObjId, RemoteHandle>,
    buffers: map<ObjId, Content>,
    hasSurface: bool,
    hasXdg: bool,
    hasRole: bool,
    unacked: seq<Serial>,
    acked: seq<Serial>,
    pendingBuffer: Option<ObjId>,
    pendingDamage: Option<(int, int)>,
    currentBuffer: Option<ObjId>,
    pendingCallbacks: multiset<ObjId>,
    activeCallbacks: multiset<ObjId>,
    presented: seq<Update>)
  {
    predicate Takes(id: ObjId) {
      id != NULL_OBJECT && id !in used
    }

    function Fail(e: Error): Server {
      this.(error := Some(e))
    }
  }

  const FRESH_SERVER := Server(None, {}, map[], map[], false, false, false, [], [], None, None, None,
                               multiset{}, multiset{}, [])

  /** The configures still waiting for an acknowledgement once `serial` is acknowledged. */
  function AfterAck(unacked: seq<Serial>, serial: Serial): seq<Serial>
    requires serial in unacked
  {
    if unacked[0] == serial then unacked[1..] else AfterAck(unacked[1..], serial)
  }

  /** No buffer comes or goes, no acknowledgement is recorded, and ids are only taken. */
  predicate SameRecords(s: Server, s': Server) {
    s'.buffers == s.buffers && s'.acked == s.acked && s.used <= s'.used
  }

  predicate SameRole(s: Server, s': Server) {
    s'.hasXdg == s.hasXdg && s'.hasRole == s.hasRole
  }

  // ---------- the xdg_surface requests ----------

  function OnCreateSurface(s: Server, id: ObjId): (s': Server)
    ensures SameRecords(s, s') && SameRole(s, s')
  {
    if !s.Takes(id) then s.Fail(BadObject)
    else s.(used := s.used + {id}, hasSurface := true)
  }

  function OnGetXdgSurface(s: Server, id: ObjId): (s': Server)
    ensures SameRecords(s, s') && s'.hasRole == s.hasRole && (s.hasXdg ==> s'.hasXdg)
    ensures s'.error == s.error ==> s'.hasXdg || s.error.Some?
  {
    if !s.Takes(id) || !s.hasSurface then s.Fail(BadObject)
    else if s.pendingBuffer.Some? || s.currentBuffer.Some? then s.Fail(BadSurface)
    else s.(used := s.used + {id}, hasXdg := true)
  }

  function OnGetToplevel(s: Server, id: ObjId): (s': Server)
    ensures SameRecords(s, s') && s'.hasXdg == s.hasXdg
  {
    if !s.Takes(id) then s.Fail(BadObject)
    else if !s.hasXdg || s.hasRole then s.Fail(NotConstructed)
    else s.(used := s.used + {id}, hasRole := true)
  }

  function OnAckConfigure(s: Server, serial: Serial): (s': Server)
    ensures SameRole(s, s') && s'.buffers == s.buffers && s'.used == s.used
    ensures s'.acked == s.acked + [serial] || (s'.error.Some? && s'.acked == s.acked)
  {
    if !s.hasRole then s.Fail(NotConstructed)
    else if serial !in s.unacked then s.Fail(BadSerial)
    else s.(unacked := AfterAck(s.unacked, serial), acked := s.acked + [serial])
  }

  // ---------- the android_wlegl requests ----------

  function OnCreateHandle(s: Server, id: ObjId, numFds: nat, ints: seq<int>): (s': Server)
    ensures SameRecords(s, s') && SameRole(s, s')
  {
    if !s.Takes(id) then s.Fail(BadObject)
    else s.(used := s.used + {id}, handles := s.handles[id := RemoteHandle(numFds, ints, [], false)])
  }

  function OnAddFd(s: Server, h: ObjId, fd: int): (s': Server)
    ensures SameRecords(s, s') && SameRole(s, s')
  {
    if h !in s.handles then s.Fail(BadObject)
    else
      var r := s.handles[h];
      if r.spent || |r.fds| >= r.numFds then s.Fail(TooManyFds)
      else s.(handles := s.handles[h := r.(fds := r.fds + [fd])])
  }

  function OnCreateBuffer(s: Server, id: ObjId, width: int, height: int, stride: int, format: int, usage: int,
                          h: ObjId): (s': Server)
    ensures SameRole(s, s') && s'.acked == s.acked
  {
    if !s.Takes(id) || h !in s.handles then s.Fail(BadObject)
    else
      var r := s.handles[h];
      if r.spent || |r.fds| != r.numFds then s.Fail(BadHandle)
      else
        var native := RawHandle(r.numFds, |r.ints|, r.fds + r.ints);
        s.(used := s.used + {id},
           handles := s.handles[h := r.(spent := true)],
           buffers := s.buffers[id := Content(native, width, height, stride, format, usage)])
  }

  function OnDestroyHandle(s: Server, h: ObjId): (s': Server)
    ensures SameRecords(s, s') && SameRole(s, s')
  {
    if h !in s.handles then s.Fail(BadObject) else s.(handles := s.handles - {h})
  }

  function OnDestroyBuffer(s: Server, b: ObjId): (s': Server)
    ensures SameRole(s, s') && s'.acked == s.acked
  {
    if b !in s.buffers then s.Fail(BadObject)
    else s.(buffers := s.buffers - {b},
            pendingBuffer := if s.pendingBuffer == Some(b) then None else s.pendingBuffer,
            currentBuffer := if s.currentBuffer == Some(b) then None else s.currentBuffer)
  }

  // ---------- the wl_surface requests ----------

  function OnRequestFrame(s: Server, id: ObjId): (s': Server)
    ensures SameRecords(s, s') && SameRole(s, s')
  {
    if !s.Takes(id) || !s.hasSurface then s.Fail(BadObject)
    else s.(used := s.used + {id}, pendingCallbacks := s.pendingCallbacks + multiset{id})
  }

  function OnAttach(s: Server, b: ObjId): (s': Server)
    ensures SameRecords(s, s') && SameRole(s, s')
  {
    if !s.hasSurface || b !in s.buffers then s.Fail(BadObject)
    else if s.hasXdg && s.acked == [] then s.Fail(UnconfiguredBuffer)
    else s.(pendingBuffer := Some(b))
  }

  function OnDamage(s: Server, width: int, height: int): (s': Server)
    ensures SameRecords(s, s') && SameRole(s, s')
  {
    if !s.hasSurface then s.Fail(BadObject) else s.(pendingDamage := Some((width, height)))
  }

  /** wl_surface state is double buffered: it takes effect at the commit. */
  function OnCommit(s: Server): (s': Server)
    ensures SameRecords(s, s') && SameRole(s, s')
  {
    if !s.hasSurface then s.Fail(BadObject)
    else s.(currentBuffer := if s.pendingBuffer.Some? then s.pendingBuffer else s.currentBuffer,
            presented := if s.pendingBuffer.Some? && s.pendingBuffer.value in s.buffers
                         then s.presented + [Update(s.buffers[s.pendingBuffer.value], s.pendingDamage)]
                         else s.presented,
            pendingBuffer := None,
            pendingDamage := None,
            activeCallbacks := s.activeCallbacks + s.pendingCallbacks,
            pendingCallbacks := multiset{})
  }

  /** One entry; after an error the connection is dead. */
  function Apply(s: Server, e: Entry): Server {
    if s.error.Some? then s
    else match e
      case CreateSurface(id) => OnCreateSurface(s, id)
      case GetXdgSurface(id) => OnGetXdgSurface(s, id)
      case GetToplevel(id) => OnGetToplevel(s, id)
      case SetToplevel(_) => if s.hasRole then s else s.Fail(NotConstructed)
      case AckConfigure(serial) => OnAckConfigure(s, serial)
      case CreateHandle(id, n, ints) => OnCreateHandle(s, id, n, ints)
      case AddFd(h, fd) => OnAddFd(s, h, fd)
      case CreateBuffer(id, w, ht, st, fmt, use, h) => OnCreateBuffer(s, id, w, ht, st, fmt, use, h)
      case DestroyHandle(h) => OnDestroyHandle(s, h)
      case RequestFrame(id) => OnRequestFrame(s, id)
      case Attach(b) => OnAttach(s, b)
      case Damage(w, h) => OnDamage(s, w, h)
      case Commit => OnCommit(s)
      case DestroyBuffer(b) => OnDestroyBuffer(s, b)
      case DestroyCallback(_) => s
      case SentConfigure(serial) => s.(unacked := s.unacked + [serial])
      case SentDone(id) => s.(activeCallbacks := s.activeCallbacks - multiset{id})
  }

  function ApplyAll(s: Server, log: seq<Entry>): Server {
    if log == [] then s else Apply(ApplyAll(s, log[..|log| - 1]), log[|log| - 1])
  }

  function Replay(log: seq<Entry>): Server {
    ApplyAll(FRESH_SERVER, log)
  }

  lemma ApplyAllSnoc(s: Server, log: seq<Entry>, e: Entry)
    ensures ApplyAll(s, log + [e]) == Apply(ApplyAll(s, log), e)
  {
  }

  lemma {:induction false} ApplyAllConcat(s: Server, a: seq<Entry>, b: seq<Entry>)
    ensures ApplyAll(s, a + b) == ApplyAll(ApplyAll(s, a), b)
  {
    hide Apply;
    if b == [] {
      assert a + b == a;
    } else {
      ApplyAllConcat(s, a, b[..|b| - 1]);
      ApplyAllSnoc(s, a + b[..|b| - 1], b[|b| - 1]);
      assert a + b == a + b[..|b| - 1] + [b[|b| - 1]];
    }
  }

  // ---------- what the compositor rebuilds from one encoded buffer ----------

  lemma ApplyCreateHandle(s: Server, h: ObjId, n: nat, ints: seq<int>)
    requires s.error.None? && s.Takes(h)
    ensures Apply(s, CreateHandle(h, n, ints)) ==
      s.(used := s.used + {h}, handles := s.handles[h := RemoteHandle(n, ints, [], false)])
  {
  }

  lemma ApplyAddFd(s: Server, h: ObjId, fd: int)
    requires s.error.None? && h in s.handles && !s.handles[h].spent && |s.handles[h].fds| < s.handles[h].numFds
    ensures var r := s.handles[h];
      Apply(s, AddFd(h, fd)) == s.(handles := s.handles[h := r.(fds := r.fds + [fd])])
  {
  }

  lemma {:induction false} ServerReadsFds(s: Server, h: ObjId, fds: seq<int>)
    requires s.error.None? && h in s.handles && !s.handles[h].spent
    requires |s.handles[h].fds| + |fds| <= s.handles[h].numFds
    ensures var r := s.handles[h];
      ApplyAll(s, AddFds(h, fds)) == s.(handles := s.handles[h := r.(fds := r.fds + fds)])
  {
    hide Apply;
    var r := s.handles[h];
    if fds == [] {
      assert r.fds + fds == r.fds;
      assert s.handles[h := r] == s.handles;
    } else {
      var k := |fds| - 1;
      var s' := s.(handles := s.handles[h := r.(fds := r.fds + fds[..k])]);
      ServerReadsFds(s, h, fds[..k]);
      assert AddFds(h, fds) == AddFds(h, fds[..k]) + [AddFd(h, fds[k])];
      ApplyAllSnoc(s, AddFds(h, fds[..k]), AddFd(h, fds[k]));
      ApplyAddFd(s', h, fds[k]);
      assert r.fds + fds == r.fds + fds[..k] + [fds[k]];
      assert s'.handles[h := r.(fds := r.fds + fds)] == s.handles[h := r.(fds := r.fds + fds)];
    }
  }

  /** The handle that the descriptors complete, turned into a buffer and dropped. */
  lemma ApplyBuildAndDrop(s: Server, item: Item)
    requires s.error.None? && s.Takes(item.buffer) && item.handle in s.handles
    requires var n := item.content.native;
      s.handles[item.handle] == RemoteHandle(n.numFds, Ints(n), Fds(n), false)
    ensures var s' := Apply(Apply(s, CreateBufferCall(item.content, item.handle, item.buffer)), DestroyHandle(item.handle));
      s' == s.(used := s.used + {item.buffer}, handles := s.handles - {item.handle},
               buffers := s.buffers[item.buffer := item.content])
  {
    var native := item.content.native;
    assert Fds(native) + Ints(native) == native.data;
    var s1 := Apply(s, CreateBufferCall(item.content, item.handle, item.buffer));
    assert s1.handles - {item.handle} == s.handles - {item.handle};
  }

  /** The handle as its descriptors complete it. */
  function Completed(s: Server, item: Item): Server {
    var native := item.content.native;
    s.(used := s.used + {item.handle},
       handles := s.handles[item.handle := RemoteHandle(native.numFds, Ints(native), Fds(native), false)])
  }

  /** The handle as it is created, before its descriptors. */
  function Begun(s: Server, item: Item): Server {
    var native := item.content.native;
    s.(used := s.used + {item.handle},
       handles := s.handles[item.handle := RemoteHandle(native.numFds, Ints(native), [], false)])
  }

  lemma ServerBegins(s: Server, item: Item)
    requires s.error.None? && s.Takes(item.handle)
    ensures var native := item.content.native;
      ApplyAll(s, [CreateHandle(item.handle, native.numFds, Ints(native))]) == Begun(s, item)
  {
    hide Apply;
    var native := item.content.native;
    ApplyCreateHandle(s, item.handle, native.numFds, Ints(native));
    ApplyAllSnoc(s, [], CreateHandle(item.handle, native.numFds, Ints(native)));
    assert [] + [CreateHandle(item.handle, native.numFds, Ints(native))] == [CreateHandle(item.handle, native.numFds, Ints(native))];
  }

  lemma ServerFills(s: Server, item: Item)
    requires s.error.None?
    ensures ApplyAll(Begun(s, item), AddFds(item.handle, Fds(item.content.native))) == Completed(s, item)
  {
    hide Apply, ApplyAll, AddFds;
    var begun, fds := Begun(s, item), Fds(item.content.native);
    ServerReadsFds(begun, item.handle, fds);
    assert [] + fds == fds;
    assert begun.handles[item.handle := RemoteHandle(|fds|, Ints(item.content.native), fds, false)] == Completed(s, item).handles;
  }

  lemma ServerCompletes(s: Server, item: Item)
    requires s.error.None? && s.Takes(item.handle)
    ensures var native := item.content.native;
      ApplyAll(s, [CreateHandle(item.handle, native.numFds, Ints(native))] + AddFds(item.handle, Fds(native))) == Completed(s, item)
  {
    hide Apply, ApplyAll, AddFds, Begun, Completed;
    var native := item.content.native;
    ServerBegins(s, item);
    ServerFills(s, item);
    ApplyAllConcat(s, [CreateHandle(item.handle, native.numFds, Ints(native))], AddFds(item.handle, Fds(native)));
  }

  /**
   From any healthy state, the wire form of a buffer raises no error and leaves
   the compositor with exactly one more buffer, holding exactly the handle that
   was encoded, and no android_wlegl_handle behind.
   */
  lemma ServerRebuilds(s: Server, item: Item)
    requires s.error.None? && s.Takes(item.handle) && s.Takes(item.buffer) && item.handle != item.buffer
    requires item.handle !in s.handles
    ensures ApplyAll(s, Encode(item)) ==
      s.(used := s.used + {item.handle, item.buffer}, buffers := s.buffers[item.buffer := item.content])
  {
    hide Apply, AddFds, Ints, Fds, CreateBufferCall;
    var native := item.content.native;
    var begun := [CreateHandle(item.handle, native.numFds, Ints(native))] + AddFds(item.handle, Fds(native));
    var build, drop := CreateBufferCall(item.content, item.handle, item.buffer), DestroyHandle(item.handle);
    ServerCompletes(s, item);
    ApplyBuildAndDrop(Completed(s, item), item);
    ApplyAllSnoc(s, begun, build);
    ApplyAllSnoc(s, begun + [build], drop);
    assert Encode(item) == begun + [build] + [drop];
    assert Completed(s, item).handles - {item.handle} == s.handles;
    assert s.used + {item.handle} + {item.buffer} == s.used + {item.handle, item.buffer};
  }
}
