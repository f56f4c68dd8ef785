/**
 `WaylandSingleWindowManager`, with the fields it holds and the calls it makes
 on the connection, each method tied to the step machine.
 */
module SingleWindowManager {
  import opened Compositor
  import opened Wayland
  import opened WindowRun
  import opened PushRun
  import opened Finalization

  lemma BootCallsUnrolled()
    ensures BootCalls(BOOT_CALLS) ==
      [CreateSurface(1), GetXdgSurface(2), GetToplevel(3), SetToplevel(Title), SetToplevel(AppId), SetToplevel(Fullscreen), Commit]
  {
    forall k | 0 <= k < BOOT_CALLS
      ensures BootCalls(BOOT_CALLS)[k] == BootCall(k, if k < 3 then k + 1 else 4)
    {
    }
    assert BootCall(2, 3) == GetToplevel(3) && BootCall(3, 4) == SetToplevel(Title) && BootCall(4, 4) == SetToplevel(AppId);
    assert BootCall(5, 4) == SetToplevel(Fullscreen) && BootCall(6, 4) == Commit;
  }

  lemma EmptyWalk(bufferMap: map<HandlePtr, ObjId>)
    ensures InKeyOrder(bufferMap, {}) == [] && DestroyCalls([]) == []
  {
  }

  /** The descriptors of a handle, sent one by one. */
  function Descriptors(handle: ObjId, native: NativeHandle): seq<Entry> {
    seq(native.numFds, i requires 0 <= i < native.numFds => AddFd(handle, native.data[i]))
  }

  /** A whole push, call by call. */
  lemma PushedCalls(c: Client, f: Frame)
    ensures f.ptr in c.bufferMap ==>
      Pushed(c, f) == Client(c.nextId + 1, c.bufferMap, c.nextId, c.log
        + [RequestFrame(c.nextId), Attach(c.bufferMap[f.ptr]), Damage(f.width, f.height), Commit])
    ensures f.ptr !in c.bufferMap ==>
      var handle, buffer, callback := c.nextId, c.nextId + 1, c.nextId + 2;
      Pushed(c, f) == Client(c.nextId + 3, c.bufferMap[f.ptr := buffer], callback, c.log
        + ([CreateHandle(handle, f.native.numFds, f.native.data[f.native.numFds..])]
           + Descriptors(handle, f.native)
           + [CreateBuffer(buffer, f.width, f.height, f.stride, f.format, 0x200, handle), DestroyHandle(handle)])
        + [RequestFrame(callback), Attach(buffer), Damage(f.width, f.height), Commit])
  {
    assert AddFds(c.nextId, Fds(f.native)) == Descriptors(c.nextId, f.native);
  }

  /** On a miss, the call that creates the buffer and its place in the log. */
  lemma PushedCreates(c: Client, f: Frame)
    requires f.ptr !in c.bufferMap
    ensures var d, at := Pushed(c, f), |c.log| + f.native.numFds + 1;
      && d.bufferMap == c.bufferMap[f.ptr := c.nextId + 1] && |d.log| > at
      && d.log[at] == CreateBuffer(c.nextId + 1, f.width, f.height, f.stride, f.format, 0x200, c.nextId)
  {
    hide Pushed, Descriptors;
    PushedCalls(c, f);
    assert |Descriptors(c.nextId, f.native)| == f.native.numFds by { DescriptorCount(c.nextId, f.native); }
  }

  lemma DescriptorCount(handle: ObjId, native: NativeHandle)
    ensures |Descriptors(handle, native)| == native.numFds
  {
  }

  /** The client once the map has the frame's handle. */
  function Prepared(c: Client, f: Frame): Client {
    if f.ptr in c.bufferMap then c
    else
      var item := Item(ContentOf(f), c.nextId, c.nextId + 1);
      Client(c.nextId + 2, c.bufferMap[f.ptr := item.buffer], c.framePtr, c.log + Encode(item))
  }

  lemma PushedFromPrepared(c: Client, f: Frame)
    ensures var d := Prepared(c, f);
      && f.ptr in d.bufferMap
      && Pushed(c, f) == Client(d.nextId + 1, d.bufferMap, d.nextId,
           d.log + [RequestFrame(d.nextId), Attach(d.bufferMap[f.ptr]), Damage(f.width, f.height), Commit])
  {
    hide Encode;
  }

  class WindowManager {
    var bufferMap: map<HandlePtr, ObjId>
    var framePtr: ObjId
    var nextId: ObjId          // the connection's next object id
    ghost var log: seq<Entry>  // the calls made so far

    /** frame_callback_ptr is whatever memory held. */
    constructor (garbage: ObjId)
      ensures View() == Client(1, map[], garbage, [])
    {
      bufferMap, framePtr, nextId, log := map[], garbage, 1, [];
    }

    ghost function View(): Client
      reads this
    {
      Client(nextId, bufferMap, framePtr, log)
    }

    /**
     The requests of initialize, the configures of the roundtrip, and the
     second commit. Without a surface it gives up before any request.
     */
    method Initialize(surfaceCreated: bool, serials: seq<Serial>) returns (result: int)
      requires nextId == 1 && log == []
      modifies this
      ensures result == (if surfaceCreated then 0 else -1)
      ensures !surfaceCreated ==> View() == old(View())
      ensures surfaceCreated ==>
        View() == Client(4, old(bufferMap), NULL_OBJECT, BootCalls(BOOT_CALLS) + AcksOf(serials) + [Commit])
      ensures surfaceCreated ==>
        && nextId == 4 && bufferMap == old(bufferMap) && framePtr == 0
        && log == [CreateSurface(1), GetXdgSurface(2), GetToplevel(3),
                   SetToplevel(Title), SetToplevel(AppId), SetToplevel(Fullscreen), Commit]
                + seq(|serials|, i requires 0 <= i < |serials| => AckConfigure(serials[i])) + [Commit]
    {
      if !surfaceCreated {
        return -1;
      }
      log := log + [CreateSurface(1)];
      log := log + [GetXdgSurface(2)];
      log := log + [GetToplevel(3)];
      nextId := 4;
      log := log + [SetToplevel(Title)];
      log := log + [SetToplevel(AppId)];
      log := log + [SetToplevel(Fullscreen)];
      log := log + [Commit];
      BootCallsUnrolled();
      var i := 0;
      while i < |serials|
        invariant 0 <= i <= |serials|
        invariant nextId == 4 && bufferMap == old(bufferMap)
        invariant log == BootCalls(BOOT_CALLS) + AcksOf(serials[..i])
      {
        XdgSurfaceConfigure(serials[i]);
        assert serials[..i + 1] == serials[..i] + [serials[i]];
        assert AcksOf(serials[..i + 1]) == AcksOf(serials[..i]) + [AckConfigure(serials[i])];
        i := i + 1;
      }
      assert serials[..i] == serials;
      log := log + [Commit];
      framePtr := NULL_OBJECT;
      return 0;
    }

    /** With no event in between, a push is `Pushed`, which the step machine computes too. */
    method PushFrame(f: Frame)
      modifies this
      ensures View() == Pushed(old(View()), f)
      ensures old(f.ptr !in bufferMap) ==>
        && bufferMap == old(bufferMap)[f.ptr := old(nextId) + 1] && |log| > |old(log)| + f.native.numFds + 1
        && log[|old(log)| + f.native.numFds + 1]
             == CreateBuffer(old(nextId) + 1, f.width, f.height, f.stride, f.format, 0x200, old(nextId))
    {
      hide Pushed;
      ghost var before := View();
      if f.ptr !in bufferMap {
        ghost var item := Item(ContentOf(f), nextId, nextId + 1);
        var handle := nextId;
        var ints := f.native.data[f.native.numFds..];
        log := log + [CreateHandle(handle, f.native.numFds, ints)];
        nextId := nextId + 1;
        var i := 0;
        while i < f.native.numFds
          invariant 0 <= i <= f.native.numFds
          invariant nextId == old(nextId) + 1 && bufferMap == old(bufferMap) && framePtr == old(framePtr)
          invariant log == old(log) + [CreateHandle(handle, f.native.numFds, ints)] + AddFds(handle, f.native.data[..i])
        {
          log := log + [AddFd(handle, f.native.data[i])];
          assert AddFds(handle, f.native.data[..i + 1])
              == AddFds(handle, f.native.data[..i]) + [AddFd(handle, f.native.data[i])];
          i := i + 1;
        }
        var buffer := nextId;
        log := log + [CreateBuffer(buffer, f.width, f.height, f.stride, f.format, GRALLOC_USAGE_HW_RENDER, handle)];
        nextId := nextId + 1;
        log := log + [DestroyHandle(handle)];
        bufferMap := bufferMap[f.ptr := buffer];
        assert log == old(log) + Encode(item);
      }
      assert View() == Prepared(before, f);
      ghost var prepared := log;
      hide Prepared, Encode;
      framePtr := nextId;
      log := log + [RequestFrame(nextId)];
      nextId := nextId + 1;
      log := log + [Attach(bufferMap[f.ptr])];
      log := log + [Damage(f.width, f.height)];
      log := log + [Commit];
      assert log == prepared + [RequestFrame(framePtr), Attach(bufferMap[f.ptr]), Damage(f.width, f.height), Commit];
      PushedFromPrepared(before, f);
      if f.ptr !in before.bufferMap {
        PushedCreates(before, f);
      }
    }

    method FrameCallback(callback: ObjId)
      modifies this
      ensures View() == old(View()).(framePtr := NULL_OBJECT, log := old(log) + [DestroyCallback(callback)])
    {
      framePtr := NULL_OBJECT;
      log := log + [DestroyCallback(callback)];
    }

    method XdgSurfaceConfigure(serial: Serial)
      modifies this`log
      ensures log == old(log) + [AckConfigure(serial)]
    {
      log := log + [AckConfigure(serial)];
    }

    /** The buffer loop of finalize, in key order. */
    method Finalize()
      modifies this
      ensures View() == old(View()).(
        bufferMap := map[], log := old(log) + DestroyCalls(InKeyOrder(old(bufferMap), old(bufferMap.Keys))))
    {
      hide InKeyOrder, DestroyCalls;
      EmptyWalk(bufferMap);
      var todo := bufferMap.Keys;
      ghost var all := InKeyOrder(bufferMap, todo);
      ghost var done: seq<ObjId> := [];
      while todo != {}
        invariant todo <= bufferMap.Keys
        invariant done + InKeyOrder(bufferMap, todo) == all
        invariant View() == old(View()).(log := old(log) + DestroyCalls(done))
        decreases |todo|
      {
        HasLeast(todo);
        var k :| k in todo && forall j :: j in todo ==> k <= j;
        KeyOrderStep(bufferMap, todo, k);
        DestroyCallsSnoc(done, bufferMap[k]);
        log := log + [DestroyBuffer(bufferMap[k])];
        done := done + [bufferMap[k]];
        todo := todo - {k};
      }
      assert todo == {};
      assert done + [] == done;
      bufferMap := map[];
    }
  }

  // ---------- the methods and the step machine ----------

  /** The dispatch thread's actions for a configure are XdgSurfaceConfigure's. */
  lemma ConfigureMatches(m: Machine, serial: Serial)
    requires m.queue != [] && m.queue[0] == ConfigureEvent(serial) && !m.pc.Crashed?
    ensures var m' := Next(m, Dispatch);
      && m'.queue == m.queue[1..]
      && ClientOf(m') == Client(m.nextId, m.bufferMap, m.framePtr, m.log + [AckConfigure(serial)])
  {
    hide Apply;
  }

  /** Its two actions for a finished callback are FrameCallback's: the pointer is reset, that callback destroyed. */
  lemma DoneMatches(m: Machine, callback: ObjId)
    requires m.queue != [] && m.queue[0] == DoneEvent(callback) && !m.cleared && !m.pc.Crashed?
    ensures var m' := Next(Next(m, Dispatch), Dispatch);
      && m'.queue == m.queue[1..] && !m'.cleared && m'.destroyed == m.destroyed + [callback]
      && ClientOf(m') == Client(m.nextId, m.bufferMap, 0, m.log + [DestroyCallback(callback)])
  {
    hide Apply;
  }

  /** The client's own calls in a connection log. */
  function CallsOf(log: seq<Entry>): seq<Entry> {
    if log == [] then []
    else (if log[0].SentConfigure? || log[0].SentDone? then [] else [log[0]]) + CallsOf(log[1..])
  }

  lemma {:induction false} CallsOfConcat(a: seq<Entry>, b: seq<Entry>)
    ensures CallsOf(a + b) == CallsOf(a) + CallsOf(b)
  {
    if a == [] {
      assert a + b == b;
    } else {
      assert (a + b)[1..] == a[1..] + b;
      CallsOfConcat(a[1..], b);
    }
  }

  lemma {:induction false} CallsOfCalls(a: seq<Entry>)
    requires forall i :: 0 <= i < |a| ==> !a[i].SentConfigure? && !a[i].SentDone?
    ensures CallsOf(a) == a
  {
    if a != [] {
      CallsOfCalls(a[1..]);
      assert a == [a[0]] + a[1..];
    }
  }

  lemma {:induction false} CallsOfSent(a: seq<Entry>)
    requires forall i :: 0 <= i < |a| ==> a[i].SentConfigure?
    ensures CallsOf(a) == []
  {
    if a != [] {
      CallsOfSent(a[1..]);
    }
  }

  lemma EventsOnlyAdd(serials: seq<Serial>)
    ensures CallsOf(BootCalls(BOOT_CALLS)) == BootCalls(BOOT_CALLS)
    ensures CallsOf(SentLog(serials)) == []
    ensures CallsOf(AcksOf(serials)) == AcksOf(serials)
    ensures CallsOf([Commit]) == [Commit]
  {
    hide CallsOf;
    BootCallsUnrolled();
    CallsOfCalls(BootCalls(BOOT_CALLS));
    CallsOfSent(SentLog(serials));
    CallsOfCalls(AcksOf(serials));
    CallsOfCalls([Commit]);
  }

  /** The calls of a machine's initialize are those of the method: only the events are missing. */
  lemma InitializeCalls(serials: seq<Serial>)
    ensures CallsOf(InitializeLog(serials)) == BootCalls(BOOT_CALLS) + AcksOf(serials) + [Commit]
  {
    hide CallsOf, BootCalls, SentLog, AcksOf;
    var boot, sent, acks := BootCalls(BOOT_CALLS), SentLog(serials), AcksOf(serials);
    EventsOnlyAdd(serials);
    CallsOfConcat(boot + sent + acks, [Commit]);
    CallsOfConcat(boot + sent, acks);
    CallsOfConcat(boot, sent);
    assert boot + [] == boot;
  }
}
