/**
 What holds of every run of the window manager: the compositor raises no error,
 shows what was pushed, and every buffer, configure and frame callback is
 accounted for.
 */
module WindowTheorems {
  import opened Wrappers
  import opened Wayland
  import opened Compositor
  import opened ConnectionLog
  import opened WindowLog
  import opened WindowRun
  import opened WindowInvariant

  /** A run from `initialize`; a polite compositor configures before it answers the roundtrip. */
  function Reached(caching: bool, polite: bool, garbage: ObjId, steps: seq<Step>): Machine {
    Run(Start(caching, polite, garbage), steps)
  }

  /** The compositor is polite, or it is not but has raised no error all the same. */
  predicate Accepted(caching: bool, polite: bool, garbage: ObjId, steps: seq<Step>) {
    polite || Reached(caching, polite, garbage, steps).server.error.None?
  }

  lemma ReachedInv(caching: bool, polite: bool, garbage: ObjId, steps: seq<Step>)
    requires Accepted(caching, polite, garbage, steps)
    ensures Inv(Reached(caching, polite, garbage, steps))
  {
    hide Inv;
    StartInv(caching, polite, garbage);
    if polite {
      RunKeeps(Start(caching, polite, garbage), steps);
    } else {
      RunKeepsOrFails(Start(caching, polite, garbage), steps);
    }
  }

  /**
   Replaying the whole connection, however pushes, configures and frame events
   interleave, raises no protocol error under a compositor that configures
   before it answers the roundtrip, and leaves no android_wlegl_handle behind
   whenever no pushFrame is under way.
   */
  lemma NoProtocolError(caching: bool, garbage: ObjId, steps: seq<Step>)
    ensures var m := Reached(caching, true, garbage, steps);
      && Replay(m.log).error.None?
      && (m.pc.Idle? ==> Replay(m.log).handles == map[])
  {
    hide Picture, Events, Apply, Next, IdsOk;
    RunReplays(Start(caching, true, garbage), steps);
    ReachedInv(caching, true, garbage, steps);
  }

  // ---------- the exact condition, polite or not ----------

  ghost predicate Acknowledged(log: seq<Entry>) {
    exists j :: 0 <= j < |log| && log[j].AckConfigure?
  }

  /** Every attach of the log comes after an acknowledgement. */
  ghost predicate AttachesAfterAck(log: seq<Entry>) {
    forall i :: 0 <= i < |log| && log[i].Attach? ==> Acknowledged(log[..i])
  }

  lemma AttachesSnoc(log: seq<Entry>, e: Entry)
    ensures AttachesAfterAck(log + [e]) <==> AttachesAfterAck(log) && (e.Attach? ==> Acknowledged(log))
  {
    hide Acknowledged;
    var all := log + [e];
    assert all[..|log|] == log && all[|log|] == e;
    forall i | 0 <= i < |log|
      ensures all[..i] == log[..i] && all[i] == log[i]
    {
    }
  }

  lemma {:induction false} AckedIffAcknowledged(log: seq<Entry>)
    ensures Acks(log) != [] <==> Acknowledged(log)
  {
    if log != [] {
      var k := |log| - 1;
      AckedIffAcknowledged(log[..k]);
      if Acknowledged(log[..k]) {
        var j :| 0 <= j < k && log[..k][j].AckConfigure?;
        assert log[j].AckConfigure?;
      }
      if j :| 0 <= j < k && log[j].AckConfigure? {
        assert log[..k][j].AckConfigure?;
      }
    }
  }

  /** Healthy with every attach acknowledged, or dead of one that was not. */
  ghost predicate Judged(m: Machine) {
    && m.server == Replay(m.log)
    && if AttachesAfterAck(m.log) then Inv(m) else m.server.error == Some(UnconfiguredBuffer)
  }

  /** A step that is not an early attach attaches only after an acknowledgement. */
  lemma AttachNeedsAck(m: Machine, s: Step) returns (e: Entry)
    requires !Premature(m, s) && Next(m, s).log != m.log
    ensures Next(m, s).log == m.log + [e] && (e.Attach? ==> m.server.acked != [])
  {
    hide Apply, Next;
    StepLogs(m, s);
    e :| (e.Attach? ==> s.Advance? && m.pc.Attaching?) && Next(m, s).log == m.log + [e];
  }

  lemma StepReplays(m: Machine, s: Step)
    requires m.server == Replay(m.log)
    ensures Next(m, s).server == Replay(Next(m, s).log)
  {
    hide Apply, Next;
    StepLogs(m, s);
    if Next(m, s).log != m.log {
      var e: Entry :| Next(m, s).log == m.log + [e] && Next(m, s).server == Apply(m.server, e);
      ApplyAllSnoc(FRESH_SERVER, m.log, e);
    }
  }

  lemma HealthyJudged(m: Machine, s: Step)
    requires Judged(m) && Inv(m) && AttachesAfterAck(m.log)
    ensures Judged(Next(m, s))
  {
    hide Inv, Next, Premature, Acknowledged, AttachesAfterAck, Replay;
    StepReplays(m, s);
    StepLogs(m, s);
    AcksOfHealthy(m);
    AckedIffAcknowledged(m.log);
    var m' := Next(m, s);
    if Premature(m, s) {
      var b := PrematureFails(m, s);
      AttachesSnoc(m.log, Attach(b));
    } else {
      NextKeeps(m, s);
      if m'.log != m.log {
        var e := AttachNeedsAck(m, s);
        AttachesSnoc(m.log, e);
      }
    }
  }

  lemma AcksOfHealthy(m: Machine)
    requires Inv(m) && m.server == Replay(m.log)
    ensures m.server.acked == Acks(m.log)
  {
    hide Apply, IdsOk, PhaseOk, HandlesOk, Picture, Events;
    Accounts(m.log);
  }

  lemma DeadJudged(m: Machine, s: Step)
    requires m.server == Replay(m.log) && !AttachesAfterAck(m.log) && m.server.error == Some(UnconfiguredBuffer)
    ensures Judged(Next(m, s))
  {
    hide Inv, Next, Acknowledged, AttachesAfterAck, Replay;
    StepReplays(m, s);
    ErrorPersists(m, s);
    StepLogs(m, s);
    if Next(m, s).log != m.log {
      var e: Entry :| Next(m, s).log == m.log + [e];
      AttachesSnoc(m.log, e);
    }
  }

  lemma {:induction false} RunJudged(m: Machine, steps: seq<Step>)
    requires Judged(m)
    ensures Judged(Run(m, steps))
    decreases |steps|
  {
    hide Next, Inv, AttachesAfterAck, Replay;
    if steps != [] {
      if AttachesAfterAck(m.log) { HealthyJudged(m, steps[0]); } else { DeadJudged(m, steps[0]); }
      RunJudged(Next(m, steps[0]), steps[1..]);
    }
  }

  /**
   For every run, whether or not the compositor configures before it answers the
   roundtrip: no protocol error is raised if and only if every attach comes after
   an acknowledgement, and the only error there ever is is an unconfigured buffer.
   */
  lemma NoErrorIffAcknowledged(caching: bool, polite: bool, garbage: ObjId, steps: seq<Step>)
    ensures var m := Reached(caching, polite, garbage, steps);
      && m.server == Replay(m.log)
      && (Replay(m.log).error.None? <==> AttachesAfterAck(m.log))
      && (Replay(m.log).error.Some? ==> Replay(m.log).error == Some(UnconfiguredBuffer))
  {
    hide Picture, Events, IdsOk, PhaseOk, HandlesOk, Next, AttachesAfterAck;
    var start := Start(caching, polite, garbage);
    StartInv(caching, polite, garbage);
    assert AttachesAfterAck(start.log) by { NoAttach(); }
    RunJudged(start, steps);
  }

  lemma NoAttach()
    ensures AttachesAfterAck([])
  {
  }

  // ---------- what is shown ----------

  /** Every push under one handle carries the same contents and geometry. */
  ghost predicate Stable(pushes: seq<Frame>) {
    forall i, j :: 0 <= i < j < |pushes| && pushes[i].ptr == pushes[j].ptr ==> ContentOf(pushes[i]) == ContentOf(pushes[j])
  }

  /** What a compositor shows when each push is shown as it was given. */
  function Intended(pushes: seq<Frame>): seq<Update> {
    seq(|pushes|, i requires 0 <= i < |pushes| => UpdateOf(pushes[i], pushes[i]))
  }

  /** `First` is the push at the least index. */
  lemma {:induction false} FirstIsLeast(pushes: seq<Frame>, p: HandlePtr) returns (i: nat)
    requires Has(pushes, p)
    ensures i < |pushes| && pushes[i] == First(pushes, p) && pushes[i].ptr == p && !Has(pushes[..i], p)
  {
    var k := |pushes| - 1;
    if Has(pushes[..k], p) {
      i := FirstIsLeast(pushes[..k], p);
      assert pushes[..k][..i] == pushes[..i];
    } else {
      i := k;
      HasNot(pushes, k, p);
    }
  }

  lemma HasNot(pushes: seq<Frame>, n: nat, p: HandlePtr)
    requires n <= |pushes| && !Has(pushes[..n], p)
    ensures forall i :: 0 <= i < n ==> pushes[i].ptr != p
  {
    forall i | 0 <= i < n
      ensures pushes[i].ptr != p
    {
      assert pushes[..n][i] == pushes[i];
    }
  }

  /** The least index does not move when more is pushed. */
  lemma {:induction false} FirstPrefix(pushes: seq<Frame>, n: nat, p: HandlePtr)
    requires n <= |pushes| && Has(pushes[..n], p)
    ensures Has(pushes, p) && First(pushes, p) == First(pushes[..n], p)
  {
    if n == |pushes| {
      assert pushes[..n] == pushes;
    } else {
      var k := |pushes| - 1;
      assert pushes[..k][..n] == pushes[..n];
      FirstPrefix(pushes[..k], n, p);
      var i :| 0 <= i < k && pushes[..k][i].ptr == p;
      assert pushes[i].ptr == p;
    }
  }

  /**
   Each completed push commits, with the damage of its own size, the contents
   first pushed under its handle: a caching client shows what it saw first.
   A client without the cache shows exactly what it is given.
   */
  lemma ShownContents(caching: bool, polite: bool, garbage: ObjId, steps: seq<Step>)
    requires Accepted(caching, polite, garbage, steps)
    ensures var m := Reached(caching, polite, garbage, steps);
      && |m.server.presented| <= |m.pushes| <= |m.server.presented| + 1
      && |m.pushes| == |m.server.presented| + (if m.pc.Pushing() then 1 else 0)
      && forall i :: 0 <= i < |m.server.presented| ==>
           && Has(m.pushes, m.pushes[i].ptr)
           && m.server.presented[i] ==
                UpdateOf(if caching then First(m.pushes, m.pushes[i].ptr) else m.pushes[i], m.pushes[i])
  {
    hide Connection, Events, CacheOk, Next, First;
    ReachedInv(caching, polite, garbage, steps);
    RunKeepsMode(Start(caching, polite, garbage), steps);
    var m := Reached(caching, polite, garbage, steps);
    forall i | 0 <= i < |m.server.presented|
      ensures Has(m.pushes, m.pushes[i].ptr)
      ensures m.server.presented[i] == UpdateOf(if caching then First(m.pushes, m.pushes[i].ptr) else m.pushes[i], m.pushes[i])
    {
      var past := m.pushes[..i + 1];
      assert past[i] == m.pushes[i];
      FirstPrefix(m.pushes, i + 1, m.pushes[i].ptr);
    }
  }

  /** An update field by field: the kept frame's handle and geometry, and the pushed frame's damage. */
  lemma UpdateFields(kept: Frame, f: Frame)
    ensures var u := UpdateOf(kept, f);
      && u.content.native == kept.native && u.content.width == kept.width && u.content.height == kept.height
      && u.content.stride == kept.stride && u.content.format == kept.format && u.content.usage == 0x200
      && u.damage == Some((f.width, f.height))
  {
  }

  /**
   Field by field, each completed push commits the descriptors, integers, width,
   height, stride and format of the frame kept for it, for hardware rendering, and
   damages the width and height of the frame pushed.
   */
  lemma ShownFields(caching: bool, polite: bool, garbage: ObjId, steps: seq<Step>)
    requires Accepted(caching, polite, garbage, steps)
    ensures var m := Reached(caching, polite, garbage, steps);
      && |m.server.presented| <= |m.pushes|
      && forall i :: 0 <= i < |m.server.presented| ==>
           && Has(m.pushes, m.pushes[i].ptr)
           && var shown, k := m.server.presented[i], if caching then First(m.pushes, m.pushes[i].ptr) else m.pushes[i];
              && shown.content.native == k.native && shown.content.width == k.width && shown.content.height == k.height
              && shown.content.stride == k.stride && shown.content.format == k.format && shown.content.usage == 0x200
              && shown.damage == Some((m.pushes[i].width, m.pushes[i].height))
  {
    hide Reached, Accepted, First, Has, UpdateOf;
    ShownContents(caching, polite, garbage, steps);
    var m := Reached(caching, polite, garbage, steps);
    forall i | 0 <= i < |m.server.presented|
      ensures Has(m.pushes, m.pushes[i].ptr)
      ensures var shown, k := m.server.presented[i], if caching then First(m.pushes, m.pushes[i].ptr) else m.pushes[i];
        && shown.content.native == k.native && shown.content.width == k.width && shown.content.height == k.height
        && shown.content.stride == k.stride && shown.content.format == k.format && shown.content.usage == 0x200
        && shown.damage == Some((m.pushes[i].width, m.pushes[i].height))
    {
      UpdateFields(if caching then First(m.pushes, m.pushes[i].ptr) else m.pushes[i], m.pushes[i]);
    }
  }

  /** The frames whose push has completed. */
  function Completed(m: Machine): seq<Frame>
    requires |m.server.presented| <= |m.pushes|
  {
    m.pushes[..|m.server.presented|]
  }

  /** The first frame under a handle is among those pushed no later. */
  lemma FirstIsStable(pushes: seq<Frame>, n: nat, i: nat)
    requires i < n <= |pushes| && Stable(pushes[..n]) && Has(pushes, pushes[i].ptr)
    ensures ContentOf(First(pushes, pushes[i].ptr)) == ContentOf(pushes[i])
  {
    hide First, ContentOf;
    var j := FirstIsLeast(pushes, pushes[i].ptr);
    HasNot(pushes, j, pushes[i].ptr);
    assert j <= i && pushes[..n][i] == pushes[i] && pushes[..n][j] == pushes[j];
  }

  lemma StableShown(pushes: seq<Frame>, n: nat, shown: seq<Update>)
    requires n <= |pushes| && |shown| == n && Stable(pushes[..n])
    requires forall i :: 0 <= i < n ==>
      Has(pushes, pushes[i].ptr) && shown[i] == UpdateOf(First(pushes, pushes[i].ptr), pushes[i])
    ensures shown == Intended(pushes[..n])
  {
    hide First, Has, Stable;
    forall i | 0 <= i < n
      ensures shown[i] == Intended(pushes[..n])[i]
    {
      FirstIsStable(pushes, n, i);
    }
  }

  /** Equal pointers are shown with the contents of the same frame. */
  lemma ShownStable(pushes: seq<Frame>, n: nat, shown: seq<Update>)
    requires n <= |pushes| && |shown| == n && shown == Intended(pushes[..n])
    requires forall i :: 0 <= i < n ==>
      Has(pushes, pushes[i].ptr) && shown[i] == UpdateOf(First(pushes, pushes[i].ptr), pushes[i])
    ensures Stable(pushes[..n])
  {
    hide First, Has;
    var past := pushes[..n];
    forall i, j | 0 <= i < j < n && past[i].ptr == past[j].ptr
      ensures ContentOf(past[i]) == ContentOf(past[j])
    {
      assert shown[i] == Intended(past)[i] && shown[j] == Intended(past)[j];
    }
  }

  /**
   In every state the surface has shown exactly the frames whose push completed,
   rebuilt to the descriptor and the integer, in order, if and only if handles are
   stable among them; between two pushes those are all the pushed frames.
   */
  lemma ShowsPushedIffStable(polite: bool, garbage: ObjId, steps: seq<Step>)
    requires Accepted(true, polite, garbage, steps)
    ensures var m := Reached(true, polite, garbage, steps);
      && |m.server.presented| <= |m.pushes|
      && (m.server.presented == Intended(Completed(m)) <==> Stable(Completed(m)))
      && (!m.pc.Pushing() ==> Completed(m) == m.pushes)
  {
    hide Reached, First, Has, Stable, Intended;
    var m := Reached(true, polite, garbage, steps);
    ShownContents(true, polite, garbage, steps);
    if Stable(Completed(m)) {
      StableShown(m.pushes, |m.server.presented|, m.server.presented);
    }
    if m.server.presented == Intended(Completed(m)) {
      ShownStable(m.pushes, |m.server.presented|, m.server.presented);
    }
  }

  /** Without the cache every frame is shown as given, stable or not. */
  lemma CachelessShowsPushed(polite: bool, garbage: ObjId, steps: seq<Step>)
    requires Accepted(false, polite, garbage, steps) && Reached(false, polite, garbage, steps).pc.Idle?
    ensures var m := Reached(false, polite, garbage, steps);
      && m.server.presented == Intended(m.pushes)
      && forall i :: 0 <= i < |m.pushes| ==>
           var shown, f := m.server.presented[i], m.pushes[i];
           && shown.content.native == f.native && shown.content.width == f.width && shown.content.height == f.height
           && shown.content.stride == f.stride && shown.content.format == f.format
           && shown.damage == Some((f.width, f.height))
  {
    hide Reached, Accepted, First, UpdateOf, Has;
    ShownContents(false, polite, garbage, steps);
    ShownFields(false, polite, garbage, steps);
  }

  /** The cache is invisible exactly when handles are stable, whatever events interleave with either run. */
  lemma CacheRefinesCacheless(p1: bool, g1: ObjId, cached: seq<Step>, p2: bool, g2: ObjId, plain: seq<Step>)
    requires Accepted(true, p1, g1, cached) && Accepted(false, p2, g2, plain)
    requires Reached(true, p1, g1, cached).pc.Idle? && Reached(false, p2, g2, plain).pc.Idle?
    requires Reached(true, p1, g1, cached).pushes == Reached(false, p2, g2, plain).pushes
    ensures Reached(true, p1, g1, cached).server.presented == Reached(false, p2, g2, plain).server.presented
       <==> Stable(Reached(true, p1, g1, cached).pushes)
  {
    hide Run;
    ShowsPushedIffStable(p1, g1, cached);
    CachelessShowsPushed(p2, g2, plain);
  }

  // ---------- buffers ----------

  function Pointers(pushes: seq<Frame>): set<HandlePtr> {
    set f | f in pushes :: f.ptr
  }

  lemma {:induction false} NoDestroys(m: Machine, steps: seq<Step>)
    ensures Destroys(Run(m, steps).log) == Destroys(m.log)
    decreases |steps|
  {
    hide Apply, Next;
    if steps != [] {
      var m' := Next(m, steps[0]);
      StepLogs(m, steps[0]);
      if m'.log != m.log {
        var e: Entry :| !e.DestroyBuffer? && m'.log == m.log + [e];
        assert m'.log[..|m.log|] == m.log;
      }
      NoDestroys(m', steps[1..]);
    }
  }

  lemma LogAccounts(caching: bool, polite: bool, garbage: ObjId, steps: seq<Step>)
    requires Accepted(caching, polite, garbage, steps)
    ensures var m := Reached(caching, polite, garbage, steps);
      && m.server == Replay(m.log) && m.server.error.None?
      && m.server.acked == Acks(m.log)
      && Creates(m.log) == |m.server.buffers| && Destroys(m.log) == 0
  {
    hide Apply, Next, Run, IdsOk, PhaseOk, HandlesOk, Picture, Events;
    var m := Reached(caching, polite, garbage, steps);
    RunReplays(Start(caching, polite, garbage), steps);
    ReachedInv(caching, polite, garbage, steps);
    Accounts(m.log);
    NoDestroys(Start(caching, polite, garbage), steps);
  }

  lemma MapCoversPushes(settled: seq<Frame>, bufferMap: map<HandlePtr, ObjId>)
    requires forall p :: p in bufferMap <==> Has(settled, p)
    ensures bufferMap.Keys == Pointers(settled)
  {
  }

  /**
   In every state the compositor holds exactly the buffers of the map and the one
   that pushFrame has created and not yet put there: one per distinct handle, no
   two handles sharing one, none leaked, and the log holds exactly one
   create_buffer for each. Between two pushes that is the map alone.
   */
  lemma LiveBuffersAreTheMap(polite: bool, garbage: ObjId, steps: seq<Step>)
    requires Accepted(true, polite, garbage, steps)
    ensures var m := Reached(true, polite, garbage, steps);
      && m.server.buffers.Keys == m.bufferMap.Values + Loose(m.pc) && m.bufferMap.Values !! Loose(m.pc)
      && (forall p, q :: p in m.bufferMap && q in m.bufferMap && m.bufferMap[p] == m.bufferMap[q] ==> p == q)
      && m.bufferMap.Keys == Pointers(Settled(m))
      && Creates(m.log) == |m.bufferMap| + |Loose(m.pc)| && Destroys(m.log) == 0
      && |m.bufferMap| == |Pointers(Settled(m))|
      && (m.pc.Idle? ==> Loose(m.pc) == {} && Settled(m) == m.pushes)
      && forall p :: p in m.bufferMap ==>
           && Has(Settled(m), p) && m.server.buffers[m.bufferMap[p]] == ContentOf(First(Settled(m), p))
  {
    hide ContentOf, Next, Run, Connection, Events, PresentedOk, SurfaceOk, First, Last, Has, Accepted;
    var m := Reached(true, polite, garbage, steps);
    ReachedInv(true, polite, garbage, steps);
    RunKeepsMode(Start(true, polite, garbage), steps);
    LogAccounts(true, polite, garbage, steps);
    MapCoversPushes(Settled(m), m.bufferMap);
    assert |m.bufferMap| == |m.bufferMap.Keys|;
  }

  lemma ContentFields(f: Frame)
    ensures var c := ContentOf(f);
      && c.native == f.native && c.width == f.width && c.height == f.height
      && c.stride == f.stride && c.format == f.format && c.usage == 0x200
  {
  }

  /** Field by field, the buffer that the map names for a handle holds the frame first pushed under it. */
  lemma LiveBufferFields(polite: bool, garbage: ObjId, steps: seq<Step>, p: HandlePtr)
    requires Accepted(true, polite, garbage, steps) && p in Reached(true, polite, garbage, steps).bufferMap
    ensures var m := Reached(true, polite, garbage, steps);
      && m.bufferMap[p] in m.server.buffers && Has(Settled(m), p)
      && var c, f := m.server.buffers[m.bufferMap[p]], First(Settled(m), p);
         && c.native == f.native && c.width == f.width && c.height == f.height
         && c.stride == f.stride && c.format == f.format && c.usage == 0x200
  {
    hide Reached, Accepted, ContentOf, First, Has;
    LiveBuffersAreTheMap(polite, garbage, steps);
    var m := Reached(true, polite, garbage, steps);
    assert m.bufferMap[p] in m.bufferMap.Values;
    ContentFields(First(Settled(m), p));
  }

  /** The cache saves exactly the repeats: without it, one create_buffer per push. */
  lemma CachelessCreates(polite: bool, garbage: ObjId, steps: seq<Step>)
    requires Accepted(false, polite, garbage, steps) && Reached(false, polite, garbage, steps).pc.Idle?
    ensures var m := Reached(false, polite, garbage, steps); Creates(m.log) == |m.pushes|
  {
    hide Next, Run, Connection, Events, PresentedOk, SurfaceOk, MakingOk, Has;
    ReachedInv(false, polite, garbage, steps);
    RunKeepsMode(Start(false, polite, garbage), steps);
    LogAccounts(false, polite, garbage, steps);
  }

  // ---------- configures ----------

  /**
   Every serial the compositor sent is acknowledged once and in order as soon as
   its handler has run: the acknowledgements in the log followed by the serials
   still queued are the serials sent. Roles come first, and no buffer is
   attached before an acknowledgement.
   */
  lemma ConfiguresAcknowledged(caching: bool, polite: bool, garbage: ObjId, steps: seq<Step>)
    requires Accepted(caching, polite, garbage, steps)
    ensures var m := Reached(caching, polite, garbage, steps);
      && m.sent == Acks(m.log) + Serials(m.queue)
      && forall i :: 0 <= i < |m.log| ==>
           && (m.log[i].SetToplevel? || m.log[i].AckConfigure? ==> exists j :: 0 <= j < i && m.log[j].GetToplevel?)
           && (m.log[i].Attach? && (exists j :: 0 <= j < i && m.log[j].GetXdgSurface?) ==>
                 exists j :: 0 <= j < i && m.log[j].AckConfigure?)
  {
    hide Apply, Next, Run, Connection, Picture, CallbacksOk, PointerOk, SyncGuarded;
    var m := Reached(caching, polite, garbage, steps);
    ReachedInv(caching, polite, garbage, steps);
    LogAccounts(caching, polite, garbage, steps);
    assert m.sent == Acks(m.log) + Serials(m.queue);
    hide Inv;
    forall i | 0 <= i < |m.log|
      ensures m.log[i].SetToplevel? || m.log[i].AckConfigure? ==> exists j :: 0 <= j < i && m.log[j].GetToplevel?
      ensures m.log[i].Attach? && (exists j :: 0 <= j < i && m.log[j].GetXdgSurface?) ==>
        exists j :: 0 <= j < i && m.log[j].AckConfigure?
    {
      ErrorFreeObeysXdg(m.log, i);
    }
  }

  // ---------- frame callbacks ----------

  /**
   Callbacks requested are those destroyed plus those outstanding, none counted
   twice; and once initialized, frame_callback_ptr is null or names the latest
   request, which is still alive.
   */
  lemma CallbacksConserved(caching: bool, polite: bool, garbage: ObjId, steps: seq<Step>)
    requires Accepted(caching, polite, garbage, steps)
    ensures var m := Reached(caching, polite, garbage, steps);
      && multiset(m.requested) == multiset(m.destroyed) + Outstanding(m)
      && |m.requested| == |m.destroyed| + |Outstanding(m)|
      && (forall id :: multiset(m.destroyed)[id] + Outstanding(m)[id] <= 1)
      && (!m.pc.Booting() && m.framePtr != NULL_OBJECT ==>
            && m.requested != [] && m.framePtr == m.requested[|m.requested| - 1]
            && m.framePtr in Outstanding(m))
  {
    hide Next, Run, Connection, Picture, ConfiguresOk;
    var m := Reached(caching, polite, garbage, steps);
    ReachedInv(caching, polite, garbage, steps);
    assert forall id :: multiset(m.requested)[id] == multiset(m.destroyed)[id] + Outstanding(m)[id];
    assert |multiset(m.requested)| == |multiset(m.destroyed)| + |Outstanding(m)|;
    if !m.pc.Booting() && m.framePtr != NULL_OBJECT {
      assert m.framePtr in multiset(m.requested);
    }
  }
}
