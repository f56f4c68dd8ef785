/**
 Every step of the window manager makes at most one call, so the compositor of a
 run is the replay of the run's log.
 */
module WindowLog {
  import opened Wayland
  import opened Compositor
  import opened WindowRun

  /** A step makes at most one call, an attach only if it may, and never changes the mode. */
  ghost predicate LogsOne(m: Machine, m': Machine, attaches: bool) {
    && m'.caching == m.caching && m'.polite == m.polite
    && (|| (m'.log == m.log && m'.server == m.server)
        || exists e: Entry :: !e.DestroyBuffer? && (e.Attach? ==> attaches)
                           && m'.log == m.log + [e] && m'.server == Apply(m.server, e))
  }

  lemma CallLogs(m: Machine, m': Machine, e: Entry, attaches: bool)
    requires !e.DestroyBuffer? && (e.Attach? ==> attaches) && m'.caching == m.caching && m'.polite == m.polite
    requires m'.log == m.log + [e] && m'.server == Apply(m.server, e)
    ensures LogsOne(m, m', attaches)
  {
  }

  lemma LogsNone(m: Machine, m': Machine, attaches: bool)
    requires m'.caching == m.caching && m'.polite == m.polite && m'.log == m.log && m'.server == m.server
    ensures LogsOne(m, m', attaches)
  {
  }

  lemma AdvanceBootLogs(m: Machine)
    requires m.pc.Booting()
    ensures LogsOne(m, AdvanceBoot(m), false)
  {
    hide Apply, LogsOne;
    if m.pc.Boot? && m.pc.k < BOOT_CALLS {
      CallLogs(m, AdvanceBoot(m), BootCall(m.pc.k, m.nextId), false);
    } else if m.pc.Resume? {
      CallLogs(m, AdvanceBoot(m), Commit, false);
    } else {
      LogsNone(m, AdvanceBoot(m), false);
    }
  }

  lemma MakeLogs(m: Machine)
    requires m.pc.Creating()
    ensures LogsOne(m, AdvancePush(m), false)
  {
    hide Apply, LogsOne;
    var m' := AdvancePush(m);
    if m.pc.Dropping? { CallLogs(m, m', DestroyHandle(m.pc.handle), false); }
    else if m.pc.k < m.pc.frame.native.numFds { CallLogs(m, m', AddFd(m.pc.handle, m.pc.frame.native.data[m.pc.k]), false); }
    else { CallLogs(m, m', CreateBufferCall(ContentOf(m.pc.frame), m.pc.handle, m.nextId), false); }
  }

  lemma ShowLogs(m: Machine)
    requires m.pc.Mapped? || m.pc.Damaging? || m.pc.Committing?
    ensures LogsOne(m, AdvancePush(m), false)
  {
    hide Apply, LogsOne;
    var m' := AdvancePush(m);
    if m.pc.Mapped? { CallLogs(m, m', RequestFrame(m.nextId), false); }
    else if m.pc.Damaging? { CallLogs(m, m', Damage(m.pc.frame.width, m.pc.frame.height), false); }
    else { CallLogs(m, m', Commit, false); }
  }

  lemma AttachLogs(m: Machine)
    requires m.pc.Attaching?
    ensures LogsOne(m, AdvancePush(m), true)
  {
    hide Apply, LogsOne;
    if m.pc.frame.ptr in m.bufferMap {
      CallLogs(m, AdvancePush(m), Attach(m.bufferMap[m.pc.frame.ptr]), true);
    } else {
      LogsNone(m, AdvancePush(m), true);
    }
  }

  lemma QuietLogs(m: Machine)
    requires m.pc.Idle? || m.pc.Listening? || m.pc.Crashed?
    ensures LogsOne(m, AdvancePush(m), false)
  {
    hide Apply, LogsOne;
    LogsNone(m, AdvancePush(m), false);
  }

  lemma AdvancePushLogs(m: Machine)
    requires !m.pc.Booting()
    ensures LogsOne(m, AdvancePush(m), m.pc.Attaching?)
  {
    hide AdvancePush, LogsOne;
    if m.pc.Creating() { MakeLogs(m); }
    else if m.pc.Attaching? { AttachLogs(m); }
    else if m.pc.Mapped? || m.pc.Damaging? || m.pc.Committing? { ShowLogs(m); }
    else { QuietLogs(m); }
  }

  lemma DispatchLogs(m: Machine)
    ensures LogsOne(m, DispatchNext(m), false)
  {
    hide DispatchNext, LogsOne;
    if m.queue != [] && (m.queue[0].ConfigureEvent? || (m.queue[0].DoneEvent? && m.cleared)) {
      HandlerLogs(m);
    } else {
      QuietDispatch(m);
    }
  }

  lemma HandlerLogs(m: Machine)
    requires m.queue != [] && (m.queue[0].ConfigureEvent? || (m.queue[0].DoneEvent? && m.cleared))
    ensures LogsOne(m, DispatchNext(m), false)
  {
    hide Apply, LogsOne;
    CallLogs(m, DispatchNext(m),
      if m.queue[0].ConfigureEvent? then AckConfigure(m.queue[0].serial) else DestroyCallback(m.queue[0].callback), false);
  }

  lemma QuietDispatch(m: Machine)
    requires m.queue == [] || m.queue[0].SyncEvent? || (m.queue[0].DoneEvent? && !m.cleared)
    ensures LogsOne(m, DispatchNext(m), false)
  {
    hide Apply, LogsOne;
    LogsNone(m, DispatchNext(m), false);
  }

  lemma CompositorLogs(m: Machine, s: Step)
    requires s.SendConfigure? || s.SendDone? || s.SendSync?
    ensures LogsOne(m, CompositorStep(m, s), false)
  {
    hide Apply, LogsOne;
    var m' := CompositorStep(m, s);
    if m' == m || s.SendSync? { LogsNone(m, m', false); }
    else if s.SendDone? { CallLogs(m, m', SentDone(s.callback), false); }
    else { CallLogs(m, m', SentConfigure(s.serial), false); }
  }

  lemma BeginLogs(m: Machine, f: Frame)
    ensures LogsOne(m, BeginPush(m, f), false)
  {
    hide Apply, LogsOne;
    if m.pc != Idle || (m.caching && f.ptr in m.bufferMap) { LogsNone(m, BeginPush(m, f), false); }
    else { CallLogs(m, BeginPush(m, f), CreateHandle(m.nextId, f.native.numFds, Ints(f.native)), false); }
  }

  lemma StepLogs(m: Machine, s: Step)
    ensures LogsOne(m, Next(m, s), s.Advance? && m.pc.Attaching?)
  {
    hide LogsOne, AdvanceBoot, AdvancePush, BeginPush, DispatchNext, CompositorStep;
    if m.pc.Crashed? {
      LogsNone(m, m, false);
    } else {
      match s
      case Advance => if m.pc.Booting() { AdvanceBootLogs(m); } else { AdvancePushLogs(m); }
      case Push(f) => BeginLogs(m, f);
      case Dispatch => DispatchLogs(m);
      case _ => CompositorLogs(m, s);
    }
  }

  lemma {:induction false} RunReplays(m: Machine, steps: seq<Step>)
    requires m.server == Replay(m.log)
    ensures Run(m, steps).server == Replay(Run(m, steps).log)
    decreases |steps|
  {
    hide Apply, Next;
    if steps != [] {
      var m' := Next(m, steps[0]);
      StepLogs(m, steps[0]);
      if m'.log != m.log {
        var e: Entry :| m'.log == m.log + [e] && m'.server == Apply(m.server, e);
        ApplyAllSnoc(FRESH_SERVER, m.log, e);
      }
      RunReplays(m', steps[1..]);
    }
  }

  lemma {:induction false} RunKeepsMode(m: Machine, steps: seq<Step>)
    ensures Run(m, steps).caching == m.caching && Run(m, steps).polite == m.polite
    decreases |steps|
  {
    hide Next;
    if steps != [] {
      StepLogs(m, steps[0]);
      RunKeepsMode(Next(m, steps[0]), steps[1..]);
    }
  }

  /** After an error nothing the connection carries is looked at. */
  lemma ErrorPersists(m: Machine, s: Step)
    requires m.server.error.Some?
    ensures Next(m, s).server.error == m.server.error
  {
    hide Next;
    StepLogs(m, s);
  }

  lemma {:induction false} RunFailed(m: Machine, steps: seq<Step>)
    requires m.server.error.Some?
    ensures Run(m, steps).server.error == m.server.error
    decreases |steps|
  {
    hide Next;
    if steps != [] {
      ErrorPersists(m, steps[0]);
      RunFailed(Next(m, steps[0]), steps[1..]);
    }
  }
}
