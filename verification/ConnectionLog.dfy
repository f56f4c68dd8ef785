/**
 What an error-free connection log means, read off the log itself: the order of
 the xdg requests, the acknowledged serials, and the buffers that exist.
 */
module ConnectionLog {
  import opened Wayland
  import opened Compositor

  function Acks(log: seq<Entry>): seq<Serial> {
    if log == [] then []
    else
      var e := log[|log| - 1];
      Acks(log[..|log| - 1]) + (if e.AckConfigure? then [e.serial] else [])
  }

  function Creates(log: seq<Entry>): nat {
    if log == [] then 0 else Creates(log[..|log| - 1]) + (if log[|log| - 1].CreateBuffer? then 1 else 0)
  }

  function Destroys(log: seq<Entry>): nat {
    if log == [] then 0 else Destroys(log[..|log| - 1]) + (if log[|log| - 1].DestroyBuffer? then 1 else 0)
  }

  lemma ErrorStays(log: seq<Entry>)
    requires log != [] && Replay(log).error.None?
    ensures Replay(log[..|log| - 1]).error.None?
  {
  }

  /** An error-free prefix comes before an error-free log. */
  lemma {:induction false} ErrorFreePrefix(log: seq<Entry>, n: nat)
    requires n <= |log| && Replay(log).error.None?
    ensures Replay(log[..n]).error.None?
  {
    hide Apply;
    if n == |log| {
      assert log[..n] == log;
    } else {
      var k := |log| - 1;
      ErrorStays(log);
      ErrorFreePrefix(log[..k], n);
      assert log[..k][..n] == log[..n];
    }
  }

  /** How one accepted entry moves the accounts. */
  ghost predicate Accounted(s: Server, e: Entry, s': Server) {
    && s'.buffers.Keys <= s'.used
    && s'.acked == s.acked + (if e.AckConfigure? then [e.serial] else [])
    && |s'.buffers| + (if e.DestroyBuffer? then 1 else 0) == |s.buffers| + (if e.CreateBuffer? then 1 else 0)
  }

  lemma CreateAccounts(s: Server, e: Entry)
    requires e.CreateBuffer? && Apply(s, e).error.None? && s.buffers.Keys <= s.used
    ensures Accounted(s, e, Apply(s, e))
  {
    var s' := Apply(s, e);
    CreateApplied(s, e);
    hide Apply;
    assert s'.buffers.Keys == s.buffers.Keys + {e.id};
  }

  lemma CreateApplied(s: Server, e: Entry)
    requires e.CreateBuffer? && Apply(s, e).error.None?
    ensures var s' := Apply(s, e);
      && e.id !in s.used && e.id in s'.buffers && s'.buffers == s.buffers[e.id := s'.buffers[e.id]]
      && s'.used == s.used + {e.id} && s'.acked == s.acked
  {
  }

  lemma DestroyAccounts(s: Server, e: Entry)
    requires e.DestroyBuffer? && Apply(s, e).error.None? && s.buffers.Keys <= s.used
    ensures Accounted(s, e, Apply(s, e))
  {
    var s' := Apply(s, e);
    DestroyApplied(s, e);
    hide Apply;
    assert s'.buffers.Keys == s.buffers.Keys - {e.buffer};
  }

  lemma DestroyApplied(s: Server, e: Entry)
    requires e.DestroyBuffer? && Apply(s, e).error.None?
    ensures var s' := Apply(s, e);
      e.buffer in s.buffers && s'.buffers == s.buffers - {e.buffer} && s'.used == s.used && s'.acked == s.acked
  {
  }

  lemma OtherFrame(s: Server, e: Entry)
    requires !e.CreateBuffer? && !e.DestroyBuffer? && !e.AckConfigure?
    ensures SameRecords(s, Apply(s, e))
  {
    hide OnCreateSurface, OnGetXdgSurface, OnGetToplevel, OnCreateHandle, OnAddFd, OnDestroyHandle;
    hide OnRequestFrame, OnAttach, OnDamage, OnCommit;
  }

  lemma AckFrame(s: Server, e: Entry)
    requires e.AckConfigure? && Apply(s, e).error.None?
    ensures var s' := Apply(s, e); s'.buffers == s.buffers && s'.used == s.used && s'.acked == s.acked + [e.serial]
  {
  }

  lemma AccountedFrame(s: Server, e: Entry, s': Server)
    requires !e.CreateBuffer? && !e.DestroyBuffer? && s.buffers.Keys <= s.used
    requires s'.buffers == s.buffers && s.used <= s'.used
    requires s'.acked == s.acked + (if e.AckConfigure? then [e.serial] else [])
    ensures Accounted(s, e, s')
  {
  }

  lemma EntryAccounts(s: Server, e: Entry)
    requires Apply(s, e).error.None? && s.buffers.Keys <= s.used
    ensures Accounted(s, e, Apply(s, e))
  {
    hide Apply, Accounted;
    if e.CreateBuffer? { CreateAccounts(s, e); }
    else if e.DestroyBuffer? { DestroyAccounts(s, e); }
    else {
      if e.AckConfigure? { AckFrame(s, e); } else { OtherFrame(s, e); }
      AccountedFrame(s, e, Apply(s, e));
    }
  }

  /** Serials acknowledged are those of the log; buffers made are those alive plus those destroyed. */
  lemma {:induction false} Accounts(log: seq<Entry>)
    requires Replay(log).error.None?
    ensures var s := Replay(log);
      && s.acked == Acks(log)
      && s.buffers.Keys <= s.used
      && Creates(log) == |s.buffers| + Destroys(log)
  {
    hide Apply;
    if log != [] {
      var k := |log| - 1;
      ErrorStays(log);
      Accounts(log[..k]);
      EntryAccounts(Replay(log[..k]), log[k]);
    }
  }

  /** A fact about the compositor that only one kind of entry can establish. */
  lemma {:induction false} RoleFromLog(log: seq<Entry>)
    ensures Replay(log).hasRole ==> exists j :: 0 <= j < |log| && log[j].GetToplevel?
    ensures Replay(log).acked != [] ==> exists j :: 0 <= j < |log| && log[j].AckConfigure?
    ensures Replay(log).error.None? && (exists j :: 0 <= j < |log| && log[j].GetXdgSurface?) ==> Replay(log).hasXdg
  {
    hide Apply;
    if log != [] {
      var k := |log| - 1;
      RoleFromLog(log[..k]);
      EntryRole(Replay(log[..k]), log[k]);
      forall j | 0 <= j < k ensures log[..k][j] == log[j] {}
      if exists j :: 0 <= j < |log| && log[j].GetXdgSurface? && j < k {
        var j :| 0 <= j < |log| && log[j].GetXdgSurface? && j < k;
        assert log[..k][j].GetXdgSurface?;
      }
    }
  }

  lemma EntryRole(s: Server, e: Entry)
    ensures Apply(s, e).hasRole ==> s.hasRole || e.GetToplevel?
    ensures Apply(s, e).acked != [] ==> s.acked != [] || e.AckConfigure?
    ensures Apply(s, e).error.None? ==> s.error.None? && (s.hasXdg || e.GetXdgSurface? ==> Apply(s, e).hasXdg)
  {
    hide OnCreateSurface, OnGetXdgSurface, OnAckConfigure, OnCreateHandle, OnAddFd, OnCreateBuffer, OnDestroyHandle, OnDestroyBuffer;
    hide OnRequestFrame, OnAttach, OnDamage, OnCommit;
  }

  lemma Rejections(s: Server, e: Entry)
    requires Apply(s, e).error.None?
    ensures e.SetToplevel? || e.AckConfigure? ==> s.hasRole
    ensures e.Attach? && s.hasXdg ==> s.acked != []
    ensures e.GetXdgSurface? ==> s.currentBuffer.None? && s.pendingBuffer.None?
  {
  }

  /**
   The xdg_surface rules, on the log: a role is assigned before any other
   request on the surface, and once there is an xdg_surface no buffer is
   attached before a configure is acknowledged.
   */
  lemma ErrorFreeObeysXdg(log: seq<Entry>, i: nat)
    requires i < |log| && Replay(log).error.None?
    ensures log[i].SetToplevel? || log[i].AckConfigure? ==> exists j :: 0 <= j < i && log[j].GetToplevel?
    ensures log[i].Attach? && (exists j :: 0 <= j < i && log[j].GetXdgSurface?) ==> exists j :: 0 <= j < i && log[j].AckConfigure?
  {
    hide Apply;
    var past := log[..i];
    ErrorFreePrefix(log, i + 1);
    ErrorFreePrefix(log, i);
    assert log[..i + 1][..i] == past;
    Rejections(Replay(past), log[i]);
    RoleFromLog(past);
    forall j | 0 <= j < i ensures past[j] == log[j] {}
    if exists j :: 0 <= j < i && log[j].GetXdgSurface? {
      var j :| 0 <= j < i && log[j].GetXdgSurface?;
      assert past[j].GetXdgSurface?;
    }
  }
}
