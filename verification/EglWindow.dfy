/**
 `EglWindow`: a context and a surface acquired in stages, any of which may fail,
 and released together.
 */
module EglWindow {
  import opened Wrappers
  import opened EglObjects

  /** The driver's answers to one call: handles (in use or 0: the call fails) and statuses. */
  datatype Answers = Answers(
    display: Handle, initializes: bool, choosesConfig: bool, config: Handle, context: Handle, surface: Handle,
    makesCurrent: bool, releasesThread: bool, width: int, height: int)

  datatype Window = Window(egl: Egl, display: Handle, context: Handle, surface: Handle, config: Handle, width: int, height: int)

  function Initial(): Window {
    Window(Egl(Objects(map[], 0, 0), Objects(map[], 0, 0)), 0, 0, 0, 0, 0, 0)
  }

  // ---------- what each method leaves ----------

  function SetupContext(w: Window, a: Answers): (Window, bool) {
    var w1 := w.(display := a.display);
    if a.display == 0 || !a.initializes then (w1, false)
    else if !a.choosesConfig then (w1, false)
    else
      var (contexts, context) := CreateObject(w.egl.contexts, a.context);
      (w1.(config := a.config, context := context, egl := w.egl.(contexts := contexts)), context != 0)
  }

  /** The objects after eglMakeCurrent with nothing and the two destroy calls. */
  function DestroyBoth(w: Window, a: Answers): Egl {
    if w.display == 0 then w.egl
    else
      var e := MakeCurrent(w.egl, 0, 0, a.makesCurrent).0;
      Egl(
        if w.context != 0 then DestroyObject(e.contexts, w.context) else e.contexts,
        if w.surface != 0 then DestroyObject(e.surfaces, w.surface) else e.surfaces)
  }

  function Release(w: Window, a: Answers): Window {
    w.(egl := ReleaseThread(DestroyBoth(w, a), a.releasesThread), display := 0, context := 0, surface := 0, config := 0)
  }

  function WithSurface(w: Window, a: Answers, width: int, height: int): Window {
    var (surfaces, surface) := CreateObject(w.egl.surfaces, a.surface);
    w.(egl := w.egl.(surfaces := surfaces), surface := surface, width := width, height := height)
  }

  /** createWindow and createPbuffer: the context, then the surface; without a surface, everything is released. */
  function CreateSurface(w: Window, a: Answers, width: int, height: int): (Window, bool) {
    if w.surface != 0 then (w, false)
    else
      var (w1, ok) := SetupContext(w, a);
      if !ok then (w1, false)
      else
        var w2 := WithSurface(w1, a, width, height);
        if w2.surface == 0 then (Release(w2, a), false) else (w2, true)
  }

  /** eglMakeCurrent on EGL_NO_DISPLAY fails. */
  function MakeWindowCurrent(w: Window, permitted: bool): (Window, bool) {
    var (e, ok) := MakeCurrent(w.egl, w.surface, w.context, permitted && w.display != 0);
    (w.(egl := e), ok)
  }

  // ---------- every run ----------

  predicate Inv(w: Window) {
    && HeldBy(w.egl.contexts, w.context) && HeldBy(w.egl.surfaces, w.surface)
    && (w.context != 0 <==> w.surface != 0) && (w.surface != 0 ==> w.display != 0)
  }

  datatype Op =
    | CreateWindow(answers: Answers)
    | CreatePbuffer(answers: Answers, width: int, height: int)
    | ReleaseWindow(answers: Answers)
    | MakeCurrentWindow(permitted: bool)

  function Step(w: Window, op: Op): Window {
    match op
    case CreateWindow(a) => CreateSurface(w, a, a.width, a.height).0
    case CreatePbuffer(a, width, height) => CreateSurface(w, a, width, height).0
    case ReleaseWindow(a) => Release(w, a)
    case MakeCurrentWindow(permitted) => MakeWindowCurrent(w, permitted).0
  }

  function Run(w: Window, ops: seq<Op>): Window
    decreases |ops|
  {
    if ops == [] then w else Run(Step(w, ops[0]), ops[1..])
  }

  /** Nothing in the thread keeps destroyed objects when the unbinding or the thread's release succeeds. */
  predicate Unbinds(w: Window, a: Answers) {
    a.releasesThread || (w.display != 0 && a.makesCurrent)
  }

  /** Between the parts of a creation the surface is missing; release copes with that too. */
  predicate Releasable(w: Window) {
    && HeldBy(w.egl.contexts, w.context) && HeldBy(w.egl.surfaces, w.surface)
    && (w.context != 0 || w.surface != 0 ==> w.display != 0)
  }

  lemma UnbindEffect(o: Objects, field: Handle, unbinds: bool, releases: bool)
    requires HeldBy(o, field)
    ensures var unbound := if unbinds then Switch(o, 0) else o;
      var destroyed := if field != 0 then DestroyObject(unbound, field) else unbound;
      var after := if releases then Switch(destroyed, 0) else destroyed;
      HeldBy(after, 0) && after.live.Keys == if unbinds || releases then {} else Held(o.current)
  {
  }

  /**
   Release leaves nothing held, and nothing alive either unless both the unbinding
   and the thread's release fail; then what was current stays until it is unbound.
   */
  lemma ReleaseEffect(w: Window, a: Answers)
    requires Releasable(w)
    ensures var r := Release(w, a);
      && Inv(r) && r.display == 0 && r.context == 0 && r.surface == 0 && r.config == 0
      && r.width == w.width && r.height == w.height
      && r.egl.contexts.live.Keys == (if Unbinds(w, a) then {} else Held(w.egl.contexts.current))
      && r.egl.surfaces.live.Keys == (if Unbinds(w, a) then {} else Held(w.egl.surfaces.current))
  {
    hide HeldBy, Switch, DestroyObject, Held;
    UnbindEffect(w.egl.contexts, w.context, w.display != 0 && a.makesCurrent, a.releasesThread);
    UnbindEffect(w.egl.surfaces, w.surface, w.display != 0 && a.makesCurrent, a.releasesThread);
  }

  /** Every stage of the creation succeeds. */
  predicate Acquires(w: Window, a: Answers) {
    && a.display != 0 && a.initializes && a.choosesConfig
    && a.context != 0 && a.context !in w.egl.contexts.live && a.surface != 0 && a.surface !in w.egl.surfaces.live
  }

  /** A successful creation adds and holds both objects; a failed one holds nothing and adds nothing. */
  lemma CreateEffect(w: Window, a: Answers, width: int, height: int)
    requires Inv(w)
    ensures var (r, ok) := CreateSurface(w, a, width, height);
      && Inv(r) && (ok <==> w.surface == 0 && Acquires(w, a))
      && (w.surface != 0 ==> r == w)
      && (ok ==> && r.display == a.display && r.config == a.config && r.context == a.context && r.surface == a.surface
                 && (r.width, r.height) == (width, height))
      && (w.surface == 0 && !ok ==> && r.context == 0 && r.surface == 0
                                    && r.egl.contexts.live.Keys <= w.egl.contexts.live.Keys
                                    && r.egl.surfaces.live.Keys <= w.egl.surfaces.live.Keys)
  {
    hide HeldBy, Release;
    if w.surface == 0 {
      CreateHeld(w.egl.contexts, a.context);
      CreateHeld(w.egl.surfaces, a.surface);
      CurrentExists(w.egl.contexts, 0);
      CurrentExists(w.egl.surfaces, 0);
      var (w1, ok) := SetupContext(w, a);
      if ok {
        ReleaseEffect(WithSurface(w1, a, width, height), a);
      }
    }
  }

  /** A window has the size its surface answers, a pbuffer the size asked for. */
  lemma CreationSizes(w: Window, a: Answers, width: int, height: int)
    requires Inv(w) && w.surface == 0 && Acquires(w, a)
    ensures var window, pbuffer := Step(w, CreateWindow(a)), Step(w, CreatePbuffer(a, width, height));
      && window.surface == a.surface && window.width == a.width && window.height == a.height
      && pbuffer.surface == a.surface && pbuffer.width == width && pbuffer.height == height
  {
    hide CreateSurface;
    CreateEffect(w, a, a.width, a.height);
    CreateEffect(w, a, width, height);
  }

  /** Display, initialization and configuration succeed. */
  predicate Configures(a: Answers) {
    a.display != 0 && a.initializes && a.choosesConfig
  }

  /**
   What each failing stage leaves in the fields: the display as answered and nothing
   else before a configuration is chosen; the display and the configuration when the
   context fails; nothing at all when the surface fails, but the size.
   */
  lemma FailedStages(w: Window, a: Answers, width: int, height: int)
    requires Inv(w) && w.surface == 0
    ensures var (r, ok) := CreateSurface(w, a, width, height);
      && (!Configures(a) ==>
            !ok && r == Window(w.egl, a.display, 0, 0, w.config, w.width, w.height))
      && (Configures(a) && (a.context == 0 || a.context in w.egl.contexts.live) ==>
            !ok && r == Window(w.egl, a.display, 0, 0, a.config, w.width, w.height))
      && (Configures(a) && a.context != 0 && a.context !in w.egl.contexts.live
          && (a.surface == 0 || a.surface in w.egl.surfaces.live) ==>
            !ok && r == Window(r.egl, 0, 0, 0, 0, width, height))
  {
    hide HeldBy, DestroyBoth, ReleaseThread;
  }

  /** The same for a creation that may also find a surface already, when it changes nothing. */
  lemma FailureFields(w: Window, a: Answers, width: int, height: int)
    requires Inv(w)
    ensures var (r, ok) := CreateSurface(w, a, width, height);
      !ok && w.surface == 0 ==>
        && r.context == 0 && r.surface == 0
        && (!Configures(a) ==> r.display == a.display && r.config == w.config)
        && (Configures(a) && (a.context == 0 || a.context in w.egl.contexts.live) ==> r.display == a.display && r.config == a.config)
        && (Configures(a) && a.context != 0 && a.context !in w.egl.contexts.live ==> r.display == 0 && r.config == 0)
  {
    hide Inv, CreateSurface;
    CreateEffect(w, a, width, height);
    if w.surface == 0 {
      FailedStages(w, a, width, height);
    }
  }

  lemma CurrentExists(o: Objects, field: Handle)
    requires HeldBy(o, field)
    ensures Held(o.current) <= o.live.Keys
  {
  }

  lemma UseKeeps(w: Window, permitted: bool)
    requires Inv(w)
    ensures Inv(MakeWindowCurrent(w, permitted).0)
  {
    hide HeldBy, Switch;
    SwitchHeld(w.egl.contexts, w.context, w.context);
    SwitchHeld(w.egl.surfaces, w.surface, w.surface);
  }

  lemma StepKeeps(w: Window, op: Op)
    requires Inv(w)
    ensures Inv(Step(w, op))
  {
    hide HeldBy, CreateSurface, Release, MakeWindowCurrent;
    match op
    case CreateWindow(a) => CreateEffect(w, a, a.width, a.height);
    case CreatePbuffer(a, width, height) => CreateEffect(w, a, width, height);
    case ReleaseWindow(a) => ReleaseEffect(w, a);
    case MakeCurrentWindow(permitted) => UseKeeps(w, permitted);
  }

  lemma {:induction false} RunKeeps(w: Window, ops: seq<Op>)
    requires Inv(w)
    ensures Inv(Run(w, ops))
    decreases |ops|
  {
    hide Inv, Step;
    if ops != [] {
      StepKeeps(w, ops[0]);
      RunKeeps(Step(w, ops[0]), ops[1..]);
    }
  }

  /**
   In every run, whatever fails: the context is set exactly when the surface is,
   a set surface implies a set display, what exists is what the fields name and
   at most one destroyed object that is still current, and no call destroys an
   object a second time.
   */
  lemma NoLeak(ops: seq<Op>)
    ensures var w := Run(Initial(), ops);
      && (w.context != 0 <==> w.surface != 0) && (w.surface != 0 ==> w.display != 0)
      && w.egl.contexts.live.Keys == Held(w.context) + Marked(w.egl.contexts)
      && w.egl.surfaces.live.Keys == Held(w.surface) + Marked(w.egl.surfaces)
      && Marked(w.egl.contexts) <= {w.egl.contexts.current} && Marked(w.egl.surfaces) <= {w.egl.surfaces.current}
      && w.egl.contexts.errors == 0 && w.egl.surfaces.errors == 0
  {
    hide Step;
    assert Marked(Initial().egl.contexts) == {};
    RunKeeps(Initial(), ops);
  }

  // ---------- what a refused release leaves ----------

  function Side(w: Window, surfaces: bool): Objects {
    if surfaces then w.egl.surfaces else w.egl.contexts
  }

  function SideField(w: Window, surfaces: bool): Handle {
    if surfaces then w.surface else w.context
  }

  /** The operation goes through eglRelease: release itself, or a creation that fails at the surface. */
  predicate Releases(w: Window, op: Op) {
    match op
    case ReleaseWindow(_) => true
    case MakeCurrentWindow(_) => false
    case _ =>
      && w.surface == 0 && SetupContext(w, op.answers).1
      && CreateObject(w.egl.surfaces, op.answers.surface).1 == 0
  }

  /** Neither the unbinding nor the thread's release succeeds; without a display there is no unbinding. */
  predicate Refused(w: Window, op: Op) {
    && Releases(w, op) && !op.answers.releasesThread
    && (op.answers.makesCurrent ==> op.ReleaseWindow? && w.display == 0)
  }

  /** A refused release finds an object current. */
  predicate Leaves(w: Window, op: Op, surfaces: bool) {
    Refused(w, op) && Side(w, surfaces).current != 0
  }

  /** A release that is not refused, or a successful eglMakeCurrent. */
  predicate LetsGo(w: Window, op: Op) {
    || (Releases(w, op) && !Refused(w, op))
    || (op.MakeCurrentWindow? && MakeWindowCurrent(w, op.permitted).1)
  }

  lemma MarkedWhenEmpty(o: Objects)
    requires HeldBy(o, 0)
    ensures o.live.Keys == Marked(o) && (o.current == 0 ==> Marked(o) == {})
  {
  }

  lemma NoneCurrent(o: Objects, field: Handle)
    requires HeldBy(o, field) && o.current == 0
    ensures Marked(o) == {}
  {
  }

  lemma ReleaseMarks(w: Window, a: Answers, surfaces: bool)
    requires Releasable(w)
    ensures Marked(Side(Release(w, a), surfaces)) == if Unbinds(w, a) then {} else Held(Side(w, surfaces).current)
  {
    hide HeldBy, Release, Marked;
    ReleaseEffect(w, a);
    MarkedWhenEmpty(Side(Release(w, a), surfaces));
  }

  lemma CreateMarks(w: Window, op: Op, a: Answers, width: int, height: int, surfaces: bool)
    requires Inv(w) && (op.CreateWindow? || op.CreatePbuffer?) && op.answers == a
    ensures Marked(Side(CreateSurface(w, a, width, height).0, surfaces)) ==
      if !Releases(w, op) then Marked(Side(w, surfaces))
      else if Refused(w, op) then Held(Side(w, surfaces).current) else {}
  {
    hide HeldBy, Release, Marked;
    if w.surface == 0 {
      CreateHeld(w.egl.contexts, a.context);
      CreateHeld(w.egl.surfaces, a.surface);
      var (w1, ok) := SetupContext(w, a);
      if ok {
        ReleaseMarks(WithSurface(w1, a, width, height), a, surfaces);
      }
    }
  }

  lemma UseMarks(w: Window, permitted: bool, surfaces: bool)
    requires Inv(w)
    ensures var (r, ok) := MakeWindowCurrent(w, permitted);
      Marked(Side(r, surfaces)) == if ok then {} else Marked(Side(w, surfaces))
  {
    hide HeldBy, Switch, Marked;
    SwitchHeld(w.egl.contexts, w.context, w.context);
    SwitchHeld(w.egl.surfaces, w.surface, w.surface);
  }

  lemma StepMarks(w: Window, op: Op, surfaces: bool)
    requires Inv(w)
    ensures Marked(Side(Step(w, op), surfaces)) ==
      if LetsGo(w, op) then {}
      else if Leaves(w, op, surfaces) then {Side(w, surfaces).current} else Marked(Side(w, surfaces))
  {
    hide HeldBy, CreateSurface, Release, Marked, MakeWindowCurrent;
    if Side(w, surfaces).current == 0 {
      NoneCurrent(Side(w, surfaces), SideField(w, surfaces));
    }
    match op
    case CreateWindow(a) => CreateMarks(w, op, a, a.width, a.height, surfaces);
    case CreatePbuffer(a, width, height) => CreateMarks(w, op, a, width, height, surfaces);
    case ReleaseWindow(a) => ReleaseMarks(w, a, surfaces);
    case MakeCurrentWindow(permitted) => UseMarks(w, permitted, surfaces);
  }

  predicate LeavesAt(ops: seq<Op>, surfaces: bool, i: nat)
    requires i < |ops|
  {
    Leaves(Run(Initial(), ops[..i]), ops[i], surfaces)
  }

  predicate LetsGoAt(ops: seq<Op>, i: nat)
    requires i < |ops|
  {
    LetsGo(Run(Initial(), ops[..i]), ops[i])
  }

  /** Some release is refused while an object is current, and nothing after it lets the object go. */
  ghost predicate StillKept(ops: seq<Op>, surfaces: bool) {
    exists i :: 0 <= i < |ops| && LeavesAt(ops, surfaces, i) && forall j :: i < j < |ops| ==> !LetsGoAt(ops, j)
  }

  lemma {:induction false} RunSnoc(w: Window, ops: seq<Op>, op: Op)
    ensures Run(w, ops + [op]) == Step(Run(w, ops), op)
    decreases |ops|
  {
    hide Step;
    if ops == [] {
      assert [] + [op] == [op] && [op][1..] == [];
      assert Run(w, [op]) == Run(Step(w, op), []);
    } else {
      assert (ops + [op])[1..] == ops[1..] + [op];
      RunSnoc(Step(w, ops[0]), ops[1..], op);
    }
  }

  lemma SnocAt(ops: seq<Op>, op: Op, surfaces: bool)
    ensures var all, w := ops + [op], Run(Initial(), ops);
      && (LeavesAt(all, surfaces, |ops|) <==> Leaves(w, op, surfaces)) && (LetsGoAt(all, |ops|) <==> LetsGo(w, op))
      && (forall i :: 0 <= i < |ops| ==>
            && (LeavesAt(all, surfaces, i) <==> LeavesAt(ops, surfaces, i)) && (LetsGoAt(all, i) <==> LetsGoAt(ops, i)))
  {
    hide Run, Leaves, LetsGo;
    var all := ops + [op];
    assert all[..|ops|] == ops;
    forall i | 0 <= i < |ops|
      ensures all[..i] == ops[..i] && all[i] == ops[i]
    {
    }
  }

  lemma SnocKept(ops: seq<Op>, op: Op, surfaces: bool)
    ensures var w := Run(Initial(), ops);
      StillKept(ops + [op], surfaces) <==> Leaves(w, op, surfaces) || (StillKept(ops, surfaces) && !LetsGo(w, op))
  {
    hide Run, Leaves, LetsGo, LeavesAt, LetsGoAt;
    var all, n := ops + [op], |ops|;
    SnocAt(ops, op, surfaces);
    if StillKept(ops, surfaces) && !LetsGo(Run(Initial(), ops), op) {
      var i :| 0 <= i < n && LeavesAt(ops, surfaces, i) && forall j :: i < j < n ==> !LetsGoAt(ops, j);
      assert LeavesAt(all, surfaces, i) && forall j :: i < j < |all| ==> !LetsGoAt(all, j);
    }
    if Leaves(Run(Initial(), ops), op, surfaces) {
      assert LeavesAt(all, surfaces, n);
    }
    if StillKept(all, surfaces) && !LeavesAt(all, surfaces, n) {
      var i :| 0 <= i < |all| && LeavesAt(all, surfaces, i) && forall j :: i < j < |all| ==> !LetsGoAt(all, j);
      assert LeavesAt(ops, surfaces, i) && !LetsGoAt(all, n);
    }
  }

  lemma LeavesOrLetsGo(w: Window, op: Op, surfaces: bool)
    ensures !(Leaves(w, op, surfaces) && LetsGo(w, op))
  {
  }

  lemma RunInv(ops: seq<Op>)
    ensures Inv(Run(Initial(), ops))
  {
    hide Step;
    assert Marked(Initial().egl.contexts) == {};
    RunKeeps(Initial(), ops);
  }

  /**
   A context, or a surface, is alive with no field naming it exactly when some
   release of the run was refused while one was current and nothing since has let
   it go.
   */
  lemma {:induction false} KeptIff(ops: seq<Op>, surfaces: bool)
    ensures Marked(Side(Run(Initial(), ops), surfaces)) != {} <==> StillKept(ops, surfaces)
    decreases |ops|
  {
    hide Inv, Step, Marked, Leaves, LetsGo, StillKept, Side;
    if ops == [] {
      NothingKept(surfaces);
    } else {
      var before, op := ops[..|ops| - 1], ops[|ops| - 1];
      assert ops == before + [op];
      KeptIff(before, surfaces);
      RunSnoc(Initial(), before, op);
      RunInv(before);
      StepMarks(Run(Initial(), before), op, surfaces);
      SnocKept(before, op, surfaces);
      LeavesOrLetsGo(Run(Initial(), before), op, surfaces);
    }
  }

  lemma NothingKept(surfaces: bool)
    ensures Marked(Side(Run(Initial(), []), surfaces)) == {} && !StillKept([], surfaces)
  {
  }

  /** A run none of whose releases is refused leaves alive exactly what the fields name. */
  lemma FieldsAreAll(ops: seq<Op>)
    requires forall i :: 0 <= i < |ops| ==> !Refused(Run(Initial(), ops[..i]), ops[i])
    ensures var w := Run(Initial(), ops);
      w.egl.contexts.live.Keys == Held(w.context) && w.egl.surfaces.live.Keys == Held(w.surface)
  {
    hide Run, Refused, Marked;
    NoLeak(ops);
    KeptIff(ops, false);
    KeptIff(ops, true);
  }

  /** A window made current and released with both refused: its objects stay alive, and no field names them. */
  lemma KeptReachable(a: Answers, refusal: Answers)
    requires Acquires(Initial(), a) && !refusal.makesCurrent && !refusal.releasesThread
    ensures var w := Run(Initial(), [CreateWindow(a), MakeCurrentWindow(true), ReleaseWindow(refusal)]);
      && w.context == 0 && w.surface == 0
      && w.egl.contexts.live.Keys == {a.context} && w.egl.surfaces.live.Keys == {a.surface}
  {
    hide Run, Step;
    var w1 := Step(Initial(), CreateWindow(a));
    var w2 := Step(w1, MakeCurrentWindow(true));
    var w3 := Step(w2, ReleaseWindow(refusal));
    assert [CreateWindow(a), MakeCurrentWindow(true), ReleaseWindow(refusal)]
      == [] + [CreateWindow(a)] + [MakeCurrentWindow(true)] + [ReleaseWindow(refusal)];
    assert Run(Initial(), []) == Initial() by { EmptyRun(); }
    RunSnoc(Initial(), [], CreateWindow(a));
    RunSnoc(Initial(), [] + [CreateWindow(a)], MakeCurrentWindow(true));
    RunSnoc(Initial(), [] + [CreateWindow(a)] + [MakeCurrentWindow(true)], ReleaseWindow(refusal));
    CreatedAndCurrent(a);
    assert Releasable(w2);
    assert w3 == Release(w2, refusal) by { ReleaseIsStep(w2, refusal); }
    ReleaseEffect(w2, refusal);
  }

  lemma EmptyRun()
    ensures Run(Initial(), []) == Initial()
  {
  }

  lemma ReleaseIsStep(w: Window, a: Answers)
    ensures Step(w, ReleaseWindow(a)) == Release(w, a)
  {
  }

  lemma CreatedAndCurrent(a: Answers)
    requires Acquires(Initial(), a)
    ensures var w := Step(Step(Initial(), CreateWindow(a)), MakeCurrentWindow(true));
      Releasable(w) && w.egl.contexts.current == a.context && w.egl.surfaces.current == a.surface
  {
    hide Release, HeldBy;
    var w1 := Step(Initial(), CreateWindow(a));
    RunInv([]);
    EmptyRun();
    CreateEffect(Initial(), a, a.width, a.height);
    UseKeeps(w1, true);
  }

  // ---------- the class ----------

  class Driver {
    var egl: Egl

    constructor ()
      ensures egl == Initial().egl
    {
      egl := Initial().egl;
    }
  }

  class EglWindow {
    const driver: Driver
    var mEglDisplay: Handle
    var mEglContext: Handle
    var mEglSurface: Handle
    var mEglConfig: Handle
    var mWidth: int
    var mHeight: int

    ghost function View(): Window
      reads this, driver
    {
      Window(driver.egl, mEglDisplay, mEglContext, mEglSurface, mEglConfig, mWidth, mHeight)
    }

    constructor (driver: Driver)
      requires driver.egl == Initial().egl
      ensures this.driver == driver && View() == Initial() && Inv(View())
    {
      this.driver := driver;
      mEglDisplay, mEglContext, mEglSurface, mEglConfig := 0, 0, 0, 0;
      mWidth, mHeight := 0, 0;
      new;
      NoLeak([]);
    }

    method CreateWindow(a: Answers) returns (ok: bool)
      requires Inv(View())
      modifies this, driver
      ensures (View(), ok) == CreateSurface(old(View()), a, a.width, a.height)
      ensures Inv(View()) && (ok <==> old(mEglSurface) == 0 && Acquires(old(View()), a))
      ensures ok ==> && mEglDisplay == a.display && mEglConfig == a.config && mEglContext == a.context
                     && mEglSurface == a.surface && mWidth == a.width && mHeight == a.height
      ensures !ok && old(mEglSurface) == 0 ==>
        && mEglContext == 0 && mEglSurface == 0
        && (!Configures(a) ==> mEglDisplay == a.display && mEglConfig == old(mEglConfig))
        && (Configures(a) && (a.context == 0 || a.context in old(driver.egl.contexts.live)) ==>
              mEglDisplay == a.display && mEglConfig == a.config)
        && (Configures(a) && a.context != 0 && a.context !in old(driver.egl.contexts.live) ==>
              mEglDisplay == 0 && mEglConfig == 0)
    {
      hide Inv, Acquires, SetupContext, Release, CreateObject;
      CreateEffect(View(), a, a.width, a.height);
      FailureFields(View(), a, a.width, a.height);
      if mEglSurface != 0 {
        return false;
      }
      ok := EglSetupContext(a);
      if !ok {
        return;
      }
      mWidth := a.width;
      mHeight := a.height;
      var (surfaces, surface) := CreateObject(driver.egl.surfaces, a.surface);
      driver.egl := driver.egl.(surfaces := surfaces);
      mEglSurface := surface;
      if mEglSurface == 0 {
        EglRelease(a);
        return false;
      }
    }

    method CreatePbuffer(width: int, height: int, a: Answers) returns (ok: bool)
      requires Inv(View())
      modifies this, driver
      ensures (View(), ok) == CreateSurface(old(View()), a, width, height)
      ensures Inv(View()) && (ok <==> old(mEglSurface) == 0 && Acquires(old(View()), a))
      ensures ok ==> && mEglDisplay == a.display && mEglConfig == a.config && mEglContext == a.context
                     && mEglSurface == a.surface && mWidth == width && mHeight == height
      ensures !ok && old(mEglSurface) == 0 ==>
        && mEglContext == 0 && mEglSurface == 0
        && (!Configures(a) ==> mEglDisplay == a.display && mEglConfig == old(mEglConfig))
        && (Configures(a) && (a.context == 0 || a.context in old(driver.egl.contexts.live)) ==>
              mEglDisplay == a.display && mEglConfig == a.config)
        && (Configures(a) && a.context != 0 && a.context !in old(driver.egl.contexts.live) ==>
              mEglDisplay == 0 && mEglConfig == 0)
    {
      hide Inv, Acquires, SetupContext, Release, CreateObject;
      CreateEffect(View(), a, width, height);
      FailureFields(View(), a, width, height);
      if mEglSurface != 0 {
        return false;
      }
      ok := EglSetupContext(a);
      if !ok {
        return;
      }
      mWidth := width;
      mHeight := height;
      var (surfaces, surface) := CreateObject(driver.egl.surfaces, a.surface);
      driver.egl := driver.egl.(surfaces := surfaces);
      mEglSurface := surface;
      if mEglSurface == 0 {
        EglRelease(a);
        return false;
      }
    }

    method EglSetupContext(a: Answers) returns (ok: bool)
      modifies this, driver
      ensures (View(), ok) == SetupContext(old(View()), a)
      ensures ok <==> Configures(a) && a.context != 0 && a.context !in old(driver.egl.contexts.live)
      ensures mEglDisplay == a.display && mEglConfig == (if Configures(a) then a.config else old(mEglConfig))
      ensures mEglContext == if ok then a.context else if Configures(a) then 0 else old(mEglContext)
      ensures mEglSurface == old(mEglSurface) && mWidth == old(mWidth) && mHeight == old(mHeight)
    {
      mEglDisplay := a.display;
      if mEglDisplay == 0 || !a.initializes || !a.choosesConfig {
        return false;
      }
      mEglConfig := a.config;
      var (contexts, context) := CreateObject(driver.egl.contexts, a.context);
      driver.egl := driver.egl.(contexts := contexts);
      mEglContext := context;
      ok := mEglContext != 0;
    }

    method EglRelease(a: Answers)
      modifies this, driver
      ensures View() == Release(old(View()), a)
      ensures mEglDisplay == 0 && mEglContext == 0 && mEglSurface == 0 && mEglConfig == 0
      ensures mWidth == old(mWidth) && mHeight == old(mHeight)
    {
      if mEglDisplay != 0 {
        driver.egl := MakeCurrent(driver.egl, 0, 0, a.makesCurrent).0;
        if mEglContext != 0 {
          driver.egl := driver.egl.(contexts := DestroyObject(driver.egl.contexts, mEglContext));
        }
        if mEglSurface != 0 {
          driver.egl := driver.egl.(surfaces := DestroyObject(driver.egl.surfaces, mEglSurface));
        }
      }
      mEglDisplay, mEglContext, mEglSurface, mEglConfig := 0, 0, 0, 0;
      driver.egl := ReleaseThread(driver.egl, a.releasesThread);
    }
  }
}
