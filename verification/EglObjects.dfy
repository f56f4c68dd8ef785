/**
 The contexts and surfaces of one thread's EGL: an object that is destroyed while
 current is only marked, and goes away when it is no longer current.
 */
module EglObjects {
  import opened Wrappers

  /** 0 stands for EGL_NO_DISPLAY, EGL_NO_CONTEXT and EGL_NO_SURFACE. */
  type Handle = nat

  /** For each object that still exists, whether it was destroyed already; errors counts calls that destroy no such object. */
  datatype Objects = Objects(live: map<Handle, bool>, current: Handle, errors: nat)

  function CreateObject(o: Objects, h: Handle): (Objects, Handle) {
    if h == 0 || h in o.live then (o, 0) else (o.(live := o.live[h := false]), h)
  }

  function DestroyObject(o: Objects, h: Handle): Objects {
    if h !in o.live || o.live[h] then o.(errors := o.errors + 1)
    else if h == o.current then o.(live := o.live[h := true])
    else o.(live := o.live - {h})
  }

  /** Making h current lets a marked object go. */
  function Switch(o: Objects, h: Handle): Objects {
    Objects(if o.current != h && o.current in o.live && o.live[o.current] then o.live - {o.current} else o.live, h, o.errors)
  }

  predicate Alive(o: Objects, h: Handle) {
    h in o.live && !o.live[h]
  }

  datatype Egl = Egl(contexts: Objects, surfaces: Objects)

  /** eglMakeCurrent; permitted is the driver's answer. The objects must exist, or both be 0. */
  function MakeCurrent(e: Egl, surface: Handle, context: Handle, permitted: bool): (Egl, bool) {
    if permitted && ((surface == 0 && context == 0) || (Alive(e.surfaces, surface) && Alive(e.contexts, context)))
    then (Egl(Switch(e.contexts, context), Switch(e.surfaces, surface)), true)
    else (e, false)
  }

  function ReleaseThread(e: Egl, permitted: bool): Egl {
    if permitted then Egl(Switch(e.contexts, 0), Switch(e.surfaces, 0)) else e
  }

  /** The objects that were destroyed but are still current. */
  function Marked(o: Objects): set<Handle> {
    set h | h in o.live && o.live[h]
  }

  /** The field holds the one object that was created and not destroyed; nothing was destroyed twice. */
  predicate HeldBy(o: Objects, field: Handle) {
    && o.errors == 0 && 0 !in o.live
    && o.live.Keys == Held(field) + Marked(o) && field !in Marked(o)
    && Marked(o) <= {o.current} && (o.current == 0 || o.current in o.live)
  }

  lemma CreateHeld(o: Objects, h: Handle)
    requires HeldBy(o, 0)
    ensures HeldBy(CreateObject(o, h).0, CreateObject(o, h).1)
    ensures Marked(CreateObject(o, h).0) == Marked(o)
  {
  }

  lemma SwitchHeld(o: Objects, field: Handle, h: Handle)
    requires HeldBy(o, field) && (h == 0 || h == field)
    ensures HeldBy(Switch(o, h), field) && Marked(Switch(o, h)) == {}
  {
  }
}
