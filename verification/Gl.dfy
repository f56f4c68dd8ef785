/**
 The shader and program objects of an OpenGL ES 2.0 context, with the deferred
 deletion of sections 2.10.1 and 2.10.3 of the OpenGL ES 2.0 specification:
 a shader that is attached, or a program that is current, is only flagged by its
 delete call and goes away when that stops being so.
 */
module Gl {
  /** Names are shared by shaders and programs; 0 is never a name. */
  type Name = nat

  datatype ProgramObject = ProgramObject(attached: set<Name>, flagged: bool)

  /** For each shader, whether it is flagged for deletion; current is 0 or the program in use. */
  datatype Context = Context(shaders: map<Name, bool>, programs: map<Name, ProgramObject>, current: Name)

  predicate InUse(c: Context, name: Name) {
    name == 0 || name in c.shaders || name in c.programs
  }

  /** Some program other than except has the shader attached. */
  predicate AttachedBesides(c: Context, shader: Name, except: Name) {
    exists p :: p in c.programs && p != except && shader in c.programs[p].attached
  }

  /**
   What every context satisfies: attached shaders exist, shaders flagged for
   deletion are attached, programs flagged for deletion are current.
   */
  predicate WellFormed(c: Context) {
    && 0 !in c.shaders && 0 !in c.programs && c.shaders.Keys !! c.programs.Keys
    && (forall p :: p in c.programs ==> c.programs[p].attached <= c.shaders.Keys)
    && (forall s :: s in c.shaders && c.shaders[s] ==> AttachedBesides(c, s, 0))
    && (forall p :: p in c.programs && c.programs[p].flagged ==> p == c.current)
    && (c.current == 0 || c.current in c.programs)
  }

  /** glCreateShader; a name already in use stands for a failed call, which answers 0. */
  function CreateShader(c: Context, name: Name): (Context, Name) {
    if InUse(c, name) then (c, 0) else (c.(shaders := c.shaders[name := false]), name)
  }

  function CreateProgram(c: Context, name: Name): (Context, Name) {
    if InUse(c, name) then (c, 0) else (c.(programs := c.programs[name := ProgramObject({}, false)]), name)
  }

  function AttachShader(c: Context, program: Name, shader: Name): Context {
    if program in c.programs && shader in c.shaders && shader !in c.programs[program].attached
    then c.(programs := c.programs[program := c.programs[program].(attached := c.programs[program].attached + {shader})])
    else c
  }

  function DeleteShader(c: Context, shader: Name): Context {
    if shader !in c.shaders then c
    else if AttachedBesides(c, shader, 0) then c.(shaders := c.shaders[shader := true])
    else c.(shaders := c.shaders - {shader})
  }

  /** The flagged shaders that only this program keeps. */
  function KeptOnlyBy(c: Context, program: Name): set<Name>
    requires program in c.programs
  {
    set s | s in c.programs[program].attached && s in c.shaders && c.shaders[s] && !AttachedBesides(c, s, program)
  }

  /** A program that nothing keeps any longer goes away and takes with it the shaders that only it kept. */
  function RemoveProgram(c: Context, program: Name): Context
    requires program in c.programs
  {
    c.(programs := c.programs - {program}, shaders := c.shaders - KeptOnlyBy(c, program))
  }

  function DeleteProgram(c: Context, program: Name): Context {
    if program !in c.programs then c
    else if program == c.current then c.(programs := c.programs[program := c.programs[program].(flagged := true)])
    else RemoveProgram(c, program)
  }

  /** glUseProgram; an unknown name is an error and changes nothing. */
  function UseProgram(c: Context, program: Name): Context {
    if program != 0 && program !in c.programs then c
    else
      var previous := c.current;
      var next := c.(current := program);
      if previous != program && previous in c.programs && c.programs[previous].flagged
      then RemoveProgram(next, previous)
      else next
  }
}
