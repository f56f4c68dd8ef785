/**
 `Program`: compiling, linking and releasing the shader program of a blit, where
 any step of the acquisition may fail.
 */
module GlProgram {
  import opened Wrappers
  import opened Gl

  /** The driver's answers during one setup: names (in use or 0: the call fails) and statuses. */
  datatype Answers = Answers(
    vertex: Name, vertexCompiles: bool, fragment: Name, fragmentCompiles: bool,
    program: Name, links: bool, locations: Locations)

  /** maPositionLoc, maTextureCoordLoc, muMVPMatrixLoc, muGLCMatrixLoc, muTextureLoc as int32_t bit patterns. */
  datatype Locations = Locations(position: bv32, textureCoord: bv32, mvpMatrix: bv32, glcMatrix: bv32, texture: bv32)

  /** A failed lookup: -1. */
  const MISSING: bv32 := 0xFFFF_FFFF

  predicate LookupFailed(l: Locations) {
    l.position | l.textureCoord | l.mvpMatrix | l.glcMatrix | l.texture == MISSING
  }

  /** What the two lookup functions may return: -1 or a location, which is not negative. */
  predicate IsLocation(v: bv32) {
    v == MISSING || v & 0x8000_0000 == 0
  }

  /** The single test over the five locations finds exactly the setups in which some lookup failed. */
  lemma OrFindsMissing(l: Locations)
    requires IsLocation(l.position) && IsLocation(l.textureCoord) && IsLocation(l.mvpMatrix)
    requires IsLocation(l.glcMatrix) && IsLocation(l.texture)
    ensures LookupFailed(l) <==>
      MISSING in {l.position, l.textureCoord, l.mvpMatrix, l.glcMatrix, l.texture}
  {
    var all := l.position | l.textureCoord | l.mvpMatrix | l.glcMatrix | l.texture;
    if MISSING !in {l.position, l.textureCoord, l.mvpMatrix, l.glcMatrix, l.texture} {
      assert all & 0x8000_0000 == 0;
    }
  }

  // ---------- what each call leaves ----------

  function Compile(c: Context, name: Name, compiles: bool): (Context, Option<Name>) {
    var (created, shader) := CreateShader(c, name);
    if shader == 0 then (created, None)
    else if !compiles then (DeleteShader(created, shader), None)
    else (created, Some(shader))
  }

  function Link(c: Context, vs: Name, fs: Name, name: Name, links: bool): (Context, Option<Name>) {
    var (created, program) := CreateProgram(c, name);
    if program == 0 then (created, None)
    else
      var attached := AttachShader(AttachShader(created, program, vs), program, fs);
      if !links then (DeleteProgram(attached, program), None) else (attached, Some(program))
  }

  function Create(c: Context, a: Answers): (Context, Option<Name>) {
    var (c1, vs) := Compile(c, a.vertex, a.vertexCompiles);
    if vs.None? then (c1, None)
    else
      var (c2, fs) := Compile(c1, a.fragment, a.fragmentCompiles);
      if fs.None? then (DeleteShader(c2, vs.value), None)
      else
        var (c3, program) := Link(c2, vs.value, fs.value, a.program, a.links);
        (DeleteShader(DeleteShader(c3, vs.value), fs.value), program)
  }

  function SetupContext(c: Context, a: Answers): (Context, Option<Name>) {
    var (created, program) := Create(c, a);
    if program.None? then (created, None)
    else if LookupFailed(a.locations) then (DeleteProgram(created, program.value), None)
    else (created, program)
  }

  // ---------- what a setup leaves, in one step ----------

  predicate Compiles(c: Context, a: Answers) {
    && !InUse(c, a.vertex) && a.vertexCompiles
    && !InUse(c, a.fragment) && a.fragment != a.vertex && a.fragmentCompiles
  }

  predicate Links(c: Context, a: Answers) {
    !InUse(c, a.program) && a.program != a.vertex && a.program != a.fragment && a.links
  }

  /** The setup gets through all its steps. */
  predicate Succeeds(c: Context, a: Answers) {
    Compiles(c, a) && Links(c, a) && !LookupFailed(a.locations)
  }

  /** One program more, whose two shaders are already flagged and go away with it. */
  function WithProgram(c: Context, a: Answers): Context {
    c.(shaders := c.shaders[a.vertex := true][a.fragment := true],
       programs := c.programs[a.program := ProgramObject({a.vertex, a.fragment}, false)])
  }

  lemma CompileFailing(c: Context, name: Name, compiles: bool)
    requires WellFormed(c)
    ensures Compile(c, name, compiles) ==
      if InUse(c, name) || !compiles then (c, None) else (c.(shaders := c.shaders[name := false]), Some(name))
  {
    if !InUse(c, name) && !compiles {
      var created := c.(shaders := c.shaders[name := false]);
      assert !AttachedBesides(created, name, 0);
      assert created.shaders - {name} == c.shaders;
    }
  }

  /** Two unflagged shaders more. */
  function WithShaders(c: Context, vs: Name, fs: Name): Context {
    c.(shaders := c.shaders[vs := false][fs := false])
  }

  /** Deleting a shader that no program has undoes its creation. */
  lemma DeleteFresh(c: Context, name: Name)
    requires WellFormed(c) && !InUse(c, name)
    ensures DeleteShader(c.(shaders := c.shaders[name := false]), name) == c
  {
  }

  lemma FreshKeepsWellFormed(c: Context, name: Name)
    requires WellFormed(c) && !InUse(c, name)
    ensures WellFormed(c.(shaders := c.shaders[name := false]))
  {
  }

  lemma DeleteBothFresh(c: Context, vs: Name, fs: Name)
    requires WellFormed(c) && !InUse(c, vs) && !InUse(c, fs) && vs != fs
    ensures DeleteShader(DeleteShader(WithShaders(c, vs, fs), vs), fs) == c
  {
    hide WellFormed;
    FreshKeepsWellFormed(c, fs);
    var one := c.(shaders := c.shaders[fs := false]);
    assert c.shaders[vs := false][fs := false] == c.shaders[fs := false][vs := false];
    DeleteFresh(one, vs);
    DeleteFresh(c, fs);
  }

  /** The linked program as it stands before its shaders are deleted. */
  function Linked(c: Context, a: Answers): Context {
    WithShaders(c, a.vertex, a.fragment).(programs := c.programs[a.program := ProgramObject({a.vertex, a.fragment}, false)])
  }

  lemma FailedLinkRestores(c: Context, a: Answers)
    requires WellFormed(c) && Compiles(c, a) && !InUse(c, a.program) && a.program != a.vertex && a.program != a.fragment
    ensures DeleteProgram(Linked(c, a), a.program) == WithShaders(c, a.vertex, a.fragment)
  {
    var l := Linked(c, a);
    assert KeptOnlyBy(l, a.program) == {};
    assert l.programs - {a.program} == c.programs;
    assert l.shaders - {} == l.shaders;
  }

  lemma LinkEffect(c: Context, a: Answers)
    requires WellFormed(c) && Compiles(c, a)
    ensures Link(WithShaders(c, a.vertex, a.fragment), a.vertex, a.fragment, a.program, a.links) ==
      if Links(c, a) then (Linked(c, a), Some(a.program)) else (WithShaders(c, a.vertex, a.fragment), None)
  {
    hide WellFormed, DeleteProgram;
    var w := WithShaders(c, a.vertex, a.fragment);
    if !InUse(w, a.program) {
      FailedLinkRestores(c, a);
      assert {} + {a.vertex} + {a.fragment} == {a.vertex, a.fragment};
      assert AttachShader(AttachShader(CreateProgram(w, a.program).0, a.program, a.vertex), a.program, a.fragment) == Linked(c, a);
    }
  }

  lemma FlagBoth(c: Context, a: Answers)
    requires Compiles(c, a) && Links(c, a)
    ensures DeleteShader(DeleteShader(Linked(c, a), a.vertex), a.fragment) == WithProgram(c, a)
  {
    var l := Linked(c, a);
    assert a.program in l.programs && a.vertex in l.programs[a.program].attached;
    assert AttachedBesides(l, a.vertex, 0);
    var one := DeleteShader(l, a.vertex);
    assert a.program in one.programs && a.fragment in one.programs[a.program].attached;
    assert AttachedBesides(one, a.fragment, 0);
  }

  lemma CreateEffect(c: Context, a: Answers)
    requires WellFormed(c)
    ensures Create(c, a) == if Compiles(c, a) && Links(c, a) then (WithProgram(c, a), Some(a.program)) else (c, None)
  {
    hide WellFormed, Compile, Link, DeleteShader, Linked, WithProgram;
    CompileFailing(c, a.vertex, a.vertexCompiles);
    if !InUse(c, a.vertex) && a.vertexCompiles {
      FreshKeepsWellFormed(c, a.vertex);
      var one := c.(shaders := c.shaders[a.vertex := false]);
      CompileFailing(one, a.fragment, a.fragmentCompiles);
      DeleteFresh(c, a.vertex);
      if Compiles(c, a) {
        LinkEffect(c, a);
        DeleteBothFresh(c, a.vertex, a.fragment);
        if Links(c, a) {
          FlagBoth(c, a);
        }
      }
    }
  }

  /** Deleting the program of a setup takes its two shaders along. */
  lemma RemoveUndoes(c: Context, a: Answers)
    requires WellFormed(c) && Compiles(c, a) && Links(c, a)
    ensures a.program in WithProgram(c, a).programs && RemoveProgram(WithProgram(c, a), a.program) == c
  {
    var w := WithProgram(c, a);
    assert KeptOnlyBy(w, a.program) == {a.vertex, a.fragment};
    assert w.programs - {a.program} == c.programs;
    assert w.shaders - {a.vertex, a.fragment} == c.shaders;
  }

  /**
   Whatever fails, a setup leaves every object of the context as it was; when
   nothing fails it adds one program, which owns two shaders already flagged.
   */
  lemma SetupEffect(c: Context, a: Answers)
    requires WellFormed(c)
    ensures SetupContext(c, a) == if Succeeds(c, a) then (WithProgram(c, a), Some(a.program)) else (c, None)
  {
    hide WellFormed, Create, RemoveProgram;
    CreateEffect(c, a);
    if Compiles(c, a) && Links(c, a) {
      assert a.program != c.current by { CurrentIsInUse(c, a.program); }
      RemoveUndoes(c, a);
    }
  }

  lemma CurrentIsInUse(c: Context, name: Name)
    requires WellFormed(c) && !InUse(c, name)
    ensures name != c.current
  {
  }
}
