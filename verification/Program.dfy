/**
 The class `Program`: its methods call the GL step by step and are proved against
 the contexts of `GlProgram` and the run of `GlOwnership`.
 */
module Program {
  import opened Wrappers
  import opened Gl
  import opened GlProgram
  import GlOwnership

  class Driver {
    var context: Context

    constructor (context: Context)
      ensures this.context == context
    {
      this.context := context;
    }
  }

  datatype ProgramType = Unknown | ExternalTexture | Texture2D

  class Program {
    var mProgramType: ProgramType
    var mProgram: Name
    var locations: Locations

    constructor ()
      ensures mProgramType == Unknown && mProgram == 0 && locations == Locations(0, 0, 0, 0, 0)
    {
      mProgramType, mProgram, locations := Unknown, 0, Locations(0, 0, 0, 0, 0);
    }

    static method CompileShader(gl: Driver, name: Name, compiles: bool) returns (outShader: Option<Name>)
      modifies gl
      ensures (gl.context, outShader) == Compile(old(gl.context), name, compiles)
    {
      var (created, shader) := Gl.CreateShader(gl.context, name);
      gl.context := created;
      if shader == 0 {
        return None;
      }
      if !compiles {
        gl.context := DeleteShader(gl.context, shader);
        return None;
      }
      outShader := Some(shader);
    }

    static method LinkShaderProgram(gl: Driver, vs: Name, fs: Name, name: Name, links: bool) returns (outPgm: Option<Name>)
      modifies gl
      ensures (gl.context, outPgm) == Link(old(gl.context), vs, fs, name, links)
    {
      var (created, program) := Gl.CreateProgram(gl.context, name);
      gl.context := created;
      if program == 0 {
        return None;
      }
      gl.context := AttachShader(gl.context, program, vs);
      gl.context := AttachShader(gl.context, program, fs);
      if !links {
        gl.context := DeleteProgram(gl.context, program);
        return None;
      }
      outPgm := Some(program);
    }

    method CreateProgram(gl: Driver, a: Answers) returns (outPgm: Option<Name>)
      modifies gl
      ensures (gl.context, outPgm) == Create(old(gl.context), a)
    {
      hide Compile, Link, DeleteShader;
      var vs := CompileShader(gl, a.vertex, a.vertexCompiles);
      if vs.None? {
        return None;
      }
      var fs := CompileShader(gl, a.fragment, a.fragmentCompiles);
      if fs.None? {
        gl.context := DeleteShader(gl.context, vs.value);
        return None;
      }
      outPgm := LinkShaderProgram(gl, vs.value, fs.value, a.program, a.links);
      gl.context := DeleteShader(gl.context, vs.value);
      gl.context := DeleteShader(gl.context, fs.value);
    }

    /**
     Succeeds exactly when every step does and every lookup finds its name; then
     one program is added. Otherwise the context and mProgram are as before.
     */
    method Setup(gl: Driver, programType: ProgramType, a: Answers) returns (ok: bool)
      requires WellFormed(gl.context)
      modifies this, gl
      ensures ok <==> Succeeds(old(gl.context), a)
      ensures gl.context == if ok then WithProgram(old(gl.context), a) else old(gl.context)
      ensures mProgram == if ok then a.program else old(mProgram)
      ensures mProgramType == programType
      ensures locations == if Compiles(old(gl.context), a) && Links(old(gl.context), a) then a.locations else old(locations)
      ensures forall replaced: set<Name> ::
        var o := GlOwnership.Step(GlOwnership.Owner(old(gl.context), old(mProgram), replaced), GlOwnership.Setup(a));
        gl.context == o.context && mProgram == o.mProgram
    {
      hide WellFormed, Create, RemoveProgram, WithProgram;
      SetupEffect(gl.context, a);
      CreateEffect(gl.context, a);
      mProgramType := programType;
      var program := CreateProgram(gl, a);
      if program.None? {
        return false;
      }
      locations := a.locations;
      if LookupFailed(locations) {
        gl.context := DeleteProgram(gl.context, program.value);
        return false;
      }
      mProgram := program.value;
      ok := true;
    }

    method Release(gl: Driver)
      modifies this`mProgram, gl
      ensures mProgram == 0
      ensures gl.context == if old(mProgram) == 0 then old(gl.context) else DeleteProgram(old(gl.context), old(mProgram))
      ensures forall replaced: set<Name> ::
        GlOwnership.Step(GlOwnership.Owner(old(gl.context), old(mProgram), replaced), GlOwnership.Release)
          == GlOwnership.Owner(gl.context, mProgram, replaced)
    {
      if mProgram != 0 {
        gl.context := DeleteProgram(gl.context, mProgram);
        mProgram := 0;
      }
    }
  }
}
