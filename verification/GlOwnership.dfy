/**
 Who owns the objects of a context over a whole run of one `Program`: setups with
 arbitrary failures, releases, draws, and other code switching programs.
 */
module GlOwnership {
  import opened Wrappers
  import opened Gl
  import opened GlProgram

  /** replaced: programs that a later setup overwrote in mProgram without releasing them. */
  datatype Owner = Owner(context: Context, mProgram: Name, replaced: set<Name>)

  datatype Op =
    | Setup(answers: Answers)
    | Release
    | Draw
    | UseElsewhere(program: Name)

  function Step(o: Owner, op: Op): Owner {
    match op
    case Setup(a) =>
      var (c, program) := SetupContext(o.context, a);
      if program.None? then o.(context := c) else Owner(c, program.value, o.replaced + Held(o.mProgram))
    case Release => if o.mProgram == 0 then o else Owner(DeleteProgram(o.context, o.mProgram), 0, o.replaced)
    case Draw => o.(context := UseProgram(o.context, o.mProgram))
    case UseElsewhere(program) => o.(context := UseProgram(o.context, program))
  }

  function Run(o: Owner, ops: seq<Op>): Owner
    decreases |ops|
  {
    if ops == [] then o else Run(Step(o, ops[0]), ops[1..])
  }

  function NewPrograms(c: Context, base: Context): set<Name> {
    c.programs.Keys - base.programs.Keys
  }

  function NewShaders(c: Context, base: Context): set<Name> {
    c.shaders.Keys - base.shaders.Keys
  }

  predicate KeepsBase(c: Context, base: Context) {
    && base.programs.Keys <= c.programs.Keys && base.shaders.Keys <= c.shaders.Keys
    && (forall p :: p in base.programs ==> c.programs[p] == base.programs[p])
    && (forall s :: s in base.shaders ==> c.shaders[s] == base.shaders[s])
  }

  /** Each new program has new shaders only, and no two share one. */
  predicate OwnShaders(c: Context, base: Context) {
    && (forall p :: p in NewPrograms(c, base) ==> c.programs[p].attached <= NewShaders(c, base))
    && (forall p, q :: p in NewPrograms(c, base) && q in NewPrograms(c, base) && p != q ==>
          c.programs[p].attached !! c.programs[q].attached)
    && (forall s :: s in NewShaders(c, base) ==> c.shaders[s])
  }

  predicate TwoEach(c: Context, base: Context) {
    forall p :: p in NewPrograms(c, base) ==> |c.programs[p].attached| == 2
  }

  predicate Counted(c: Context, base: Context) {
    |NewShaders(c, base)| == 2 * |NewPrograms(c, base)|
  }

  /** c is base and programs of setups besides: two flagged shaders each, shared with nobody. */
  predicate Extends(c: Context, base: Context) {
    KeepsBase(c, base) && OwnShaders(c, base) && TwoEach(c, base) && Counted(c, base)
  }

  /** A released program that is still in use. */
  function Pending(c: Context): set<Name> {
    if c.current in c.programs && c.programs[c.current].flagged then {c.current} else {}
  }

  predicate Accounts(programs: set<Name>, mProgram: Name, replaced: set<Name>, pending: set<Name>) {
    && programs == Held(mProgram) + replaced + pending
    && mProgram !in replaced + pending && replaced !! pending && 0 !in replaced + pending
  }

  predicate Owns(o: Owner, base: Context) {
    Accounts(NewPrograms(o.context, base), o.mProgram, o.replaced, Pending(o.context))
  }

  /** The context before the run: no program of other code awaits deletion. */
  predicate Base(c: Context) {
    WellFormed(c) && forall p :: p in c.programs ==> !c.programs[p].flagged
  }

  predicate Inv(o: Owner, base: Context) {
    WellFormed(o.context) && Extends(o.context, base) && Owns(o, base)
  }

  lemma AttachedStays(c: Context, d: Context, shader: Name)
    requires forall p :: p in c.programs ==> p in d.programs && c.programs[p].attached <= d.programs[p].attached
    requires AttachedBesides(c, shader, 0)
    ensures AttachedBesides(d, shader, 0)
  {
  }

  lemma WithProgramWellFormed(c: Context, a: Answers)
    requires WellFormed(c) && Compiles(c, a) && Links(c, a)
    ensures WellFormed(WithProgram(c, a))
  {
    var d := WithProgram(c, a);
    assert a.program in d.programs && a.program != 0;
    assert AttachedBesides(d, a.vertex, 0) && AttachedBesides(d, a.fragment, 0);
    forall s | s in c.shaders && c.shaders[s]
      ensures AttachedBesides(d, s, 0)
    {
      AttachedStays(c, d, s);
    }
  }

  lemma NewNames(c: Context, base: Context, a: Answers)
    requires KeepsBase(c, base) && Compiles(c, a) && Links(c, a)
    ensures var d := WithProgram(c, a);
      && NewPrograms(d, base) == NewPrograms(c, base) + {a.program}
      && NewShaders(d, base) == NewShaders(c, base) + {a.vertex, a.fragment}
  {
  }

  lemma WithProgramKeepsBase(c: Context, base: Context, a: Answers)
    requires KeepsBase(c, base) && Compiles(c, a) && Links(c, a)
    ensures KeepsBase(WithProgram(c, a), base)
  {
  }

  lemma WithProgramOwnShaders(c: Context, base: Context, a: Answers)
    requires WellFormed(c) && KeepsBase(c, base) && OwnShaders(c, base) && Compiles(c, a) && Links(c, a)
    ensures OwnShaders(WithProgram(c, a), base)
  {
    hide NewPrograms, NewShaders;
    NewNames(c, base, a);
    NewExist(c, base);
  }

  lemma NewExist(c: Context, base: Context)
    ensures NewPrograms(c, base) <= c.programs.Keys && NewShaders(c, base) <= c.shaders.Keys
  {
  }

  lemma WithProgramTwoEach(c: Context, base: Context, a: Answers)
    requires KeepsBase(c, base) && TwoEach(c, base) && Compiles(c, a) && Links(c, a)
    ensures TwoEach(WithProgram(c, a), base)
  {
  }

  lemma WithTwo(s: set<Name>, x: Name, y: Name)
    requires x !in s && y !in s && x != y
    ensures |s + {x, y}| == |s| + 2
  {
  }

  lemma WithProgramCounted(c: Context, base: Context, a: Answers)
    requires KeepsBase(c, base) && Counted(c, base) && Compiles(c, a) && Links(c, a)
    ensures Counted(WithProgram(c, a), base)
  {
    hide NewPrograms, NewShaders, KeepsBase, WithProgram;
    NewNames(c, base, a);
    NewExist(c, base);
    WithTwo(NewShaders(c, base), a.vertex, a.fragment);
  }

  lemma WithProgramExtends(c: Context, base: Context, a: Answers)
    requires WellFormed(c) && Extends(c, base) && Compiles(c, a) && Links(c, a)
    ensures Extends(WithProgram(c, a), base)
    ensures NewPrograms(WithProgram(c, a), base) == NewPrograms(c, base) + {a.program}
  {
    hide WellFormed, KeepsBase, OwnShaders, TwoEach, Counted, WithProgram;
    NewNames(c, base, a);
    WithProgramKeepsBase(c, base, a);
    WithProgramOwnShaders(c, base, a);
    WithProgramTwoEach(c, base, a);
    WithProgramCounted(c, base, a);
  }

  // ---------- a program going away ----------

  /** c without the program, with current as the program in use. */
  function Without(c: Context, program: Name, current: Name): Context
    requires program in c.programs
  {
    RemoveProgram(c, program).(current := current)
  }

  lemma WithoutWellFormed(c: Context, program: Name, current: Name)
    requires WellFormed(c) && program in c.programs && current != program
    requires current == 0 || current in c.programs
    requires forall p :: p in c.programs && p != program && c.programs[p].flagged ==> p == current
    ensures WellFormed(Without(c, program, current))
  {
    var d := Without(c, program, current);
    forall s | s in d.shaders && d.shaders[s]
      ensures AttachedBesides(d, s, 0)
    {
      assert AttachedBesides(c, s, 0);
      assert AttachedBesides(c, s, program);
      var q :| q in c.programs && q != program && s in c.programs[q].attached;
      assert q in d.programs && q != 0;
    }
    forall p | p in d.programs
      ensures d.programs[p].attached <= d.shaders.Keys
    {
      assert forall s :: s in c.programs[p].attached ==> AttachedBesides(c, s, program);
    }
  }

  /** Only a new program has a new shader. */
  lemma KeptAreAttached(c: Context, base: Context, program: Name)
    requires WellFormed(c) && WellFormed(base) && KeepsBase(c, base) && OwnShaders(c, base) && program in NewPrograms(c, base)
    ensures KeptOnlyBy(c, program) == c.programs[program].attached
  {
  }

  lemma WithoutNames(c: Context, base: Context, program: Name, current: Name)
    requires WellFormed(c) && WellFormed(base) && KeepsBase(c, base) && OwnShaders(c, base) && program in NewPrograms(c, base)
    ensures var d := Without(c, program, current);
      && d.programs == c.programs - {program} && d.shaders == c.shaders - c.programs[program].attached
      && NewPrograms(d, base) == NewPrograms(c, base) - {program}
      && NewShaders(d, base) == NewShaders(c, base) - c.programs[program].attached
  {
    KeptAreAttached(c, base, program);
  }

  lemma WithoutKeepsBase(c: Context, base: Context, program: Name, current: Name)
    requires WellFormed(c) && WellFormed(base) && KeepsBase(c, base) && OwnShaders(c, base) && program in NewPrograms(c, base)
    ensures KeepsBase(Without(c, program, current), base)
  {
  }

  lemma WithoutOwnShaders(c: Context, base: Context, program: Name, current: Name)
    requires WellFormed(c) && WellFormed(base) && KeepsBase(c, base) && OwnShaders(c, base) && program in NewPrograms(c, base)
    ensures OwnShaders(Without(c, program, current), base)
  {
    hide WellFormed, NewPrograms, NewShaders, Without;
    WithoutNames(c, base, program, current);
    NewExist(c, base);
  }

  lemma WithoutCounted(c: Context, base: Context, program: Name, current: Name)
    requires WellFormed(c) && WellFormed(base) && KeepsBase(c, base) && OwnShaders(c, base) && program in NewPrograms(c, base)
    requires TwoEach(c, base) && Counted(c, base)
    ensures TwoEach(Without(c, program, current), base) && Counted(Without(c, program, current), base)
  {
    hide WellFormed, NewPrograms, NewShaders, Without, KeepsBase;
    WithoutNames(c, base, program, current);
    NewExist(c, base);
    assert |NewPrograms(c, base) - {program}| == |NewPrograms(c, base)| - 1;
    WithoutSubset(NewShaders(c, base), c.programs[program].attached);
  }

  lemma WithoutSubset(s: set<Name>, t: set<Name>)
    requires t <= s
    ensures |s - t| == |s| - |t|
  {
  }

  lemma WithoutExtends(c: Context, base: Context, program: Name, current: Name)
    requires WellFormed(c) && WellFormed(base) && Extends(c, base) && program in NewPrograms(c, base)
    ensures Extends(Without(c, program, current), base)
    ensures NewPrograms(Without(c, program, current), base) == NewPrograms(c, base) - {program}
  {
    hide WellFormed, KeepsBase, OwnShaders, TwoEach, Counted, Without, NewPrograms;
    WithoutNames(c, base, program, current);
    WithoutKeepsBase(c, base, program, current);
    WithoutOwnShaders(c, base, program, current);
    WithoutCounted(c, base, program, current);
  }

  // ---------- one operation ----------

  predicate Usable(c: Context, program: Name) {
    program == 0 || program in c.programs
  }

  /** What a change of the program in use lets go. */
  function Dropped(c: Context, program: Name): set<Name> {
    if Usable(c, program) && program != c.current then Pending(c) else {}
  }

  lemma PendingIsNew(c: Context, base: Context)
    requires WellFormed(c) && Base(base) && KeepsBase(c, base)
    ensures Pending(c) <= NewPrograms(c, base)
  {
  }

  lemma UseEffect(c: Context, program: Name)
    requires WellFormed(c)
    ensures UseProgram(c, program) ==
      if !Usable(c, program) then c
      else if Dropped(c, program) == {} then c.(current := program)
      else Without(c, c.current, program)
  {
  }

  /** The same objects with the same shaders attached, whatever is flagged or in use. */
  predicate SameObjects(c: Context, d: Context) {
    && d.shaders == c.shaders && d.programs.Keys == c.programs.Keys
    && forall p :: p in c.programs ==> d.programs[p].attached == c.programs[p].attached
  }

  lemma SameWellFormed(c: Context, d: Context)
    requires WellFormed(c) && SameObjects(c, d) && Usable(d, d.current)
    requires forall p :: p in d.programs && d.programs[p].flagged ==> p == d.current
    ensures WellFormed(d)
  {
  }

  lemma SameNew(c: Context, d: Context, base: Context)
    requires SameObjects(c, d)
    ensures NewPrograms(d, base) == NewPrograms(c, base) && NewShaders(d, base) == NewShaders(c, base)
  {
  }

  lemma SameOwnShaders(c: Context, d: Context, base: Context)
    requires KeepsBase(c, base) && OwnShaders(c, base) && SameObjects(c, d)
    ensures OwnShaders(d, base)
  {
  }

  lemma SameTwoEach(c: Context, d: Context, base: Context)
    requires TwoEach(c, base) && Counted(c, base) && SameObjects(c, d)
    ensures TwoEach(d, base) && Counted(d, base)
  {
  }

  lemma SameExtends(c: Context, d: Context, base: Context)
    requires Extends(c, base) && SameObjects(c, d) && KeepsBase(d, base)
    ensures Extends(d, base) && NewPrograms(d, base) == NewPrograms(c, base)
  {
    hide KeepsBase, OwnShaders, TwoEach, Counted, NewPrograms;
    SameNew(c, d, base);
    SameOwnShaders(c, d, base);
    SameTwoEach(c, d, base);
  }

  lemma SwitchKeeps(c: Context, base: Context, program: Name)
    requires WellFormed(c) && Extends(c, base) && Usable(c, program) && Dropped(c, program) == {}
    ensures WellFormed(c.(current := program)) && Extends(c.(current := program), base)
    ensures NewPrograms(c.(current := program), base) == NewPrograms(c, base)
    ensures Pending(c.(current := program)) == Pending(c)
  {
    hide OwnShaders, TwoEach, Counted, NewPrograms, AttachedBesides;
    var d := c.(current := program);
    assert program != c.current ==> c.current !in Pending(c);
    SameExtends(c, d, base);
    SameWellFormed(c, d);
  }

  lemma DropKeeps(c: Context, base: Context, program: Name)
    requires WellFormed(c) && Base(base) && Extends(c, base) && Usable(c, program) && Dropped(c, program) != {}
    ensures c.current in c.programs && WellFormed(Without(c, c.current, program)) && Extends(Without(c, c.current, program), base)
    ensures NewPrograms(Without(c, c.current, program), base) == NewPrograms(c, base) - Pending(c)
    ensures Pending(Without(c, c.current, program)) == {}
  {
    hide NewPrograms, OwnShaders, TwoEach, Counted;
    assert c.current in Pending(c);
    PendingIsNew(c, base);
    WithoutExtends(c, base, c.current, program);
    WithoutWellFormed(c, c.current, program);
    WithoutNames(c, base, c.current, program);
  }

  lemma UseKeeps(c: Context, base: Context, program: Name)
    requires WellFormed(c) && Base(base) && Extends(c, base)
    ensures var d := UseProgram(c, program);
      && WellFormed(d) && Extends(d, base)
      && NewPrograms(d, base) == NewPrograms(c, base) - Dropped(c, program)
      && Pending(d) == Pending(c) - Dropped(c, program)
  {
    hide WellFormed, Extends, Base, NewPrograms, UseProgram, Without, Pending;
    UseEffect(c, program);
    if Usable(c, program) {
      if Dropped(c, program) == {} {
        SwitchKeeps(c, base, program);
      } else {
        DropKeeps(c, base, program);
      }
    }
  }

  lemma FlagKeeps(c: Context, base: Context, program: Name)
    requires WellFormed(c) && Extends(c, base) && program in NewPrograms(c, base) && program == c.current
    ensures var d := DeleteProgram(c, program);
      && WellFormed(d) && Extends(d, base) && NewPrograms(d, base) == NewPrograms(c, base) && Pending(d) == {program}
  {
    hide OwnShaders, TwoEach, Counted, AttachedBesides;
    var d := DeleteProgram(c, program);
    assert d.programs.Keys == c.programs.Keys;
    assert KeepsBase(d, base);
    SameExtends(c, d, base);
    SameWellFormed(c, d);
  }

  lemma RemoveKeeps(c: Context, base: Context, program: Name)
    requires WellFormed(c) && Base(base) && Extends(c, base) && program in NewPrograms(c, base) && program != c.current
    ensures var d := DeleteProgram(c, program);
      && WellFormed(d) && Extends(d, base)
      && NewPrograms(d, base) == NewPrograms(c, base) - {program} && Pending(d) == Pending(c)
  {
    hide Extends, NewPrograms, KeptOnlyBy, AttachedBesides, Pending;
    NewExist(c, base);
    assert DeleteProgram(c, program) == Without(c, program, c.current);
    WithoutExtends(c, base, program, c.current);
    WithoutWellFormed(c, program, c.current);
    PendingStays(c, base, program);
  }

  lemma DeleteKeeps(c: Context, base: Context, program: Name)
    requires WellFormed(c) && Base(base) && Extends(c, base) && program in NewPrograms(c, base) && program !in Pending(c)
    ensures var d := DeleteProgram(c, program);
      && WellFormed(d) && Extends(d, base)
      && NewPrograms(d, base) == NewPrograms(c, base) - (if program == c.current then {} else {program})
      && Pending(d) == if program == c.current then {program} else Pending(c)
  {
    hide WellFormed, Extends, Base, NewPrograms, DeleteProgram, Pending;
    if program == c.current {
      FlagKeeps(c, base, program);
    } else {
      RemoveKeeps(c, base, program);
    }
  }

  lemma PendingStays(c: Context, base: Context, program: Name)
    requires program in c.programs && program != c.current
    ensures Pending(Without(c, program, c.current)) == Pending(c)
  {
  }

  // ---------- whole runs ----------

  lemma SetupStep(o: Owner, base: Context, a: Answers)
    requires Base(base) && Inv(o, base)
    ensures Inv(Step(o, Setup(a)), base)
  {
    hide WellFormed, Extends, NewPrograms, SetupContext;
    SetupEffect(o.context, a);
    if Succeeds(o.context, a) {
      WithProgramWellFormed(o.context, a);
      WithProgramExtends(o.context, base, a);
      SetupPending(o.context, base, a);
      AccountsSetup(NewPrograms(o.context, base), o.mProgram, o.replaced, Pending(o.context), a.program);
    }
  }

  lemma AccountsSetup(programs: set<Name>, mProgram: Name, replaced: set<Name>, pending: set<Name>, program: Name)
    requires Accounts(programs, mProgram, replaced, pending) && program != 0 && program !in programs
    ensures Accounts(programs + {program}, program, replaced + Held(mProgram), pending)
  {
  }

  lemma AccountsRelease(programs: set<Name>, mProgram: Name, replaced: set<Name>, pending: set<Name>, current: bool)
    requires Accounts(programs, mProgram, replaced, pending) && mProgram != 0 && (current ==> pending == {})
    ensures if current then Accounts(programs, 0, replaced, {mProgram}) else Accounts(programs - {mProgram}, 0, replaced, pending)
  {
  }

  lemma SetupPending(c: Context, base: Context, a: Answers)
    requires WellFormed(c) && Compiles(c, a) && Links(c, a)
    ensures Pending(WithProgram(c, a)) == Pending(c) && a.program != 0 && a.program !in NewPrograms(c, base)
  {
  }

  lemma ReleaseStep(o: Owner, base: Context)
    requires Base(base) && Inv(o, base)
    ensures Inv(Step(o, Release), base)
  {
    hide WellFormed, Extends, NewPrograms, DeleteProgram, Pending;
    if o.mProgram != 0 {
      assert o.mProgram in NewPrograms(o.context, base);
      DeleteKeeps(o.context, base, o.mProgram);
      OnePending(o.context);
      AccountsRelease(NewPrograms(o.context, base), o.mProgram, o.replaced, Pending(o.context), o.mProgram == o.context.current);
    }
  }

  lemma OnePending(c: Context)
    ensures Pending(c) <= {c.current}
  {
  }

  lemma UseStep(o: Owner, base: Context, program: Name)
    requires Base(base) && Inv(o, base)
    ensures Inv(o.(context := UseProgram(o.context, program)), base)
  {
    hide WellFormed, Extends, NewPrograms, UseProgram, Pending;
    UseKeeps(o.context, base, program);
  }

  lemma StepKeeps(o: Owner, base: Context, op: Op)
    requires Base(base) && Inv(o, base)
    ensures Inv(Step(o, op), base)
  {
    hide Inv, Base, SetupContext, UseProgram, DeleteProgram;
    match op
    case Setup(a) => SetupStep(o, base, a);
    case Release => ReleaseStep(o, base);
    case Draw => UseStep(o, base, o.mProgram);
    case UseElsewhere(program) => UseStep(o, base, program);
  }

  /** The object before its first setup. */
  function Initial(base: Context): Owner {
    Owner(base, 0, {})
  }

  lemma {:induction false} RunKeeps(o: Owner, base: Context, ops: seq<Op>)
    requires Base(base) && Inv(o, base)
    ensures Inv(Run(o, ops), base)
    decreases |ops|
  {
    hide Inv, Base, Step;
    if ops != [] {
      StepKeeps(o, base, ops[0]);
      RunKeeps(Step(o, ops[0]), base, ops[1..]);
    }
  }

  lemma InitialInv(base: Context)
    requires Base(base)
    ensures Inv(Initial(base), base)
  {
    assert NewPrograms(base, base) == {} && NewShaders(base, base) == {};
  }

  lemma NothingNew(c: Context, base: Context)
    requires KeepsBase(c, base) && Counted(c, base)
    ensures c.programs == base.programs && c.shaders == base.shaders <==> NewPrograms(c, base) == {}
  {
    if NewPrograms(c, base) == {} {
      assert NewShaders(c, base) == {};
      assert c.programs.Keys == base.programs.Keys && c.shaders.Keys == base.shaders.Keys;
    }
  }

  // ---------- what a run forgets, from its operations alone ----------

  /** The i-th operation is a setup that succeeds while another program is held. */
  predicate ForgetsAt(base: Context, ops: seq<Op>, i: nat)
    requires i < |ops|
  {
    var o := Run(Initial(base), ops[..i]);
    ops[i].Setup? && Succeeds(o.context, ops[i].answers) && o.mProgram != 0
  }

  /** The program held before the i-th operation. */
  function HeldAt(base: Context, ops: seq<Op>, i: nat): Name
    requires i < |ops|
  {
    Run(Initial(base), ops[..i]).mProgram
  }

  ghost predicate IsForgotten(base: Context, ops: seq<Op>, program: Name) {
    exists i :: 0 <= i < |ops| && ForgetsAt(base, ops, i) && HeldAt(base, ops, i) == program
  }

  ghost predicate SomeForgotten(base: Context, ops: seq<Op>) {
    exists i :: 0 <= i < |ops| && ForgetsAt(base, ops, i)
  }

  lemma {:induction false} RunSnoc(o: Owner, ops: seq<Op>, op: Op)
    ensures Run(o, ops + [op]) == Step(Run(o, ops), op)
    decreases |ops|
  {
    hide Step;
    if ops == [] {
      assert [] + [op] == [op] && [op][1..] == [];
      assert Run(o, [op]) == Run(Step(o, op), []);
    } else {
      assert (ops + [op])[1..] == ops[1..] + [op];
      RunSnoc(Step(o, ops[0]), ops[1..], op);
    }
  }

  lemma SnocForgets(base: Context, ops: seq<Op>, op: Op)
    ensures var all, o := ops + [op], Run(Initial(base), ops);
      && (ForgetsAt(base, all, |ops|) <==> op.Setup? && Succeeds(o.context, op.answers) && o.mProgram != 0)
      && HeldAt(base, all, |ops|) == o.mProgram
      && (forall i :: 0 <= i < |ops| ==>
            && (ForgetsAt(base, all, i) <==> ForgetsAt(base, ops, i)) && HeldAt(base, all, i) == HeldAt(base, ops, i))
  {
    hide Run, Succeeds;
    var all := ops + [op];
    assert all[..|ops|] == ops;
    forall i | 0 <= i < |ops|
      ensures all[..i] == ops[..i] && all[i] == ops[i]
    {
    }
  }

  lemma SnocForgotten(base: Context, ops: seq<Op>, op: Op, program: Name)
    ensures IsForgotten(base, ops + [op], program)
      <==> IsForgotten(base, ops, program)
           || (ForgetsAt(base, ops + [op], |ops|) && HeldAt(base, ops + [op], |ops|) == program)
  {
    hide Run, Step, ForgetsAt, HeldAt;
    var all := ops + [op];
    SnocForgets(base, ops, op);
    if IsForgotten(base, ops, program) {
      var i :| 0 <= i < |ops| && ForgetsAt(base, ops, i) && HeldAt(base, ops, i) == program;
      assert ForgetsAt(base, all, i) && HeldAt(base, all, i) == program;
    }
  }

  lemma StepReplaces(o: Owner, op: Op)
    requires WellFormed(o.context)
    ensures Step(o, op).replaced ==
      o.replaced + (if op.Setup? && Succeeds(o.context, op.answers) then Held(o.mProgram) else {})
  {
    hide WellFormed, SetupContext;
    if op.Setup? {
      SetupEffect(o.context, op.answers);
    }
  }

  lemma RunInv(base: Context, ops: seq<Op>)
    requires Base(base)
    ensures Inv(Run(Initial(base), ops), base)
  {
    hide Inv, Base, Step;
    InitialInv(base);
    RunKeeps(Initial(base), base, ops);
  }

  lemma {:induction false} ReplacedAreForgotten(base: Context, ops: seq<Op>, program: Name)
    requires Base(base)
    ensures program in Run(Initial(base), ops).replaced <==> IsForgotten(base, ops, program)
    decreases |ops|
  {
    hide Base, Step, WellFormed, Extends, Owns, IsForgotten, Succeeds;
    if ops == [] {
      NothingForgotten(base, program);
    } else {
      var before, op := ops[..|ops| - 1], ops[|ops| - 1];
      assert ops == before + [op];
      ReplacedAreForgotten(base, before, program);
      RunSnoc(Initial(base), before, op);
      RunInv(base, before);
      StepReplaces(Run(Initial(base), before), op);
      SnocForgotten(base, before, op, program);
      SnocForgets(base, before, op);
    }
  }

  lemma NothingForgotten(base: Context, program: Name)
    ensures !IsForgotten(base, [], program)
  {
  }

  lemma SomeReplaced(base: Context, ops: seq<Op>)
    requires Base(base)
    ensures Run(Initial(base), ops).replaced == {} <==> !SomeForgotten(base, ops)
  {
    hide Base, Run, ForgetsAt, HeldAt;
    forall program {
      ReplacedAreForgotten(base, ops, program);
    }
    if i :| 0 <= i < |ops| && ForgetsAt(base, ops, i) {
      assert IsForgotten(base, ops, HeldAt(base, ops, i));
    }
  }

  /**
   A program is forgotten exactly when a setup of the run succeeds while it is held;
   it is alive in every later state, awaits no deletion and is never held again.
   */
  lemma OverwrittenIff(base: Context, ops: seq<Op>, program: Name)
    requires Base(base)
    ensures var o := Run(Initial(base), ops);
      && (program in o.replaced <==> IsForgotten(base, ops, program))
      && (IsForgotten(base, ops, program) ==>
            program in o.context.programs && !o.context.programs[program].flagged && program != o.mProgram)
  {
    hide Run, Extends, IsForgotten;
    RunInv(base, ops);
    ReplacedAreForgotten(base, ops, program);
  }

  /**
   In every run, whatever fails: the other code's objects are untouched, and the
   programs besides are the one held, those overwritten by a later setup, and at
   most one released while in use; each comes with exactly two shaders, so
   shaders are conserved with programs.
   */
  lemma LiveObjects(base: Context, ops: seq<Op>)
    requires Base(base)
    ensures var o := Run(Initial(base), ops);
      && KeepsBase(o.context, base)
      && NewPrograms(o.context, base) == Held(o.mProgram) + o.replaced + Pending(o.context)
      && (forall p :: p in o.replaced <==> IsForgotten(base, ops, p))
      && Pending(o.context) <= {o.context.current}
      && |NewShaders(o.context, base)| == 2 * |NewPrograms(o.context, base)|
  {
    hide Run, WellFormed, IsForgotten;
    RunInv(base, ops);
    forall p {
      ReplacedAreForgotten(base, ops, p);
    }
    OnePending(Run(Initial(base), ops).context);
  }

  /**
   The context is back to what it was, except for which program is in use, exactly
   when nothing is held, no setup succeeded over a held program and no released
   program is in use.
   */
  lemma RestoredIff(base: Context, ops: seq<Op>)
    requires Base(base)
    ensures var o := Run(Initial(base), ops);
      (o.context.programs == base.programs && o.context.shaders == base.shaders)
      <==> (o.mProgram == 0 && !SomeForgotten(base, ops) && Pending(o.context) == {})
  {
    hide Run, WellFormed, Pending, SomeForgotten;
    RunInv(base, ops);
    SomeReplaced(base, ops);
    NothingNew(Run(Initial(base), ops).context, base);
  }

  lemma ThreeSteps(o: Owner, a: Op, b: Op, c: Op)
    ensures Run(o, [a, b, c]) == Step(Step(Step(o, a), b), c)
  {
    hide Step;
    assert [a, b, c] == [] + [a] + [b] + [c];
    RunSnoc(o, [], a);
    RunSnoc(o, [] + [a], b);
    RunSnoc(o, [] + [a] + [b], c);
  }

  /** Two setups in a row, then a release: the first program is held by nobody and still there with its shaders. */
  lemma SecondSetupForgets(base: Context, first: Answers, second: Answers)
    requires Base(base) && Succeeds(base, first) && Succeeds(WithProgram(base, first), second)
    ensures var o := Run(Initial(base), [Setup(first), Setup(second), Release]);
      && o.mProgram == 0 && o.replaced == {first.program} && o.context == WithProgram(base, first)
      && first.program !in base.programs && first.program in o.context.programs
  {
    hide WellFormed, SetupContext, WithProgram, DeleteProgram, Succeeds;
    var once := WithProgram(base, first);
    ThreeSteps(Initial(base), Setup(first), Setup(second), Release);
    SetupEffect(base, first);
    FirstStands(base, first);
    SetupEffect(once, second);
    SecondGoes(once, second);
  }

  lemma FirstStands(base: Context, a: Answers)
    requires WellFormed(base) && Succeeds(base, a)
    ensures var c := WithProgram(base, a);
      WellFormed(c) && a.program != 0 && a.program !in base.programs && a.program in c.programs
  {
    WithProgramWellFormed(base, a);
  }

  lemma SecondGoes(c: Context, a: Answers)
    requires WellFormed(c) && Succeeds(c, a)
    ensures a.program != 0 && DeleteProgram(WithProgram(c, a), a.program) == c
  {
    hide WellFormed, RemoveProgram;
    CurrentIsInUse(c, a.program);
    RemoveUndoes(c, a);
  }

  /** Such a run from an empty context: after it, program 3 is alive and nothing holds it. */
  lemma ForgottenReachable()
    ensures var found := Locations(0, 0, 0, 0, 0);
      var o := Run(Initial(Context(map[], map[], 0)),
                   [Setup(Answers(1, true, 2, true, 3, true, found)), Setup(Answers(4, true, 5, true, 6, true, found)), Release]);
      o.mProgram == 0 && o.replaced == {3} && 3 in o.context.programs
  {
    hide Run;
    var found, empty := Locations(0, 0, 0, 0, 0), Context(map[], map[], 0);
    var first, second := Answers(1, true, 2, true, 3, true, found), Answers(4, true, 5, true, 6, true, found);
    assert !LookupFailed(found);
    assert Base(empty);
    assert Succeeds(empty, first) && Succeeds(WithProgram(empty, first), second);
    SecondSetupForgets(empty, first, second);
  }

  /** The program of a setup after it was used, and flagged by a release. */
  function DrawnAndReleased(c: Context, a: Answers): Context {
    WithProgram(c, a).(
      programs := c.programs[a.program := ProgramObject({a.vertex, a.fragment}, true)],
      current := a.program)
  }

  lemma DrawnEffect(c: Context, a: Answers)
    requires Base(c) && Succeeds(c, a)
    ensures DeleteProgram(UseProgram(WithProgram(c, a), a.program), a.program) == DrawnAndReleased(c, a)
  {
    var w := WithProgram(c, a);
    assert c.current in c.programs ==> !w.programs[c.current].flagged;
    assert UseProgram(w, a.program) == w.(current := a.program);
  }

  lemma CompletedBySwitch(c: Context, a: Answers, program: Name)
    requires Base(c) && Succeeds(c, a) && Usable(c, program)
    ensures UseProgram(DrawnAndReleased(c, a), program) == UseProgram(c, program)
  {
    var d := DrawnAndReleased(c, a).(current := program);
    assert KeptOnlyBy(d, a.program) == {a.vertex, a.fragment};
    assert d.programs - {a.program} == c.programs;
    assert d.shaders - {a.vertex, a.fragment} == c.shaders;
    assert RemoveProgram(d, a.program) == c.(current := program);
  }

  /**
   Releasing straight after a setup undoes it exactly. If the program was drawn
   with, the release only flags it, and the next change of program completes it.
   */
  lemma ReleaseUndoesSetup(c: Context, a: Answers, program: Name)
    requires Base(c) && Succeeds(c, a) && Usable(c, program)
    ensures var (created, p) := SetupContext(c, a);
      var drawn := DeleteProgram(UseProgram(created, a.program), a.program);
      && p == Some(a.program) && DeleteProgram(created, a.program) == c
      && a.program in drawn.programs && a.vertex in drawn.shaders && a.fragment in drawn.shaders
      && UseProgram(drawn, program) == UseProgram(c, program)
  {
    hide WellFormed, SetupContext, UseProgram, RemoveProgram;
    SetupEffect(c, a);
    CurrentIsInUse(c, a.program);
    RemoveUndoes(c, a);
    DrawnEffect(c, a);
    CompletedBySwitch(c, a, program);
  }

  /**
   The same over the object's own operations: a setup, a draw and a release leave the
   program flagged and in use, and only when other code switches to a program of its
   own is everything as it was.
   */
  lemma DrawnRun(base: Context, a: Answers, program: Name)
    requires Base(base) && Succeeds(base, a) && Usable(base, program)
    ensures var o := Run(Initial(base), [Setup(a), Draw, Release]);
      && o.mProgram == 0 && o.context.current == a.program
      && a.program in o.context.programs && o.context.programs[a.program].flagged
    ensures Run(Initial(base), [Setup(a), Draw, Release] + [UseElsewhere(program)]).context
      == Context(base.shaders, base.programs, program)
  {
    hide WellFormed, SetupContext, UseProgram, DeleteProgram, WithProgram, DrawnAndReleased;
    ThreeSteps(Initial(base), Setup(a), Draw, Release);
    RunSnoc(Initial(base), [Setup(a), Draw, Release], UseElsewhere(program));
    SetupEffect(base, a);
    DrawnEffect(base, a);
    DrawnFields(base, a);
    CompletedBySwitch(base, a, program);
    UnflaggedSwitch(base, program);
  }

  lemma DrawnFields(c: Context, a: Answers)
    requires WellFormed(c) && Succeeds(c, a)
    ensures var d := DrawnAndReleased(c, a);
      d.current == a.program != 0 && a.program in d.programs && d.programs[a.program].flagged
  {
  }

  lemma UnflaggedSwitch(c: Context, program: Name)
    requires Base(c) && Usable(c, program)
    ensures UseProgram(c, program) == Context(c.shaders, c.programs, program)
  {
  }
}
