/** Whole programs: what a thread does that runs a compiled function, over all its runs. */
module Programs {
  import opened Wrappers
  import opened Values
  import opened Syntax
  import opened Bytecode
  import opened Emitter
  import opened Pieces
  import opened Layout
  import opened Placement
  import opened Machine
  import opened Semantics
  import opened Runs
  import opened Locals
  import opened Linking
  import opened Glue
  import opened Runners
  import opened Calling
  import opened Behaviour
  import opened Correctness
  import opened Functions
  import opened Blame
  import opened Statements
  import opened Paths
  import opened Depths
  import opened Heights
  import opened Starting
  import opened Threading
  import opened Slots

  /** Every break and continue has its statement, and none of the continues is taken over. */
  predicate Straightforward(r: Routine) {
    WellScoped(r.body, false, false) && Undisturbed(r.body)
  }

  /** The program is the compiled source. */
  ghost predicate CompilesTo(src: Source, prog: Program) {
    && src.Keys == prog.Keys
    && forall f :: f in src ==> CompileFunction(src[f].parameters, src[f].body) == Success(prog[f])
  }

  lemma CompiledProgramIsLinked(src: Source, prog: Program)
    requires CompilesTo(src, prog) && forall f :: f in src ==> Straightforward(src[f])
    ensures Linked(src, prog)
  {
    forall f | f in src ensures Compiled(src[f], prog[f]) {
      FunctionIsCompiled(src[f]);
    }
  }

  /** The run ends with this value. */
  ghost predicate Returns(prog: Program, t: Thread, v: Value) {
    exists n: nat :: Run(prog, t, n) == Finished(v)
  }

  ghost predicate Faults(prog: Program, t: Thread, x: Fault) {
    exists n: nat :: Run(prog, t, n) == Failed(x)
  }

  /** The thread does what the effect says: return the value, fail with the fault, or go on while that goes on. */
  ghost predicate Behaves(prog: Program, t: Thread, r: Effect<Value>, fuel: nat) {
    match r
    case Success(v) => Returns(prog, t, v)
    case Failure(Fault(x)) => Faults(prog, t, x)
    case Failure(OutOfFuel) => Run(prog, t, fuel).Running?
  }

  // ---- correctness ----

  /** What a function does when its variables are as in the store. */
  function ApplyIn(src: Source, f: string, store: Store, fuel: nat): Effect<Value>
    requires f in src
  {
    var flow :- Exec(src, src[f].body, store, fuel);
    Success(if flow.Returned? then flow.value else Undefined)
  }

  lemma LinkedProgramRuns(src: Source, prog: Program, f: string, locals: seq<Value>, store: Store, fuel: nat)
    requires Linked(src, prog) && f in src && locals == Represent(prog[f].locals, store)
    ensures var t := Fresh(prog[f], locals); HitsLimit(prog, t) || Behaves(prog, t, ApplyIn(src, f, store, fuel), fuel)
  {
    var r, g := src[f], prog[f];
    var w, t := Context(prog, g.locals), Fresh(g, locals);
    StmtSim(src, w, r.body, false, false, fuel);
    assert g.code[0..|g.code|] == g.code;
    var u := BodyReturns(w, StmtPiece(r.body, g.locals), Ex(src, r.body, fuel), t, store, fuel);
    if Exec(src, r.body, store, fuel).Success? && !HitsLimit(prog, t) {
      RunsToTheEnd(prog, t, u, ResultOf(Exec(src, r.body, store, fuel)).value);
    }
  }

  /**
   * Compiler correctness. A thread that starts with the arguments bound as they are meant returns the value that the
   * function returns; if the function faults, the thread fails with the same fault; while it goes on, the thread
   * goes on. The only way out is a fixed limit of the machine.
   */
  lemma ProgramIsCorrect(src: Source, prog: Program, f: string, self: Value, args: seq<Value>, t: Thread, fuel: nat)
    requires CompilesTo(src, prog) && (forall g :: g in src ==> Straightforward(src[g])) && f in src
    requires Start(prog[f], self, args) == Running(t) && BoundAsMeant(prog[f], self, args)
    ensures HitsLimit(prog, t) || Behaves(prog, t, Apply(src, f, self, args, fuel), fuel)
  {
    CompiledProgramIsLinked(src, prog);
    ProgramStartsIff(src, prog, f, self, args);
    var store := Entry(self, src[f].parameters, args);
    LinkedProgramRuns(src, prog, f, Represent(prog[f].locals, store), store, fuel);
    assert ApplyIn(src, f, store, fuel) == Apply(src, f, self, args, fuel);
  }

  /** The variables by their names, when the locals are by their slots. */
  function StoreOf(names: seq<string>, locals: seq<Value>): Store
    requires |names| == |locals|
  {
    map x | x in names :: locals[IndexOf(names, x)]
  }

  lemma StoreIsRepresented(names: seq<string>, locals: seq<Value>)
    requires |names| == |locals| && Distinct(names)
    ensures Represent(names, StoreOf(names, locals)) == locals
  {
    forall i | 0 <= i < |names| ensures Represent(names, StoreOf(names, locals))[i] == locals[i] {
      assert names[i] in names && names[IndexOf(names, names[i])] == names[i];
    }
  }

  /** However a thread starts, it does what the body means for the variables that it starts with. */
  lemma AnyStartIsCorrect(src: Source, prog: Program, f: string, self: Value, args: seq<Value>, t: Thread, fuel: nat)
    requires CompilesTo(src, prog) && (forall g :: g in src ==> Straightforward(src[g])) && f in src
    requires Start(prog[f], self, args) == Running(t)
    ensures |t.top.locals| == |prog[f].locals|
    ensures HitsLimit(prog, t) || Behaves(prog, t, ApplyIn(src, f, StoreOf(prog[f].locals, t.top.locals), fuel), fuel)
  {
    CompiledProgramIsLinked(src, prog);
    CompiledSlots(src[f].parameters, src[f].body);
    StartFailsIff(prog[f], self, args);
    var store := StoreOf(prog[f].locals, t.top.locals);
    StoreIsRepresented(prog[f].locals, t.top.locals);
    LinkedProgramRuns(src, prog, f, t.top.locals, store, fuel);
  }

  /** In any compiled program a thread starts as it is meant to exactly under the two conditions on its arguments. */
  lemma ProgramStartsIff(src: Source, prog: Program, f: string, self: Value, args: seq<Value>)
    requires CompilesTo(src, prog) && f in src
    ensures Start(prog[f], self, args) == Running(Spawned(src[f], prog[f], self, args)) <==>
            HasRoom(prog[f], args) && BoundAsMeant(prog[f], self, args)
  {
    CompiledSlots(src[f].parameters, src[f].body);
    StartIsSpawnedIff(src[f], prog[f], self, args);
  }

  lemma RunsToTheEnd(prog: Program, t: Thread, u: Thread, v: Value)
    requires Leads(prog, t, Arrive(u)) && !HitsLimit(prog, t)
    requires CodeAt(u, 0, [RET]) && u.callers == [] && u.stack == [v]
    ensures Returns(prog, t, v)
  {
    var m: nat :| Run(prog, t, m) == Running(u);
    Fetched(u, [RET]);
    assert Step(prog, u) == Finished(v);
    RunAdd(prog, t, m, u, 1);
    assert Run(prog, t, m + 1) == Finished(v);
  }

  // ---- safety over all runs ----

  /** A run that has ended stays ended. */
  lemma {:induction false} RunStays(prog: Program, t: Thread, m: nat, n: nat)
    requires m <= n && !Run(prog, t, m).Running?
    ensures Run(prog, t, n) == Run(prog, t, m)
    decreases m
  {
    if m > 0 && Step(prog, t).Running? {
      RunStays(prog, Step(prog, t).thread, m - 1, n - 1);
    }
  }

  /** What a run of any length is, given how it ends. */
  lemma RunIs(prog: Program, t: Thread, m: nat, n: nat)
    requires !Run(prog, t, m).Running?
    ensures Run(prog, t, n).Running? || Run(prog, t, n) == Run(prog, t, m)
  {
    if m <= n {
      RunStays(prog, t, m, n);
    } else if !Run(prog, t, n).Running? {
      RunStays(prog, t, n, m);
    }
  }

  /** Every function of a compiled program has a profile. */
  lemma ProgramIsProfiled(src: Source, prog: Program) returns (dss: Profiles)
    requires CompilesTo(src, prog)
    ensures Profiled(prog, dss)
  {
    forall g | g in prog ensures exists ds :: FunctionProfiled(prog[g], ds) {
      FunctionSlots(src[g].parameters, src[g].body);
      var ds := FunctionIsBalanced(src[g].parameters, src[g].body);
      assert FunctionProfiled(prog[g], ds);
    }
    dss := map g | g in prog :: ProfileOf(prog[g]);
  }

  ghost function ProfileOf(f: Function): (ds: Profile)
    requires exists ds :: FunctionProfiled(f, ds)
    ensures FunctionProfiled(f, ds)
  {
    var ds :| FunctionProfiled(f, ds);
    ds
  }

  /** A thread that is about to run a function, whatever its locals are. */
  predicate Begins(f: Function, t: Thread) {
    t == Thread([], [], Frame(f.code, t.top.locals, 0), t.flag) && |t.top.locals| == |f.locals| <= VM_MAX_LOCALS
  }

  lemma StartTallies(prog: Program, dss: Profiles, f: string, t: Thread)
    requires Profiled(prog, dss) && f in prog && Begins(prog[f], t)
    ensures Tallies(prog, dss, [f], t)
  {
    assert FunctionProfiled(prog[f], dss[f]);
    assert FrameOf(prog[f], FrameAt(t, 0)) && SpotAt(dss, f, t.top) == Plain(0);
  }

  /**
   * The static depth is that of the machine. In every state of every run each frame belongs to a function, and the
   * stack consists of what the profiles of these functions say, frame upon frame.
   */
  lemma StackIsAsProfiled(src: Source, prog: Program, dss: Profiles, f: string, t: Thread, n: nat)
    requires CompilesTo(src, prog) && Profiled(prog, dss) && f in src && Begins(prog[f], t)
    ensures Run(prog, t, n).Running? ==> Orderly(prog, dss, Run(prog, t, n).thread)
  {
    StartTallies(prog, dss, f, t);
    RunTallies(prog, dss, [f], t, n);
  }

  /**
   * No run of a compiled program, whatever its breaks and continues and however it starts, ever pops an empty stack,
   * uses a slot that is not there, stores through something that is no variable, or leaves the code of a function:
   * the only faults are those of the script itself, and the machine's limits.
   */
  lemma ProgramIsSafe(src: Source, prog: Program, f: string, t: Thread, n: nat)
    requires CompilesTo(src, prog) && f in src && Begins(prog[f], t)
    ensures var o := Run(prog, t, n); o.Failed? ==> o.fault.IsLimit() || Sensible(o.fault)
  {
    var dss := ProgramIsProfiled(src, prog);
    StartTallies(prog, dss, f, t);
    RunTallies(prog, dss, [f], t, n);
  }

  /**
   * No limit of the machine is met when the functions keep to budgets: their calls nest at most 31 deep and hold at
   * most 256 operands, all together, and none has more than 256 local variables.
   */
  lemma BudgetMeetsNoLimit(src: Source, prog: Program, dss: Profiles, bs: Budgets, f: string, t: Thread)
    requires CompilesTo(src, prog) && Profiled(prog, dss) && f in src && Begins(prog[f], t)
    requires Affordable(prog, dss, bs) && bs[f].calls <= 31 && bs[f].room <= 256
    ensures !HitsLimit(prog, t)
  {
    StartTallies(prog, dss, f, t);
    assert Share(bs, f, 0, 0, bs[f]);
    if HitsLimit(prog, t) {
      var n: nat :| Run(prog, t, n).Failed? && Run(prog, t, n).fault.IsLimit();
      RunInBudget(prog, dss, bs, [f], t, bs[f], n);
      assert false;
    }
  }

  /** The meaning of a compiled program, too, has only the faults of scripts. */
  lemma MeaningBlames(src: Source, prog: Program, f: string, self: Value, args: seq<Value>, fuel: nat)
    requires CompilesTo(src, prog) && f in src
    ensures Blames(Apply(src, f, self, args, fuel))
  {
    forall g | g in src ensures StmtBound(src[g].body, prog[g].locals) {
      CompiledIsPlay(src[g].parameters, src[g].body);
    }
    ApplyBlames(src, prog, f, self, args, fuel);
  }

  /** What the thread returns is what the function returns: more fuel never changes the outcome. */
  lemma ReturnsIsFunctional(src: Source, prog: Program, f: string, self: Value, args: seq<Value>, t: Thread, v: Value, fuel: nat)
    requires CompilesTo(src, prog) && (forall g :: g in src ==> Straightforward(src[g])) && f in src
    requires Start(prog[f], self, args) == Running(t) && BoundAsMeant(prog[f], self, args) && Returns(prog, t, v)
    ensures Apply(src, f, self, args, fuel) == Success(v) || Apply(src, f, self, args, fuel) == Failure(OutOfFuel)
  {
    var m: nat :| Run(prog, t, m) == Finished(v);
    ProgramIsCorrect(src, prog, f, self, args, t, fuel);
    ReturnedHitsNoLimit(prog, t, m, v);
    match Apply(src, f, self, args, fuel)
    case Success(x) =>
      var k: nat :| Run(prog, t, k) == Finished(x);
      RunIs(prog, t, k, m);
    case Failure(Fault(x)) =>
      var k: nat :| Run(prog, t, k) == Failed(x);
      RunIs(prog, t, k, m);
      assert false;
    case Failure(OutOfFuel) =>
  }

  lemma ReturnedHitsNoLimit(prog: Program, t: Thread, m: nat, v: Value)
    requires Run(prog, t, m) == Finished(v)
    ensures !HitsLimit(prog, t)
  {
    if HitsLimit(prog, t) {
      var k: nat :| Run(prog, t, k).Failed? && Run(prog, t, k).fault.IsLimit();
      RunIs(prog, t, k, m);
    }
  }

  /** A thread that returns does so by what the function means: some fuel is enough. */
  lemma ReturnsOnlyTheMeaning(src: Source, prog: Program, f: string, self: Value, args: seq<Value>, t: Thread, v: Value)
    requires CompilesTo(src, prog) && (forall g :: g in src ==> Straightforward(src[g])) && f in src
    requires Start(prog[f], self, args) == Running(t) && BoundAsMeant(prog[f], self, args) && Returns(prog, t, v)
    ensures exists fuel: nat :: Apply(src, f, self, args, fuel) == Success(v)
  {
    var m: nat :| Run(prog, t, m) == Finished(v);
    ProgramIsCorrect(src, prog, f, self, args, t, m);
    ReturnedHitsNoLimit(prog, t, m, v);
    ReturnsIsFunctional(src, prog, f, self, args, t, v, m);
    assert Apply(src, f, self, args, m) == Success(v);
  }

  // ---- arguments that are bound wrongly ----

  /** `f() { return self; }`, started with one argument: self is not bound, and the argument is written behind the locals. */
  lemma ArgumentBehindLocals(src: Source, f: string, self: Value, x: Value, fuel: nat) returns (g: Function)
    requires f in src && src[f] == Routine([], Return(Some(Self)))
    ensures CompileFunction([], Return(Some(Self))) == Success(g) && Straightforward(src[f])
    ensures Start(g, self, [x]) == Failed(BadLocal) && Apply(src, f, self, [x], fuel) == Success(self)
  {
    g := Function([LOAD(0), RET, UNDEF, RET], 0, ["self"]);
    ReturnSelfCompiles(g);
    assert Entry(self, [], [x])["self"] == self;
    assert Eval(src, Self, Entry(self, [], [x]), fuel) == Success((self, Entry(self, [], [x])));
  }

  lemma ReturnSelfCompiles(g: Function)
    requires g == Function([LOAD(0), RET, UNDEF, RET], 0, ["self"])
    ensures CompileFunction([], Return(Some(Self))) == Success(g)
  {
    var st := Emission([], [], [], ["self"]);
    assert DefineParameters([], ["self"]) == Success(["self"]);
    ReturnSelfEmits(st);
    assert st.code + [LOAD(0), RET] == [LOAD(0), RET] && [LOAD(0), RET] + [UNDEF, RET] == g.code;
    assert Sweep(g.code) == g.code;
  }

  lemma ReturnSelfEmits(st: Emission)
    requires |st.code| <= 10
    ensures EmitStmt(Return(Some(Self)), st) == Success(st.(code := st.code + [LOAD(0), RET]))
  {
    assert st.code + [LOAD(0)] + [RET] == st.code + [LOAD(0), RET];
    assert EmitExpr(Self, st) == Success(st.(code := st.code + [LOAD(0)]));
  }

  /** `y; return self;` */
  function UseAndReturn(): Stmt {
    Block(Cons(ExprStmt(Id("y")), Cons(Return(Some(Self)), Nil)))
  }

  /** `f() { y; return self; }`, started with one argument: self is lost, and the argument is the variable `y`. */
  lemma SelfIsLost(src: Source, f: string, self: Value, x: Value, fuel: nat) returns (g: Function)
    requires f in src && src[f] == Routine([], UseAndReturn())
    ensures CompileFunction([], UseAndReturn()) == Success(g) && Straightforward(src[f])
    ensures Start(g, self, [x]) == Running(Fresh(g, [Undefined, x]))
    ensures ApplyIn(src, f, StoreOf(g.locals, [Undefined, x]), fuel) == Success(Undefined)
    ensures Apply(src, f, self, [x], fuel) == Success(self)
  {
    g := Function([LOAD(1), POP, LOAD(0), RET, UNDEF, RET], 0, ["self", "y"]);
    UseAndReturnCompiles(g);
    UseAndReturnIsStraightforward(src[f]);
    StartedWithoutSelf(g, self, x);
    SelfIsMissing(src, f, self, x, fuel, g.locals);
  }

  lemma UseAndReturnIsStraightforward(r: Routine)
    requires r.body == UseAndReturn()
    ensures Straightforward(r)
  {
    var last := Cons(Return(Some(Self)), Nil);
    UseAndReturnIsScoped(last);
    UseAndReturnIsUndisturbed(last, Orphans(ExprStmt(Id("y"))));
  }

  lemma UseAndReturnIsScoped(last: Stmts)
    requires last == Cons(Return(Some(Self)), Nil)
    ensures WellScoped(UseAndReturn(), false, false)
  {
    assert AllScoped(Nil, false, false) && AllScoped(last, false, false);
  }

  lemma UseAndReturnIsUndisturbed(last: Stmts, n: int)
    requires last == Cons(Return(Some(Self)), Nil) && n == Orphans(ExprStmt(Id("y")))
    ensures Undisturbed(UseAndReturn())
  {
    assert !HasLoopIn(Nil, Orphans(Return(Some(Self)))) && UndisturbedIn(last);
    assert !HasLoop(Return(Some(Self)), n) && !HasLoopIn(Nil, n) && !HasLoopIn(last, n);
  }

  lemma StartedWithoutSelf(g: Function, self: Value, x: Value)
    requires g.parameterCount == 0 && g.locals == ["self", "y"]
    ensures Start(g, self, [x]) == Running(Fresh(g, [Undefined, x]))
  {
    assert ThreadLocals(g, [self] + [x]).value == [Undefined, x];
  }

  lemma SelfIsMissing(src: Source, f: string, self: Value, x: Value, fuel: nat, names: seq<string>)
    requires f in src && src[f] == Routine([], UseAndReturn()) && names == ["self", "y"]
    ensures ApplyIn(src, f, StoreOf(names, [Undefined, x]), fuel) == Success(Undefined)
    ensures Apply(src, f, self, [x], fuel) == Success(self)
  {
    var lost, kept := StoreOf(names, [Undefined, x]), Entry(self, [], [x]);
    StoreIsRepresented(names, [Undefined, x]);
    assert Represent(names, lost)[0] == Undefined && names[0] == "self";
    assert Lookup(lost, "self") == Undefined && Lookup(kept, "self") == self;
    UseAndReturnMeans(src, lost, fuel);
    UseAndReturnMeans(src, kept, fuel);
  }

  lemma UseAndReturnMeans(src: Source, store: Store, fuel: nat)
    ensures Exec(src, UseAndReturn(), store, fuel) == Success(Returned(Lookup(store, "self")))
  {
    var last := Cons(Return(Some(Self)), Nil);
    assert Exec(src, Return(Some(Self)), store, fuel) == Success(Returned(Lookup(store, "self")));
    assert ExecAll(src, last, store, fuel) == Success(Returned(Lookup(store, "self")));
    assert Exec(src, ExprStmt(Id("y")), store, fuel) == Success(Normal(store));
  }

  lemma UseAndReturnCompiles(g: Function)
    requires g == Function([LOAD(1), POP, LOAD(0), RET, UNDEF, RET], 0, ["self", "y"])
    ensures CompileFunction([], UseAndReturn()) == Success(g)
  {
    var st, s1 := Emission([], [], [], ["self"]), Emission([LOAD(1), POP], [], [], ["self", "y"]);
    assert DefineParameters([], ["self"]) == Success(["self"]);
    UseEmits(st, s1);
    ReturnSelfEmits(s1);
    var s2 := s1.(code := s1.code + [LOAD(0), RET]);
    assert EmitStmts(Nil, s2) == Success(s2);
    assert EmitStmts(Cons(Return(Some(Self)), Nil), s1) == Success(s2);
    assert s2.code + [UNDEF, RET] == g.code;
    assert Sweep(g.code) == g.code;
  }

  lemma UseEmits(st: Emission, r: Emission)
    requires st == Emission([], [], [], ["self"]) && r == Emission([LOAD(1), POP], [], [], ["self", "y"])
    ensures EmitStmt(ExprStmt(Id("y")), st) == Success(r)
  {
    assert Lower("y") == "y" && Define(["self"], "y") == ["self", "y"];
    assert IndexOf(["self", "y"], "y") == 1 by {
      assert ["self", "y"][1..] == ["y"];
    }
    assert st.code + [LOAD(1)] == [LOAD(1)];
    assert EmitExpr(Id("y"), st) == Success(r.(code := [LOAD(1)]));
    assert [LOAD(1)] + [POP] == r.code;
  }
}
