/** Statements that end by returning, and the call protocol. */
module Calling {
  import opened Wrappers
  import opened Values
  import opened Syntax
  import opened Bytecode
  import opened Emitter
  import opened Pieces
  import opened Machine
  import opened Semantics
  import opened Runs
  import opened Locals
  import opened Glue
  import opened Runners

  type FlowMeaning = Store -> Effect<Flow>

  /** How a run leaves a statement: the flag, and for a return the address of the RET and the locals there. */
  datatype Exit = Exit(flag: bool, at: nat, locals: seq<Value>)

  function Or(t: Target): int {
    if t.Some? then t.value else 0
  }

  function FlowGoal(w: Context, t: Thread, n: nat, brk: Target, cont: Target, r: Effect<Flow>, x: Exit, fuel: nat): Goal {
    match r
    case Failure(Fault(f)) => Abort(f)
    case Failure(OutOfFuel) => Last(fuel)
    case Success(Normal(s)) => Arrive(At(t, t.stack, Represent(w.names, s), n, x.flag))
    case Success(Broken(s)) => Arrive(At(t, t.stack, Represent(w.names, s), Or(brk), x.flag))
    case Success(Continued(s)) => Arrive(At(t, t.stack, Represent(w.names, s), Or(cont), x.flag))
    case Success(Returned(v)) => Arrive(At(t, t.stack + [v], x.locals, x.at, x.flag))
  }

  /** A return arrives at a RET. */
  predicate AtReturn(t: Thread, r: Effect<Flow>, x: Exit) {
    r.Success? && r.value.Returned? ==> CodeAt(t, x.at, [RET])
  }

  ghost predicate Ends(w: Context, t: Thread, n: nat, brk: Target, cont: Target, r: Effect<Flow>, fuel: nat) {
    exists x: Exit :: AtReturn(t, r, x) && Leads(w.prog, t, FlowGoal(w, t, n, brk, cont, r, x, fuel))
  }

  predicate Allowed(r: Effect<Flow>, b: bool, c: bool) {
    r.Success? ==> (r.value.Broken? ==> b) && (r.value.Continued? ==> c)
  }

  predicate Targets(b: bool, c: bool, brk: Target, cont: Target) {
    (b ==> brk.Some?) && (c ==> cont.Some?)
  }

  /**
   * The piece, with its jumps resolved, does what the statement means. `b` and `c` say whether
   * the statement may break or continue out of itself.
   */
  ghost predicate StmtDoes(w: Context, p: Piece, b: bool, c: bool, m: FlowMeaning, fuel: nat) {
    forall t, store, brk, cont ::
      Targets(b, c, brk, cont) && Starts(w, t, store, Render(p, brk, cont)) ==>
      Allowed(m(store), b, c) && Ends(w, t, Size(p), brk, cont, m(store), fuel)
  }

  /** What a call of a function yields. */
  function ResultOf(r: Effect<Flow>): Effect<Value> {
    var flow :- r;
    Success(if flow.Returned? then flow.value else Undefined)
  }

  /** The body of a function arrives at a RET with one more value on the stack. */
  lemma BodyReturns(w: Context, p: Piece, m: FlowMeaning, t: Thread, store: Store, fuel: nat) returns (u: Thread)
    requires StmtDoes(w, p, false, false, m, fuel)
    requires Starts(w, t, store, Render(p, None, None) + [UNDEF, RET])
    ensures Leads(w.prog, t, EffectGoal(m(store), u, fuel))
    ensures m(store).Success? ==>
      && CodeAt(u, 0, [RET]) && u.callers == t.callers && u.top.code == t.top.code
      && u.stack == t.stack + [ResultOf(m(store)).value]
  {
    CodeAtParts(t, 0, Render(p, None, None), [UNDEF, RET]);
    assert Targets(false, false, None, None) && Starts(w, t, store, Render(p, None, None));
    assert Ends(w, t, Size(p), None, None, m(store), fuel);
    u := FlowReturns(w, t, Size(p), m(store), fuel);
  }

  lemma FlowReturns(w: Context, t: Thread, n: nat, r: Effect<Flow>, fuel: nat) returns (u: Thread)
    requires Ends(w, t, n, None, None, r, fuel) && Allowed(r, false, false) && CodeAt(t, n, [UNDEF, RET])
    ensures Leads(w.prog, t, EffectGoal(r, u, fuel))
    ensures r.Success? ==>
      && CodeAt(u, 0, [RET]) && u.callers == t.callers && u.top.code == t.top.code
      && u.stack == t.stack + [ResultOf(r).value]
  {
    var x: Exit :| AtReturn(t, r, x) && Leads(w.prog, t, FlowGoal(w, t, n, None, None, r, x, fuel));
    u := t;
    if r.Success? {
      if r.value.Returned? {
        u := At(t, t.stack + [r.value.value], x.locals, x.at, x.flag);
        Moved(t, u, x.at, 0, [RET]);
      } else {
        u := FallsOff(w, t, n, r.value.store, x.flag);
      }
    }
  }

  /** Past the end of the body, UNDEF stands in for the missing value. */
  lemma FallsOff(w: Context, t: Thread, n: nat, store: Store, flag: bool) returns (u: Thread)
    requires CodeAt(t, n, [UNDEF, RET])
    requires Leads(w.prog, t, Arrive(At(t, t.stack, Represent(w.names, store), n, flag)))
    ensures Leads(w.prog, t, Arrive(u)) && CodeAt(u, 0, [RET])
    ensures u.callers == t.callers && u.top.code == t.top.code && u.stack == t.stack + [Undefined]
  {
    assert [UNDEF, RET] == [UNDEF] + [RET];
    CodeAtParts(t, n, [UNDEF], [RET]);
    var x := At(t, t.stack, Represent(w.names, store), n, flag);
    Moved(t, x, n, 0, [UNDEF]);
    PushStep(w.prog, x, UNDEF, Undefined);
    u := At(x, t.stack + [Undefined], x.top.locals, 1, flag);
    LeadsVia(w.prog, t, x, Arrive(u));
    Moved(t, u, n + 1, 0, [RET]);
  }

  // ---- calls ----

  /** The caller goes on after the call, with the value of the call on its stack. */
  function Resumed(t: Thread, v: Value, flag: bool): Thread
    requires t.callers != []
  {
    var n := |t.callers| - 1;
    Thread(t.stack + [v], t.callers[..n], t.callers[n], flag)
  }

  /** The callee, about to start, does what calling the function means. */
  ghost predicate Answers(prog: Program, t: Thread, r: Effect<Value>, fuel: nat)
    requires t.callers != []
  {
    exists flag: bool :: Leads(prog, t, AnswerGoal(t, r, flag, fuel))
  }

  function AnswerGoal(t: Thread, r: Effect<Value>, flag: bool, fuel: nat): Goal
    requires t.callers != []
  {
    EffectGoal(r, Resumed(t, if r.Success? then r.value else Undefined, flag), fuel)
  }

  lemma BodyAnswers(w: Context, p: Piece, m: FlowMeaning, t: Thread, store: Store, fuel: nat)
    requires StmtDoes(w, p, false, false, m, fuel) && t.callers != []
    requires Starts(w, t, store, Render(p, None, None) + [UNDEF, RET])
    ensures Answers(w.prog, t, ResultOf(m(store)), fuel)
  {
    var u := BodyReturns(w, p, m, t, store, fuel);
    var r := m(store);
    if r.Success? {
      var x := Resumed(t, ResultOf(r).value, u.flag);
      Fetched(u, [RET]);
      LeadsStep(w.prog, u);
      LeadsVia(w.prog, t, u, Arrive(x));
      assert Leads(w.prog, t, AnswerGoal(t, ResultOf(r), u.flag, fuel));
    } else {
      assert Leads(w.prog, t, AnswerGoal(t, ResultOf(r), false, fuel));
    }
  }

  /** The state in which a callee starts. */
  function Entered(t: Thread, below: seq<Value>, f: Function, locals: seq<Value>): Thread {
    Thread(below, t.callers + [t.top.(ip := t.top.ip + 1)], Frame(f.code, locals, 0), t.flag)
  }

  /** CALL, with last argument, ..., first argument, self and count on the stack. */
  lemma CallStep(prog: Program, t: Thread, callee: string, nargs: nat, isMethod: bool, below: seq<Value>,
                 args: seq<Value>, self: Value)
    requires CodeAt(t, 0, [CALL(callee, nargs, isMethod)]) && |args| < TWO_63
    requires t.stack == below + Reversed(args) + [self] + [Int(|args|)]
    ensures match Step(prog, t)
            case Running(u) =>
              Lower(callee) in prog &&
              u == Entered(t, below, prog[Lower(callee)], CalleeLocals(prog[Lower(callee)], t.stack, |args|))
            case Failed(f) => f.IsLimit() || (f == NoFunction && Lower(callee) !in prog)
            case Finished(_) => false
  {
    Fetched(t, [CALL(callee, nargs, isMethod)]);
    assert Peek(t, 0) == Int(|args|);
    assert t.stack[..|t.stack| - |args| - 2] == below;
  }

  /** What applying a function means, given self and the arguments. */
  type Routines = (Value, seq<Value>) -> Effect<Value>

  /** From any caller, with self and arguments bound, the function's code does what applying it means. */
  ghost predicate Callable(prog: Program, f: Function, parameters: seq<string>, body: Routines, fuel: nat) {
    && FrameNames(f.locals, parameters) && f.parameterCount == |parameters|
    && forall u: Thread, self, args ::
         u.callers != [] && u.top == Frame(f.code, Represent(f.locals, Entry(self, parameters, args)), 0) ==>
         Answers(prog, u, body(self, args), fuel)
  }

  /** The value of a call, once self and the arguments are known. */
  function CallResult(known: bool, body: Routines, self: Value, args: seq<Value>, fuel: nat): Effect<Value> {
    if !known then Failure(Fault(NoFunction)) else if fuel == 0 then Failure(OutOfFuel) else body(self, args)
  }

  /** One instruction on, with the value of the call in place of arguments, self and count. */
  function CallGoal(t: Thread, below: seq<Value>, r: Effect<Value>, flag: bool, fuel: nat): Goal {
    EffectGoal(r, At(t, below + [if r.Success? then r.value else Undefined], t.top.locals, 1, flag), fuel)
  }

  lemma CallGlue(prog: Program, t: Thread, callee: string, nargs: nat, isMethod: bool, below: seq<Value>,
                 args: seq<Value>, self: Value, parameters: seq<string>, body: Routines, fuel: nat)
    returns (flag: bool)
    requires CodeAt(t, 0, [CALL(callee, nargs, isMethod)]) && |args| < TWO_63
    requires t.stack == below + Reversed(args) + [self] + [Int(|args|)]
    requires Lower(callee) in prog && fuel > 0 ==> Callable(prog, prog[Lower(callee)], parameters, body, fuel - 1)
    ensures Leads(prog, t, CallGoal(t, below, CallResult(Lower(callee) in prog, body, self, args, fuel), flag, fuel))
  {
    flag := t.flag;
    CallStep(prog, t, callee, nargs, isMethod, below, args, self);
    LeadsStep(prog, t);
    if Step(prog, t).Running? {
      if fuel == 0 {
        LeadsNowhere(prog, t);
      } else {
        var f := prog[Lower(callee)];
        CalleeIsEntry(f, parameters, below, args, self, Int(|args|));
        flag := CallRunning(prog, t, Entered(t, below, f, CalleeLocals(f, t.stack, |args|)), below, body(self, args), fuel);
      }
    }
  }

  lemma CallRunning(prog: Program, t: Thread, u: Thread, below: seq<Value>, r: Effect<Value>, fuel: nat)
    returns (flag: bool)
    requires fuel > 0 && Step(prog, t) == Running(u)
    requires u.callers == t.callers + [t.top.(ip := t.top.ip + 1)] && u.stack == below && Answers(prog, u, r, fuel - 1)
    ensures Leads(prog, t, CallGoal(t, below, r, flag, fuel))
  {
    flag :| Leads(prog, u, AnswerGoal(u, r, flag, fuel - 1));
    LeadsStep(prog, t);
    if r == Failure(OutOfFuel) {
      LastsLonger(prog, t, u, fuel - 1);
    } else {
      assert u.callers[..|t.callers|] == t.callers;
      LeadsVia(prog, t, u, CallGoal(t, below, r, flag, fuel));
    }
  }

  // ---- call expressions ----

  type ArgsMeaning = Store -> Effect<(seq<Value>, Store)>

  function ArgsGoal(w: Context, t: Thread, n: nat, r: Effect<(seq<Value>, Store)>, fuel: nat, flag: bool): Goal {
    EffectGoal(r, if r.Success? then At(t, t.stack + Reversed(r.value.0), Represent(w.names, r.value.1), n, flag)
                  else t, fuel)
  }

  ghost predicate ArgsReach(w: Context, t: Thread, n: nat, count: nat, r: Effect<(seq<Value>, Store)>, fuel: nat) {
    && (r.Success? ==> |r.value.0| == count)
    && exists flag: bool :: Leads(w.prog, t, ArgsGoal(w, t, n, r, fuel, flag))
  }

  /** The code pushes the arguments, the last one first. */
  ghost predicate ArgsDo(w: Context, c: Code, count: nat, m: ArgsMeaning, fuel: nat) {
    forall t, store :: Starts(w, t, store, c) ==> ArgsReach(w, t, |c|, count, m(store), fuel)
  }

  /** The value of the first argument in front of those of the others, which were evaluated before. */
  function OneMoreArgument(rest: ArgsMeaning, first: Meaning, store: Store): Effect<(seq<Value>, Store)> {
    var (vs, s1) :- rest(store);
    var (v, s2) :- first(s1);
    Success(([v] + vs, s2))
  }

  lemma NoArgumentsRun(w: Context, t: Thread, store: Store, fuel: nat)
    requires Starts(w, t, store, [])
    ensures ArgsReach(w, t, 0, 0, Success(([], store)), fuel)
  {
    LeadsNowhere(w.prog, t);
    assert At(t, t.stack + Reversed([]), Represent(w.names, store), 0, t.flag) == t;
    assert Leads(w.prog, t, ArgsGoal(w, t, 0, Success(([], store)), fuel, t.flag));
  }

  lemma MoreArgumentsRun(w: Context, c: Code, count: nat, m: ArgsMeaning, d: Code, k: Meaning, t: Thread, store: Store,
                         fuel: nat)
    requires ArgsDo(w, c, count, m, fuel) && Does(w, d, k, fuel) && Starts(w, t, store, c + d)
    ensures ArgsReach(w, t, |c| + |d|, count + 1, OneMoreArgument(m, k, store), fuel)
  {
    CodeAtParts(t, 0, c, d);
    assert Starts(w, t, store, c);
    var x, r := m(store), OneMoreArgument(m, k, store);
    var f :| Leads(w.prog, t, ArgsGoal(w, t, |c|, x, fuel, f));
    if x.Success? {
      var u := At(t, t.stack + Reversed(x.value.0), Represent(w.names, x.value.1), |c|, f);
      var g := RunAt(w, d, k, t, u, |c|, x.value.1, fuel);
      var y := k(x.value.1);
      if y.Success? {
        ReversedMore(y.value.0, x.value.0);
        assert u.stack + [y.value.0] == t.stack + Reversed([y.value.0] + x.value.0);
      }
      LeadsVia(w.prog, t, u, ArgsGoal(w, t, |c| + |d|, r, fuel, g));
    } else {
      assert Leads(w.prog, t, ArgsGoal(w, t, |c| + |d|, r, fuel, f));
    }
  }

  function CallMeaning(am: ArgsMeaning, rm: Meaning, known: bool, body: Routines, fuel: nat, store: Store)
    : Effect<(Value, Store)>
  {
    var (vs, s1) :- am(store);
    var (self, s2) :- rm(s1);
    var v :- CallResult(known, body, self, vs, fuel);
    Success((v, s2))
  }

  lemma CallRuns(w: Context, ac: Code, am: ArgsMeaning, rc: Code, rm: Meaning, callee: string, nargs: nat, isMethod: bool,
                 parameters: seq<string>, body: Routines, t: Thread, store: Store, fuel: nat)
    requires ArgsDo(w, ac, nargs, am, fuel) && Does(w, rc, rm, fuel) && nargs < TWO_63
    requires Starts(w, t, store, ac + rc + [PUSH(IntLiteral(nargs)), CALL(callee, nargs, isMethod)])
    requires Lower(callee) in w.prog && fuel > 0 ==> Callable(w.prog, w.prog[Lower(callee)], parameters, body, fuel - 1)
    ensures Reaches(w, t, |ac + rc| + 2, CallMeaning(am, rm, Lower(callee) in w.prog, body, fuel, store), fuel)
  {
    var tail := [PUSH(IntLiteral(nargs)), CALL(callee, nargs, isMethod)];
    CallParts(w, t, store, ac, rc, tail, |ac|, |ac| + |rc|);
    CallAt(w, ac, am, rc, rm, callee, nargs, isMethod, parameters, body, t, store, |ac| + |rc|, |ac + rc| + 2, fuel);
  }

  lemma CallParts(w: Context, t: Thread, store: Store, a: Code, b: Code, c: Code, m: nat, n: nat)
    requires Starts(w, t, store, a + b + c) && m == |a| && n == m + |b|
    ensures Starts(w, t, store, a) && CodeAt(t, m, b) && CodeAt(t, n, c)
  {
    CodeAtThree(t, 0, a, b, c);
  }

  lemma CallAt(w: Context, ac: Code, am: ArgsMeaning, rc: Code, rm: Meaning, callee: string, nargs: nat, isMethod: bool,
               parameters: seq<string>, body: Routines, t: Thread, store: Store, m: nat, n: nat, fuel: nat)
    requires ArgsDo(w, ac, nargs, am, fuel) && Does(w, rc, rm, fuel) && nargs < TWO_63
    requires Starts(w, t, store, ac) && CodeAt(t, |ac|, rc)
    requires m == |ac| + |rc| && n == m + 2 && CodeAt(t, m, [PUSH(IntLiteral(nargs)), CALL(callee, nargs, isMethod)])
    requires Lower(callee) in w.prog && fuel > 0 ==> Callable(w.prog, w.prog[Lower(callee)], parameters, body, fuel - 1)
    ensures Reaches(w, t, n, CallMeaning(am, rm, Lower(callee) in w.prog, body, fuel, store), fuel)
  {
    var x, r := am(store), CallMeaning(am, rm, Lower(callee) in w.prog, body, fuel, store);
    var f :| Leads(w.prog, t, ArgsGoal(w, t, |ac|, x, fuel, f));
    if x.Success? {
      var (vs, s1) := x.value;
      var u := At(t, t.stack + Reversed(vs), Represent(w.names, s1), |ac|, f);
      var g := RunAt(w, rc, rm, t, u, |ac|, s1, fuel);
      Moved(t, u, |ac|, |rc|, [PUSH(IntLiteral(nargs)), CALL(callee, nargs, isMethod)]);
      var h := CallTail(w, u, t.stack, vs, |rc|, rm(s1), callee, nargs, isMethod, parameters, body, fuel, g);
      LeadsVia(w.prog, t, u, ExprGoal(w, t, n, r, fuel, h));
    } else {
      assert Leads(w.prog, t, ExprGoal(w, t, n, r, fuel, f));
    }
  }

  function CallAfter(r: Effect<(Value, Store)>, known: bool, body: Routines, vs: seq<Value>, fuel: nat)
    : Effect<(Value, Store)>
  {
    var (self, s2) :- r;
    var v :- CallResult(known, body, self, vs, fuel);
    Success((v, s2))
  }

  /** The goal of a call, seen from a thread that has pushed the arguments already. */
  function AfterArguments(w: Context, u: Thread, below: seq<Value>, n: nat, r: Effect<(Value, Store)>, flag: bool, fuel: nat): Goal {
    EffectGoal(r, if r.Success? then At(u, below + [r.value.0], Represent(w.names, r.value.1), n, flag) else u, fuel)
  }

  lemma CallTail(w: Context, u: Thread, below: seq<Value>, vs: seq<Value>, n: nat, r: Effect<(Value, Store)>,
                 callee: string, nargs: nat, isMethod: bool, parameters: seq<string>, body: Routines, fuel: nat, g: bool)
    returns (h: bool)
    requires u.stack == below + Reversed(vs) && |vs| == nargs < TWO_63
    requires CodeAt(u, n, [PUSH(IntLiteral(nargs)), CALL(callee, nargs, isMethod)])
    requires Leads(w.prog, u, ExprGoal(w, u, n, r, fuel, g))
    requires Lower(callee) in w.prog && fuel > 0 ==> Callable(w.prog, w.prog[Lower(callee)], parameters, body, fuel - 1)
    ensures Leads(w.prog, u, AfterArguments(w, u, below, n + 2,
                                            CallAfter(r, Lower(callee) in w.prog, body, vs, fuel), h, fuel))
  {
    h := g;
    if r.Success? {
      var push, call := PUSH(IntLiteral(nargs)), CALL(callee, nargs, isMethod);
      assert [push, call] == [push] + [call];
      CodeAtParts(u, n, [push], [call]);
      var x := At(u, u.stack + [r.value.0], Represent(w.names, r.value.1), n, g);
      Moved(u, x, n, 0, [push]);
      PushStep(w.prog, x, push, Int(nargs));
      var y := At(x, x.stack + [Int(nargs)], x.top.locals, 1, g);
      Moved(u, y, n + 1, 0, [call]);
      h := CallGlue(w.prog, y, callee, nargs, isMethod, below, vs, r.value.0, parameters, body, fuel);
      var goal := AfterArguments(w, u, below, n + 2, CallAfter(r, Lower(callee) in w.prog, body, vs, fuel), h, fuel);
      LeadsVia(w.prog, x, y, goal);
      LeadsVia(w.prog, u, x, goal);
    }
  }
}
