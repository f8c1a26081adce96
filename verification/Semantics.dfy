/**
 * The meaning of programs, on the syntax and without a machine. Variables are looked up by
 * folded name; a variable that was never assigned is undefined. Fuel bounds loops and calls,
 * so that the meaning is a function.
 */
module Semantics {
  import opened Wrappers
  import opened Values
  import opened Syntax

  type Store = map<string, Value>

  datatype Routine = Routine(parameters: seq<string>, body: Stmt)

  /** Functions by their folded names. */
  type Source = map<string, Routine>

  datatype Stop = Fault(fault: Fault) | OutOfFuel

  type Effect<+T> = Result<T, Stop>

  /** How a statement ends. */
  datatype Flow =
    | Normal(store: Store)
    | Broken(store: Store)
    | Continued(store: Store)
    | Returned(value: Value)

  function Lookup(store: Store, x: string): Value {
    if x in store then store[x] else Undefined
  }

  function Lift<T>(r: Result<T, Fault>): Effect<T> {
    match r case Success(x) => Success(x) case Failure(f) => Failure(Fault(f))
  }

  /** Assign to `self` or to a variable; nothing else can be assigned to. */
  function Update(store: Store, lhs: Expr, v: Value): Effect<Store> {
    match lhs
    case Self => Success(store["self" := v])
    case Id(x) => Success(store[Lower(x) := v])
    case _ => Failure(Fault(BadReference))
  }

  /** What a callee starts with: self, and each parameter with its argument if there is one. */
  function Entry(self: Value, parameters: seq<string>, args: seq<Value>): Store {
    if parameters == [] then map["self" := self]
    else
      var n := |parameters| - 1;
      Entry(self, parameters[..n], args)[Lower(parameters[n]) := if n < |args| then args[n] else Undefined]
  }

  // ---- expressions ----

  function Eval(src: Source, e: Expr, store: Store, fuel: nat): Effect<(Value, Store)>
    decreases fuel, e, 1
  {
    match e
    case Lit(l) => Success((ValueOf(l), store))
    case Self => Success((Lookup(store, "self"), store))
    case Id(x) => Success((Lookup(store, Lower(x)), store))
    case Group(a) => Eval(src, a, store, fuel)
    case Negate(a) =>
      var (v, s) :- Eval(src, a, store, fuel);
      var r :- Lift(Binop(Sub, v, Int(0)));
      Success((r, s))
    case Prefix(op, a) =>
      var (v, s) :- Eval(src, a, store, fuel);
      var r :- Lift(Unary(op, v));
      Success((r, s))
    case Postfix(increment, a) =>
      var (before, s1) :- Eval(src, a, store, fuel);
      var (v, s2) :- Eval(src, a, s1, fuel);
      var r :- Lift(Binop(if increment then Add else Sub, v, Int(1)));
      var s3 :- Update(s2, a, r);
      Success((before, s3))
    case Assign(l, r) =>
      var (v, s1) :- Eval(src, r, store, fuel);
      var s2 :- Update(s1, l, v);
      Success((v, s2))
    case OpAssign(op, l, r) =>
      var (a, s1) :- Eval(src, l, store, fuel);
      var (b, s2) :- Eval(src, r, s1, fuel);
      var v :- Lift(Binop(op, a, b));
      var s3 :- Update(s2, l, v);
      Success((v, s3))
    case Binary(op, l, r) =>
      var (a, s1) :- Eval(src, l, store, fuel);
      var (b, s2) :- Eval(src, r, s1, fuel);
      var v :- Lift(Binop(op, a, b));
      Success((v, s2))
    case And(l, r) =>
      var (a, s1) :- Eval(src, l, store, fuel);
      var c :- Lift(Test(a));
      if !c then Success((Int(0), s1))
      else
        var (b, s2) :- Eval(src, r, s1, fuel);
        var v :- Lift(Binop(LogicalAnd, Int(1), b));
        Success((v, s2))
    case Or(l, r) =>
      var (a, s1) :- Eval(src, l, store, fuel);
      var c :- Lift(Test(a));
      if c then Success((Int(1), s1))
      else
        var (b, s2) :- Eval(src, r, s1, fuel);
        var v :- Lift(Binop(LogicalOr, Int(0), b));
        Success((v, s2))
    case Ternary(t, a, b) =>
      var (v, s1) :- Eval(src, t, store, fuel);
      var c :- Lift(Test(v));
      if c then Eval(src, a, s1, fuel) else Eval(src, b, s1, fuel)
    case Call(receiver, callee, arguments) =>
      var (vs, s1) :- EvalArguments(src, arguments, store, fuel);
      var (self, s2) :- EvalReceiver(src, receiver, s1, fuel);
      if Lower(callee) !in src then Failure(Fault(NoFunction))
      else if fuel == 0 then Failure(OutOfFuel)
      else
        var v :- Apply(src, Lower(callee), self, vs, fuel - 1);
        Success((v, s2))
  }

  /** Without a receiver, the callee gets the caller's own self. */
  function EvalReceiver(src: Source, receiver: Option<Expr>, store: Store, fuel: nat): Effect<(Value, Store)>
    decreases fuel, receiver, 1
  {
    match receiver
    case Some(e) => Eval(src, e, store, fuel)
    case None => Success((Lookup(store, "self"), store))
  }

  /** Arguments are evaluated last first; element `i` of the result is the value of argument `i`. */
  function EvalArguments(src: Source, es: seq<Expr>, store: Store, fuel: nat): (r: Effect<(seq<Value>, Store)>)
    ensures r.Success? ==> |r.value.0| == |es|
    decreases fuel, es, 0
  {
    if es == [] then Success(([], store))
    else
      var (vs, s1) :- EvalArguments(src, es[1..], store, fuel);
      var (v, s2) :- Eval(src, es[0], s1, fuel);
      Success(([v] + vs, s2))
  }

  /** Run a function; falling off its end returns undefined. Its variables are its own. */
  function Apply(src: Source, f: string, self: Value, args: seq<Value>, fuel: nat): Effect<Value>
    requires f in src
    decreases fuel
  {
    var flow :- Exec(src, src[f].body, Entry(self, src[f].parameters, args), fuel);
    Success(if flow.Returned? then flow.value else Undefined)
  }

  // ---- statements ----

  function EvalDiscarded(src: Source, e: Option<Expr>, store: Store, fuel: nat): Effect<Store>
    decreases fuel, e, 1
  {
    match e
    case Some(e) =>
      var (_, s) :- Eval(src, e, store, fuel);
      Success(s)
    case None => Success(store)
  }

  /** A missing loop test is true. */
  function EvalGuard(src: Source, e: Option<Expr>, store: Store, fuel: nat): Effect<(Value, Store)>
    decreases fuel, e, 1
  {
    match e case Some(e) => Eval(src, e, store, fuel) case None => Success((Int(1), store))
  }

  function Exec(src: Source, s: Stmt, store: Store, fuel: nat): Effect<Flow>
    decreases fuel, s, 2
  {
    match s
    case Empty => Success(Normal(store))
    case ExprStmt(e) =>
      var (_, s1) :- Eval(src, e, store, fuel);
      Success(Normal(s1))
    case Return(value) =>
      if value.None? then Success(Returned(Undefined))
      else
        var (v, _) :- Eval(src, value.value, store, fuel);
        Success(Returned(v))
    case Block(body) => ExecAll(src, body, store, fuel)
    case If(t, a, b) =>
      var (v, s1) :- Eval(src, t, store, fuel);
      var c :- Lift(Test(v));
      if c then Exec(src, a, s1, fuel)
      else if b.Some? then Exec(src, b.value, s1, fuel)
      else Success(Normal(s1))
    case While(guard, loop) => ExecLoop(src, s, guard, loop, None, store, fuel)
    case For(init, guard, update, loop) =>
      var s1 :- EvalDiscarded(src, init, store, fuel);
      ExecLoop(src, s, guard, loop, update, s1, fuel)
    case Switch(d, cases) =>
      var (chosen, s1) :- Choose(src, s, cases, store, fuel);
      var flow :- ExecSwitch(src, cases, chosen, s1, fuel);
      Success(if flow.Broken? then Normal(flow.store) else flow)
    case Break => Success(Broken(store))
    case Continue => Success(Continued(store))
  }

  /** A loop of the statement `s`. `continue` goes on with the update. */
  function ExecLoop(src: Source, s: Stmt, guard: Option<Expr>, loop: Stmt, update: Option<Expr>,
                    store: Store, fuel: nat): Effect<Flow>
    requires (s decreases to guard) && (s decreases to loop) && (update.Some? ==> (s decreases to update))
    decreases fuel, s, 1
  {
    var (v, s1) :- EvalGuard(src, guard, store, fuel);
    var c :- Lift(Test(v));
    if !c then Success(Normal(s1))
    else
      var flow :- Exec(src, loop, s1, fuel);
      match flow
      case Returned(_) => Success(flow)
      case Broken(s2) => Success(Normal(s2))
      case _ =>
        var s3 :- if update.None? then Success(flow.store) else EvalDiscarded(src, update, flow.store, fuel);
        if fuel == 0 then Failure(OutOfFuel) else ExecLoop(src, s, guard, loop, update, s3, fuel - 1)
  }

  function ExecAll(src: Source, ss: Stmts, store: Store, fuel: nat): Effect<Flow>
    decreases fuel, ss, 0
  {
    match ss
    case Nil => Success(Normal(store))
    case Cons(s, rest) =>
      var flow :- Exec(src, s, store, fuel);
      if flow.Normal? then ExecAll(src, rest, flow.store, fuel) else Success(flow)
  }

  // ---- switch, as this compiler defines it ----

  /** The first case whose label equals the discriminant; each test evaluates both. */
  function Choose(src: Source, s: Stmt, cases: Cases, store: Store, fuel: nat)
    : (r: Effect<(Option<Cases>, Store)>)
    requires s.Switch? && (s decreases to cases)
    ensures r.Success? && r.value.0.Some? ==>
      r.value.0.value.Case? && (r.value.0.value == cases || (cases decreases to r.value.0.value))
    decreases fuel, s, 1, cases
  {
    match cases
    case NoCases => Success((None, store))
    case Case(test, _, rest) =>
      if test.None? then Choose(src, s, rest, store, fuel)
      else
        var (a, s1) :- Eval(src, s.discriminant, store, fuel);
        var (b, s2) :- Eval(src, test.value, s1, fuel);
        var equal :- Lift(Binop(Equal, a, b));
        var hit :- Lift(Test(equal));
        if hit then Success((Some(cases), s2)) else Choose(src, s, rest, s2, fuel)
  }

  /**
   * Bodies fall through in the order in which they are compiled: the default comes last. When no
   * label matches and there is no default, execution falls into the first body.
   */
  function ExecSwitch(src: Source, cases: Cases, chosen: Option<Cases>, store: Store, fuel: nat): Effect<Flow>
    requires chosen.Some? ==> chosen.value == cases || (cases decreases to chosen.value)
    decreases fuel, cases, 2
  {
    if chosen.None? && DefaultBody(cases).Some? then ExecAll(src, DefaultBody(cases).value, store, fuel)
    else
      var flow :- ExecBodies(src, if chosen.Some? then chosen.value else cases, store, fuel);
      if flow.Normal? && DefaultBody(cases).Some?
      then ExecAll(src, DefaultBody(cases).value, flow.store, fuel)
      else Success(flow)
  }

  function ExecBodies(src: Source, cases: Cases, store: Store, fuel: nat): Effect<Flow>
    decreases fuel, cases, 1
  {
    match cases
    case NoCases => Success(Normal(store))
    case Case(test, body, rest) =>
      if test.None? then ExecBodies(src, rest, store, fuel)
      else
        var flow :- ExecAll(src, body, store, fuel);
        if flow.Normal? then ExecBodies(src, rest, flow.store, fuel) else Success(flow)
  }
}
