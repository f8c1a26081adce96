/**
 * The compiled code does what the source means. A run of the machine on the code of an
 * expression arrives where the meaning says, faults with the same fault, or goes on for as long
 * as the fuel lasts - unless it runs into one of the machine's fixed limits.
 */
module Simulation {
  import opened Wrappers
  import opened Values
  import opened Syntax
  import opened Bytecode
  import opened Emitter
  import opened Layout
  import opened Placement
  import opened Machine
  import opened Semantics
  import opened Runs
  import opened Locals
  import opened Glue
  import opened Runners
  import opened Calling

  function Ev(src: Source, e: Expr, fuel: nat): Meaning {
    s => Eval(src, e, s, fuel)
  }

  function EvReceiver(src: Source, e: Option<Expr>, fuel: nat): Meaning {
    s => EvalReceiver(src, e, s, fuel)
  }

  function EvArguments(src: Source, es: seq<Expr>, fuel: nat): ArgsMeaning {
    s => EvalArguments(src, es, s, fuel)
  }

  /** The code of an expression does what the expression means. */
  ghost predicate ExprDoes(src: Source, w: Context, e: Expr, fuel: nat) {
    Does(w, ExprCode(e, w.names), Ev(src, e, fuel), fuel)
  }

  lemma LeafCase(src: Source, w: Context, e: Expr, fuel: nat)
    requires e.Lit? || e.Self? || e.Id?
    requires ExprBound(e, w.names) && HasSelf(w.names)
    ensures ExprDoes(src, w, e, fuel)
  {
    forall t, store | Starts(w, t, store, ExprCode(e, w.names))
      ensures Reaches(w, t, |ExprCode(e, w.names)|, Ev(src, e, fuel)(store), fuel)
    {
      var v := Eval(src, e, store, fuel).value.0;
      PushStep(w.prog, t, ExprCode(e, w.names)[0], v);
      assert Leads(w.prog, t, ExprGoal(w, t, 1, Eval(src, e, store, fuel), fuel, t.flag));
    }
  }

  lemma NegateCase(src: Source, w: Context, e: Expr, fuel: nat)
    requires e.Negate? && ExprDoes(src, w, e.argument, fuel)
    ensures ExprDoes(src, w, e, fuel)
  {
    var c, m := ExprCode(e.argument, w.names), Ev(src, e.argument, fuel);
    forall t, store | Starts(w, t, store, ExprCode(e, w.names))
      ensures Reaches(w, t, |ExprCode(e, w.names)|, Ev(src, e, fuel)(store), fuel)
    {
      NegateRuns(w, c, m, t, store, fuel);
    }
  }

  lemma PrefixCase(src: Source, w: Context, e: Expr, fuel: nat)
    requires e.Prefix? && ExprDoes(src, w, e.argument, fuel)
    ensures ExprDoes(src, w, e, fuel)
  {
    var c, m := ExprCode(e.argument, w.names), Ev(src, e.argument, fuel);
    forall t, store | Starts(w, t, store, ExprCode(e, w.names))
      ensures Reaches(w, t, |ExprCode(e, w.names)|, Ev(src, e, fuel)(store), fuel)
    {
      PrefixRuns(w, c, m, e.op, t, store, fuel);
    }
  }

  /** The slot that an lvalue refers to is the one of its variable. */
  lemma LvalueSlot(w: Context, l: Expr)
    requires IsLvalue(l) && ExprBound(l, w.names) && HasSelf(w.names) && Distinct(w.names)
    ensures SlotOf(w, l, LvalueCode(l, w.names))
  {
    SelfSlot(w.names);
  }

  lemma PostfixCase(src: Source, w: Context, e: Expr, fuel: nat)
    requires e.Postfix? && ExprDoes(src, w, e.argument, fuel)
    requires SlotOf(w, e.argument, LvalueCode(e.argument, w.names))
    ensures ExprDoes(src, w, e, fuel)
  {
    var c, m, ref := ExprCode(e.argument, w.names), Ev(src, e.argument, fuel), LvalueCode(e.argument, w.names);
    forall t, store | Starts(w, t, store, ExprCode(e, w.names))
      ensures Reaches(w, t, |ExprCode(e, w.names)|, Ev(src, e, fuel)(store), fuel)
    {
      PostfixRuns(w, c, m, if e.increment then Add else Sub, e.argument, ref, t, store, fuel);
    }
  }

  lemma AssignCase(src: Source, w: Context, e: Expr, fuel: nat)
    requires e.Assign? && ExprDoes(src, w, e.rhs, fuel) && SlotOf(w, e.lhs, LvalueCode(e.lhs, w.names))
    ensures ExprDoes(src, w, e, fuel)
  {
    var c, m := ExprCode(e.rhs, w.names), Ev(src, e.rhs, fuel);
    forall t, store | Starts(w, t, store, ExprCode(e, w.names))
      ensures Reaches(w, t, |ExprCode(e, w.names)|, Ev(src, e, fuel)(store), fuel)
    {
      AssignRuns(w, c, m, e.lhs, LvalueCode(e.lhs, w.names), t, store, fuel);
    }
  }

  lemma OpAssignCase(src: Source, w: Context, e: Expr, fuel: nat)
    requires e.OpAssign? && ExprDoes(src, w, e.lhs, fuel) && ExprDoes(src, w, e.rhs, fuel)
    requires SlotOf(w, e.lhs, LvalueCode(e.lhs, w.names))
    ensures ExprDoes(src, w, e, fuel)
  {
    var c, m, d, k := ExprCode(e.lhs, w.names), Ev(src, e.lhs, fuel), ExprCode(e.rhs, w.names), Ev(src, e.rhs, fuel);
    forall t, store | Starts(w, t, store, ExprCode(e, w.names))
      ensures Reaches(w, t, |ExprCode(e, w.names)|, Ev(src, e, fuel)(store), fuel)
    {
      OpAssignRuns(w, c, m, d, k, e.aop, e.lhs, LvalueCode(e.lhs, w.names), t, store, fuel);
    }
  }

  lemma BinaryCase(src: Source, w: Context, e: Expr, fuel: nat)
    requires e.Binary? && ExprDoes(src, w, e.lhs, fuel) && ExprDoes(src, w, e.rhs, fuel)
    ensures ExprDoes(src, w, e, fuel)
  {
    var c, m, d, k := ExprCode(e.lhs, w.names), Ev(src, e.lhs, fuel), ExprCode(e.rhs, w.names), Ev(src, e.rhs, fuel);
    forall t, store | Starts(w, t, store, ExprCode(e, w.names))
      ensures Reaches(w, t, |ExprCode(e, w.names)|, Ev(src, e, fuel)(store), fuel)
    {
      BinaryRuns(w, c, m, d, k, e.bop, t, store, fuel);
    }
  }

  lemma LogicalCase(src: Source, w: Context, e: Expr, fuel: nat)
    requires (e.And? || e.Or?) && ExprDoes(src, w, e.lhs, fuel) && ExprDoes(src, w, e.rhs, fuel)
    ensures ExprDoes(src, w, e, fuel)
  {
    var c, m, d, k := ExprCode(e.lhs, w.names), Ev(src, e.lhs, fuel), ExprCode(e.rhs, w.names), Ev(src, e.rhs, fuel);
    forall t, store | Starts(w, t, store, ExprCode(e, w.names))
      ensures Reaches(w, t, |ExprCode(e, w.names)|, Ev(src, e, fuel)(store), fuel)
    {
      LogicalRuns(w, c, m, e.And?, d, k, t, store, fuel);
    }
  }

  lemma TernaryCase(src: Source, w: Context, e: Expr, fuel: nat)
    requires e.Ternary? && ExprDoes(src, w, e.test, fuel)
    requires ExprDoes(src, w, e.consequent, fuel) && ExprDoes(src, w, e.alternative, fuel)
    ensures ExprDoes(src, w, e, fuel)
  {
    var c, m := ExprCode(e.test, w.names), Ev(src, e.test, fuel);
    var ac, a := ExprCode(e.consequent, w.names), Ev(src, e.consequent, fuel);
    var bc, b := ExprCode(e.alternative, w.names), Ev(src, e.alternative, fuel);
    forall t, store | Starts(w, t, store, ExprCode(e, w.names))
      ensures Reaches(w, t, |ExprCode(e, w.names)|, Ev(src, e, fuel)(store), fuel)
    {
      TernaryRuns(w, c, m, ac, a, bc, b, t, store, fuel);
    }
  }

  // ---- calls ----

  lemma {:induction false} ExprCodeNotEmpty(e: Expr, names: seq<string>)
    ensures ExprCode(e, names) != []
    decreases e
  {
    if e.Group? {
      ExprCodeNotEmpty(e.inner, names);
    }
  }

  /** Every argument has code, so there are fewer arguments than instructions. */
  lemma {:induction false} ArgumentsCodeSize(es: seq<Expr>, names: seq<string>)
    ensures |es| <= |ArgumentsCode(es, names)|
  {
    if es != [] {
      ArgumentsCodeSize(es[1..], names);
      ExprCodeNotEmpty(es[0], names);
    }
  }

  ghost predicate ArgumentsDo(src: Source, w: Context, es: seq<Expr>, fuel: nat) {
    ArgsDo(w, ArgumentsCode(es, w.names), |es|, EvArguments(src, es, fuel), fuel)
  }

  ghost predicate ReceiverDoes(src: Source, w: Context, e: Option<Expr>, fuel: nat) {
    Does(w, ReceiverCode(e, w.names), EvReceiver(src, e, fuel), fuel)
  }

  lemma NoArguments(src: Source, w: Context, es: seq<Expr>, fuel: nat)
    requires es == []
    ensures ArgumentsDo(src, w, es, fuel)
  {
    forall t, store | Starts(w, t, store, ArgumentsCode(es, w.names))
      ensures ArgsReach(w, t, |ArgumentsCode(es, w.names)|, |es|, EvArguments(src, es, fuel)(store), fuel)
    {
      NoArgumentsRun(w, t, store, fuel);
    }
  }

  lemma MoreArguments(src: Source, w: Context, es: seq<Expr>, fuel: nat)
    requires es != [] && ArgumentsDo(src, w, es[1..], fuel) && ExprDoes(src, w, es[0], fuel)
    ensures ArgumentsDo(src, w, es, fuel)
  {
    var c, m := ArgumentsCode(es[1..], w.names), EvArguments(src, es[1..], fuel);
    var d, k := ExprCode(es[0], w.names), Ev(src, es[0], fuel);
    forall t, store | Starts(w, t, store, ArgumentsCode(es, w.names))
      ensures ArgsReach(w, t, |ArgumentsCode(es, w.names)|, |es|, EvArguments(src, es, fuel)(store), fuel)
    {
      MoreArgumentsRun(w, c, |es[1..]|, m, d, k, t, store, fuel);
    }
  }

  lemma ReceiverCase(src: Source, w: Context, e: Option<Expr>, fuel: nat)
    requires HasSelf(w.names) && (e.Some? ==> ExprDoes(src, w, e.value, fuel))
    ensures ReceiverDoes(src, w, e, fuel)
  {
    var c, m := ReceiverCode(e, w.names), EvReceiver(src, e, fuel);
    forall t, store | Starts(w, t, store, c) ensures Reaches(w, t, |c|, m(store), fuel) {
      if e.Some? {
        var f := RunAt(w, c, Ev(src, e.value, fuel), t, t, 0, store, fuel);
      } else {
        PushStep(w.prog, t, LOAD(0), Lookup(store, "self"));
        assert Leads(w.prog, t, ExprGoal(w, t, 1, m(store), fuel, t.flag));
      }
    }
  }

  /** Applying a function of the source. */
  function Applied(src: Source, f: string, fuel: nat): Routines
    requires f in src
  {
    (self, args) => Apply(src, f, self, args, fuel)
  }

  /** What is known about the function that a call calls. */
  ghost predicate CalleeDoes(src: Source, prog: Program, f: string, fuel: nat) {
    f in src && f in prog && Callable(prog, prog[f], src[f].parameters, Applied(src, f, fuel), fuel)
  }

  lemma CallCase(src: Source, w: Context, e: Expr, fuel: nat)
    requires e.Call? && ArgumentsDo(src, w, e.arguments, fuel) && ReceiverDoes(src, w, e.receiver, fuel)
    requires var f := Lower(e.callee);
             (f in src <==> f in w.prog) && (f in src && fuel > 0 ==> CalleeDoes(src, w.prog, f, fuel - 1))
    ensures ExprDoes(src, w, e, fuel)
  {
    forall t, store | Starts(w, t, store, ExprCode(e, w.names))
      ensures Reaches(w, t, |ExprCode(e, w.names)|, Ev(src, e, fuel)(store), fuel)
    {
      CallCaseAt(src, w, e, t, store, fuel);
    }
  }

  function ParametersOf(src: Source, f: string): seq<string> {
    if f in src then src[f].parameters else []
  }

  function BodyOf(src: Source, f: string, fuel: nat): Routines {
    if f in src && fuel > 0 then Applied(src, f, fuel - 1) else (self, args) => Success(Undefined)
  }

  lemma CallMeans(src: Source, e: Expr, store: Store, fuel: nat)
    requires e.Call?
    ensures var f := Lower(e.callee);
            Eval(src, e, store, fuel) ==
            CallMeaning(EvArguments(src, e.arguments, fuel), EvReceiver(src, e.receiver, fuel), f in src,
                        BodyOf(src, f, fuel), fuel, store)
  {
  }

  lemma CallCaseAt(src: Source, w: Context, e: Expr, t: Thread, store: Store, fuel: nat)
    requires e.Call? && ArgumentsDo(src, w, e.arguments, fuel) && ReceiverDoes(src, w, e.receiver, fuel)
    requires var f := Lower(e.callee);
             (f in src <==> f in w.prog) && (f in src && fuel > 0 ==> CalleeDoes(src, w.prog, f, fuel - 1))
    requires Starts(w, t, store, ExprCode(e, w.names))
    ensures Reaches(w, t, |ExprCode(e, w.names)|, Eval(src, e, store, fuel), fuel)
  {
    var f, n := Lower(e.callee), |e.arguments|;
    var ac, rc := ArgumentsCode(e.arguments, w.names), ReceiverCode(e.receiver, w.names);
    ArgumentsCodeSize(e.arguments, w.names);
    assert n < TWO_63;
    CallRuns(w, ac, EvArguments(src, e.arguments, fuel), rc, EvReceiver(src, e.receiver, fuel), e.callee, n,
             e.receiver.Some?, ParametersOf(src, f), BodyOf(src, f, fuel), t, store, fuel);
    CallMeans(src, e, store, fuel);
  }
}
