/** `switch` as it is compiled, compared with the one of C: which body is run first, and which ones after it. */
module Switches {
  import opened Wrappers
  import opened Values
  import opened Syntax
  import opened Semantics

  // ---- C's switch ----

  /** The cases from the first `default` on. */
  function FromDefault(cases: Cases): Option<Cases> {
    match cases
    case NoCases => None
    case Case(test, _, rest) => if test.None? then Some(cases) else FromDefault(rest)
  }

  /** Bodies fall through in the order in which they are written, `default` included. */
  function FallInOrder(src: Source, cases: Cases, store: Store, fuel: nat): Effect<Flow> {
    match cases
    case NoCases => Success(Normal(store))
    case Case(_, body, rest) =>
      var flow :- ExecAll(src, body, store, fuel);
      if flow.Normal? then FallInOrder(src, rest, flow.store, fuel) else Success(flow)
  }

  /** Start at the chosen case, or at `default`, or skip the switch. */
  function CSwitch(src: Source, cases: Cases, chosen: Option<Cases>, store: Store, fuel: nat): Effect<Flow> {
    if chosen.Some? then FallInOrder(src, chosen.value, store, fuel)
    else if FromDefault(cases).Some? then FallInOrder(src, FromDefault(cases).value, store, fuel)
    else Success(Normal(store))
  }

  /** The first case whose label is `v`. Labels are looked at in the same state, as if they were constants. */
  function CChoose(src: Source, cases: Cases, v: Value, store: Store, fuel: nat): Effect<Option<Cases>> {
    match cases
    case NoCases => Success(None)
    case Case(test, _, rest) =>
      if test.None? then CChoose(src, rest, v, store, fuel)
      else
        var (b, _) :- Eval(src, test.value, store, fuel);
        var equal :- Lift(Binop(Equal, v, b));
        var hit :- Lift(Test(equal));
        if hit then Success(Some(cases)) else CChoose(src, rest, v, store, fuel)
  }

  function Unbroken(flow: Flow): Flow {
    if flow.Broken? then Normal(flow.store) else flow
  }

  /** The discriminant is evaluated once. */
  function CExec(src: Source, d: Expr, cases: Cases, store: Store, fuel: nat): Effect<Flow> {
    var (v, s1) :- Eval(src, d, store, fuel);
    var chosen :- CChoose(src, cases, v, s1, fuel);
    var flow :- CSwitch(src, cases, chosen, s1, fuel);
    Success(Unbroken(flow))
  }

  // ---- the choice: once, or again at each label ----

  /** No assignment, increment or decrement anywhere. A call has variables of its own. */
  predicate AssignsNothing(e: Expr)
    decreases e, 1
  {
    match e
    case Lit(_) => true
    case Self => true
    case Id(_) => true
    case Group(a) => AssignsNothing(a)
    case Negate(a) => AssignsNothing(a)
    case Prefix(_, a) => AssignsNothing(a)
    case Postfix(_, _) => false
    case Assign(_, _) => false
    case OpAssign(_, _, _) => false
    case Binary(_, l, r) => AssignsNothing(l) && AssignsNothing(r)
    case And(l, r) => AssignsNothing(l) && AssignsNothing(r)
    case Or(l, r) => AssignsNothing(l) && AssignsNothing(r)
    case Ternary(t, a, b) => AssignsNothing(t) && AssignsNothing(a) && AssignsNothing(b)
    case Call(receiver, _, arguments) =>
      (match receiver case Some(r) => AssignsNothing(r) case None => true) && AllAssignNothing(arguments)
  }

  predicate AllAssignNothing(es: seq<Expr>)
    decreases es, 0
  {
    es == [] || (AllAssignNothing(es[1..]) && AssignsNothing(es[0]))
  }

  predicate LabelsAssignNothing(cases: Cases) {
    match cases
    case NoCases => true
    case Case(test, _, rest) => (test.Some? ==> AssignsNothing(test.value)) && LabelsAssignNothing(rest)
  }

  predicate HasLabel(cases: Cases) {
    cases.Case? && (cases.test.Some? || HasLabel(cases.rest))
  }

  /** There is no second label. */
  predicate AtMostOneLabel(cases: Cases) {
    cases.Case? ==> if cases.test.Some? then !HasLabel(cases.rest) else AtMostOneLabel(cases.rest)
  }

  /** Looking at the cases evaluates the discriminant once, or again without effect; and labels have none. */
  predicate Harmless(d: Expr, cases: Cases) {
    (AssignsNothing(d) || AtMostOneLabel(cases)) && LabelsAssignNothing(cases)
  }

  predicate Keeps<T>(r: Effect<(T, Store)>, store: Store) {
    r.Success? ==> r.value.1 == store
  }

  lemma {:induction false} EvalKeeps(src: Source, e: Expr, store: Store, fuel: nat)
    requires AssignsNothing(e)
    ensures Keeps(Eval(src, e, store, fuel), store)
    decreases e, 1
  {
    match e
    case Lit(_) =>
    case Self =>
    case Id(_) =>
    case Group(a) => EvalKeeps(src, a, store, fuel);
    case Negate(a) => EvalKeeps(src, a, store, fuel);
    case Prefix(_, a) => EvalKeeps(src, a, store, fuel);
    case Binary(_, l, r) => EvalKeeps(src, l, store, fuel); EvalKeeps(src, r, store, fuel);
    case And(l, r) => EvalKeeps(src, l, store, fuel); EvalKeeps(src, r, store, fuel);
    case Or(l, r) => EvalKeeps(src, l, store, fuel); EvalKeeps(src, r, store, fuel);
    case Ternary(t, a, b) =>
      EvalKeeps(src, t, store, fuel);
      EvalKeeps(src, a, store, fuel);
      EvalKeeps(src, b, store, fuel);
    case Call(receiver, _, arguments) =>
      ArgumentsKeep(src, arguments, store, fuel);
      if receiver.Some? {
        EvalKeeps(src, receiver.value, store, fuel);
      }
  }

  lemma {:induction false} ArgumentsKeep(src: Source, es: seq<Expr>, store: Store, fuel: nat)
    requires AllAssignNothing(es)
    ensures Keeps(EvalArguments(src, es, store, fuel), store)
    decreases es, 0
  {
    if es != [] {
      ArgumentsKeep(src, es[1..], store, fuel);
      EvalKeeps(src, es[0], store, fuel);
    }
  }

  function Chosen(r: Effect<Option<Cases>>, store: Store): Effect<(Option<Cases>, Store)> {
    match r case Failure(x) => Failure(x) case Success(chosen) => Success((chosen, store))
  }

  /**
   * The discriminant is compiled again in front of every label. When it assigns nothing, or there is no second label,
   * and when no label assigns anything, that is one evaluation and the first equal label. Without labels it is not
   * evaluated at all.
   */
  lemma {:induction false} ChoiceIsCs(src: Source, s: Stmt, cases: Cases, store: Store, fuel: nat)
    requires s.Switch? && (s decreases to cases) && Harmless(s.discriminant, cases)
    ensures Choose(src, s, cases, store, fuel) ==
            if !HasLabel(cases) then Success((None, store))
            else match Eval(src, s.discriminant, store, fuel)
                 case Failure(x) => Failure(x)
                 case Success((v, s1)) => Chosen(CChoose(src, cases, v, s1, fuel), s1)
    decreases cases
  {
    if cases.Case? {
      if cases.test.None? {
        ChoiceIsCs(src, s, cases.rest, store, fuel);
      } else {
        LabelIsCs(src, s, cases, Eval(src, s.discriminant, store, fuel), store, fuel);
      }
    }
  }

  lemma {:induction false} LabelIsCs(src: Source, s: Stmt, cases: Cases, r: Effect<(Value, Store)>, store: Store, fuel: nat)
    requires s.Switch? && (s decreases to cases) && Harmless(s.discriminant, cases)
    requires cases.Case? && cases.test.Some? && r == Eval(src, s.discriminant, store, fuel)
    ensures Choose(src, s, cases, store, fuel) ==
            if r.Failure? then Failure(r.error) else Chosen(CChoose(src, cases, r.value.0, r.value.1, fuel), r.value.1)
    decreases cases, 0
  {
    if r.Success? {
      var (v, s1) := r.value;
      EvalKeeps(src, cases.test.value, s1, fuel);
      if HasLabel(cases.rest) {
        EvalKeeps(src, s.discriminant, store, fuel);
        ChoiceIsCs(src, s, cases.rest, store, fuel);
      } else {
        NoLabelNoDiscriminant(src, s, cases.rest, s1, fuel);
        NoLabelNoChoice(src, cases.rest, v, s1, fuel);
      }
      ChoiceAtLabel(src, s, cases, v, s1, store, fuel);
    }
  }

  /** The first label, when the rest of the choice is known. */
  lemma ChoiceAtLabel(src: Source, s: Stmt, cases: Cases, v: Value, s1: Store, store: Store, fuel: nat)
    requires s.Switch? && (s decreases to cases) && cases.Case? && cases.test.Some?
    requires Eval(src, s.discriminant, store, fuel) == Success((v, s1))
    requires Keeps(Eval(src, cases.test.value, s1, fuel), s1)
    requires Choose(src, s, cases.rest, s1, fuel) == Chosen(CChoose(src, cases.rest, v, s1, fuel), s1)
    ensures Choose(src, s, cases, store, fuel) == Chosen(CChoose(src, cases, v, s1, fuel), s1)
  {
  }

  lemma {:induction false} NoLabelNoChoice(src: Source, cases: Cases, v: Value, store: Store, fuel: nat)
    requires !HasLabel(cases)
    ensures CChoose(src, cases, v, store, fuel) == Success(None)
    decreases cases
  {
    if cases.Case? {
      NoLabelNoChoice(src, cases.rest, v, store, fuel);
    }
  }

  /** Without labels, what the discriminant is does not matter. */
  lemma {:induction false} NoLabelNoDiscriminant(src: Source, s: Stmt, cases: Cases, store: Store, fuel: nat)
    requires s.Switch? && (s decreases to cases) && !HasLabel(cases)
    ensures Choose(src, s, cases, store, fuel) == Success((None, store))
    decreases cases
  {
    if cases.Case? {
      NoLabelNoDiscriminant(src, s, cases.rest, store, fuel);
    }
  }

  // ---- the bodies: as written, or as compiled ----

  /** A case by its place: the cases from there on. */
  type Place = c: Cases | c.Case? witness Case(None, Nil, NoCases)

  function Written(cases: Cases): seq<Place> {
    match cases case NoCases => [] case Case(_, _, rest) => [cases] + Written(rest)
  }

  function Labelled(cases: Cases): seq<Place> {
    match cases case NoCases => [] case Case(test, _, rest) => (if test.Some? then [cases] else []) + Labelled(rest)
  }

  function LastDefault(cases: Cases): Option<Place> {
    match cases
    case NoCases => None
    case Case(test, _, rest) =>
      var later := LastDefault(rest);
      if later.Some? then later else if test.None? then Some(cases) else None
  }

  function DefaultPlace(cases: Cases): seq<Place> {
    match LastDefault(cases) case None => [] case Some(c) => [c]
  }

  /** The bodies that C runs, one after the other, until one of them leaves. */
  function WrittenOrder(cases: Cases, chosen: Option<Cases>): seq<Place> {
    match (chosen, FromDefault(cases))
    case (Some(c), _) => Written(c)
    case (None, Some(c)) => Written(c)
    case (None, None) => []
  }

  /** The bodies that are run here: the labelled ones from the chosen one on, or all, and then the last default's. */
  function CompiledOrder(cases: Cases, chosen: Option<Cases>): seq<Place> {
    if chosen.None? && LastDefault(cases).Some? then DefaultPlace(cases)
    else Labelled(if chosen.Some? then chosen.value else cases) + DefaultPlace(cases)
  }

  function RunBodies(src: Source, order: seq<Place>, store: Store, fuel: nat): Effect<Flow> {
    if order == [] then Success(Normal(store))
    else
      var flow :- ExecAll(src, order[0].consequent, store, fuel);
      if flow.Normal? then RunBodies(src, order[1..], flow.store, fuel) else Success(flow)
  }

  lemma {:induction false} RunBoth(src: Source, a: seq<Place>, b: seq<Place>, store: Store, fuel: nat)
    ensures RunBodies(src, a + b, store, fuel) ==
            var r := RunBodies(src, a, store, fuel);
            if r.Success? && r.value.Normal? then RunBodies(src, b, r.value.store, fuel) else r
    decreases |a|
  {
    if a == [] {
      assert a + b == b;
    } else {
      assert (a + b)[1..] == a[1..] + b;
      var flow := ExecAll(src, a[0].consequent, store, fuel);
      if flow.Success? && flow.value.Normal? {
        RunBoth(src, a[1..], b, flow.value.store, fuel);
      }
    }
  }

  lemma RunOne(src: Source, c: Place, store: Store, fuel: nat)
    ensures RunBodies(src, [c], store, fuel) == ExecAll(src, c.consequent, store, fuel)
  {
    var flow := ExecAll(src, c.consequent, store, fuel);
    if flow.Success? && flow.value.Normal? {
      assert RunBodies(src, [c][1..], flow.value.store, fuel) == flow;
    }
  }

  lemma {:induction false} WrittenIsRun(src: Source, cases: Cases, store: Store, fuel: nat)
    ensures FallInOrder(src, cases, store, fuel) == RunBodies(src, Written(cases), store, fuel)
    decreases cases
  {
    if cases.Case? {
      assert Written(cases)[1..] == Written(cases.rest);
      var flow := ExecAll(src, cases.consequent, store, fuel);
      if flow.Success? && flow.value.Normal? {
        WrittenIsRun(src, cases.rest, flow.value.store, fuel);
      }
    }
  }

  lemma {:induction false} LabelledIsRun(src: Source, cases: Cases, store: Store, fuel: nat)
    ensures ExecBodies(src, cases, store, fuel) == RunBodies(src, Labelled(cases), store, fuel)
    decreases cases
  {
    if cases.Case? {
      if cases.test.None? {
        assert Labelled(cases) == Labelled(cases.rest);
        LabelledIsRun(src, cases.rest, store, fuel);
      } else {
        assert Labelled(cases)[1..] == Labelled(cases.rest);
        var flow := ExecAll(src, cases.consequent, store, fuel);
        if flow.Success? && flow.value.Normal? {
          LabelledIsRun(src, cases.rest, flow.value.store, fuel);
        }
      }
    }
  }

  lemma {:induction false} DefaultIsLast(cases: Cases)
    ensures DefaultBody(cases) == match LastDefault(cases) case None => None case Some(c) => Some(c.consequent)
    decreases cases
  {
    if cases.Case? {
      DefaultIsLast(cases.rest);
    }
  }

  /** Both switches run bodies one after the other; they differ in which ones at most. */
  lemma SwitchesAreOrders(src: Source, cases: Cases, chosen: Option<Cases>, store: Store, fuel: nat)
    requires chosen.Some? ==> chosen.value == cases || (cases decreases to chosen.value)
    ensures ExecSwitch(src, cases, chosen, store, fuel) == RunBodies(src, CompiledOrder(cases, chosen), store, fuel)
    ensures CSwitch(src, cases, chosen, store, fuel) == RunBodies(src, WrittenOrder(cases, chosen), store, fuel)
  {
    var from := if chosen.Some? then chosen.value else cases;
    DefaultIsLast(cases);
    LabelledIsRun(src, from, store, fuel);
    RunBoth(src, Labelled(from), DefaultPlace(cases), store, fuel);
    if LastDefault(cases).Some? {
      RunOne(src, LastDefault(cases).value, store, fuel);
      var flow := ExecBodies(src, from, store, fuel);
      if flow.Success? && flow.value.Normal? {
        RunOne(src, LastDefault(cases).value, flow.value.store, fuel);
      }
    }
    if chosen.Some? {
      WrittenIsRun(src, chosen.value, store, fuel);
    } else if FromDefault(cases).Some? {
      WrittenIsRun(src, FromDefault(cases).value, store, fuel);
    }
  }

  /** There is one `default`, and it is the last case. */
  predicate EndsInDefault(cases: Cases) {
    cases.Case? && if cases.rest.NoCases? then cases.test.None? else cases.test.Some? && EndsInDefault(cases.rest)
  }

  predicate Within(chosen: Cases, cases: Cases) {
    chosen == cases || (cases.Case? && Within(chosen, cases.rest))
  }

  lemma {:induction false} EndsAlike(cases: Cases)
    requires EndsInDefault(cases)
    ensures LastDefault(cases).Some? && FromDefault(cases) == Some(LastDefault(cases).value)
    ensures LastDefault(cases).value.rest.NoCases?
    ensures Written(cases) == Labelled(cases) + [LastDefault(cases).value]
    decreases cases
  {
    if cases.rest.Case? {
      EndsAlike(cases.rest);
    } else {
      assert Labelled(cases.rest) == [] && Written(cases.rest) == [];
    }
  }

  lemma {:induction false} LastDefaultWithin(chosen: Cases, cases: Cases)
    requires Within(chosen, cases) && LastDefault(chosen).Some?
    ensures LastDefault(cases) == LastDefault(chosen)
    decreases cases
  {
    if chosen != cases {
      LastDefaultWithin(chosen, cases.rest);
    }
  }

  lemma {:induction false} LastDefaultIsOne(cases: Cases)
    ensures LastDefault(cases).Some? ==> LastDefault(cases).value.test.None?
    ensures LastDefault(cases).None? <==> FromDefault(cases).None?
    ensures LastDefault(cases).None? ==> Labelled(cases) == Written(cases)
    ensures FromDefault(cases).Some? ==> FromDefault(cases).value.Case? && FromDefault(cases).value.test.None?
    decreases cases
  {
    if cases.Case? {
      LastDefaultIsOne(cases.rest);
    }
  }

  lemma {:induction false} LabelledHaveLabels(cases: Cases)
    ensures forall i :: 0 <= i < |Labelled(cases)| ==> Labelled(cases)[i].test.Some?
    decreases cases
  {
    if cases.Case? {
      LabelledHaveLabels(cases.rest);
    }
  }

  lemma {:induction false} OnlyIfItEnds(cases: Cases, last: Place)
    requires last.test.None? && Written(cases) == Labelled(cases) + [last]
    ensures EndsInDefault(cases)
    decreases cases
  {
    if cases.Case? {
      assert Written(cases)[0] == cases && Written(cases)[1..] == Written(cases.rest);
      LabelledHaveLabels(cases);
      if cases.test.Some? {
        assert (Labelled(cases) + [last])[1..] == Labelled(cases.rest) + [last];
        OnlyIfItEnds(cases.rest, last);
      } else {
        assert Labelled(cases) == [];
        assert Written(cases.rest) == [];
      }
    }
  }

  /** After a match, the bodies are run in C's order exactly if there is no `default`, or one at the end of what is left. */
  lemma MatchedIsCsIff(cases: Cases, chosen: Cases)
    requires chosen.Case? && Within(chosen, cases)
    ensures CompiledOrder(cases, Some(chosen)) == WrittenOrder(cases, Some(chosen)) <==>
            DefaultBody(cases).None? || EndsInDefault(chosen)
  {
    DefaultIsLast(cases);
    LastDefaultIsOne(cases);
    LastDefaultIsOne(chosen);
    if LastDefault(cases).Some? {
      if EndsInDefault(chosen) {
        EndsAlike(chosen);
        LastDefaultWithin(chosen, cases);
      } else if Written(chosen) == Labelled(chosen) + [LastDefault(cases).value] {
        OnlyIfItEnds(chosen, LastDefault(cases).value);
      }
    } else {
      NoneWithin(chosen, cases);
      assert Labelled(chosen) + [] == Labelled(chosen);
    }
  }

  lemma {:induction false} NoneWithin(chosen: Cases, cases: Cases)
    requires Within(chosen, cases) && LastDefault(cases).None?
    ensures LastDefault(chosen).None?
    decreases cases
  {
    if chosen != cases {
      NoneWithin(chosen, cases.rest);
    }
  }

  /** Without a match, exactly if there is nothing to run, or one `default`, at the end. */
  lemma UnmatchedIsCsIff(cases: Cases)
    ensures CompiledOrder(cases, None) == WrittenOrder(cases, None) <==> cases.NoCases? || EndsInDefault(cases)
  {
    LastDefaultIsOne(cases);
    if LastDefault(cases).Some? {
      if EndsInDefault(cases) {
        EndsAlike(cases);
        OnlyOne(LastDefault(cases).value);
      } else if [LastDefault(cases).value] == Written(FromDefault(cases).value) {
        FirstIsLast(cases);
      }
    } else if cases.Case? {
      assert |Labelled(cases)| == |Written(cases)| > 0;
    }
  }

  lemma OnlyOne(c: Place)
    requires c.rest.NoCases?
    ensures Written(c) == [c]
  {
    assert Written(c.rest) == [];
  }

  lemma {:induction false} FirstIsLast(cases: Cases)
    requires FromDefault(cases).Some? && |Written(FromDefault(cases).value)| == 1
    ensures EndsInDefault(cases)
    decreases cases
  {
    if cases.test.Some? {
      FirstIsLast(cases.rest);
    } else {
      assert |Written(cases.rest)| == 0;
    }
  }

  // ---- whole statements ----

  lemma {:induction false} ChosenWithin(src: Source, cases: Cases, v: Value, store: Store, fuel: nat)
    ensures var r := CChoose(src, cases, v, store, fuel);
            r.Success? && r.value.Some? ==> r.value.value.Case? && r.value.value.test.Some? && Within(r.value.value, cases)
    decreases cases
  {
    if cases.Case? {
      ChosenWithin(src, cases.rest, v, store, fuel);
    }
  }

  lemma {:induction false} LabelledEnds(chosen: Cases, cases: Cases)
    requires Within(chosen, cases) && EndsInDefault(cases) && chosen.Case?
    ensures EndsInDefault(chosen)
    decreases cases
  {
    if chosen != cases {
      LabelledEnds(chosen, cases.rest);
    }
  }

  /** The bodies from the match on, or without one, are those of C. */
  predicate SameBodies(cases: Cases, chosen: Option<Cases>) {
    match chosen
    case Some(c) => DefaultBody(cases).None? || EndsInDefault(c)
    case None => cases.NoCases? || EndsInDefault(cases)
  }

  /**
   * A switch whose discriminant and labels do no harm is C's, if what it finds lets it run the same bodies; except
   * that a discriminant that no label is compared with is not evaluated, and neither fails nor assigns.
   */
  lemma SwitchIsCs(src: Source, d: Expr, cases: Cases, store: Store, fuel: nat)
    requires Harmless(d, cases)
    requires HasLabel(cases) || (AssignsNothing(d) && Eval(src, d, store, fuel).Success?)
    requires var r := Eval(src, d, store, fuel);
             r.Success? ==>
               var chosen := CChoose(src, cases, r.value.0, r.value.1, fuel);
               chosen.Success? ==> SameBodies(cases, chosen.value)
    ensures Exec(src, Switch(d, cases), store, fuel) == CExec(src, d, cases, store, fuel)
  {
    ChoiceIsCs(src, Switch(d, cases), cases, store, fuel);
    var r := Eval(src, d, store, fuel);
    if r.Success? {
      var (v, s1) := r.value;
      if !HasLabel(cases) {
        EvalKeeps(src, d, store, fuel);
        NoLabelNoChoice(src, cases, v, s1, fuel);
      }
      ChosenWithin(src, cases, v, s1, fuel);
      var chosen := CChoose(src, cases, v, s1, fuel);
      if chosen.Success? {
        ChosenIsCs(src, Switch(d, cases), cases, chosen.value, store, s1, fuel);
      }
    }
  }

  /** So is a switch that ends in its one `default`, whatever it finds. */
  lemma EndingSwitchIsCs(src: Source, d: Expr, cases: Cases, store: Store, fuel: nat)
    requires Harmless(d, cases) && EndsInDefault(cases)
    requires HasLabel(cases) || (AssignsNothing(d) && Eval(src, d, store, fuel).Success?)
    ensures Exec(src, Switch(d, cases), store, fuel) == CExec(src, d, cases, store, fuel)
  {
    var r := Eval(src, d, store, fuel);
    if r.Success? {
      ChosenWithin(src, cases, r.value.0, r.value.1, fuel);
      var chosen := CChoose(src, cases, r.value.0, r.value.1, fuel);
      if chosen.Success? && chosen.value.Some? {
        LabelledEnds(chosen.value.value, cases);
      }
    }
    SwitchIsCs(src, d, cases, store, fuel);
  }

  lemma ChosenIsCs(src: Source, s: Stmt, cases: Cases, chosen: Option<Cases>, store: Store, s1: Store, fuel: nat)
    requires SameBodies(cases, chosen) && (chosen.Some? ==> chosen.value.Case? && Within(chosen.value, cases))
    requires s.Switch? && s.cases == cases && Choose(src, s, cases, store, fuel) == Success((chosen, s1))
    ensures ExecSwitch(src, cases, chosen, s1, fuel) == CSwitch(src, cases, chosen, s1, fuel)
  {
    SwitchesAreOrders(src, cases, chosen, s1, fuel);
    match chosen
    case Some(c) =>
      MatchedIsCsIff(cases, c);
    case None => UnmatchedIsCsIff(cases);
  }

  /** Without a match and without a default, C skips the switch; here the first body is run. That is the same if it changes nothing. */
  lemma UnmatchedFallsIn(src: Source, cases: Cases, store: Store, fuel: nat)
    requires DefaultBody(cases).None?
    ensures ExecSwitch(src, cases, None, store, fuel) == FallInOrder(src, cases, store, fuel)
    ensures ExecSwitch(src, cases, None, store, fuel) == CSwitch(src, cases, None, store, fuel) <==>
            FallInOrder(src, cases, store, fuel) == Success(Normal(store))
  {
    DefaultIsLast(cases);
    LastDefaultIsOne(cases);
    SwitchesAreOrders(src, cases, None, store, fuel);
    WrittenIsRun(src, cases, store, fuel);
    assert Labelled(cases) + [] == Labelled(cases);
  }

  // ---- where they differ ----

  function Number(i: Int64): Expr {
    Lit(IntLiteral(i))
  }

  lemma NumbersDiffer(i: Int64, j: Int64)
    requires i != j
    ensures Binop(Equal, Int(i), Int(j)) == Success(Bool(false)) && Test(Bool(false)) == Success(false)
  {
  }

  lemma ReturnsNothing(src: Source, store: Store, fuel: nat)
    ensures ExecAll(src, Cons(Return(None), Nil), store, fuel) == Success(Returned(Undefined))
    ensures ExecAll(src, Nil, store, fuel) == Success(Normal(store))
  {
    assert Exec(src, Return(None), store, fuel) == Success(Returned(Undefined));
  }

  /** `switch (0) { case 1: return; }` returns. */
  lemma MissingDefault(src: Source, store: Store, fuel: nat)
    ensures var cases := Case(Some(Number(1)), Cons(Return(None), Nil), NoCases);
            && Exec(src, Switch(Number(0), cases), store, fuel) == Success(Returned(Undefined))
            && CExec(src, Number(0), cases, store, fuel) == Success(Normal(store))
  {
    var cases := Case(Some(Number(1)), Cons(Return(None), Nil), NoCases);
    var s := Switch(Number(0), cases);
    NumbersDiffer(0, 1);
    ReturnsNothing(src, store, fuel);
    assert Choose(src, s, cases, store, fuel) == Success((None, store)) by {
      assert Choose(src, s, NoCases, store, fuel) == Success((None, store));
    }
    assert ExecBodies(src, cases, store, fuel) == Success(Returned(Undefined));
    assert CChoose(src, cases, Int(0), store, fuel) == Success(None) by {
      assert CChoose(src, NoCases, Int(0), store, fuel) == Success(None);
    }
  }

  /** `switch (0) { default: ; case 1: return; }` does not. */
  lemma EarlyDefault(src: Source, store: Store, fuel: nat)
    ensures var cases := Case(None, Nil, Case(Some(Number(1)), Cons(Return(None), Nil), NoCases));
            && Exec(src, Switch(Number(0), cases), store, fuel) == Success(Normal(store))
            && CExec(src, Number(0), cases, store, fuel) == Success(Returned(Undefined))
  {
    var last := Case(Some(Number(1)), Cons(Return(None), Nil), NoCases);
    var cases := Case(None, Nil, last);
    var s := Switch(Number(0), cases);
    NumbersDiffer(0, 1);
    ReturnsNothing(src, store, fuel);
    assert Choose(src, s, cases, store, fuel) == Success((None, store)) by {
      assert Choose(src, s, NoCases, store, fuel) == Success((None, store));
      assert Choose(src, s, last, store, fuel) == Success((None, store));
    }
    assert DefaultBody(cases) == Some(Nil) by {
      assert DefaultBody(NoCases) == None && DefaultBody(last) == None;
    }
    assert CChoose(src, cases, Int(0), store, fuel) == Success(None) by {
      assert CChoose(src, NoCases, Int(0), store, fuel) == Success(None);
      assert CChoose(src, last, Int(0), store, fuel) == Success(None);
    }
    assert FallInOrder(src, last, store, fuel) == Success(Returned(Undefined));
    assert FallInOrder(src, cases, store, fuel) == Success(Returned(Undefined));
  }

  const COUNTER := Postfix(true, Id("x"))

  /** `case 5: case 1:` */
  function FiveOrOne(): Cases {
    Case(Some(Number(5)), Nil, Case(Some(Number(1)), Nil, NoCases))
  }

  /** `x = 0; switch (x++) { case 5: case 1: }` finds the label 1, and leaves 2 in `x`. */
  lemma DiscriminantTwice(src: Source, store: Store, fuel: nat)
    requires Lookup(store, "x") == Int(0)
    ensures Choose(src, Switch(COUNTER, FiveOrOne()), FiveOrOne(), store, fuel)
         == Success((Some(FiveOrOne().rest), store["x" := Int(2)]))
    ensures Exec(src, Switch(COUNTER, FiveOrOne()), store, fuel) == Success(Normal(store["x" := Int(2)]))
    ensures CExec(src, COUNTER, FiveOrOne(), store, fuel) == Success(Normal(store["x" := Int(1)]))
  {
    var s1, s2 := store["x" := Int(1)], store["x" := Int(2)];
    FindsOne(src, store, fuel);
    RunsNothing(src, s2, fuel);
    SwitchRuns(src, COUNTER, FiveOrOne(), store, fuel, Some(FiveOrOne().rest), s2, Normal(s2));
    CountsUp(src, store, fuel, 0);
    CFindsNothing(src, s1, fuel);
    CSkips(src, COUNTER, FiveOrOne(), store, fuel, Int(0), s1);
  }

  lemma SwitchRuns(src: Source, d: Expr, cases: Cases, store: Store, fuel: nat, chosen: Option<Cases>, s1: Store, flow: Flow)
    requires chosen.Some? ==> chosen.value == cases || (cases decreases to chosen.value)
    requires Choose(src, Switch(d, cases), cases, store, fuel) == Success((chosen, s1))
    requires ExecSwitch(src, cases, chosen, s1, fuel) == Success(flow)
    ensures Exec(src, Switch(d, cases), store, fuel) == Success(Unbroken(flow))
  {
  }

  lemma CSkips(src: Source, d: Expr, cases: Cases, store: Store, fuel: nat, v: Value, s1: Store)
    requires Eval(src, d, store, fuel) == Success((v, s1)) && CChoose(src, cases, v, s1, fuel) == Success(None)
    requires FromDefault(cases) == None
    ensures CExec(src, d, cases, store, fuel) == Success(Normal(s1))
  {
  }

  lemma FindsOne(src: Source, store: Store, fuel: nat)
    requires Lookup(store, "x") == Int(0)
    ensures Choose(src, Switch(COUNTER, FiveOrOne()), FiveOrOne(), store, fuel)
         == Success((Some(FiveOrOne().rest), store["x" := Int(2)]))
  {
    var s, s1 := Switch(COUNTER, FiveOrOne()), store["x" := Int(1)];
    FindsOneLater(src, s, s1, fuel);
    CountsUp(src, store, fuel, 0);
    NumbersDiffer(0, 5);
    assert s1["x" := Int(2)] == store["x" := Int(2)];
  }

  lemma FindsOneLater(src: Source, s: Stmt, store: Store, fuel: nat)
    requires Lookup(store, "x") == Int(1) && s == Switch(COUNTER, FiveOrOne())
    ensures Choose(src, s, FiveOrOne().rest, store, fuel) == Success((Some(FiveOrOne().rest), store["x" := Int(2)]))
  {
    CountsUp(src, store, fuel, 1);
  }

  lemma RunsNothing(src: Source, store: Store, fuel: nat)
    ensures ExecSwitch(src, FiveOrOne(), Some(FiveOrOne().rest), store, fuel) == Success(Normal(store))
  {
    var last := FiveOrOne().rest;
    ReturnsNothing(src, store, fuel);
    assert ExecBodies(src, NoCases, store, fuel) == Success(Normal(store));
    assert ExecBodies(src, last, store, fuel) == Success(Normal(store));
    assert DefaultBody(NoCases) == None && DefaultBody(last) == None;
  }

  lemma CFindsNothing(src: Source, store: Store, fuel: nat)
    ensures CChoose(src, FiveOrOne(), Int(0), store, fuel) == Success(None) && FromDefault(FiveOrOne()) == None
  {
    var last := FiveOrOne().rest;
    NumbersDiffer(0, 5);
    NumbersDiffer(0, 1);
    assert CChoose(src, NoCases, Int(0), store, fuel) == Success(None);
    assert CChoose(src, last, Int(0), store, fuel) == Success(None);
    assert FromDefault(NoCases) == None && FromDefault(last) == None;
  }

  lemma CountsUp(src: Source, store: Store, fuel: nat, i: nat)
    requires i < 9 && Lookup(store, "x") == Int(i)
    ensures Eval(src, Postfix(true, Id("x")), store, fuel) == Success((Int(i), store["x" := Int(i + 1)]))
  {
    assert Lower("x") == "x";
    assert Eval(src, Id("x"), store, fuel) == Success((Int(i), store));
    assert Wrap(i + 1) == i + 1;
  }
}
