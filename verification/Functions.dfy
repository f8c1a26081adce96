/**
 * From `compile_function` to running code: when the back-patched code is the intended one, and
 * what compiled programs then do.
 */
module Functions {
  import opened Wrappers
  import opened Values
  import opened Syntax
  import opened Bytecode
  import opened Emitter
  import opened Pieces
  import opened Shapes
  import opened Layout
  import opened Placement
  import opened Statements
  import opened Backpatch
  import opened Adoption
  import opened Locals
  import opened Machine
  import opened Semantics
  import opened Linking
  import opened Jumps
  import opened Slots

  // ---- statements have proper pieces ----

  lemma LoopProper(g: Code, body: Piece, u: Code)
    requires Proper(body)
    ensures Proper(LoopPiece(g, body, u))
  {
    var back := Fixed(u + [JMP(-(|g| + 2 + Size(body) + |u|) - 1)]);
    assert Proper(Then(body, back)) && Extent(Then(body, back)) == Extent(body);
    assert Size(Then(body, back)) == Size(body) + |u| + 1;
  }

  predicate ArmsProper(arms: Arms) {
    match arms case NoArms => true case Arm(_, body, rest) => Proper(body) && ArmsProper(rest)
  }

  lemma {:induction false} BodiesProper(arms: Arms)
    requires ArmsProper(arms)
    ensures Proper(BodiesPiece(arms))
    decreases arms
  {
    if arms.Arm? {
      BodiesProper(arms.rest);
    }
  }

  lemma SwitchProper(arms: Arms, default: Option<Piece>)
    requires ArmsProper(arms) && Proper(DefaultOrNothing(default))
    ensures Proper(SwitchPiece(arms, default))
  {
    BodiesProper(arms);
    assert Proper(Then(BodiesPiece(arms), DefaultOrNothing(default)));
  }

  lemma {:induction false} StmtProper(s: Stmt, names: seq<string>)
    ensures Proper(StmtPiece(s, names))
    decreases s, 1
  {
    match s
    case Block(body) => StmtsProper(body, names);
    case If(_, x, y) =>
      StmtProper(x, names);
      if y.Some? {
        StmtProper(y.value, names);
        assert Proper(Then(Fixed([JMP(Size(StmtPiece(y.value, names)))]), StmtPiece(y.value, names)));
      }
    case While(guard, loop) =>
      StmtProper(loop, names);
      LoopProper(GuardCode(guard, names), StmtPiece(loop, names), []);
    case For(init, guard, update, loop) =>
      StmtProper(loop, names);
      LoopProper(GuardCode(guard, names), StmtPiece(loop, names), DiscardedCode(update, names));
    case Switch(d, cases) =>
      CasesProper(d, cases, names);
      DefaultProper(cases, names);
      SwitchProper(ArmsOf(d, cases, names), DefaultPiece(cases, names));
    case _ =>
  }

  lemma {:induction false} StmtsProper(ss: Stmts, names: seq<string>)
    ensures Proper(StmtsPiece(ss, names))
    decreases ss, 0
  {
    if ss.Cons? {
      StmtProper(ss.head, names);
      StmtsProper(ss.tail, names);
    }
  }

  lemma {:induction false} CasesProper(d: Expr, cases: Cases, names: seq<string>)
    ensures ArmsProper(ArmsOf(d, cases, names))
    decreases cases, 0
  {
    if cases.Case? {
      CasesProper(d, cases.rest, names);
      StmtsProper(cases.consequent, names);
    }
  }

  lemma {:induction false} DefaultProper(cases: Cases, names: seq<string>)
    ensures Proper(DefaultOrNothing(DefaultPiece(cases, names)))
    decreases cases, 1
  {
    if DefaultBody(cases).Some? {
      StmtsProper(DefaultBody(cases).value, names);
    }
  }

  // ---- back-patching a whole function ----

  /** The code that a body is meant to have. */
  function Meant(body: Stmt, names: seq<string>): Code {
    Sweep(Render(StmtPiece(body, names), None, None) + [UNDEF, RET])
  }

  /** What compile_function really emits is the back-patched skeleton. */
  lemma CompiledIsPlay(parameters: seq<string>, body: Stmt)
    requires CompileFunction(parameters, body).Success?
    ensures var f := CompileFunction(parameters, body).value;
            && f.code == Sweep(Play(StmtPiece(body, f.locals), 0, [], []).0 + [UNDEF, RET])
            && |f.code| <= MAX_INSTRUCTIONS && StmtBound(body, f.locals)
  {
    CompiledSlots(parameters, body);
    var names := DefineParameters(parameters, ["self"]).value;
    assert Distinct(["self"]);
    DefineParametersInOrder(parameters, ["self"]);
    assert names[0] == ["self"][0];
    EmitStmtIsPlay(body, Emission([], [], [], names));
  }

  /** Unsweeping: a jump that is patched forward is not touched by the sweep, and nothing is swept into it. */
  lemma SweepTells(c: Code, d: Code, q: nat, t: int)
    requires |c| == |d| && q < |c| && q + 1 < t && c[q] == JMP(t - q - 1) && d[q] != JMP(t - q - 1)
    ensures Sweep(c) != Sweep(d)
  {
    assert Sweep(c)[q] == JMP(t - q - 1);
    assert Sweep(d)[q] != JMP(t - q - 1);
  }

  lemma SweptPlayIff(p: Piece)
    requires Proper(p)
    ensures Sweep(Play(p, 0, [], []).0 + [UNDEF, RET]) == Sweep(Render(p, None, None) + [UNDEF, RET]) <==> NoAdoption(p)
  {
    if NoAdoption(p) {
      PlayIsRender(p, 0, [], []);
    } else {
      var q, t := Spoiled(p, 0, [], []);
      var c, d := Play(p, 0, [], []).0, Render(p, None, None);
      assert d[q] != JMP(t - q - 1);
      SweepTells(c + [UNDEF, RET], d + [UNDEF, RET], q, t);
    }
  }

  // ---- the same condition, read off the source ----

  function Greater(x: int, y: int): int {
    if x < y then y else x
  }

  function Outward(x: int): int {
    if x == -1 then -1 else x + 1
  }

  /** How many switches at most stand around a `continue` that leaves the statement; -1 if none leaves it. */
  function Orphans(s: Stmt): int
    decreases s, 1
  {
    match s
    case Continue => 0
    case Block(body) => OrphansIn(body)
    case If(_, a, b) => Greater(Orphans(a), match b case None => -1 case Some(b) => Orphans(b))
    case Switch(_, cases) => Outward(Greater(OrphansOfCases(cases), OrphansOfDefault(cases)))
    case _ => -1
  }

  function OrphansIn(ss: Stmts): int
    decreases ss, 0
  {
    match ss case Nil => -1 case Cons(s, rest) => Greater(Orphans(s), OrphansIn(rest))
  }

  function OrphansOfCases(cases: Cases): int
    decreases cases, 0
  {
    match cases
    case NoCases => -1
    case Case(test, body, rest) =>
      if test.None? then OrphansOfCases(rest) else Greater(OrphansIn(body), OrphansOfCases(rest))
  }

  function OrphansOfDefault(cases: Cases): int
    decreases cases, 1
  {
    match DefaultBody(cases) case None => -1 case Some(body) => OrphansIn(body)
  }

  /** Does the statement contain a loop with fewer than `d` scopes around it? */
  predicate HasLoop(s: Stmt, d: int)
    decreases s, 1
  {
    match s
    case Block(body) => HasLoopIn(body, d)
    case If(_, a, b) => HasLoop(a, d) || (match b case None => false case Some(b) => HasLoop(b, d))
    case While(_, loop) => d >= 1 || HasLoop(loop, d - 1)
    case For(_, _, _, loop) => d >= 1 || HasLoop(loop, d - 1)
    case Switch(_, cases) => HasLoopInCases(cases, d - 1) || HasLoopInDefault(cases, d - 1)
    case _ => false
  }

  predicate HasLoopIn(ss: Stmts, d: int)
    decreases ss, 0
  {
    match ss case Nil => false case Cons(s, rest) => HasLoop(s, d) || HasLoopIn(rest, d)
  }

  predicate HasLoopInCases(cases: Cases, d: int)
    decreases cases, 0
  {
    match cases
    case NoCases => false
    case Case(test, body, rest) => (test.Some? && HasLoopIn(body, d)) || HasLoopInCases(rest, d)
  }

  predicate HasLoopInDefault(cases: Cases, d: int)
    decreases cases, 1
  {
    match DefaultBody(cases) case None => false case Some(body) => HasLoopIn(body, d)
  }

  /** No `continue` that leaves a switch is followed by a loop that would take it. */
  predicate Undisturbed(s: Stmt)
    decreases s, 1
  {
    match s
    case Block(body) => UndisturbedIn(body)
    case If(_, a, b) =>
      Undisturbed(a) && (match b case None => true case Some(b) => Undisturbed(b) && !HasLoop(b, Orphans(a)))
    case While(_, loop) => Undisturbed(loop)
    case For(_, _, _, loop) => Undisturbed(loop)
    case Switch(_, cases) =>
      UndisturbedCases(cases) && UndisturbedDefault(cases) && !HasLoopInDefault(cases, OrphansOfCases(cases))
    case _ => true
  }

  predicate UndisturbedIn(ss: Stmts)
    decreases ss, 0
  {
    match ss
    case Nil => true
    case Cons(s, rest) => Undisturbed(s) && UndisturbedIn(rest) && !HasLoopIn(rest, Orphans(s))
  }

  predicate UndisturbedCases(cases: Cases)
    decreases cases, 0
  {
    match cases
    case NoCases => true
    case Case(test, body, rest) =>
      && UndisturbedCases(rest)
      && (test.None? || (UndisturbedIn(body) && !HasLoopInCases(rest, OrphansIn(body))))
  }

  predicate UndisturbedDefault(cases: Cases)
    decreases cases, 1
  {
    match DefaultBody(cases) case None => true case Some(body) => UndisturbedIn(body)
  }

  /** What the pending list sees of a piece: waiting continues, loops that take them, and whether one does. */
  ghost predicate Seen(p: Piece, orphans: int, undisturbed: bool) {
    && Proper(p) && WaitingDepth(p, ContinueJump) == orphans && (NoAdoption(p) <==> undisturbed)
  }

  ghost predicate TakenBy(p: Piece, d: int, has: bool) {
    Captures(p, ContinueJump, d) <==> has
  }

  lemma SeenThen(a: Piece, b: Piece, x: int, u: bool, y: int, v: bool, has: bool)
    requires Seen(a, x, u) && Seen(b, y, v) && TakenBy(b, x, has)
    ensures Seen(Then(a, b), Greater(x, y), u && v && !has)
  {
    BreaksWaitAtHome(a);
    if Captures(b, BreakJump, WaitingDepth(a, BreakJump)) {
      CapturesOnlyDeeper(b, BreakJump, WaitingDepth(a, BreakJump));
    }
  }

  lemma FixedSeen(code: Code, b: Piece, y: int, v: bool)
    requires Seen(b, y, v)
    ensures Seen(Fixed(code), -1, true) && Seen(Then(Fixed(code), b), y, v)
  {
    if Captures(b, ContinueJump, -1) {
      CapturesOnlyDeeper(b, ContinueJump, -1);
    }
    SeenThen(Fixed(code), b, -1, true, y, v, false);
  }

  // ---- it is the same condition ----

  lemma {:induction false} StmtTaken(s: Stmt, names: seq<string>, d: int)
    ensures TakenBy(StmtPiece(s, names), d, HasLoop(s, d))
    decreases s, 1
  {
    match s
    case Block(body) => StmtsTaken(body, names, d);
    case If(_, a, b) =>
      StmtTaken(a, names, d);
      if b.Some? {
        StmtTaken(b.value, names, d);
        ElseTaken(Fixed([]), StmtPiece(a, names), [JMP(Size(StmtPiece(b.value, names)))], StmtPiece(b.value, names), d);
      }
    case While(guard, loop) =>
      StmtTaken(loop, names, d - 1);
      LoopTaken(GuardCode(guard, names), StmtPiece(loop, names), [], d);
    case For(_, guard, update, loop) =>
      StmtTaken(loop, names, d - 1);
      LoopTaken(GuardCode(guard, names), StmtPiece(loop, names), DiscardedCode(update, names), d);
    case Switch(disc, cases) =>
      CasesTaken(disc, cases, names, d - 1);
      DefaultTaken(cases, names, d - 1);
      SwitchTaken(ArmsOf(disc, cases, names), DefaultPiece(cases, names), d);
    case _ =>
  }

  lemma ElseTaken(test: Piece, a: Piece, jump: Code, b: Piece, d: int)
    ensures Captures(Then(a, Then(Fixed(jump), b)), ContinueJump, d) <==>
            Captures(a, ContinueJump, d) || Captures(b, ContinueJump, d)
  {
    assert Captures(Then(Fixed(jump), b), ContinueJump, d) <==> Captures(b, ContinueJump, d);
  }

  lemma LoopTaken(g: Code, body: Piece, u: Code, d: int)
    ensures Captures(LoopPiece(g, body, u), ContinueJump, d) <==> d >= 1 || Captures(body, ContinueJump, d - 1)
  {
    var test := Fixed(g + [TEST, JZ(Size(body) + |u| + 1)]);
    var back := Fixed(u + [JMP(-(|g| + 2 + Size(body) + |u|) - 1)]);
    assert Captures(Then(body, back), ContinueJump, d - 1) <==> Captures(body, ContinueJump, d - 1);
    assert Captures(Then(test, Then(body, back)), ContinueJump, d - 1) <==> Captures(body, ContinueJump, d - 1);
  }

  lemma SwitchTaken(arms: Arms, default: Option<Piece>, d: int)
    ensures Captures(SwitchPiece(arms, default), ContinueJump, d) <==>
            Captures(BodiesPiece(arms), ContinueJump, d - 1) || Captures(DefaultOrNothing(default), ContinueJump, d - 1)
  {
    var j := DefaultJump(arms, default);
    var tests := Fixed(TestsCode(arms, TestsSize(arms) + |j|) + j);
    var rest := Then(BodiesPiece(arms), DefaultOrNothing(default));
    assert Captures(Then(tests, rest), ContinueJump, d - 1) <==> Captures(rest, ContinueJump, d - 1);
  }

  lemma {:induction false} StmtsTaken(ss: Stmts, names: seq<string>, d: int)
    ensures TakenBy(StmtsPiece(ss, names), d, HasLoopIn(ss, d))
    decreases ss, 0
  {
    if ss.Cons? {
      StmtTaken(ss.head, names, d);
      StmtsTaken(ss.tail, names, d);
    }
  }

  lemma {:induction false} CasesTaken(disc: Expr, cases: Cases, names: seq<string>, d: int)
    ensures TakenBy(BodiesPiece(ArmsOf(disc, cases, names)), d, HasLoopInCases(cases, d))
    decreases cases, 0
  {
    if cases.Case? {
      CasesTaken(disc, cases.rest, names, d);
      StmtsTaken(cases.consequent, names, d);
    }
  }

  lemma {:induction false} DefaultTaken(cases: Cases, names: seq<string>, d: int)
    ensures TakenBy(DefaultOrNothing(DefaultPiece(cases, names)), d, HasLoopInDefault(cases, d))
    decreases cases, 1
  {
    if DefaultBody(cases).Some? {
      StmtsTaken(DefaultBody(cases).value, names, d);
    }
  }

  lemma {:induction false} StmtSeen(s: Stmt, names: seq<string>)
    ensures Seen(StmtPiece(s, names), Orphans(s), Undisturbed(s))
    decreases s, 1
  {
    StmtProper(s, names);
    match s
    case Block(body) => StmtsSeen(body, names);
    case If(_, a, b) => IfSeen(s, names);
    case While(guard, loop) =>
      StmtSeen(loop, names);
      LoopSeen(GuardCode(guard, names), StmtPiece(loop, names), [], Orphans(loop), Undisturbed(loop));
    case For(init, guard, update, loop) =>
      StmtSeen(loop, names);
      var g, u := GuardCode(guard, names), DiscardedCode(update, names);
      LoopSeen(g, StmtPiece(loop, names), u, Orphans(loop), Undisturbed(loop));
      FixedSeen(DiscardedCode(init, names), LoopPiece(g, StmtPiece(loop, names), u), -1, Undisturbed(loop));
    case Switch(_, _) => SwitchSeen(s, names);
    case _ =>
  }

  lemma {:induction false} IfSeen(s: Stmt, names: seq<string>)
    requires s.If?
    ensures Seen(StmtPiece(s, names), Orphans(s), Undisturbed(s))
    decreases s, 0
  {
    var a, tc := StmtPiece(s.consequent, names), ExprCode(s.test, names);
    StmtSeen(s.consequent, names);
    match s.alternative
    case None => FixedSeen(tc + [TEST, JZ(Size(a))], a, Orphans(s.consequent), Undisturbed(s.consequent));
    case Some(y) =>
      var b, x := StmtPiece(y, names), Orphans(s.consequent);
      StmtSeen(y, names);
      StmtTaken(y, names, x);
      FixedSeen([JMP(Size(b))], b, Orphans(y), Undisturbed(y));
      var jump := Then(Fixed([JMP(Size(b))]), b);
      assert TakenBy(jump, x, HasLoop(y, x));
      SeenThen(a, jump, x, Undisturbed(s.consequent), Orphans(y), Undisturbed(y), HasLoop(y, x));
      FixedSeen(tc + [TEST, JZ(Size(a) + 1)], Then(a, jump), Greater(x, Orphans(y)),
                Undisturbed(s.consequent) && Undisturbed(y) && !HasLoop(y, x));
  }

  lemma LoopSeen(g: Code, body: Piece, u: Code, x: int, v: bool)
    requires Seen(body, x, v)
    ensures Seen(LoopPiece(g, body, u), -1, v)
  {
    var test := g + [TEST, JZ(Size(body) + |u| + 1)];
    var back := u + [JMP(-(|g| + 2 + Size(body) + |u|) - 1)];
    LoopProper(g, body, u);
    FixedSeen(back, Fixed([]), -1, true);
    assert TakenBy(Fixed(back), x, false);
    SeenThen(body, Fixed(back), x, v, -1, true, false);
    FixedSeen(test, Then(body, Fixed(back)), Greater(x, -1), v);
  }

  lemma {:induction false} StmtsSeen(ss: Stmts, names: seq<string>)
    ensures Seen(StmtsPiece(ss, names), OrphansIn(ss), UndisturbedIn(ss))
    decreases ss, 0
  {
    if ss.Cons? {
      StmtSeen(ss.head, names);
      StmtsSeen(ss.tail, names);
      StmtsTaken(ss.tail, names, Orphans(ss.head));
      SeenThen(StmtPiece(ss.head, names), StmtsPiece(ss.tail, names), Orphans(ss.head), Undisturbed(ss.head),
               OrphansIn(ss.tail), UndisturbedIn(ss.tail), HasLoopIn(ss.tail, Orphans(ss.head)));
    }
  }

  lemma {:induction false} CasesSeen(disc: Expr, cases: Cases, names: seq<string>)
    ensures Seen(BodiesPiece(ArmsOf(disc, cases, names)), OrphansOfCases(cases), UndisturbedCases(cases))
    decreases cases, 0
  {
    if cases.Case? {
      CasesSeen(disc, cases.rest, names);
      if cases.test.Some? {
        var x := OrphansIn(cases.consequent);
        StmtsSeen(cases.consequent, names);
        CasesTaken(disc, cases.rest, names, x);
        SeenThen(StmtsPiece(cases.consequent, names), BodiesPiece(ArmsOf(disc, cases.rest, names)), x,
                 UndisturbedIn(cases.consequent), OrphansOfCases(cases.rest), UndisturbedCases(cases.rest),
                 HasLoopInCases(cases.rest, x));
      }
    }
  }

  lemma {:induction false} DefaultSeen(cases: Cases, names: seq<string>)
    ensures Seen(DefaultOrNothing(DefaultPiece(cases, names)), OrphansOfDefault(cases), UndisturbedDefault(cases))
    decreases cases, 1
  {
    if DefaultBody(cases).Some? {
      StmtsSeen(DefaultBody(cases).value, names);
    }
  }

  lemma {:induction false} SwitchSeen(s: Stmt, names: seq<string>)
    requires s.Switch?
    ensures Seen(StmtPiece(s, names), Orphans(s), Undisturbed(s))
    decreases s, 0
  {
    var arms, default := ArmsOf(s.discriminant, s.cases, names), DefaultPiece(s.cases, names);
    var x := OrphansOfCases(s.cases);
    CasesSeen(s.discriminant, s.cases, names);
    DefaultSeen(s.cases, names);
    DefaultTaken(s.cases, names, x);
    SeenThen(BodiesPiece(arms), DefaultOrNothing(default), x, UndisturbedCases(s.cases), OrphansOfDefault(s.cases),
             UndisturbedDefault(s.cases), HasLoopInDefault(s.cases, x));
    StmtProper(s, names);
    ScopeSeen(arms, default, Greater(x, OrphansOfDefault(s.cases)), Undisturbed(s));
  }

  lemma ScopeSeen(arms: Arms, default: Option<Piece>, x: int, v: bool)
    requires Seen(Then(BodiesPiece(arms), DefaultOrNothing(default)), x, v) && Proper(SwitchPiece(arms, default))
    ensures Seen(SwitchPiece(arms, default), Outward(x), v)
  {
    var j := DefaultJump(arms, default);
    FixedSeen(TestsCode(arms, TestsSize(arms) + |j|) + j, Then(BodiesPiece(arms), DefaultOrNothing(default)), x, v);
  }

  // ---- the exact condition ----

  /**
   * The compiler produces the intended code exactly when no `continue` that leaves a switch is
   * taken over by a later loop.
   */
  lemma CompiledAsMeantIff(parameters: seq<string>, body: Stmt)
    requires CompileFunction(parameters, body).Success?
    ensures var f := CompileFunction(parameters, body).value;
            f.code == Meant(body, f.locals) <==> Undisturbed(body)
  {
    var names := CompileFunction(parameters, body).value.locals;
    CompiledIsPlay(parameters, body);
    StmtSeen(body, names);
    SweptPlayIff(StmtPiece(body, names));
  }

  /** Compiling a well-scoped, undisturbed body gives code that the simulation is about. */
  lemma FunctionIsCompiled(r: Routine)
    requires CompileFunction(r.parameters, r.body).Success?
    requires WellScoped(r.body, false, false) && Undisturbed(r.body)
    ensures Compiled(r, CompileFunction(r.parameters, r.body).value)
  {
    var f := CompileFunction(r.parameters, r.body).value;
    CompiledAsMeantIff(r.parameters, r.body);
    CompiledIsPlay(r.parameters, r.body);
    CompiledSlots(r.parameters, r.body);
    BodyInside(r.body, f.locals);
  }
}
