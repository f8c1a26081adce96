/** Statements: what the compiler emits is its skeleton, back-patched. */
module Statements {
  import opened Wrappers
  import opened Values
  import opened Syntax
  import opened Bytecode
  import opened Emitter
  import opened Pieces
  import opened Shapes
  import opened Layout
  import opened Placement
  import opened Backpatch

  // ---- names ----

  predicate OptionBound(e: Option<Expr>, names: seq<string>) {
    e.None? || ExprBound(e.value, names)
  }

  predicate StmtBound(s: Stmt, names: seq<string>)
    decreases s, 1
  {
    match s
    case ExprStmt(e) => ExprBound(e, names)
    case Return(value) => OptionBound(value, names)
    case Block(body) => StmtsBound(body, names)
    case If(t, a, b) =>
      ExprBound(t, names) && StmtBound(a, names) && (match b case None => true case Some(b) => StmtBound(b, names))
    case While(guard, loop) => OptionBound(guard, names) && StmtBound(loop, names)
    case For(init, guard, update, loop) =>
      OptionBound(init, names) && OptionBound(guard, names) && OptionBound(update, names) && StmtBound(loop, names)
    case Switch(d, cases) => CasesBound(d, cases, names) && DefaultBound(cases, names)
    case _ => true
  }

  predicate StmtsBound(ss: Stmts, names: seq<string>)
    decreases ss, 0
  {
    match ss case Nil => true case Cons(s, rest) => StmtBound(s, names) && StmtsBound(rest, names)
  }

  /** A `default` that another one overrides is not compiled; without cases, neither is the discriminant. */
  predicate CasesBound(d: Expr, cases: Cases, names: seq<string>)
    decreases cases, 0
  {
    match cases
    case NoCases => true
    case Case(test, body, rest) =>
      && (test.None? || (ExprBound(d, names) && ExprBound(test.value, names) && StmtsBound(body, names)))
      && CasesBound(d, rest, names)
  }

  predicate DefaultBound(cases: Cases, names: seq<string>)
    decreases cases, 1
  {
    match DefaultBody(cases) case None => true case Some(body) => StmtsBound(body, names)
  }

  lemma GuardIsStable(e: Option<Expr>, names: seq<string>, later: seq<string>)
    requires OptionBound(e, names) && names <= later
    ensures OptionBound(e, later) && GuardCode(e, later) == GuardCode(e, names)
    ensures DiscardedCode(e, later) == DiscardedCode(e, names)
  {
    if e.Some? {
      ExprCodeIsStable(e.value, names, later);
    }
  }

  /** Growing the list of names keeps the skeleton of earlier statements. */
  lemma {:induction false} StmtIsStable(s: Stmt, names: seq<string>, later: seq<string>)
    requires StmtBound(s, names) && names <= later
    ensures StmtBound(s, later) && StmtPiece(s, later) == StmtPiece(s, names)
    decreases s, 1
  {
    match s
    case ExprStmt(e) => ExprCodeIsStable(e, names, later);
    case Return(value) => GuardIsStable(value, names, later);
    case Block(body) => StmtsAreStable(body, names, later);
    case If(t, a, b) =>
      ExprCodeIsStable(t, names, later);
      StmtIsStable(a, names, later);
      if b.Some? {
        StmtIsStable(b.value, names, later);
      }
    case While(guard, loop) =>
      GuardIsStable(guard, names, later);
      StmtIsStable(loop, names, later);
    case For(init, guard, update, loop) =>
      GuardIsStable(init, names, later);
      GuardIsStable(guard, names, later);
      GuardIsStable(update, names, later);
      StmtIsStable(loop, names, later);
    case Switch(d, cases) =>
      CasesAreStable(d, cases, names, later);
      DefaultIsStable(cases, names, later);
    case _ =>
  }

  lemma {:induction false} StmtsAreStable(ss: Stmts, names: seq<string>, later: seq<string>)
    requires StmtsBound(ss, names) && names <= later
    ensures StmtsBound(ss, later) && StmtsPiece(ss, later) == StmtsPiece(ss, names)
    decreases ss, 0
  {
    if ss.Cons? {
      StmtIsStable(ss.head, names, later);
      StmtsAreStable(ss.tail, names, later);
    }
  }

  lemma TestIsStable(d: Expr, test: Expr, names: seq<string>, later: seq<string>)
    requires ExprBound(d, names) && ExprBound(test, names) && names <= later
    ensures ExprBound(d, later) && ExprBound(test, later) && TestCode(d, test, later) == TestCode(d, test, names)
  {
    ExprCodeIsStable(d, names, later);
    ExprCodeIsStable(test, names, later);
  }

  lemma {:induction false} CasesAreStable(d: Expr, cases: Cases, names: seq<string>, later: seq<string>)
    requires CasesBound(d, cases, names) && names <= later
    ensures CasesBound(d, cases, later) && ArmsOf(d, cases, later) == ArmsOf(d, cases, names)
    decreases cases, 0
  {
    if cases.Case? {
      CasesAreStable(d, cases.rest, names, later);
      if cases.test.Some? {
        TestIsStable(d, cases.test.value, names, later);
        StmtsAreStable(cases.consequent, names, later);
      }
    }
  }

  lemma {:induction false} DefaultIsStable(cases: Cases, names: seq<string>, later: seq<string>)
    requires DefaultBound(cases, names) && names <= later
    ensures DefaultBound(cases, later) && DefaultPiece(cases, later) == DefaultPiece(cases, names)
    decreases cases, 1
  {
    if DefaultBody(cases).Some? {
      StmtsAreStable(DefaultBody(cases).value, names, later);
    }
  }

  // ---- emission is back-patching ----

  /** `r` is `st` after back-patching the piece `p`, perhaps with more names. */
  ghost predicate Plays(st: Emission, p: Piece, r: Emission) {
    && st.names <= r.names && r.scopes == st.scopes
    && (r.code, r.jumps) == Play(p, |st.scopes|, st.code, st.jumps)
  }

  ghost predicate Sound(st: Emission) {
    HasSelf(st.names) && Live(st.jumps, |st.code|)
  }

  lemma PlaysTwice(st: Emission, a: Piece, s1: Emission, b: Piece, r: Emission)
    requires Plays(st, a, s1) && Plays(s1, b, r)
    ensures Plays(st, Then(a, b), r)
  {
  }

  lemma AppendsPlays(st: Emission, c: Code, r: Emission)
    requires Appends(st, c, r)
    ensures Plays(st, Fixed(c), r)
  {
  }

  lemma PlaysSound(st: Emission, p: Piece, r: Emission)
    requires Plays(st, p, r) && Sound(st)
    ensures Sound(r)
  {
    PlayKeepsLive(p, |st.scopes|, st.code, st.jumps);
  }

  /** A forward jump over a piece may be patched after the piece is emitted. */
  lemma PatchOver(st: Emission, pre: Code, jump: Instruction, post: Code, p: Piece, r: Emission, target: nat)
    requires jump.IsJump() && st.code == pre + [jump] + post && Live(st.jumps, |pre|) && Plays(st, p, r)
    ensures Plays(st.(code := pre + [jump.WithRel(target - |pre| - 1)] + post), p,
                  r.(code := SetTarget(r.code, |pre|, target)))
  {
    var patched := jump.WithRel(target - |pre| - 1);
    PlayUpdate(p, |st.scopes|, st.code, |pre|, patched, st.jumps);
    assert st.code[|pre| := patched] == pre + [patched] + post;
    PlayKeepsInstruction(p, |st.scopes|, st.code, |pre|, st.jumps);
  }

  lemma EmitGuardIsLayout(guard: Option<Expr>, st: Emission)
    requires EmitGuard(guard, st).Success? && Sound(st)
    ensures var r := EmitGuard(guard, st).value;
            Appends(st, GuardCode(guard, r.names), r) && OptionBound(guard, r.names) && Sound(r)
  {
    if guard.Some? {
      EmitExprIsLayout(guard.value, st);
    }
  }

  lemma EmitDiscardedIsLayout(e: Option<Expr>, st: Emission)
    requires EmitDiscarded(e, st).Success? && Sound(st)
    ensures var r := EmitDiscarded(e, st).value;
            Appends(st, DiscardedCode(e, r.names), r) && OptionBound(e, r.names) && Sound(r)
  {
    if e.Some? {
      EmitExprIsLayout(e.value, st);
      var s1 := EmitExpr(e.value, st).value;
      PutAppends(st, ExprCode(e.value, s1.names), s1, [POP]);
    }
  }

  lemma {:induction false} EmitStmtIsPlay(s: Stmt, st: Emission)
    requires EmitStmt(s, st).Success? && Sound(st)
    ensures var r := EmitStmt(s, st).value;
            Plays(st, StmtPiece(s, r.names), r) && StmtBound(s, r.names) && Sound(r)
    decreases s, 2
  {
    var r := EmitStmt(s, st).value;
    match s
    case Empty => assert st.code + [] == st.code;
    case ExprStmt(e) => EmitDiscardedIsLayout(Some(e), st);
    case Return(value) => EmitReturnIsPlay(s, st);
    case Block(body) => EmitStmtsIsPlay(body, st);
    case If(_, _, _) => EmitIfIsPlay(s, st);
    case While(guard, loop) => EmitLoopIsPlay(guard, loop, None, st);
    case For(init, guard, update, loop) =>
      EmitDiscardedIsLayout(init, st);
      var s1 := EmitDiscarded(init, st).value;
      EmitLoopIsPlay(guard, loop, update, s1);
      GuardIsStable(init, s1.names, r.names);
    case Switch(d, cases) => EmitSwitchIsPlay(d, cases, st);
    case Break =>
    case Continue =>
  }

  lemma EmitReturnIsPlay(s: Stmt, st: Emission)
    requires s.Return? && EmitStmt(s, st).Success? && Sound(st)
    ensures var r := EmitStmt(s, st).value;
            Plays(st, StmtPiece(s, r.names), r) && StmtBound(s, r.names) && Sound(r)
  {
    if s.value.Some? {
      EmitExprIsLayout(s.value.value, st);
      var s1 := EmitExpr(s.value.value, st).value;
      PutAppends(st, ExprCode(s.value.value, s1.names), s1, [RET]);
    } else {
      assert st.code + [UNDEF] + [RET] == st.code + ([UNDEF] + [RET]);
    }
  }

  lemma {:induction false} EmitStmtsIsPlay(ss: Stmts, st: Emission)
    requires EmitStmts(ss, st).Success? && Sound(st)
    ensures var r := EmitStmts(ss, st).value;
            Plays(st, StmtsPiece(ss, r.names), r) && StmtsBound(ss, r.names) && Sound(r)
    decreases ss, 0
  {
    if ss.Cons? {
      var r := EmitStmts(ss, st).value;
      var s1 := EmitStmt(ss.head, st).value;
      EmitStmtIsPlay(ss.head, st);
      EmitStmtsIsPlay(ss.tail, s1);
      StmtIsStable(ss.head, s1.names, r.names);
    } else {
      assert st.code + [] == st.code;
    }
  }

  // ---- if ----

  lemma {:induction false} EmitIfIsPlay(s: Stmt, st: Emission)
    requires s.If? && EmitStmt(s, st).Success? && Sound(st)
    ensures var r := EmitStmt(s, st).value;
            Plays(st, StmtPiece(s, r.names), r) && StmtBound(s, r.names) && Sound(r)
    decreases s, 1
  {
    var s1 := EmitExpr(s.test, st).value;
    EmitExprIsLayout(s.test, st);
    var s2 := Put(s1, [TEST, JZ(UNRESOLVED)]).value;
    assert s2.code == s1.code + [TEST] + [JZ(UNRESOLVED)] + [];
    var s3 := EmitStmt(s.consequent, s2).value;
    EmitStmtIsPlay(s.consequent, s2);
    var a := StmtPiece(s.consequent, s3.names);
    if s.alternative.None? {
      ExprCodeIsStable(s.test, s1.names, s3.names);
      PatchOver(s2, s1.code + [TEST], JZ(UNRESOLVED), [], a, s3, |s3.code|);
      FinishIf(st, ExprCode(s.test, s3.names), s1, a, EmitStmt(s, st).value);
    } else {
      EmitElseIsPlay(s, st, s1, s2, s3, a);
    }
  }

  lemma FinishIf(st: Emission, tc: Code, s1: Emission, a: Piece, r: Emission)
    requires Appends(st, tc, s1)
    requires Plays(s1.(code := s1.code + [TEST] + [JZ(Size(a))] + []), a, r)
    ensures Plays(st, Then(Fixed(tc + [TEST, JZ(Size(a))]), a), r)
  {
    assert st.code + (tc + [TEST, JZ(Size(a))]) == s1.code + [TEST] + [JZ(Size(a))] + [];
  }

  lemma {:induction false} EmitElseIsPlay(s: Stmt, st: Emission, s1: Emission, s2: Emission, s3: Emission, a: Piece)
    requires s.If? && s.alternative.Some? && EmitStmt(s, st).Success? && Sound(st)
    requires EmitExpr(s.test, st) == Success(s1) && Put(s1, [TEST, JZ(UNRESOLVED)]) == Success(s2)
    requires EmitStmt(s.consequent, s2) == Success(s3) && a == StmtPiece(s.consequent, s3.names)
    requires Appends(st, ExprCode(s.test, s1.names), s1) && ExprBound(s.test, s1.names)
    requires Plays(s2, a, s3) && StmtBound(s.consequent, s3.names) && Sound(s3)
    ensures var r := EmitStmt(s, st).value;
            Plays(st, StmtPiece(s, r.names), r) && StmtBound(s, r.names) && Sound(r)
    decreases s, 0
  {
    var s4, s5 := ElseEmission(s, st, s1, s2, s3);
    assert Sound(s4);
    EmitStmtIsPlay(s.alternative.value, s4);
    ElseTogether(s, st, s1, a, s3, s4, StmtPiece(s.alternative.value, s5.names), s5);
  }

  lemma ElseTogether(s: Stmt, st: Emission, s1: Emission, a: Piece, s3: Emission, s4: Emission, b: Piece, s5: Emission)
    requires s.If? && s.alternative.Some? && Sound(st) && Sound(s3) && Sound(s5)
    requires Appends(st, ExprCode(s.test, s1.names), s1) && ExprBound(s.test, s1.names)
    requires Plays(s1.(code := s1.code + [TEST, JZ(UNRESOLVED)]), a, s3)
    requires a == StmtPiece(s.consequent, s3.names) && StmtBound(s.consequent, s3.names)
    requires BeginElse(s3, |s1.code| + 1) == Success(s4) && Plays(s4, b, s5)
    requires b == StmtPiece(s.alternative.value, s5.names) && StmtBound(s.alternative.value, s5.names)
    ensures var r := PatchHere(s5, |s3.code|);
            Plays(st, StmtPiece(s, r.names), r) && StmtBound(s, r.names) && Sound(r)
  {
    var names, tc := s5.names, ExprCode(s.test, s5.names);
    assert s1.names <= s3.names <= names;
    ExprCodeIsStable(s.test, s1.names, names);
    StmtIsStable(s.consequent, s3.names, names);
    FinishElse(st, tc, s1, a, s3, b, s5);
    ElsePiece(s, names, tc, a, b);
  }

  lemma ElseEmission(s: Stmt, st: Emission, s1: Emission, s2: Emission, s3: Emission) returns (s4: Emission, s5: Emission)
    requires s.If? && s.alternative.Some? && EmitStmt(s, st).Success?
    requires EmitExpr(s.test, st) == Success(s1) && Put(s1, [TEST, JZ(UNRESOLVED)]) == Success(s2)
    requires EmitStmt(s.consequent, s2) == Success(s3)
    ensures BeginElse(s3, |s1.code| + 1) == Success(s4) && EmitStmt(s.alternative.value, s4) == Success(s5)
    ensures EmitStmt(s, st) == Success(PatchHere(s5, |s3.code|))
  {
    s4 := BeginElse(s3, |s1.code| + 1).value;
    s5 := EmitStmt(s.alternative.value, s4).value;
  }

  lemma ElsePiece(s: Stmt, names: seq<string>, tc: Code, a: Piece, b: Piece)
    requires s.If? && s.alternative.Some? && tc == ExprCode(s.test, names)
    requires a == StmtPiece(s.consequent, names) && b == StmtPiece(s.alternative.value, names)
    ensures StmtPiece(s, names) == Then(Fixed(tc + [TEST, JZ(Size(a) + 1)]), Then(a, Then(Fixed([JMP(Size(b))]), b)))
  {
  }

  lemma FinishElse(st: Emission, tc: Code, s1: Emission, a: Piece, s3: Emission, b: Piece, s5: Emission)
    requires Sound(st) && Appends(st, tc, s1)
    requires Plays(s1.(code := s1.code + [TEST, JZ(UNRESOLVED)]), a, s3) && BeginElse(s3, |s1.code| + 1).Success?
    requires Plays(BeginElse(s3, |s1.code| + 1).value, b, s5) && Sound(s3)
    ensures Plays(st, Then(Fixed(tc + [TEST, JZ(Size(a) + 1)]), Then(a, Then(Fixed([JMP(Size(b))]), b))),
                  PatchHere(s5, |s3.code|))
  {
    var k := s3.(code := SetTarget(s3.code, |s1.code| + 1, |s3.code| + 1));
    OverConsequent(s1, a, s3, k);
    OverAlternative(s3, |s1.code| + 1, k, b, s5);
    JoinElse(st, tc, s1, a, k, b, PatchHere(s5, |s3.code|));
  }

  lemma OverConsequent(s1: Emission, a: Piece, s3: Emission, k: Emission)
    requires Live(s1.jumps, |s1.code|)
    requires Plays(s1.(code := s1.code + [TEST, JZ(UNRESOLVED)]), a, s3)
    requires k == s3.(code := SetTarget(s3.code, |s1.code| + 1, |s3.code| + 1))
    ensures Plays(s1.(code := s1.code + [TEST, JZ(Size(a) + 1)]), a, k)
  {
    var s2 := s1.(code := s1.code + [TEST] + [JZ(UNRESOLVED)] + []);
    assert s2.code == s1.code + [TEST, JZ(UNRESOLVED)];
    PatchOver(s2, s1.code + [TEST], JZ(UNRESOLVED), [], a, s3, |s3.code| + 1);
    assert s1.code + [TEST] + [JZ(Size(a) + 1)] + [] == s1.code + [TEST, JZ(Size(a) + 1)];
  }

  lemma JoinElse(st: Emission, tc: Code, s1: Emission, a: Piece, k: Emission, b: Piece, r: Emission)
    requires Appends(st, tc, s1) && Put(s1, [TEST, JZ(Size(a) + 1)]).Success?
    requires Plays(s1.(code := s1.code + [TEST, JZ(Size(a) + 1)]), a, k)
    requires Plays(k.(code := k.code + [JMP(Size(b))]), b, r)
    ensures Plays(st, Then(Fixed(tc + [TEST, JZ(Size(a) + 1)]), Then(a, Then(Fixed([JMP(Size(b))]), b))), r)
  {
    var c := [TEST, JZ(Size(a) + 1)];
    var h := s1.(code := s1.code + c);
    PutAppends(st, tc, s1, c);
    AppendsPlays(st, tc + c, h);
    var m := k.(code := k.code + [JMP(Size(b))]);
    AppendsPlays(k, [JMP(Size(b))], m);
    PlaysTwice(k, Fixed([JMP(Size(b))]), m, b, r);
    PlaysTwice(h, a, k, Then(Fixed([JMP(Size(b))]), b), r);
    PlaysTwice(st, Fixed(tc + c), h, Then(a, Then(Fixed([JMP(Size(b))]), b)), r);
  }

  lemma OverAlternative(s3: Emission, jz: nat, k: Emission, b: Piece, s5: Emission)
    requires Sound(s3) && jz < |s3.code| && BeginElse(s3, jz).Success?
    requires k == s3.(code := SetTarget(s3.code, jz, |s3.code| + 1))
    requires Plays(BeginElse(s3, jz).value, b, s5)
    ensures Plays(k.(code := k.code + [JMP(Size(b))]), b, PatchHere(s5, |s3.code|))
  {
    var s4 := BeginElse(s3, jz).value;
    assert s4.code == k.code + [JMP(UNRESOLVED)] + [];
    PatchOver(s4, k.code, JMP(UNRESOLVED), [], b, s5, |s5.code|);
    assert k.code + [JMP(Size(b))] + [] == k.code + [JMP(Size(b))];
  }

  // ---- loops ----

  /** The states in a loop: after the scope, the guard, its test, the body and the update. */
  lemma LoopParts(guard: Option<Expr>, loop: Stmt, update: Option<Expr>, st: Emission)
    returns (s0: Emission, s1: Emission, s2: Emission, s3: Emission, s4: Emission)
    requires EmitLoop(guard, loop, update, st).Success?
    ensures OpenScope(st, Scope(true, true)) == Success(s0) && EmitGuard(guard, s0) == Success(s1)
    ensures Put(s1, [TEST, JZ(UNRESOLVED)]) == Success(s2) && EmitStmt(loop, s2) == Success(s3)
    ensures EmitDiscarded(update, s3) == Success(s4)
    ensures EmitLoop(guard, loop, update, st) == FinishLoop(s4, |st.code|, |s1.code| + 1, |s3.code|)
  {
    s0 := OpenScope(st, Scope(true, true)).value;
    s1 := EmitGuard(guard, s0).value;
    s2, s3, s4 := LoopBodyParts(|st.code|, loop, update, s1);
  }

  lemma LoopBodyParts(begin: nat, loop: Stmt, update: Option<Expr>, s1: Emission)
    returns (s2: Emission, s3: Emission, s4: Emission)
    requires EmitLoopBody(begin, loop, update, s1).Success?
    ensures Put(s1, [TEST, JZ(UNRESOLVED)]) == Success(s2) && EmitStmt(loop, s2) == Success(s3)
    ensures EmitDiscarded(update, s3) == Success(s4)
    ensures EmitLoopBody(begin, loop, update, s1) == FinishLoop(s4, begin, |s1.code| + 1, |s3.code|)
  {
    s2 := Put(s1, [TEST, JZ(UNRESOLVED)]).value;
    s3 := EmitStmt(loop, s2).value;
    s4 := EmitDiscarded(update, s3).value;
  }

  lemma {:induction false} EmitLoopIsPlay(guard: Option<Expr>, loop: Stmt, update: Option<Expr>, st: Emission)
    requires EmitLoop(guard, loop, update, st).Success? && Sound(st)
    ensures var r := EmitLoop(guard, loop, update, st).value;
            && Plays(st, LoopPiece(GuardCode(guard, r.names), StmtPiece(loop, r.names), DiscardedCode(update, r.names)), r)
            && OptionBound(guard, r.names) && StmtBound(loop, r.names) && OptionBound(update, r.names) && Sound(r)
    decreases loop, 3
  {
    var s0, s1, s2, s3, s4 := LoopParts(guard, loop, update, st);
    EmitGuardIsLayout(guard, s0);
    EmitStmtIsPlay(loop, s2);
    EmitDiscardedIsLayout(update, s3);
    GuardIsStable(guard, s1.names, s4.names);
    StmtIsStable(loop, s3.names, s4.names);
    var r := FinishLoop(s4, |st.code|, |s1.code| + 1, |s3.code|).value;
    var g, body, u := GuardCode(guard, s4.names), StmtPiece(loop, s4.names), DiscardedCode(update, s4.names);
    FinishLoopPlays(st, g, s1, body, s3, u, s4);
    PlaysSound(st, LoopPiece(g, body, u), r);
  }

  lemma FinishLoopPlays(st: Emission, g: Code, s1: Emission, body: Piece, s3: Emission, u: Code, s4: Emission)
    requires Sound(st)
    requires Appends(st.(scopes := st.scopes + [Scope(true, true)]), g, s1)
    requires Plays(s1.(code := s1.code + [TEST, JZ(UNRESOLVED)]), body, s3)
    requires Appends(s3, u, s4) && FinishLoop(s4, |st.code|, |s1.code| + 1, |s3.code|).Success?
    ensures Plays(st, LoopPiece(g, body, u), FinishLoop(s4, |st.code|, |s1.code| + 1, |s3.code|).value)
  {
    var n, m := Size(body), |u|;
    LoopBodyPlays(st, g, s1, body, s3, u, s4, n, m, |g| + 2, n + m + 1, -(|g| + 2 + n + m) - 1);
  }

  /** The two jumps of a loop: `t` over body, update and jump back, and `b` back. */
  lemma LoopBodyPlays(st: Emission, g: Code, s1: Emission, body: Piece, s3: Emission, u: Code, s4: Emission,
                      n: nat, m: nat, k: nat, t: int, b: int)
    requires n == Size(body) && m == |u| && k == |g| + 2 && t == n + m + 1 && b == -(k + n + m) - 1
    requires Sound(st)
    requires Appends(st.(scopes := st.scopes + [Scope(true, true)]), g, s1)
    requires Plays(s1.(code := s1.code + [TEST, JZ(UNRESOLVED)]), body, s3)
    requires Appends(s3, u, s4) && FinishLoop(s4, |st.code|, |s1.code| + 1, |s3.code|).Success?
    ensures Plays(st, Scoped(Scope(true, true), k + n, Then(Fixed(g + [TEST, JZ(t)]), Then(body, Fixed(u + [JMP(b)])))),
                  FinishLoop(s4, |st.code|, |s1.code| + 1, |s3.code|).value)
  {
    var end := |s3.code| + m + 1;
    var h, p := s1.(code := s1.code + [TEST, JZ(t)]), s3.(code := SetTarget(s3.code, |s1.code| + 1, end));
    LoopTestPatched(s1, body, s3, |s1.code| + 1, end, t);
    var s5 := Put(s4, [JMP(|st.code| - |s4.code| - 1)]).value;
    assert s5.code == s3.code + (u + [JMP(b)]);
    var s6 := PatchHere(s5, |s1.code| + 1);
    assert s6.code == p.code + (u + [JMP(b)]);
    LoopInsidePlays(st.(scopes := st.scopes + [Scope(true, true)]), g + [TEST, JZ(t)], h, body, p, u + [JMP(b)], s6);
    assert s6.scopes[..|s6.scopes| - 1] == st.scopes;
  }

  lemma LoopTestPatched(s1: Emission, body: Piece, s3: Emission, at: nat, end: nat, t: int)
    requires at == |s1.code| + 1 && t == end - at - 1 && Live(s1.jumps, |s1.code|)
    requires Plays(s1.(code := s1.code + [TEST, JZ(UNRESOLVED)]), body, s3)
    ensures Plays(s1.(code := s1.code + [TEST, JZ(t)]), body, s3.(code := SetTarget(s3.code, at, end)))
  {
    var s2 := s1.(code := s1.code + [TEST] + [JZ(UNRESOLVED)] + []);
    assert s2.code == s1.code + [TEST, JZ(UNRESOLVED)];
    PatchOver(s2, s1.code + [TEST], JZ(UNRESOLVED), [], body, s3, end);
    assert s1.code + [TEST] + [JZ(t)] + [] == s1.code + [TEST, JZ(t)];
  }

  lemma LoopInsidePlays(st: Emission, test: Code, h: Emission, body: Piece, p: Emission, back: Code, r: Emission)
    requires h.code == st.code + test && h.jumps == st.jumps && h.scopes == st.scopes && st.names <= h.names
    requires Plays(h, body, p) && r.code == p.code + back && r.jumps == p.jumps && r.scopes == p.scopes && p.names <= r.names
    ensures Plays(st, Then(Fixed(test), Then(body, Fixed(back))), r)
  {
    assert Plays(st, Fixed(test), h);
    assert Plays(p, Fixed(back), r);
    PlaysTwice(h, body, p, Fixed(back), r);
    PlaysTwice(st, Fixed(test), h, Then(body, Fixed(back)), r);
  }

  predicate TestsBound(d: Expr, cases: Cases, names: seq<string>) {
    match cases
    case NoCases => true
    case Case(test, _, rest) =>
      (test.None? || (ExprBound(d, names) && ExprBound(test.value, names))) && TestsBound(d, rest, names)
  }

  predicate BodiesBound(cases: Cases, names: seq<string>) {
    match cases
    case NoCases => true
    case Case(test, body, rest) => (test.None? || StmtsBound(body, names)) && BodiesBound(rest, names)
  }

  lemma {:induction false} CasesBoundParts(d: Expr, cases: Cases, names: seq<string>)
    ensures CasesBound(d, cases, names) <==> TestsBound(d, cases, names) && BodiesBound(cases, names)
  {
    if cases.Case? {
      CasesBoundParts(d, cases.rest, names);
    }
  }

  /** The tests alone: they are known before the bodies are compiled. */
  function TestArms(d: Expr, cases: Cases, names: seq<string>): Arms {
    match cases
    case NoCases => NoArms
    case Case(test, _, rest) =>
      if test.None? then TestArms(d, rest, names)
      else Arm(TestCode(d, test.value, names), Fixed([]), TestArms(d, rest, names))
  }

  /** Open tests and their addresses do not depend on the bodies. */
  lemma {:induction false} ArmsHaveTests(d: Expr, cases: Cases, names: seq<string>, at: nat)
    ensures OpenTests(ArmsOf(d, cases, names)) == OpenTests(TestArms(d, cases, names))
    ensures TestAddresses(ArmsOf(d, cases, names), at) == TestAddresses(TestArms(d, cases, names), at)
  {
    if cases.Case? && cases.test.None? {
      ArmsHaveTests(d, cases.rest, names, at);
    } else if cases.Case? {
      ArmsHaveTests(d, cases.rest, names, at + |TestCode(d, cases.test.value, names)| + 1);
    }
  }

  lemma {:induction false} TestsAreStable(d: Expr, cases: Cases, names: seq<string>, later: seq<string>)
    requires TestsBound(d, cases, names) && names <= later
    ensures TestsBound(d, cases, later) && TestArms(d, cases, later) == TestArms(d, cases, names)
  {
    if cases.Case? {
      TestsAreStable(d, cases.rest, names, later);
      if cases.test.Some? {
        TestIsStable(d, cases.test.value, names, later);
      }
    }
  }

  lemma {:induction false} EmitTestIsLayout(d: Expr, test: Expr, n: nat, st: Emission)
    requires EmitTest(d, test, n, st).Success? && HasSelf(st.names)
    ensures var (at, r) := EmitTest(d, test, n, st).value;
            && Appends(st, TestCode(d, test, r.names) + [JNZ(UNRESOLVED)], r)
            && ExprBound(d, r.names) && ExprBound(test, r.names) && at == |r.code| - 1
  {
    var s1 := EmitExpr(d, st).value;
    EmitExprIsLayout(d, st);
    var s2 := EmitExpr(test, s1).value;
    EmitExprIsLayout(test, s1);
    ExprCodeIsStable(d, s1.names, s2.names);
    AppendsTwice(st, ExprCode(d, s2.names), s1, ExprCode(test, s2.names), s2);
    PutAppends(st, ExprCode(d, s2.names) + ExprCode(test, s2.names), s2, [BINOP(Equal), TEST, JNZ(UNRESOLVED)]);
  }

  lemma {:induction false} EmitTestsIsLayout(d: Expr, cases: Cases, jnz: seq<nat>, st: Emission)
    requires EmitTests(d, cases, jnz, st).Success? && HasSelf(st.names)
    ensures var (j, r) := EmitTests(d, cases, jnz, st).value;
            var arms := TestArms(d, cases, r.names);
            && Appends(st, OpenTests(arms), r) && j == jnz + TestAddresses(arms, |st.code|)
            && TestsBound(d, cases, r.names)
  {
    match cases
    case NoCases =>
    case Case(test, _, rest) =>
      if test.None? {
        EmitTestsIsLayout(d, rest, jnz, st);
      } else {
        var (at, s1) := EmitTest(d, test.value, |jnz|, st).value;
        EmitTestIsLayout(d, test.value, |jnz|, st);
        EmitTestsIsLayout(d, rest, jnz + [at], s1);
        var (j, r) := EmitTests(d, cases, jnz, st).value;
        TestIsStable(d, test.value, s1.names, r.names);
        MoreTests(st, TestCode(d, test.value, r.names), s1, TestArms(d, rest, r.names), r, jnz);
      }
  }

  lemma MoreTests(st: Emission, t: Code, s1: Emission, rest: Arms, r: Emission, jnz: seq<nat>)
    requires Appends(st, t + [JNZ(UNRESOLVED)], s1) && Appends(s1, OpenTests(rest), r)
    ensures Appends(st, OpenTests(Arm(t, Fixed([]), rest)), r)
    ensures jnz + [|s1.code| - 1] + TestAddresses(rest, |s1.code|) ==
            jnz + TestAddresses(Arm(t, Fixed([]), rest), |st.code|)
  {
    assert |s1.code| == |st.code| + |t| + 1;
    AppendsTwice(st, t + [JNZ(UNRESOLVED)], s1, OpenTests(rest), r);
    MoreAddresses(t, rest, jnz, |st.code|, |s1.code|);
  }

  lemma MoreAddresses(t: Code, rest: Arms, jnz: seq<nat>, at: nat, next: nat)
    requires next == at + |t| + 1
    ensures jnz + [next - 1] + TestAddresses(rest, next) == jnz + TestAddresses(Arm(t, Fixed([]), rest), at)
  {
  }

  /** No pending jump is among some addresses. */
  predicate Clear(jumps: Pending, from: nat, to: nat) {
    forall i :: 0 <= i < |jumps| ==> !(from <= jumps[i].ip < to)
  }

  lemma {:induction false} PlayClear(p: Piece, level: nat, code: Code, jumps: Pending, from: nat, to: nat)
    requires Clear(jumps, from, to) && to <= |code|
    ensures Clear(Play(p, level, code, jumps).1, from, to)
  {
    match p
    case Then(a, b) =>
      PlayClear(a, level, code, jumps, from, to);
      var (c, j) := Play(a, level, code, jumps);
      PlayClear(b, level, c, j, from, to);
    case Scoped(_, _, body) => PlayClear(body, level + 1, code, jumps, from, to);
    case _ =>
  }

  /** Pointing tests commutes with back-patching a piece that comes after them. */
  lemma {:induction false} PlayPoint(p: Piece, level: nat, code: Code, jumps: Pending, arms: Arms, at: nat, target: nat)
    requires at + TestsSize(arms) <= |code| && Clear(jumps, at, at + TestsSize(arms))
    ensures var (c, j) := Play(p, level, code, jumps);
            Play(p, level, PointTests(code, arms, at, target), jumps) == (PointTests(c, arms, at, target), j)
    decreases arms
  {
    if arms.Arm? {
      var q := at + |arms.test|;
      var x: int := target - q - 1;
      var ins, c := code[q].WithRel(x), Play(p, level, code, jumps).0;
      PlayKeepsInstruction(p, level, code, q, jumps);
      PlayUpdate(p, level, code, q, ins, jumps);
      PointStep(code, code[q := ins], arms, at, q, target, x);
      PointStep(c, c[q := ins], arms, at, q, target, x);
      PlayPoint(p, level, code[q := ins], jumps, arms.rest, q + 1, target + Size(arms.body));
    }
  }

  /** `jnz` from `n` on holds the addresses of the tests that start at `at`. */
  predicate Lists(jnz: seq<nat>, n: nat, arms: Arms, at: nat)
    decreases arms
  {
    match arms
    case NoArms => true
    case Arm(test, _, rest) =>
      n < |jnz| && jnz[n] == at + |test| && Lists(jnz, n + 1, rest, at + |test| + 1)
  }

  lemma {:induction false} AddressesAreListed(pre: seq<nat>, arms: Arms, at: nat)
    ensures Lists(pre + TestAddresses(arms, at), |pre|, arms, at)
    decreases arms
  {
    if arms.Arm? {
      var q := at + |arms.test|;
      AddressesAreListed(pre + [q], arms.rest, q + 1);
      assert pre + [q] + TestAddresses(arms.rest, q + 1) == pre + TestAddresses(arms, at);
    }
  }

  /** Bodies, when the tests in front of them have the given codes and addresses. */
  lemma {:induction false} EmitBodiesIsPlay(d: Expr, cases: Cases, jnz: seq<nat>, n: nat, st: Emission, at: nat,
                                            known: seq<string>)
    requires EmitBodies(cases, jnz, n, st).Success? && Sound(st)
    requires TestsBound(d, cases, known) && known <= st.names
    requires var arms := TestArms(d, cases, known);
             && Lists(jnz, n, arms, at) && at + TestsSize(arms) <= |st.code|
             && Clear(st.jumps, at, at + TestsSize(arms))
    ensures var r := EmitBodies(cases, jnz, n, st).value;
            var arms := ArmsOf(d, cases, r.names);
            && Plays(st.(code := PointTests(st.code, arms, at, |st.code|)), BodiesPiece(arms), r)
            && BodiesBound(cases, r.names) && Sound(r)
    decreases cases, 2
  {
    match cases
    case NoCases => assert st.code + [] == st.code;
    case Case(test, body, rest) =>
      if test.None? {
        EmitBodiesIsPlay(d, rest, jnz, n, st, at, known);
      } else {
        EmitBodyIsPlay(d, cases, jnz, n, st, at, known);
      }
  }

  lemma {:induction false} EmitBodyIsPlay(d: Expr, cases: Cases, jnz: seq<nat>, n: nat, st: Emission, at: nat,
                                          known: seq<string>)
    requires cases.Case? && cases.test.Some?
    requires EmitBodies(cases, jnz, n, st).Success? && Sound(st)
    requires TestsBound(d, cases, known) && known <= st.names
    requires var arms := TestArms(d, cases, known);
             && Lists(jnz, n, arms, at) && at + TestsSize(arms) <= |st.code|
             && Clear(st.jumps, at, at + TestsSize(arms))
    ensures var r := EmitBodies(cases, jnz, n, st).value;
            var arms := ArmsOf(d, cases, r.names);
            && Plays(st.(code := PointTests(st.code, arms, at, |st.code|)), BodiesPiece(arms), r)
            && BodiesBound(cases, r.names) && Sound(r)
    decreases cases, 1
  {
    var body, rest := cases.consequent, cases.rest;
    var next := FirstTest(d, cases, jnz, n, at, known);
    var s0, s1 := BodyParts(cases, jnz, n, st);
    var r := EmitBodies(rest, jnz, n + 1, s1).value;
    EmitStmtsIsPlay(body, s0);
    ClearAfter(s0, StmtsPiece(body, s1.names), s1, next, next + TestsSize(TestArms(d, rest, known)));
    EmitBodiesIsPlay(d, rest, jnz, n + 1, s1, next, known);
    StmtsAreStable(body, s1.names, r.names);
    BodyJoined(d, cases, known, st, at, next, s0, s1, r);
  }

  lemma BodyJoined(d: Expr, cases: Cases, known: seq<string>, st: Emission, at: nat, next: nat,
                   s0: Emission, s1: Emission, r: Emission)
    requires cases.Case? && cases.test.Some? && TestsBound(d, cases, known) && known <= r.names
    requires var size := TestsSize(TestArms(d, cases, known)); at + size <= |st.code| && Clear(st.jumps, at, at + size)
    requires next == at + |TestCode(d, cases.test.value, known)| + 1 && s0 == PatchHere(st, next - 1)
    requires Plays(s0, StmtsPiece(cases.consequent, r.names), s1)
    requires var rest := ArmsOf(d, cases.rest, r.names);
             Plays(s1.(code := PointTests(s1.code, rest, next, |s1.code|)), BodiesPiece(rest), r)
    ensures var arms := ArmsOf(d, cases, r.names);
            Plays(st.(code := PointTests(st.code, arms, at, |st.code|)), BodiesPiece(arms), r)
  {
    BodyTests(d, cases, known, r.names);
    var all := FirstArm(d, cases, r.names);
    MoreBodies(st, all, s0, s1, r, at);
  }

  lemma FirstArm(d: Expr, cases: Cases, names: seq<string>) returns (all: Arms)
    requires cases.Case? && cases.test.Some?
    ensures all == ArmsOf(d, cases, names)
    ensures all == Arm(TestCode(d, cases.test.value, names), StmtsPiece(cases.consequent, names), ArmsOf(d, cases.rest, names))
  {
    all := ArmsOf(d, cases, names);
  }

  lemma FirstTest(d: Expr, cases: Cases, jnz: seq<nat>, n: nat, at: nat, known: seq<string>) returns (next: nat)
    requires cases.Case? && cases.test.Some? && Lists(jnz, n, TestArms(d, cases, known), at)
    ensures next == at + |TestCode(d, cases.test.value, known)| + 1 && n < |jnz| && jnz[n] == next - 1
    ensures Lists(jnz, n + 1, TestArms(d, cases.rest, known), next)
    ensures at + TestsSize(TestArms(d, cases, known)) == next + TestsSize(TestArms(d, cases.rest, known))
  {
    next := at + |TestCode(d, cases.test.value, known)| + 1;
  }

  /** The states before and after the first body. */
  lemma BodyParts(cases: Cases, jnz: seq<nat>, n: nat, st: Emission) returns (s0: Emission, s1: Emission)
    requires cases.Case? && cases.test.Some? && EmitBodies(cases, jnz, n, st).Success? && n < |jnz|
    ensures s0 == PatchHere(st, jnz[n]) && EmitStmts(cases.consequent, s0) == Success(s1)
    ensures EmitBodies(cases, jnz, n, st) == EmitBodies(cases.rest, jnz, n + 1, s1)
  {
    s0 := PatchHere(st, jnz[n]);
    s1 := EmitStmts(cases.consequent, s0).value;
  }

  lemma ClearAfter(st: Emission, p: Piece, r: Emission, from: nat, to: nat)
    requires Plays(st, p, r) && Clear(st.jumps, from, to) && to <= |st.code|
    ensures Clear(r.jumps, from, to) && to <= |r.code|
  {
    PlayClear(p, |st.scopes|, st.code, st.jumps, from, to);
  }

  lemma BodyTests(d: Expr, cases: Cases, known: seq<string>, names: seq<string>)
    requires cases.Case? && cases.test.Some? && TestsBound(d, cases, known) && known <= names
    ensures TestCode(d, cases.test.value, names) == TestCode(d, cases.test.value, known)
    ensures TestsSize(ArmsOf(d, cases.rest, names)) == TestsSize(TestArms(d, cases.rest, known))
    ensures TestsSize(ArmsOf(d, cases, names)) == TestsSize(TestArms(d, cases, known))
  {
    TestIsStable(d, cases.test.value, known, names);
    TestsAreStable(d, cases.rest, known, names);
    ArmsHaveTests(d, cases.rest, names, 0);
    assert TestsSize(ArmsOf(d, cases.rest, names)) == |OpenTests(ArmsOf(d, cases.rest, names))|;
  }

  lemma MoreBodies(st: Emission, all: Arms, s0: Emission, s1: Emission, r: Emission, at: nat)
    requires all.Arm? && at + TestsSize(all) <= |st.code| && Clear(st.jumps, at, at + TestsSize(all))
    requires s0 == PatchHere(st, at + |all.test|) && Plays(s0, all.body, s1)
    requires Plays(s1.(code := PointTests(s1.code, all.rest, at + |all.test| + 1, |s1.code|)), BodiesPiece(all.rest), r)
    ensures Plays(st.(code := PointTests(st.code, all, at, |st.code|)), BodiesPiece(all), r)
  {
    assert |s1.code| == |st.code| + Size(all.body);
    PlayPoint(all.body, |st.scopes|, s0.code, s0.jumps, all.rest, at + |all.test| + 1, |s1.code|);
  }

  lemma {:induction false} EmitDefaultIsPlay(cases: Cases, jump: nat, st: Emission)
    requires EmitDefault(cases, jump, st).Success? && Sound(st)
    ensures var r := EmitDefault(cases, jump, st).value;
            && DefaultBound(cases, r.names) && Sound(r)
            && (match DefaultPiece(cases, r.names)
                case None => r == st
                case Some(p) => Plays(PatchHere(st, jump), p, r))
    decreases cases, 1
  {
    if DefaultBody(cases).Some? {
      EmitStmtsIsPlay(DefaultBody(cases).value, PatchHere(st, jump));
    }
  }

  /** The state between the tests and the bodies of a switch. */
  ghost predicate Tested(st: Emission, d: Expr, cases: Cases, jnz: seq<nat>, s2: Emission) {
    var arms := TestArms(d, cases, s2.names);
    && Appends(st.(scopes := st.scopes + [Scope(true, false)]), OpenTests(arms), s2)
    && jnz == TestAddresses(arms, |st.code|) && TestsBound(d, cases, s2.names)
  }

  function OpenDefaultJump(cases: Cases): Code {
    if DefaultBody(cases).None? then [] else [JMP(UNRESOLVED)]
  }

  lemma {:induction false} EmitSwitchIsPlay(d: Expr, cases: Cases, st: Emission)
    requires EmitStmt(Switch(d, cases), st).Success? && Sound(st)
    ensures var r := EmitStmt(Switch(d, cases), st).value;
            && Plays(st, SwitchPiece(ArmsOf(d, cases, r.names), DefaultPiece(cases, r.names)), r)
            && StmtBound(Switch(d, cases), r.names) && Sound(r)
    decreases cases, 4
  {
    var s1 := OpenScope(st, Scope(true, false)).value;
    var (jnz, s2) := EmitTests(d, cases, [], s1).value;
    EmitTestsIsLayout(d, cases, [], s1);
    assert Tested(st, d, cases, jnz, s2);
    EmitTestedIsPlay(d, cases, st, jnz, s2);
  }

  lemma {:induction false} EmitTestedIsPlay(d: Expr, cases: Cases, st: Emission, jnz: seq<nat>, s2: Emission)
    requires Sound(st) && Tested(st, d, cases, jnz, s2)
    requires Put(s2, OpenDefaultJump(cases)).Success?
    requires var s4 := EmitBodies(cases, jnz, 0, Put(s2, OpenDefaultJump(cases)).value);
             s4.Success? && EmitDefault(cases, |s2.code|, s4.value).Success?
    ensures var s4 := EmitBodies(cases, jnz, 0, Put(s2, OpenDefaultJump(cases)).value).value;
            var s5 := EmitDefault(cases, |s2.code|, s4).value;
            var r := CloseScope(s5, None, |s5.code|);
            && Plays(st, SwitchPiece(ArmsOf(d, cases, r.names), DefaultPiece(cases, r.names)), r)
            && CasesBound(d, cases, r.names) && DefaultBound(cases, r.names) && Sound(r)
    decreases cases, 3
  {
    var arms := TestArms(d, cases, s2.names);
    var s3 := Put(s2, OpenDefaultJump(cases)).value;
    AddressesAreListed([], arms, |st.code|);
    assert [] + TestAddresses(arms, |st.code|) == jnz;
    EmitBodiesIsPlay(d, cases, jnz, 0, s3, |st.code|, s2.names);
    var s4 := EmitBodies(cases, jnz, 0, s3).value;
    EmitDefaultIsPlay(cases, |s2.code|, s4);
    var s5 := EmitDefault(cases, |s2.code|, s4).value;
    FinishSwitch(d, cases, st, jnz, s2, s3, s4, s5);
    PlaysSound(st, SwitchPiece(ArmsOf(d, cases, s5.names), DefaultPiece(cases, s5.names)),
               CloseScope(s5, None, |s5.code|));
  }

  lemma {:induction false} FinishSwitch(d: Expr, cases: Cases, st: Emission, jnz: seq<nat>, s2: Emission,
                                        s3: Emission, s4: Emission, s5: Emission)
    requires Sound(st) && Tested(st, d, cases, jnz, s2)
    requires s3 == s2.(code := s2.code + OpenDefaultJump(cases))
    requires var arms := ArmsOf(d, cases, s4.names);
             && Plays(s3.(code := PointTests(s3.code, arms, |st.code|, |s3.code|)), BodiesPiece(arms), s4)
             && BodiesBound(cases, s4.names)
    requires s4.names <= s5.names && DefaultBound(cases, s5.names)
    requires match DefaultPiece(cases, s5.names)
             case None => s5 == s4
             case Some(p) => Plays(PatchHere(s4, |s2.code|), p, s5)
    ensures Plays(st, SwitchPiece(ArmsOf(d, cases, s5.names), DefaultPiece(cases, s5.names)),
                  CloseScope(s5, None, |s5.code|))
    ensures CasesBound(d, cases, s5.names)
  {
    TestsAreStable(d, cases, s2.names, s4.names);
    CasesBoundParts(d, cases, s4.names);
    CasesAreStable(d, cases, s4.names, s5.names);
    ArmsHaveTests(d, cases, s4.names, |st.code|);
    FinishArms(st, ArmsOf(d, cases, s5.names), DefaultPiece(cases, s5.names), OpenDefaultJump(cases), s2, s3, s4, s5);
  }

  lemma FinishArms(st: Emission, arms: Arms, default: Option<Piece>, j0: Code, s2: Emission,
                   s3: Emission, s4: Emission, s5: Emission)
    requires Sound(st) && Appends(st.(scopes := st.scopes + [Scope(true, false)]), OpenTests(arms), s2)
    requires j0 == if default.None? then [] else [JMP(UNRESOLVED)]
    requires s3 == s2.(code := s2.code + j0)
    requires Plays(s3.(code := PointTests(s3.code, arms, |st.code|, |s3.code|)), BodiesPiece(arms), s4)
    requires match default case None => s5 == s4 case Some(p) => Plays(PatchHere(s4, |s2.code|), p, s5)
    ensures Plays(st, SwitchPiece(arms, default), CloseScope(s5, None, |s5.code|))
  {
    var d := TestsSize(arms) + |j0|;
    var p := ArmsPointed(st, arms, j0, s2, s3, d);
    SwitchPieceIs(arms, default, d, TestsCode(arms, d));
    FinishTests(st, TestsCode(arms, d), BodiesPiece(arms), default, j0, p, s4, s5);
  }

  /** The state when all tests know their bodies. */
  lemma ArmsPointed(st: Emission, arms: Arms, j0: Code, s2: Emission, s3: Emission, d: nat) returns (p: Emission)
    requires Appends(st.(scopes := st.scopes + [Scope(true, false)]), OpenTests(arms), s2)
    requires s3 == s2.(code := s2.code + j0) && d == TestsSize(arms) + |j0|
    ensures p == s3.(code := PointTests(s3.code, arms, |st.code|, |s3.code|))
    ensures p == Emission(st.code + TestsCode(arms, d) + j0, st.jumps, st.scopes + [Scope(true, false)], s3.names)
    ensures st.names <= s3.names && |s2.code| == |st.code| + |TestsCode(arms, d)|
  {
    TestsPointed(arms, st.code, j0, s3.code, |st.code|, |s3.code|, d);
    TestsCodeSize(arms, d);
    p := s3.(code := PointTests(s3.code, arms, |st.code|, |s3.code|));
  }

  lemma SwitchPieceIs(arms: Arms, default: Option<Piece>, d: nat, tests: Code)
    requires d == TestsSize(arms) + (if default.None? then 0 else 1) && tests == TestsCode(arms, d)
    ensures var bodies := BodiesPiece(arms);
            var j := if default.None? then [] else [JMP(Size(bodies))];
            SwitchPiece(arms, default) ==
            Scoped(Scope(true, false), 0, Then(Fixed(tests + j), Then(bodies, DefaultOrNothing(default))))
  {
  }

  lemma TestsPointed(arms: Arms, pre: Code, post: Code, code: Code, at: nat, target: nat, d: nat)
    requires code == pre + OpenTests(arms) + post && at == |pre| && target == |code| && d == TestsSize(arms) + |post|
    ensures PointTests(code, arms, at, target) == pre + TestsCode(arms, d) + post
  {
    PointIsTests(arms, pre, post, at, target, d);
  }

  lemma FinishTests(st: Emission, tests: Code, bodies: Piece, default: Option<Piece>,
                    j0: Code, s3: Emission, s4: Emission, s5: Emission)
    requires Sound(st) && st.names <= s3.names
    requires s3 == Emission(st.code + tests + j0, st.jumps, st.scopes + [Scope(true, false)], s3.names)
    requires Plays(s3, bodies, s4)
    requires j0 == if default.None? then [] else [JMP(UNRESOLVED)]
    requires match default case None => s5 == s4 case Some(p) => Plays(PatchHere(s4, |st.code| + |tests|), p, s5)
    ensures var j := if default.None? then [] else [JMP(Size(bodies))];
            Plays(st, Scoped(Scope(true, false), 0, Then(Fixed(tests + j), Then(bodies, DefaultOrNothing(default)))),
                  CloseScope(s5, None, |s5.code|))
  {
    match default {
      case None =>
        assert st.code + tests + j0 == st.code + (tests + []);
        assert s4.code + [] == s4.code;
        FinishScope(st, s3.names, tests + [], bodies, Fixed([]), s4, s5);
      case Some(p) => FinishDefault(st, tests, bodies, p, |st.code| + |tests|, s3, s4, s5);
    }
  }

  lemma FinishDefault(st: Emission, tests: Code, bodies: Piece, p: Piece, at: nat, s3: Emission, s4: Emission, s5: Emission)
    requires Sound(st) && st.names <= s3.names && at == |st.code| + |tests|
    requires s3 == Emission(st.code + tests + [JMP(UNRESOLVED)], st.jumps, st.scopes + [Scope(true, false)], s3.names)
    requires Plays(s3, bodies, s4) && Plays(PatchHere(s4, at), p, s5)
    ensures Plays(st, Scoped(Scope(true, false), 0, Then(Fixed(tests + [JMP(Size(bodies))]), Then(bodies, p))),
                  CloseScope(s5, None, |s5.code|))
  {
    DefaultPatched(st, tests, bodies, Size(bodies), at, s3, s4);
    FinishScope(st, s3.names, tests + [JMP(Size(bodies))], bodies, p, PatchHere(s4, at), s5);
  }

  /** When the default body is to come, the jump to it is patched. */
  lemma DefaultPatched(st: Emission, tests: Code, bodies: Piece, n: nat, at: nat, s3: Emission, s4: Emission)
    requires Sound(st) && n == Size(bodies) && at == |st.code| + |tests| && Plays(s3, bodies, s4)
    requires s3 == Emission(st.code + tests + [JMP(UNRESOLVED)], st.jumps, st.scopes + [Scope(true, false)], s3.names)
    ensures Plays(Emission(st.code + (tests + [JMP(n)]), st.jumps, st.scopes + [Scope(true, false)], s3.names), bodies,
                  PatchHere(s4, at))
  {
    assert s3.code == st.code + tests + [JMP(UNRESOLVED)] + [];
    PatchOver(s3, st.code + tests, JMP(UNRESOLVED), [], bodies, s4, |s4.code|);
    assert st.code + (tests + [JMP(n)]) == st.code + tests + [JMP(n)] + [];
  }

  lemma FinishScope(st: Emission, names: seq<string>, c: Code, a: Piece, b: Piece, s4: Emission, s5: Emission)
    requires st.names <= names
    requires Plays(Emission(st.code + c, st.jumps, st.scopes + [Scope(true, false)], names), a, s4)
    requires Plays(s4, b, s5)
    ensures Plays(st, Scoped(Scope(true, false), 0, Then(Fixed(c), Then(a, b))), CloseScope(s5, None, |s5.code|))
  {
    assert s5.scopes[..|s5.scopes| - 1] == st.scopes;
    assert Play(Then(Fixed(c), Then(a, b)), |st.scopes| + 1, st.code, st.jumps) == (s5.code, s5.jumps);
  }
}
