/** Where the jumps of a compiled function go: inside the function, and never nowhere. */
module Jumps {
  import opened Wrappers
  import opened Values
  import opened Syntax
  import opened Bytecode
  import opened Emitter
  import opened Pieces
  import opened Shapes
  import opened Layout
  import opened Statements
  import opened Linking

  /** Every jump has been given a target, and it lies between `lo` and `hi`. */
  predicate JumpsIn(c: Code, lo: int, hi: int) {
    forall i :: 0 <= i < |c| && c[i].IsJump() ==> c[i].rel != UNRESOLVED && lo <= i + 1 + c[i].rel <= hi
  }

  lemma Wider(c: Code, lo: int, hi: int, l: int, h: int)
    requires JumpsIn(c, lo, hi) && l <= lo && hi <= h
    ensures JumpsIn(c, l, h)
  {
  }

  lemma Joined(a: Code, b: Code, lo: int, hi: int, l: int, h: int)
    requires JumpsIn(a, lo, hi) && JumpsIn(b, l, h) && l == lo - |a| && h == hi - |a|
    ensures JumpsIn(a + b, lo, hi)
  {
    forall i | 0 <= i < |a + b| && (a + b)[i].IsJump()
      ensures (a + b)[i].rel != UNRESOLVED && lo <= i + 1 + (a + b)[i].rel <= hi
    {
      if i >= |a| {
        assert (a + b)[i] == b[i - |a|];
      }
    }
  }

  /** Two parts, each of which stays inside itself. */
  lemma Apart(a: Code, b: Code)
    requires JumpsIn(a, 0, |a|) && JumpsIn(b, 0, |b|)
    ensures JumpsIn(a + b, 0, |a + b|)
  {
    Wider(a, 0, |a|, 0, |a + b|);
    Wider(b, 0, |b|, -|a|, |b|);
    Joined(a, b, 0, |a + b|, -|a|, |b|);
  }

  predicate Inside(c: Code) {
    JumpsIn(c, 0, |c|)
  }

  lemma LogicalInside(l: Code, jump: Instruction, one: bool, r: Code, op: BinaryOp)
    requires Inside(l) && Inside(r) && jump.IsJump()
    ensures Inside(LogicalCode(l, jump, one, r, op))
  {
    var test, tail := [TEST, jump.WithRel(|r| + 3), CONST(one)], [BINOP(op), JMP(1), CONST(!one)];
    var n := |r| + 6;
    Wider(r, 0, |r|, 0, |r| + 3);
    Joined(r, tail, 0, |r| + 3, -|r|, 3);
    Wider(r + tail, 0, |r| + 3, -3, |r| + 3);
    Joined(test, r + tail, 0, n, -3, |r| + 3);
    Apart(l, test + (r + tail));
    assert LogicalCode(l, jump, one, r, op) == l + (test + (r + tail));
  }

  lemma BranchInside(t: Code, a: Code, b: Code)
    requires Inside(t) && Inside(a) && Inside(b)
    ensures Inside(BranchCode(t, a, b))
  {
    var test, jump := [TEST, JZ(|a| + 1)], [JMP(|b|)];
    var m, n := |b| + 1, |a| + |b| + 1;
    Wider(b, 0, |b|, -1, |b|);
    Joined(jump, b, 0, m, -1, |b|);
    Wider(a, 0, |a|, 0, n);
    Wider(jump + b, 0, m, -|a|, m);
    Joined(a, jump + b, 0, n, -|a|, m);
    Wider(a + (jump + b), 0, n, -2, n);
    Joined(test, a + (jump + b), 0, n + 2, -2, n);
    Apart(t, test + (a + (jump + b)));
    assert BranchCode(t, a, b) == t + (test + (a + (jump + b)));
  }

  lemma TwoThen(a: Code, b: Code, tail: Code)
    requires Inside(a) && Inside(b) && Inside(tail)
    ensures Inside(a + b + tail)
  {
    Apart(a, b);
    Apart(a + b, tail);
  }

  lemma {:induction false} ExprInside(e: Expr, names: seq<string>)
    ensures Inside(ExprCode(e, names))
    decreases e, 1
  {
    match e
    case Lit(_) =>
    case Self =>
    case Id(_) =>
    case Group(a) => ExprInside(a, names);
    case Negate(a) => ExprInside(a, names); Apart(ExprCode(a, names), [CONST(false), BINOP(Sub)]);
    case Prefix(op, a) => ExprInside(a, names); Apart(ExprCode(a, names), [UNARY(op)]);
    case Postfix(increment, a) =>
      ExprInside(a, names);
      TwoThen(ExprCode(a, names), ExprCode(a, names),
              [CONST(true), BINOP(if increment then Add else Sub), LvalueCode(a, names), STORE, POP]);
    case Assign(l, r) => ExprInside(r, names); Apart(ExprCode(r, names), [LvalueCode(l, names), STORE]);
    case OpAssign(op, l, r) =>
      ExprInside(l, names);
      ExprInside(r, names);
      TwoThen(ExprCode(l, names), ExprCode(r, names), [BINOP(op), LvalueCode(l, names), STORE]);
    case Binary(op, l, r) =>
      ExprInside(l, names);
      ExprInside(r, names);
      TwoThen(ExprCode(l, names), ExprCode(r, names), [BINOP(op)]);
    case And(l, r) =>
      ExprInside(l, names);
      ExprInside(r, names);
      LogicalInside(ExprCode(l, names), JZ(0), true, ExprCode(r, names), LogicalAnd);
    case Or(l, r) =>
      ExprInside(l, names);
      ExprInside(r, names);
      LogicalInside(ExprCode(l, names), JNZ(0), false, ExprCode(r, names), LogicalOr);
    case Ternary(t, a, b) =>
      ExprInside(t, names);
      ExprInside(a, names);
      ExprInside(b, names);
      BranchInside(ExprCode(t, names), ExprCode(a, names), ExprCode(b, names));
    case Call(receiver, callee, arguments) =>
      ArgumentsInside(arguments, names);
      match receiver {
        case Some(r) => ExprInside(r, names);
        case None =>
      }
      TwoThen(ArgumentsCode(arguments, names), ReceiverCode(receiver, names),
              [PUSH(PushCount(|arguments|)), CALL(callee, |arguments|, receiver.Some?)]);
  }

  lemma {:induction false} ArgumentsInside(es: seq<Expr>, names: seq<string>)
    ensures Inside(ArgumentsCode(es, names))
    decreases es, 0
  {
    if es != [] {
      ArgumentsInside(es[1..], names);
      ExprInside(es[0], names);
      Apart(ArgumentsCode(es[1..], names), ExprCode(es[0], names));
    }
  }

  // ---- statements ----

  /** A target behind a piece of this size, at most at `hi`. */
  predicate Behind(t: Target, size: nat, hi: int, needed: bool) {
    (needed ==> t.Some?) && (t.Some? ==> size <= t.value <= hi)
  }

  predicate Around(p: Piece, b: bool, c: bool, brk: Target, cont: Target, hi: int) {
    Behind(brk, Size(p), hi, b) && Behind(cont, Size(p), hi, c) && Size(p) <= hi
  }

  /** Told where breaks and continues go, the code of the piece stays where it should. */
  ghost predicate Keeps(p: Piece, b: bool, c: bool) {
    forall brk, cont, hi :: Around(p, b, c, brk, cont, hi) ==> JumpsIn(Render(p, brk, cont), 0, hi)
  }

  lemma FixedKeeps(code: Code, b: bool, c: bool)
    requires Inside(code)
    ensures Keeps(Fixed(code), b, c)
  {
  }

  lemma LeaveKeeps(kind: JumpKind, b: bool, c: bool)
    requires if kind.BreakJump? then b else c
    ensures Keeps(Leave(kind), b, c)
  {
    forall brk, cont, hi | Around(Leave(kind), b, c, brk, cont, hi)
      ensures JumpsIn(Render(Leave(kind), brk, cont), 0, hi)
    {
      assert Goto(if kind.BreakJump? then brk else cont).rel != UNRESOLVED;
    }
  }

  /** Fixed code whose jumps may go up to the end of the piece that follows it. */
  lemma FirstKeeps(code: Code, q: Piece, b: bool, c: bool)
    requires JumpsIn(code, 0, |code| + Size(q)) && Keeps(q, b, c)
    ensures Keeps(Then(Fixed(code), q), b, c)
  {
    var p, n := Then(Fixed(code), q), |code|;
    forall brk, cont, hi | Around(p, b, c, brk, cont, hi) ensures JumpsIn(Render(p, brk, cont), 0, hi) {
      var x, y := Skip(brk, n), Skip(cont, n);
      assert Around(q, b, c, x, y, hi - n);
      Wider(code, 0, n + Size(q), 0, hi);
      Wider(Render(q, x, y), 0, hi - n, -n, hi - n);
      Joined(code, Render(q, x, y), 0, hi, -n, hi - n);
    }
  }

  lemma ThenKeeps(a: Piece, q: Piece, b: bool, c: bool)
    requires Keeps(a, b, c) && Keeps(q, b, c)
    ensures Keeps(Then(a, q), b, c)
  {
    var p, n: int := Then(a, q), Size(a);
    forall brk, cont, hi | Around(p, b, c, brk, cont, hi) ensures JumpsIn(Render(p, brk, cont), 0, hi) {
      var x, y := Skip(brk, n), Skip(cont, n);
      assert Around(a, b, c, brk, cont, hi) && Around(q, b, c, x, y, hi - n);
      Wider(Render(q, x, y), 0, hi - n, -n, hi - n);
      Joined(Render(a, brk, cont), Render(q, x, y), 0, hi, -n, hi - n);
    }
  }

  lemma ElseKeeps(tc: Code, p: Piece, q: Piece, b: bool, c: bool)
    requires Inside(tc) && Keeps(p, b, c) && Keeps(q, b, c)
    ensures Keeps(Then(Fixed(tc + [TEST, JZ(Size(p) + 1)]), Then(p, Then(Fixed([JMP(Size(q))]), q))), b, c)
  {
    var jump := Then(Fixed([JMP(Size(q))]), q);
    FirstKeeps([JMP(Size(q))], q, b, c);
    ThenKeeps(p, jump, b, c);
    assert Size(jump) == 1 + Size(q);
    TestJumps(tc, Size(p) + 1, Size(Then(p, jump)));
    FirstKeeps(tc + [TEST, JZ(Size(p) + 1)], Then(p, jump), b, c);
  }

  lemma TestJumps(tc: Code, rel: nat, size: nat)
    requires Inside(tc) && rel <= size
    ensures JumpsIn(tc + [TEST, JZ(rel)], 0, |tc| + 2 + size)
  {
    var n := |tc|;
    Wider(tc, 0, n, 0, n + 2 + size);
    Joined(tc, [TEST, JZ(rel)], 0, n + 2 + size, -n, 2 + size);
  }

  lemma LoopKeeps(g: Code, body: Piece, u: Code, b: bool, c: bool)
    requires Inside(g) && Inside(u) && Keeps(body, true, true)
    ensures Keeps(LoopPiece(g, body, u), b, c)
  {
    var n, k, m := |g| + 2, Size(body), |u|;
    var t, back := k + m + 1, -(n + k + m) - 1;
    var code := Render(body, Some(t), Some(k));
    assert Around(body, true, true, Some(t), Some(k), t);
    LoopInside(g, code, u, n, k, m, t, back);
    LoopIs(g, body, u);
    WholeKeeps(LoopPiece(g, body, u), g + [TEST, JZ(t)] + (code + (u + [JMP(back)])), b, c);
  }

  lemma LoopInside(g: Code, code: Code, u: Code, n: nat, k: nat, m: nat, t: int, back: int)
    requires n == |g| + 2 && k == |code| && m == |u| && t == k + m + 1 && back == -(n + k + m) - 1
    requires Inside(g) && Inside(u) && JumpsIn(code, 0, t)
    ensures Inside(g + [TEST, JZ(t)] + (code + (u + [JMP(back)])))
  {
    var test, tail := g + [TEST, JZ(t)], u + [JMP(back)];
    Wider(u, 0, m, 0 - n - k, m + 1);
    Joined(u, [JMP(back)], 0 - n - k, m + 1, 0 - n - k - m, 1);
    Wider(code, 0, t, 0 - n, t);
    Joined(code, tail, 0 - n, t, 0 - n - k, m + 1);
    TestJumps(g, t, t);
    Joined(test, code + tail, 0, n + t, 0 - n, t);
  }

  /** Code that stays inside itself wherever breaks and continues go. */
  lemma WholeKeeps(p: Piece, code: Code, b: bool, c: bool)
    requires Inside(code) && forall brk, cont :: Render(p, brk, cont) == code
    ensures Keeps(p, b, c)
  {
    assert Render(p, None, None) == code;
    forall brk, cont, hi | Around(p, b, c, brk, cont, hi) ensures JumpsIn(Render(p, brk, cont), 0, hi) {
      Wider(code, 0, |code|, 0, hi);
    }
  }

  lemma LoopIs(g: Code, body: Piece, u: Code)
    ensures var n, k, m := |g| + 2, Size(body), |u|;
            forall brk, cont :: Render(LoopPiece(g, body, u), brk, cont) ==
              g + [TEST, JZ(k + m + 1)] + (Render(body, Some(k + m + 1), Some(k)) + (u + [JMP(-(n + k + m) - 1)]))
  {
    var n, k, m := |g| + 2, Size(body), |u|;
    var test, back := Fixed(g + [TEST, JZ(k + m + 1)]), Fixed(u + [JMP(-(n + k + m) - 1)]);
    var t, s := Some(n + k + m + 1), Some(n + k);
    assert Size(Then(body, back)) == k + m + 1;
    assert Size(Then(test, Then(body, back))) == n + k + m + 1;
    assert Skip(t, n) == Some(k + m + 1) && Skip(s, n) == Some(k);
    assert Render(Then(body, back), Skip(t, n), Skip(s, n)) == Render(body, Some(k + m + 1), Some(k)) + back.code;
    forall brk, cont
      ensures Render(LoopPiece(g, body, u), brk, cont) ==
              test.code + (Render(body, Some(k + m + 1), Some(k)) + back.code)
    {
      assert Render(LoopPiece(g, body, u), brk, cont) == Render(Then(test, Then(body, back)), t, s);
    }
  }

  // ---- switches ----

  ghost predicate ArmsKeep(arms: Arms, c: bool) {
    match arms
    case NoArms => true
    case Arm(test, body, rest) => Inside(test) && Keeps(body, true, c) && ArmsKeep(rest, c)
  }

  /** The tests jump to bodies, the first of which is `d` instructions ahead. */
  lemma {:induction false} TestsJumps(arms: Arms, d: int, c: bool)
    requires ArmsKeep(arms, c) && TestsSize(arms) <= d
    ensures JumpsIn(TestsCode(arms, d), 0, d + Size(BodiesPiece(arms)))
    decreases arms
  {
    if arms.Arm? {
      var n, k := |arms.test| + 1, d + Size(BodiesPiece(arms));
      var first, rest := arms.test + [JNZ(d - n)], TestsCode(arms.rest, d - n + Size(arms.body));
      TestsJumps(arms.rest, d - n + Size(arms.body), c);
      Wider(arms.test, 0, n - 1, 0, k);
      Joined(arms.test, [JNZ(d - n)], 0, k, 1 - n, k - (n - 1));
      Wider(rest, 0, k - n, -n, k - n);
      Joined(first, rest, 0, k, -n, k - n);
    }
  }

  lemma {:induction false} BodiesKeep(arms: Arms, c: bool)
    requires ArmsKeep(arms, c)
    ensures Keeps(BodiesPiece(arms), true, c)
    decreases arms
  {
    match arms
    case NoArms => FixedKeeps([], true, c);
    case Arm(_, body, rest) => BodiesKeep(rest, c); ThenKeeps(body, BodiesPiece(rest), true, c);
  }

  lemma SwitchKeeps(arms: Arms, default: Option<Piece>, b: bool, c: bool)
    requires ArmsKeep(arms, c) && Keeps(DefaultOrNothing(default), true, c)
    ensures Keeps(SwitchPiece(arms, default), b, c)
  {
    var j, last, bodies := DefaultJump(arms, default), DefaultOrNothing(default), BodiesPiece(arms);
    var e := TestsSize(arms);
    var tests := TestsCode(arms, e + |j|);
    var rest := Then(bodies, last);
    TestsCodeSize(arms, e + |j|);
    TestsJumps(arms, e + |j|, c);
    BodiesKeep(arms, c);
    ThenKeeps(bodies, last, true, c);
    Wider(tests, 0, e + |j| + Size(bodies), 0, e + |j| + Size(rest));
    Joined(tests, j, 0, e + |j| + Size(rest), -e, |j| + Size(rest));
    FirstKeeps(tests + j, rest, true, c);
    ScopedKeeps(Then(Fixed(tests + j), rest), b, c);
  }

  /** A scope that only resolves breaks. */
  lemma ScopedKeeps(body: Piece, b: bool, c: bool)
    requires Keeps(body, true, c)
    ensures Keeps(Scoped(Scope(true, false), 0, body), b, c)
  {
    var p, n := Scoped(Scope(true, false), 0, body), Size(body);
    forall brk, cont, hi | Around(p, b, c, brk, cont, hi) ensures JumpsIn(Render(p, brk, cont), 0, hi) {
      assert Around(body, true, c, Some(n), cont, hi);
    }
  }

  // ---- the whole syntax ----

  lemma {:induction false} StmtKeeps(s: Stmt, names: seq<string>, b: bool, c: bool)
    requires WellScoped(s, b, c)
    ensures Keeps(StmtPiece(s, names), b, c)
    decreases s, 1
  {
    match s
    case Empty => FixedKeeps([], b, c);
    case ExprStmt(e) =>
      ExprInside(e, names);
      Apart(ExprCode(e, names), [POP]);
      FixedKeeps(ExprCode(e, names) + [POP], b, c);
    case Return(value) =>
      var code := match value case Some(e) => ExprCode(e, names) case None => [UNDEF];
      if value.Some? {
        ExprInside(value.value, names);
      }
      Apart(code, [RET]);
      FixedKeeps(code + [RET], b, c);
    case Block(body) => StmtsKeep(body, names, b, c);
    case If(t, x, y) =>
      ExprInside(t, names);
      StmtKeeps(x, names, b, c);
      if y.None? {
        TestJumps(ExprCode(t, names), Size(StmtPiece(x, names)), Size(StmtPiece(x, names)));
        FirstKeeps(ExprCode(t, names) + [TEST, JZ(Size(StmtPiece(x, names)))], StmtPiece(x, names), b, c);
      } else {
        StmtKeeps(y.value, names, b, c);
        ElseKeeps(ExprCode(t, names), StmtPiece(x, names), StmtPiece(y.value, names), b, c);
      }
    case While(guard, loop) => LoopOfKeeps(guard, loop, None, names, b, c);
    case For(init, guard, update, loop) =>
      DiscardedInside(init, names);
      LoopOfKeeps(guard, loop, update, names, b, c);
      FixedKeeps(DiscardedCode(init, names), b, c);
      ThenKeeps(Fixed(DiscardedCode(init, names)),
                LoopPiece(GuardCode(guard, names), StmtPiece(loop, names), DiscardedCode(update, names)), b, c);
    case Switch(d, cases) =>
      CasesKeep(d, cases, names, c);
      DefaultKeeps(cases, names, c);
      SwitchKeeps(ArmsOf(d, cases, names), DefaultPiece(cases, names), b, c);
    case Break => LeaveKeeps(BreakJump, b, c);
    case Continue => LeaveKeeps(ContinueJump, b, c);
  }

  lemma DiscardedInside(e: Option<Expr>, names: seq<string>)
    ensures Inside(DiscardedCode(e, names)) && Inside(GuardCode(e, names))
  {
    if e.Some? {
      ExprInside(e.value, names);
      Apart(ExprCode(e.value, names), [POP]);
    }
  }

  lemma {:induction false} LoopOfKeeps(guard: Option<Expr>, loop: Stmt, update: Option<Expr>, names: seq<string>, b: bool, c: bool)
    requires WellScoped(loop, true, true)
    ensures Keeps(LoopPiece(GuardCode(guard, names), StmtPiece(loop, names), DiscardedCode(update, names)), b, c)
    decreases loop, 2
  {
    DiscardedInside(guard, names);
    DiscardedInside(update, names);
    StmtKeeps(loop, names, true, true);
    LoopKeeps(GuardCode(guard, names), StmtPiece(loop, names), DiscardedCode(update, names), b, c);
  }

  lemma {:induction false} StmtsKeep(ss: Stmts, names: seq<string>, b: bool, c: bool)
    requires AllScoped(ss, b, c)
    ensures Keeps(StmtsPiece(ss, names), b, c)
    decreases ss, 0
  {
    match ss
    case Nil => FixedKeeps([], b, c);
    case Cons(s, rest) =>
      StmtKeeps(s, names, b, c);
      StmtsKeep(rest, names, b, c);
      ThenKeeps(StmtPiece(s, names), StmtsPiece(rest, names), b, c);
  }

  lemma TestInside(d: Expr, test: Expr, names: seq<string>)
    ensures Inside(TestCode(d, test, names))
  {
    ExprInside(d, names);
    ExprInside(test, names);
    TwoThen(ExprCode(d, names), ExprCode(test, names), [BINOP(Equal), TEST]);
  }

  lemma {:induction false} CasesKeep(d: Expr, cases: Cases, names: seq<string>, c: bool)
    requires CasesScoped(cases, c)
    ensures ArmsKeep(ArmsOf(d, cases, names), c)
    decreases cases, 0
  {
    if cases.Case? {
      CasesKeep(d, cases.rest, names, c);
      if cases.test.Some? {
        TestInside(d, cases.test.value, names);
        StmtsKeep(cases.consequent, names, true, c);
      }
    }
  }

  lemma {:induction false} DefaultKeeps(cases: Cases, names: seq<string>, c: bool)
    requires CasesScoped(cases, c)
    ensures Keeps(DefaultOrNothing(DefaultPiece(cases, names)), true, c)
    decreases cases, 1
  {
    if cases.Case? {
      if DefaultBody(cases.rest).Some? {
        DefaultKeeps(cases.rest, names, c);
      } else if cases.test.None? {
        StmtsKeep(cases.consequent, names, true, c);
      } else {
        FixedKeeps([], true, c);
      }
    } else {
      FixedKeeps([], true, c);
    }
  }

  // ---- functions ----

  /** The final sweep leaves code alone in which every jump has a target. */
  lemma SweepKeeps(c: Code, lo: int, hi: int)
    requires JumpsIn(c, lo, hi)
    ensures Sweep(c) == c
  {
  }

  /** The code of a well-scoped body has no jump to patch, and none that leaves the function. */
  lemma BodyInside(s: Stmt, names: seq<string>)
    requires WellScoped(s, false, false)
    ensures var code := Render(StmtPiece(s, names), None, None) + [UNDEF, RET];
            JumpsIn(code, 0, |code| - 2) && Sweep(code) == code
  {
    var p := StmtPiece(s, names);
    var body := Render(p, None, None);
    StmtKeeps(s, names, false, false);
    assert Around(p, false, false, None, None, Size(p));
    Joined(body, [UNDEF, RET], 0, Size(p), 0 - Size(p), 0);
    SweepKeeps(body + [UNDEF, RET], 0, Size(p));
  }
}
