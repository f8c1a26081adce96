/** The depth of the operand stack along every path through a compiled function. */
module Paths {
  import opened Wrappers
  import opened Values
  import opened Syntax
  import opened Bytecode
  import opened Emitter
  import opened Pieces
  import opened Patches
  import opened Layout
  import opened Linking
  import opened Functions
  import opened Locals
  import opened Slots
  import opened Statements
  import opened Semantics
  import opened Jumps
  import opened Depths
  import opened Bounds
  import M = Machine

  /** May the instruction at `i` be followed by the one at `j`? */
  predicate Successor(code: Code, i: int, j: int) {
    0 <= i < |code| && ((FallsThrough(code[i]) && j == i + 1) || (code[i].IsJump() && j == i + 1 + code[i].rel))
  }

  /** A way through the code from its start, whatever the tests say. */
  predicate Path(code: Code, path: seq<nat>) {
    && path != [] && path[0] == 0
    && forall k :: 0 <= k < |path| - 1 ==> Successor(code, path[k], path[k + 1])
  }

  /** The depth of the operand stack at the end of a path: what was pushed on the way less what was popped. */
  function Height(code: Code, path: seq<nat>): int
    requires Path(code, path)
    decreases |path|
  {
    if |path| == 1 then 0
    else
      var n := |path| - 1;
      assert Successor(code, path[n - 1], path[n]);
      Height(code, path[..n]) - Pops(code[path[n - 1]]) + Pushes(code[path[n - 1]])
  }

  /**
   * One depth for every address: enough for the instruction there, and one value for a return. What is pushed for a
   * store or a call is there when it is reached, for it is reached from there only.
   */
  ghost predicate Balanced(code: Code, ds: Profile) {
    && |ds| == |code| && (code != [] ==> ds[0] == Plain(0))
    && forall i :: 0 <= i < |code| ==> BalancedAt(code, ds, i)
  }

  ghost predicate BalancedAt(code: Code, ds: Profile, i: nat)
    requires i < |code| == |ds|
  {
    && ds[i].depth >= Pops(code[i]) && (code[i].RET? ==> ds[i].depth == 1) && Expects(ds[i].due, code[i])
    && (FallsThrough(code[i]) ==>
          && i + 1 < |code| && ds[i + 1].depth == ds[i].depth - Pops(code[i]) + Pushes(code[i])
          && Prepares(code[i], ds[i + 1].due))
    && (code[i].IsJump() ==> 0 <= i + 1 + code[i].rel < |code| && ds[i + 1 + code[i].rel] == Plain(ds[i].depth))
  }

  lemma {:induction false} PathHeight(code: Code, ds: Profile, path: seq<nat>)
    requires code != [] && Balanced(code, ds) && Path(code, path)
    ensures path[|path| - 1] < |code| && Height(code, path) == ds[path[|path| - 1]].depth
    decreases |path|
  {
    if |path| > 1 {
      var n := |path| - 1;
      PathHeight(code, ds, path[..n]);
      assert Successor(code, path[n - 1], path[n]);
      assert BalancedAt(code, ds, path[n - 1]);
    }
  }

  // ---- breaks and continues, wherever they lead ----

  lemma {:induction false} MarkedLeaf(p: Piece, ds: Profile, x: nat, q: int)
    requires Marked(p, ds, x) && IsLeaf(p, x, q)
    ensures Zero(ds, q) && Zero(ds, q + 1)
    decreases p
  {
    match p
    case Then(a, b) => if IsLeaf(a, x, q) { MarkedLeaf(a, ds, x, q); } else { MarkedLeaf(b, ds, x + Size(a), q); }
    case Scoped(_, _, body) => MarkedLeaf(body, ds, x, q);
    case _ =>
  }

  lemma {:induction false} MarkedStop(p: Piece, ds: Profile, x: nat, t: int)
    requires Marked(p, ds, x) && IsStop(p, x, t)
    ensures Zero(ds, t)
    decreases p
  {
    match p
    case Then(a, b) => if IsStop(a, x, t) { MarkedStop(a, ds, x, t); } else { MarkedStop(b, ds, x + Size(a), t); }
    case Scoped(_, _, body) => if IsStop(body, x, t) { MarkedStop(body, ds, x, t); }
    case _ =>
  }

  lemma {:induction false} AlwaysScoped(s: Stmt)
    ensures WellScoped(s, true, true)
    decreases s, 1
  {
    match s
    case Block(body) => AllAlwaysScoped(body);
    case If(_, a, b) => AlwaysScoped(a); if b.Some? { AlwaysScoped(b.value); }
    case While(_, loop) => AlwaysScoped(loop);
    case For(_, _, _, loop) => AlwaysScoped(loop);
    case Switch(_, cases) => CasesAlwaysScoped(cases);
    case _ =>
  }

  lemma {:induction false} AllAlwaysScoped(ss: Stmts)
    ensures AllScoped(ss, true, true)
    decreases ss, 0
  {
    if ss.Cons? {
      AlwaysScoped(ss.head);
      AllAlwaysScoped(ss.tail);
    }
  }

  lemma {:induction false} CasesAlwaysScoped(cases: Cases)
    ensures CasesScoped(cases, true)
    decreases cases, 0
  {
    if cases.Case? {
      AllAlwaysScoped(cases.consequent);
      CasesAlwaysScoped(cases.rest);
    }
  }

  /** Jumps other than breaks and continues stay inside the body and never have the sentinel. */
  lemma OthersInside(s: Stmt, names: seq<string>, q: nat)
    requires var p := StmtPiece(s, names);
             q < Size(p) && !IsLeaf(p, 0, q) && Render(p, None, None)[q].IsJump()
    ensures var p := StmtPiece(s, names);
            var rel := Render(p, None, None)[q].rel;
            rel != UNRESOLVED && 0 <= q + 1 + rel <= Size(p)
  {
    var p := StmtPiece(s, names);
    var end: int := Size(p);
    AlwaysScoped(s);
    StmtKeeps(s, names, true, true);
    assert Around(p, true, true, Some(end), Some(end), end);
    RenderElsewhere(p, 0, None, None, Some(end), Some(end), q, q);
    assert JumpsIn(Render(p, Some(end), Some(end)), 0, end);
  }

  /** Before the sweep, a jump has the sentinel exactly when it still waits. */
  lemma PatchedSentinel(s: Stmt, names: seq<string>, c: Code, j: Pending, q: nat)
    requires Patched(StmtPiece(s, names), c, j) && q < |c|
    ensures c[q].IsJump() && c[q].rel == UNRESOLVED <==> Waits(j, q)
  {
    var p := StmtPiece(s, names);
    if IsLeaf(p, 0, q) {
      assert Settled(c, j, q, t => IsStop(p, 0, t));
    } else {
      assert c[q] == Render(p, None, None)[q];
      if c[q].IsJump() {
        OthersInside(s, names, q);
      }
    }
  }

  /** After the sweep, every jump of the body leads to a place in it or to its end. */
  lemma PatchedInside(s: Stmt, names: seq<string>, c: Code, j: Pending, ds: Profile, q: nat)
    requires Patched(StmtPiece(s, names), c, j) && Level(StmtPiece(s, names), ds) && q < |c| && Sweep(c)[q].IsJump()
    ensures Sweep(c)[q].rel != UNRESOLVED && 0 <= q + 1 + Sweep(c)[q].rel <= |c|
  {
    var p := StmtPiece(s, names);
    if IsLeaf(p, 0, q) {
      assert Settled(c, j, q, t => IsStop(p, 0, t));
      if !Waits(j, q) {
        MarkedStop(p, ds, 0, q + 1 + c[q].rel);
      }
    } else {
      assert c[q] == Render(p, None, None)[q];
      OthersInside(s, names, q);
    }
  }

  /** And it keeps the depths of the body. */
  lemma PatchedSteady(s: Stmt, names: seq<string>, c: Code, j: Pending, ds: Profile)
    requires Patched(StmtPiece(s, names), c, j) && Level(StmtPiece(s, names), ds)
    ensures Steady(Sweep(c), ds, {})
  {
    var p := StmtPiece(s, names);
    var r := Render(p, None, None);
    assert Exits(None, None) == {};
    assert Steady(r, ds, {});
    forall q | 0 <= q < |c| ensures StepsRight(Sweep(c)[q], q, ds, {}) {
      PatchedSentinel(s, names, c, j, q);
      PatchedStepsRight(p, c, j, ds, r, q);
    }
  }

  lemma PatchedStepsRight(p: Piece, c: Code, j: Pending, ds: Profile, r: Code, q: nat)
    requires Patched(p, c, j) && Level(p, ds) && r == Render(p, None, None) && Steady(r, ds, {}) && q < |c|
    requires c[q].IsJump() && c[q].rel == UNRESOLVED <==> Waits(j, q)
    ensures StepsRight(Sweep(c)[q], q, ds, {})
  {
    if IsLeaf(p, 0, q) {
      assert Settled(c, j, q, t => IsStop(p, 0, t));
      MarkedLeaf(p, ds, 0, q);
      if !Waits(j, q) {
        MarkedStop(p, ds, 0, q + 1 + c[q].rel);
      }
    } else {
      assert c[q] == r[q] && StepsRight(r[q], q, ds, {});
    }
  }

  // ---- whole functions ----

  /** The pending jumps of a body when it has been compiled are the jumps that still have the sentinel. */
  lemma SentinelIffPending(parameters: seq<string>, body: Stmt, names: seq<string>, st: Emission, q: nat)
    requires DefineParameters(parameters, ["self"]) == Success(names)
    requires EmitStmt(body, Emission([], [], [], names)) == Success(st) && q < |st.code|
    ensures st.code[q].IsJump() && st.code[q].rel == UNRESOLVED <==> Waits(st.jumps, q)
  {
    BodyIsPatched(parameters, body, names, st);
    PatchedSentinel(body, st.names, st.code, st.jumps, q);
  }

  lemma BodyIsPatched(parameters: seq<string>, body: Stmt, names: seq<string>, st: Emission)
    requires DefineParameters(parameters, ["self"]) == Success(names)
    requires EmitStmt(body, Emission([], [], [], names)) == Success(st)
    ensures Patched(StmtPiece(body, st.names), st.code, st.jumps) && StmtBound(body, st.names)
  {
    DefineParametersInOrder(parameters, ["self"]);
    assert Distinct(["self"]) && names[0] == ["self"][0];
    EmitStmtIsPlay(body, Emission([], [], [], names));
    StmtProper(body, st.names);
    PlayFromScratch(StmtPiece(body, st.names));
  }

  /** The body and the two instructions behind it. */
  lemma CompiledParts(parameters: seq<string>, body: Stmt) returns (names: seq<string>, st: Emission)
    requires CompileFunction(parameters, body).Success?
    ensures DefineParameters(parameters, ["self"]) == Success(names)
    ensures EmitStmt(body, Emission([], [], [], names)) == Success(st)
    ensures var f := CompileFunction(parameters, body).value;
            f.code == Sweep(st.code) + [UNDEF, RET] && f.locals == st.names
  {
    names := DefineParameters(parameters, ["self"]).value;
    st := EmitStmt(body, Emission([], [], [], names)).value;
    assert Sweep(st.code + [UNDEF, RET]) == Sweep(st.code) + [UNDEF, RET];
  }

  /** No jump of a compiled function is left at the sentinel, and every jump stays inside the function. */
  lemma JumpsStayInside(parameters: seq<string>, body: Stmt, q: nat)
    requires CompileFunction(parameters, body).Success?
    requires var code := CompileFunction(parameters, body).value.code; q < |code| && code[q].IsJump()
    ensures var code := CompileFunction(parameters, body).value.code;
            code[q].rel != UNRESOLVED && 0 <= q + 1 + code[q].rel < |code|
  {
    var names, st := CompiledParts(parameters, body);
    BodyIsPatched(parameters, body, names, st);
    StmtLevel(body, st.names);
    var ds :| Level(StmtPiece(body, st.names), ds) && ds[0] == Plain(0);
    PatchedInside(body, st.names, st.code, st.jumps, ds, q);
  }

  /** The code of a compiled function has one depth at every address. */
  lemma FunctionIsBalanced(parameters: seq<string>, body: Stmt) returns (ds: Profile)
    requires CompileFunction(parameters, body).Success?
    ensures var code := CompileFunction(parameters, body).value.code;
            code != [] && Balanced(code, ds)
  {
    var names, st := CompiledParts(parameters, body);
    BodyIsPatched(parameters, body, names, st);
    StmtLevel(body, st.names);
    var db :| Level(StmtPiece(body, st.names), db) && db[0] == Plain(0);
    PatchedSteady(body, st.names, st.code, st.jumps, db);
    var code := Sweep(st.code) + [UNDEF, RET];
    forall q | 0 <= q < |code| && code[q].IsJump() ensures 0 <= q + 1 + code[q].rel < |code| {
      JumpsStayInside(parameters, body, q);
    }
    ds := EndedBalanced(Sweep(st.code), db);
  }

  /** It uses no slot but those of its local variables. */
  lemma FunctionSlots(parameters: seq<string>, body: Stmt)
    requires CompileFunction(parameters, body).Success?
    ensures var f := CompileFunction(parameters, body).value; SlotsIn(f.code, |f.locals|)
  {
    var names, st := CompiledParts(parameters, body);
    BodyIsPatched(parameters, body, names, st);
    StmtSlots(body, st.names);
    PatchedSlots(StmtPiece(body, st.names), st.code, st.jumps, |st.names|);
    SlotsBoth(Sweep(st.code), [UNDEF, RET], |st.names|);
  }

  lemma EndedBalanced(body: Code, db: Profile) returns (ds: Profile)
    requires Steady(body, db, {}) && db[0] == Plain(0) && db[|body|] == Plain(0)
    requires forall i :: 0 <= i < |body| && (body + [UNDEF, RET])[i].IsJump() ==>
               0 <= i + 1 + (body + [UNDEF, RET])[i].rel < |body| + 2
    ensures Balanced(body + [UNDEF, RET], ds)
  {
    var code, tail := body + [UNDEF, RET], [Plain(0), Plain(1), Plain(0)];
    var all := Joint(db, tail);
    assert Steady([UNDEF, RET], tail, {});
    PartsSteady(body, db, {}, [UNDEF, RET], tail, {}, |body|, all, {});
    ds := all[..|code|];
    forall i | 0 <= i < |code| ensures BalancedAt(code, ds, i) {
      assert StepsRight(code[i], i, all, {});
    }
  }

  /**
   * Static stack depth. All ways to an address of a compiled function leave the same number of values on the
   * stack; they never leave the function, every instruction finds its operands, and a return exactly one value.
   */
  lemma OneDepthPerAddress(parameters: seq<string>, body: Stmt, path: seq<nat>, other: seq<nat>)
    requires CompileFunction(parameters, body).Success?
    requires var code := CompileFunction(parameters, body).value.code;
             Path(code, path) && Path(code, other) && path[|path| - 1] == other[|other| - 1]
    ensures var code := CompileFunction(parameters, body).value.code;
            var i := path[|path| - 1];
            && i < |code| && Height(code, path) == Height(code, other) >= Pops(code[i])
            && (code[i].RET? ==> Height(code, path) == 1)
  {
    var code := CompileFunction(parameters, body).value.code;
    var ds := FunctionIsBalanced(parameters, body);
    PathHeight(code, ds, path);
    PathHeight(code, ds, other);
    assert BalancedAt(code, ds, path[|path| - 1]);
  }

  // ---- the counts are those of the machine ----

  /** The machine pops and pushes as counted here; it lacks operands only if there are fewer. */
  ghost predicate Counts(t: M.Thread, o: M.Outcome, ins: Instruction) {
    match o
    case Running(u) => |u.stack| == |t.stack| - Pops(ins) + Pushes(ins) && |u.callers| == |t.callers|
    case Finished(_) => false
    case Failed(x) => x == StackUnderflow ==> |t.stack| < Pops(ins)
  }

  lemma OperatorCounts(prog: M.Program, t: M.Thread, ins: Instruction)
    requires ins.BINOP? || ins.UNARY?
    ensures Counts(t, M.Execute(prog, t, ins), ins)
  {
    if ins.BINOP? && |t.stack| >= 2 {
      BinopFaults(ins.bop, M.Peek(t, 1), M.Peek(t, 0));
    } else if ins.UNARY? && t.stack != [] {
      UnaryFaults(ins.uop, M.Peek(t, 0));
    }
  }

  lemma BinopFaults(op: BinaryOp, a: Value, b: Value)
    ensures Binop(op, a, b) != Failure(StackUnderflow)
  {
  }

  lemma UnaryFaults(op: UnaryOp, a: Value)
    ensures Unary(op, a) != Failure(StackUnderflow)
  {
  }

  lemma ExecuteCounts(prog: M.Program, t: M.Thread, ins: Instruction)
    requires !ins.RET? && !ins.CALL?
    ensures Counts(t, M.Execute(prog, t, ins), ins)
  {
    if ins.BINOP? || ins.UNARY? {
      OperatorCounts(prog, t, ins);
    }
  }

  /** A call takes the arguments, self and the count off; the return leaves the one value that counts as pushed. */
  lemma CallCounts(prog: M.Program, t: M.Thread, ins: Instruction, u: M.Thread)
    requires M.Execute(prog, t, ins) == M.Running(u)
    ensures ins.CALL? ==>
              t.stack != [] && M.Peek(t, 0).Int? && |u.callers| == |t.callers| + 1
              && (M.Peek(t, 0).i == ins.nargs ==> |u.stack| == |t.stack| - Pops(ins))
    ensures ins.RET? ==> u.stack == t.stack && |u.callers| == |t.callers| - 1
  {
  }
}
