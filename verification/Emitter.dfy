/**
 * What the visitors of compiler.c do to the compiler's state, as functions on values: append
 * instructions, patch earlier jumps, queue break and continue jumps, give slots to names.
 * The class in Compiler.dfy is proved to compute exactly these functions.
 */
module Emitter {
  import opened Wrappers
  import opened Values
  import opened Syntax
  import opened Bytecode

  datatype CompileError =
    | MaxInstructions
    | TooManyPendingJumps
    | ScopeArrayOverrun
    | TooManyCases
    | InvalidLvalue
    | ParameterRedefined
    | NotModelled

  datatype JumpKind = BreakJump | ContinueJump

  /** `ip == UNRESOLVED` marks an entry that has been patched. */
  datatype PendingJump = PendingJump(ip: int, scope: nat, kind: JumpKind)

  /** What an open scope lets `decrement_scope` patch. */
  datatype Scope = Scope(allowsBreak: bool, allowsContinue: bool)

  datatype Emission = Emission(code: Code, jumps: seq<PendingJump>, scopes: seq<Scope>, names: seq<string>)

  type Emitted = Result<Emission, CompileError>

  // ---- instructions ----

  /** `emit_base` and `emit_operands`, for a number of instructions in a row. */
  function Put(st: Emission, c: Code): Emitted {
    if |st.code| + |c| > MAX_INSTRUCTIONS then Failure(MaxInstructions)
    else Success(st.(code := st.code + c))
  }

  /** Point the jump at `at` to `target`. */
  function SetTarget(code: Code, at: int, target: int): (r: Code)
    ensures |r| == |code|
  {
    if 0 <= at < |code| then code[at := code[at].WithRel(target - at - 1)] else code
  }

  /** `patch_reljmp`: point the jump at `at` to the next instruction. */
  function PatchHere(st: Emission, at: int): Emission {
    st.(code := SetTarget(st.code, at, |st.code|))
  }

  // ---- local variables ----

  function IndexOf(names: seq<string>, x: string): (k: nat)
    ensures k <= |names|
    ensures k < |names| ==> names[k] == x
    ensures x in names ==> k < |names|
    ensures forall i :: 0 <= i < k ==> names[i] != x
  {
    if names == [] then 0
    else if names[0] == x then 0
    else 1 + IndexOf(names[1..], x)
  }

  /** `define_local_variable` for a name that may be there already. */
  function Define(names: seq<string>, x: string): seq<string> {
    if Lower(x) in names then names else names + [Lower(x)]
  }

  function Slot(names: seq<string>, x: string): nat {
    IndexOf(names, Lower(x))
  }

  // ---- scopes and pending jumps ----

  /** `increment_scope`. At 31 open scopes the C guard lets the write run past the array. */
  function OpenScope(st: Emission, scope: Scope): Emitted {
    if |st.scopes| + 1 >= COMPILER_MAX_SCOPES then Failure(ScopeArrayOverrun)
    else Success(st.(scopes := st.scopes + [scope]))
  }

  /** `emit_break` and `emit_continue`. */
  function PutPending(st: Emission, kind: JumpKind): Emitted {
    if |st.jumps| >= MAX_PENDING_JUMPS then Failure(TooManyPendingJumps)
    else
      var s :- Put(st, [JMP(UNRESOLVED)]);
      Success(s.(jumps := s.jumps + [PendingJump(|st.code|, |st.scopes|, kind)]))
  }

  /** Does closing a scope at this level patch the entry? */
  predicate Captured(j: PendingJump, level: nat, scope: Scope, continueOffset: Option<nat>) {
    && j.ip != UNRESOLVED
    && j.scope >= level
    && match j.kind
       case BreakJump => scope.allowsBreak
       case ContinueJump => scope.allowsContinue && continueOffset.Some?
  }

  function TargetOf(j: PendingJump, continueOffset: Option<nat>, breakOffset: nat): nat {
    if j.kind.ContinueJump? && continueOffset.Some? then continueOffset.value else breakOffset
  }

  /** The code after the patching loop of `decrement_scope` over the first entries. */
  function ResolvedCode(code: Code, jumps: seq<PendingJump>, level: nat, scope: Scope,
                        continueOffset: Option<nat>, breakOffset: nat): (r: Code)
    ensures |r| == |code|
  {
    if jumps == [] then code
    else
      var n := |jumps| - 1;
      var c := ResolvedCode(code, jumps[..n], level, scope, continueOffset, breakOffset);
      if Captured(jumps[n], level, scope, continueOffset)
      then SetTarget(c, jumps[n].ip, TargetOf(jumps[n], continueOffset, breakOffset))
      else c
  }

  /** The pending list after that loop: captured entries are marked. */
  function ResolvedJumps(jumps: seq<PendingJump>, level: nat, scope: Scope,
                         continueOffset: Option<nat>): (r: seq<PendingJump>)
    ensures |r| == |jumps|
  {
    seq(|jumps|, i requires 0 <= i < |jumps| =>
      if Captured(jumps[i], level, scope, continueOffset) then jumps[i].(ip := UNRESOLVED) else jumps[i])
  }

  /** `decrement_scope`. */
  function CloseScope(st: Emission, continueOffset: Option<nat>, breakOffset: nat): Emission {
    if st.scopes == [] then st
    else
      var level := |st.scopes|;
      var scope := st.scopes[level - 1];
      Emission(ResolvedCode(st.code, st.jumps, level, scope, continueOffset, breakOffset),
               ResolvedJumps(st.jumps, level, scope, continueOffset),
               st.scopes[..level - 1],
               st.names)
  }

  // ---- expressions ----

  /** Method names that compile to scheduler opcodes, or that pass references. */
  predicate IsEventOperation(name: string) {
    name == "waittill" || name == "waittillmatch" || name == "notify" || name == "endon"
  }

  function EmitExpr(e: Expr, st: Emission): Emitted
    decreases e, 2
  {
    match e
    case Lit(l) => Put(st, [PUSH(l)])
    case Self => Put(st, [LOAD(0)])
    case Id(x) =>
      var names := Define(st.names, x);
      Put(st.(names := names), [LOAD(Slot(names, x))])
    case Group(inner) => EmitExpr(inner, st)
    case Negate(a) =>
      var s1 :- EmitExpr(a, st);
      Put(s1, [CONST(false), BINOP(Sub)])
    case Prefix(op, a) =>
      var s1 :- EmitExpr(a, st);
      Put(s1, [UNARY(op)])
    case Postfix(increment, a) =>
      var s1 :- EmitExpr(a, st);
      var s2 :- EmitExpr(a, s1);
      var s3 :- Put(s2, [CONST(true), BINOP(if increment then Add else Sub)]);
      var s4 :- EmitLvalue(a, s3);
      Put(s4, [STORE, POP])
    case Assign(l, r) =>
      var s1 :- EmitExpr(r, st);
      var s2 :- EmitLvalue(l, s1);
      Put(s2, [STORE])
    case OpAssign(op, l, r) =>
      var s1 :- EmitExpr(l, st);
      var s2 :- EmitExpr(r, s1);
      var s3 :- Put(s2, [BINOP(op)]);
      var s4 :- EmitLvalue(l, s3);
      Put(s4, [STORE])
    case Binary(op, l, r) =>
      var s1 :- EmitExpr(l, st);
      var s2 :- EmitExpr(r, s1);
      Put(s2, [BINOP(op)])
    case And(_, _) => EmitLogical(e, JZ(UNRESOLVED), LogicalAnd, st)
    case Or(_, _) => EmitLogical(e, JNZ(UNRESOLVED), LogicalOr, st)
    case Ternary(_, _, b) =>
      var s1 :- EmitConsequent(e, st);
      var s2 :- EmitExpr(b, s1);
      Success(PatchHere(s2, |s1.code| - 1))
    case Call(receiver, callee, arguments) =>
      if IsEventOperation(callee) then Failure(NotModelled)
      else
        var s1 :- EmitArguments(arguments, st);
        var s2 :- EmitReceiver(receiver, s1);
        Put(s2, [PUSH(PushCount(|arguments|)), CALL(callee, |arguments|, receiver.Some?)])
  }

  /** `&&` and `||`: the constant on the short-circuit path is the opposite of the one combined with. */
  function EmitLogical(e: Expr, jump: Instruction, op: BinaryOp, st: Emission): Emitted
    requires e.And? || e.Or?
    decreases e, 1
  {
    var s1 :- EmitExpr(e.lhs, st);
    EmitRight(e, jump, op, s1)
  }

  /** The test of the left operand, and the right one. */
  function EmitRight(e: Expr, jump: Instruction, op: BinaryOp, st: Emission): Emitted
    requires e.And? || e.Or?
    decreases e, 0
  {
    var s1 :- Put(st, [TEST, jump, CONST(e.And?)]);
    var s2 :- EmitExpr(e.rhs, s1);
    FinishLogical(s2, |st.code| + 1, op, !e.And?)
  }

  /** After the right operand of `&&` or `||`: combine, and join the short-circuit path. */
  function FinishLogical(st: Emission, jump: nat, op: BinaryOp, shortcut: bool): Emitted {
    var s1 :- Put(st, [BINOP(op), JMP(UNRESOLVED)]);
    var s2 :- Put(PatchHere(s1, jump), [CONST(shortcut)]);
    Success(PatchHere(s2, |st.code| + 1))
  }

  /** Test and consequent of `?:`, up to the jump over the alternative. */
  function EmitConsequent(e: Expr, st: Emission): Emitted
    requires e.Ternary?
    decreases e, 0
  {
    var s1 :- EmitExpr(e.test, st);
    var s2 :- Put(s1, [TEST, JZ(UNRESOLVED)]);
    var s3 :- EmitExpr(e.consequent, s2);
    BeginElse(s3, |s1.code| + 1)
  }

  /** Between consequent and alternative: jump over the alternative, and start it here. */
  function BeginElse(st: Emission, jump: nat): Emitted {
    var s1 :- Put(st, [JMP(UNRESOLVED)]);
    Success(PatchHere(s1, jump))
  }

  /** The argument count that a call pushes. */
  function PushCount(n: nat): Literal {
    IntLiteral(Wrap(n))
  }

  function EmitReceiver(receiver: Option<Expr>, st: Emission): Emitted
    decreases receiver, 1
  {
    match receiver
    case Some(e) => EmitExpr(e, st)
    case None => Put(st, [LOAD(0)])
  }

  /** Arguments are visited last first. */
  function EmitArguments(es: seq<Expr>, st: Emission): Emitted
    decreases es, 0
  {
    if es == [] then Success(st)
    else
      var s1 :- EmitArguments(es[1..], st);
      EmitExpr(es[0], s1)
  }

  function EmitLvalue(e: Expr, st: Emission): Emitted {
    match e
    case Self => Put(st, [REF(0)])
    case Id(x) =>
      var names := Define(st.names, x);
      Put(st.(names := names), [REF(Slot(names, x))])
    case _ => Failure(InvalidLvalue)
  }

  // ---- statements ----

  /** A missing loop test is the constant 1. */
  function EmitGuard(guard: Option<Expr>, st: Emission): Emitted {
    match guard
    case Some(e) => EmitExpr(e, st)
    case None => Put(st, [CONST(true)])
  }

  function EmitDiscarded(e: Option<Expr>, st: Emission): Emitted {
    match e
    case Some(e) =>
      var s1 :- EmitExpr(e, st);
      Put(s1, [POP])
    case None => Success(st)
  }

  function EmitStmt(s: Stmt, st: Emission): Emitted
    decreases s, 1
  {
    match s
    case Empty => Success(st)
    case ExprStmt(e) => EmitDiscarded(Some(e), st)
    case Return(value) =>
      var s1 :- match value case Some(e) => EmitExpr(e, st) case None => Put(st, [UNDEF]);
      Put(s1, [RET])
    case Block(body) => EmitStmts(body, st)
    case If(t, a, b) =>
      var s1 :- EmitExpr(t, st);
      var s2 :- Put(s1, [TEST, JZ(UNRESOLVED)]);
      var s3 :- EmitStmt(a, s2);
      if b.None? then
        Success(PatchHere(s3, |s1.code| + 1))
      else
        var s4 :- BeginElse(s3, |s1.code| + 1);
        var s5 :- EmitStmt(b.value, s4);
        Success(PatchHere(s5, |s3.code|))
    case While(guard, loop) => EmitLoop(guard, loop, None, st)
    case For(init, guard, update, loop) =>
      var s1 :- EmitDiscarded(init, st);
      EmitLoop(guard, loop, update, s1)
    case Switch(d, cases) =>
      var s1 :- OpenScope(st, Scope(true, false));
      var (jnz, s2) :- EmitTests(d, cases, [], s1);
      var s3 :- Put(s2, if DefaultBody(cases).None? then [] else [JMP(UNRESOLVED)]);
      var s4 :- EmitBodies(cases, jnz, 0, s3);
      var s5 :- EmitDefault(cases, |s2.code|, s4);
      Success(CloseScope(s5, None, |s5.code|))
    case Break => PutPending(st, BreakJump)
    case Continue => PutPending(st, ContinueJump)
  }

  /** `while`, and `for` after its init; `update` runs at the continue address. */
  function EmitLoop(guard: Option<Expr>, loop: Stmt, update: Option<Expr>, st: Emission): Emitted
    decreases loop, 3
  {
    var s0 :- OpenScope(st, Scope(true, true));
    var s1 :- EmitGuard(guard, s0);
    EmitLoopBody(|st.code|, loop, update, s1)
  }

  function EmitLoopBody(begin: nat, loop: Stmt, update: Option<Expr>, st: Emission): Emitted
    decreases loop, 2
  {
    var s1 :- Put(st, [TEST, JZ(UNRESOLVED)]);
    var s2 :- EmitStmt(loop, s1);
    EmitUpdate(begin, |st.code| + 1, update, s2)
  }

  function EmitUpdate(begin: nat, jz: nat, update: Option<Expr>, st: Emission): Emitted {
    var s1 :- EmitDiscarded(update, st);
    FinishLoop(s1, begin, jz, |st.code|)
  }

  /** Jump back, let the test leave the loop here, and resolve the pending jumps of the body. */
  function FinishLoop(st: Emission, begin: nat, jz: nat, continueOffset: nat): Emitted {
    var s1 :- Put(st, [JMP(begin - |st.code| - 1)]);
    var s2 := PatchHere(s1, jz);
    Success(CloseScope(s2, Some(continueOffset), |s2.code|))
  }

  function EmitStmts(ss: Stmts, st: Emission): Emitted
    decreases ss, 0
  {
    match ss
    case Nil => Success(st)
    case Cons(s, rest) =>
      var s1 :- EmitStmt(s, st);
      EmitStmts(rest, s1)
  }

  /** The chain of tests of a switch; `jnz` is `case_jnz`, the addresses of their jumps. */
  function EmitTests(d: Expr, cases: Cases, jnz: seq<nat>, st: Emission)
    : Result<(seq<nat>, Emission), CompileError>
    decreases cases, 0
  {
    match cases
    case NoCases => Success((jnz, st))
    case Case(test, _, rest) =>
      if test.None? then EmitTests(d, rest, jnz, st)
      else
        var (at, s1) :- EmitTest(d, test.value, |jnz|, st);
        EmitTests(d, rest, jnz + [at], s1)
  }

  function EmitTest(d: Expr, test: Expr, n: nat, st: Emission): Result<(nat, Emission), CompileError> {
    var s1 :- EmitExpr(d, st);
    var s2 :- EmitExpr(test, s1);
    var s3 :- Put(s2, [BINOP(Equal), TEST, JNZ(UNRESOLVED)]);
    if n >= MAX_CASES then Failure(TooManyCases) else Success((|s2.code| + 2, s3))
  }

  /** The bodies of the cases that have a test; each first points its own JNZ here. */
  function EmitBodies(cases: Cases, jnz: seq<nat>, n: nat, st: Emission): Emitted
    decreases cases, 0
  {
    match cases
    case NoCases => Success(st)
    case Case(test, body, rest) =>
      if test.None? then EmitBodies(rest, jnz, n, st)
      else
        var s1 :- EmitStmts(body, PatchHere(st, if n < |jnz| then jnz[n] else UNRESOLVED));
        EmitBodies(rest, jnz, n + 1, s1)
  }

  /** The body of `default`, after all the others. */
  function EmitDefault(cases: Cases, jump: nat, st: Emission): Emitted
    decreases cases, 1
  {
    match DefaultBody(cases)
    case None => Success(st)
    case Some(body) => EmitStmts(body, PatchHere(st, jump))
  }

  // ---- functions ----

  /** The final sweep: a jump still at -1 becomes a jump to the next instruction. */
  function Sweep(code: Code): (r: Code)
    ensures |r| == |code|
  {
    seq(|code|, i requires 0 <= i < |code| =>
      if code[i].IsJump() && code[i].rel == UNRESOLVED then code[i].WithRel(0) else code[i])
  }

  function DefineParameters(parameters: seq<string>, names: seq<string>): Result<seq<string>, CompileError> {
    if parameters == [] then Success(names)
    else if Lower(parameters[0]) in names then Failure(ParameterRedefined)
    else DefineParameters(parameters[1..], names + [Lower(parameters[0])])
  }

  /** `compile_function`. */
  function CompileFunction(parameters: seq<string>, body: Stmt): Result<Function, CompileError> {
    var names :- DefineParameters(parameters, ["self"]);
    var s1 :- EmitStmt(body, Emission([], [], [], names));
    var s2 :- Put(s1, [UNDEF, RET]);
    Success(Function(Sweep(s2.code), |parameters|, s2.names))
  }
}
