/**
 * The compiler as compiler.c has it: fixed arrays that are appended to and patched in place. Each
 * method is proved to do to the arrays what the functions of Emitter.dfy do to values.
 */
module Compiling {
  import opened Wrappers
  import opened Values
  import opened Syntax
  import opened Bytecode
  import opened Emitter
  import opened Slots
  import opened HashTries

  class Compiler {
    const instructions: array<Instruction>
    const jumps: array<PendingJump>
    /** Scope 0 is never used: `current_scope` is incremented before it is written. */
    const scopes: array<Scope>
    var instructionCount: nat
    var jumpCount: nat
    var currentScope: nat
    /** The local variables by name, with their slots, and the next slot. */
    const variables: HashTrie<nat>
    var variableIndex: nat
    /** The names of the local variables by slot. */
    ghost var names: seq<string>

    /** Slots are given in the order in which names are first met. */
    ghost predicate Named()
      reads this, variables
    {
      && variables.Valid() && !variables.caseSensitive && variables.Contents() == names && |names| == variableIndex
      && forall k :: 0 <= k < variableIndex ==> variables.values[k] == Some(k)
    }

    ghost predicate Valid()
      reads this, variables
    {
      && Named()
      && instructions.Length == MAX_INSTRUCTIONS && jumps.Length == MAX_PENDING_JUMPS
      && scopes.Length == COMPILER_MAX_SCOPES
      && instructionCount <= MAX_INSTRUCTIONS && jumpCount <= MAX_PENDING_JUMPS && currentScope < COMPILER_MAX_SCOPES
    }

    /** What the arrays hold so far. */
    ghost function View(): Emission
      requires Valid()
      reads this, instructions, jumps, scopes, variables
    {
      Emission(instructions[..instructionCount], jumps[..jumpCount], scopes[1..currentScope + 1], names)
    }

    /** The outcome of a method is the one of the function, and so is the state it leaves. */
    ghost predicate Did(o: Outcome<CompileError>, r: Emitted)
      reads this, instructions, jumps, scopes, variables
    {
      Valid() && match r case Success(st) => o.Pass? && View() == st case Failure(e) => o == Fail(e)
    }

    constructor ()
      ensures Valid() && View() == Emission([], [], [], [])
      ensures fresh(instructions) && fresh(jumps) && fresh(scopes) && fresh(variables)
    {
      instructions := new Instruction[MAX_INSTRUCTIONS](_ => POP);
      jumps := new PendingJump[MAX_PENDING_JUMPS](_ => PendingJump(UNRESOLVED, 0, BreakJump));
      scopes := new Scope[COMPILER_MAX_SCOPES](_ => Scope(false, false));
      variables := new HashTrie<nat>(false);
      instructionCount, jumpCount, currentScope, variableIndex, names := 0, 0, 0, 0, [];
    }

    // ---- instructions ----

    /** `emit_base` and `emit_operands`. */
    method Emit(ins: Instruction) returns (o: Outcome<CompileError>)
      requires Valid()
      modifies `instructionCount, instructions
      ensures Did(o, Put(old(View()), [ins]))
      ensures o.Pass? ==> instructionCount == old(instructionCount) + 1
    {
      if instructionCount >= MAX_INSTRUCTIONS {
        return Fail(MaxInstructions);
      }
      instructions[instructionCount] := ins;
      instructionCount := instructionCount + 1;
      return Pass;
    }

    /** Two instructions in a row. */
    method EmitTwo(a: Instruction, b: Instruction) returns (o: Outcome<CompileError>)
      requires Valid()
      modifies `instructionCount, instructions
      ensures Did(o, Put(old(View()), [a, b]))
      ensures o.Pass? ==> instructionCount == old(instructionCount) + 2
    {
      ghost var code := View().code;
      :- Emit(a);
      :- Emit(b);
      assert code + [a] + [b] == code + [a, b];
      return Pass;
    }

    method EmitThree(a: Instruction, b: Instruction, c: Instruction) returns (o: Outcome<CompileError>)
      requires Valid()
      modifies `instructionCount, instructions
      ensures Did(o, Put(old(View()), [a, b, c]))
      ensures o.Pass? ==> instructionCount == old(instructionCount) + 3
    {
      ghost var code := View().code;
      :- EmitTwo(a, b);
      :- Emit(c);
      assert code + [a, b] + [c] == code + [a, b, c];
      return Pass;
    }

    /** `patch_reljmp`. */
    method PatchRelJump(at: nat)
      requires Valid() && at < instructionCount
      modifies instructions
      ensures Valid() && View() == PatchHere(old(View()), at) && instructionCount == old(instructionCount)
    {
      var destination := instructionCount;
      instructions[at] := instructions[at].WithRel(destination - at - 1);
      assert View().code == PatchHere(old(View()), at).code;
    }

    // ---- scopes ----

    /** `increment_scope`; where the C code would write past the array there is an error. */
    method IncrementScope(scope: Scope) returns (o: Outcome<CompileError>)
      requires Valid()
      modifies `currentScope, scopes
      ensures Did(o, OpenScope(old(View()), scope))
    {
      if currentScope + 1 >= COMPILER_MAX_SCOPES {
        return Fail(ScopeArrayOverrun);
      }
      currentScope := currentScope + 1;
      scopes[currentScope] := scope;
      assert scopes[1..currentScope + 1] == scopes[1..currentScope] + [scope];
      return Pass;
    }

    /** `emit_break` and `emit_continue`. */
    method EmitPending(kind: JumpKind) returns (o: Outcome<CompileError>)
      requires Valid()
      modifies `instructionCount, `jumpCount, instructions, jumps
      ensures Did(o, PutPending(old(View()), kind))
    {
      if jumpCount >= MAX_PENDING_JUMPS {
        return Fail(TooManyPendingJumps);
      }
      var ip := instructionCount;
      :- Emit(JMP(UNRESOLVED));
      jumps[jumpCount] := PendingJump(ip, currentScope, kind);
      jumpCount := jumpCount + 1;
      return Pass;
    }

    /** `decrement_scope`: patch every captured entry in place, and mark it. */
    method DecrementScope(continueOffset: Option<nat>, breakOffset: nat)
      requires Valid() && currentScope > 0
      modifies `currentScope, instructions, jumps
      ensures Valid() && View() == CloseScope(old(View()), continueOffset, breakOffset)
    {
      var level, scope := currentScope, scopes[currentScope];
      ghost var code, pending := View().code, View().jumps;
      assert scope == View().scopes[level - 1];
      for i := 0 to jumpCount
        modifies instructions, jumps
        invariant Valid() && jumpCount == |pending| && instructionCount == |code|
        invariant instructions[..instructionCount] == ResolvedCode(code, pending[..i], level, scope, continueOffset, breakOffset)
        invariant forall k :: 0 <= k < i ==> jumps[k] == ResolvedJumps(pending, level, scope, continueOffset)[k]
        invariant forall k :: i <= k < jumpCount ==> jumps[k] == pending[k]
      {
        assert pending[..i + 1][..i] == pending[..i];
        Resolve(i, level, scope, continueOffset, breakOffset);
      }
      assert pending[..jumpCount] == pending;
      assert jumps[..jumpCount] == ResolvedJumps(pending, level, scope, continueOffset);
      currentScope := currentScope - 1;
      assert scopes[1..level] == old(scopes[1..level + 1])[..level - 1];
    }

    /** One entry of the list. */
    method Resolve(i: nat, level: nat, scope: Scope, continueOffset: Option<nat>, breakOffset: nat)
      requires Valid() && i < jumpCount
      modifies instructions, jumps
      ensures var j := old(jumps[i]);
              && (forall k :: 0 <= k < jumpCount && k != i ==> jumps[k] == old(jumps[k]))
              && if Captured(j, level, scope, continueOffset)
                 then jumps[i] == j.(ip := UNRESOLVED)
                      && instructions[..instructionCount]
                      == SetTarget(old(instructions[..instructionCount]), j.ip, TargetOf(j, continueOffset, breakOffset))
                 else jumps[i] == j && instructions[..instructionCount] == old(instructions[..instructionCount])
    {
      var j := jumps[i];
      if Captured(j, level, scope, continueOffset) {
        var target := TargetOf(j, continueOffset, breakOffset);
        if 0 <= j.ip < instructionCount {
          instructions[j.ip] := instructions[j.ip].WithRel(target - j.ip - 1);
        }
        jumps[i] := j.(ip := UNRESOLVED);
      }
    }

    // ---- local variables ----

    /**
     * `define_local_variable`: the slot of a name, which is the next one if the name is new. A name that is there
     * already is an error in a list of parameters.
     */
    method Declare(x: string, isParameter: bool) returns (r: Result<nat, CompileError>)
      requires Valid()
      modifies `variableIndex, `names, variables
      ensures Valid()
      ensures if isParameter && Lower(x) in old(names) then r == Failure(ParameterRedefined) && View() == old(View())
              else View() == old(View()).(names := Define(old(names), x)) && r == Success(Slot(names, x))
    {
      LowerTwice(x);
      var n := Entry(Lower(x));
      if variables.values[n].Some? {
        return if isParameter then Failure(ParameterRedefined) else Success(variables.values[n].value);
      }
      variables.SetValue(n, variableIndex);
      variableIndex, names := variableIndex + 1, names + [Lower(x)];
      return Success(variableIndex - 1);
    }

    /** The entry of a name in the trie, which has no slot yet if it is new. */
    method Entry(key: string) returns (n: nat)
      requires Valid() && Lower(key) == key
      modifies variables
      ensures variables.Valid() && n < variables.count && n == IndexOf(names, key)
      ensures if key in names then Named() && n < variableIndex
              else variables.Contents() == names + [key] && variables.values == old(variables.values) + [None]
    {
      var entry := variables.Upsert(key, true);
      n := entry.value;
      SlotIs(variables.Contents(), key, n);
      if key !in names {
        SlotIs(names + [key], key, |names|);
        NotThere(names, key);
      }
    }

    static lemma NotThere(names: seq<string>, x: string)
      requires x !in names
      ensures IndexOf(names, x) == |names|
    {
    }

    static lemma LowerTwice(x: string)
      ensures Lower(Lower(x)) == Lower(x)
    {
      assert forall i :: 0 <= i < |x| ==> LowerChar(LowerChar(x[i])) == LowerChar(x[i]);
    }

    static lemma SlotIs(names: seq<string>, x: string, n: nat)
      requires n < |names| && names[n] == x && forall i :: 0 <= i < n ==> names[i] != x
      ensures IndexOf(names, x) == n
    {
    }

    /** A use of a name. */
    method DefineLocalVariable(x: string) returns (slot: nat)
      requires Valid()
      modifies `variableIndex, `names, variables
      ensures Valid() && View() == old(View()).(names := Define(old(names), x)) && slot == Slot(names, x)
    {
      var r := Declare(x, false);
      slot := r.value;
    }

    // ---- expressions ----

    method VisitExpr(e: Expr) returns (o: Outcome<CompileError>)
      requires Valid()
      modifies this, instructions, jumps, scopes, variables
      ensures Did(o, EmitExpr(e, old(View())))
      ensures o.Pass? ==> Follows(old(View()), View()) && instructionCount >= old(instructionCount)
      decreases e, 3
    {
      ExprGrows(e, View());
      match e
      case Lit(l) => o := Emit(PUSH(l));
      case Self => o := Emit(LOAD(0));
      case Id(x) =>
        var slot := DefineLocalVariable(x);
        o := Emit(LOAD(slot));
      case Group(inner) => o := VisitExpr(inner);
      case Negate(_) => o := VisitUnary(e);
      case Prefix(_, _) => o := VisitUnary(e);
      case Postfix(_, _) => o := VisitPostfix(e);
      case Assign(_, _) => o := VisitAssignment(e);
      case OpAssign(_, _, _) => o := VisitAssignment(e);
      case Binary(_, _, _) => o := VisitBinary(e);
      case And(_, _) => o := VisitLogical(e, JZ(UNRESOLVED), LogicalAnd);
      case Or(_, _) => o := VisitLogical(e, JNZ(UNRESOLVED), LogicalOr);
      case Ternary(_, _, _) => o := VisitTernary(e);
      case Call(_, _, _) => o := VisitCall(e);
    }

    method VisitUnary(e: Expr) returns (o: Outcome<CompileError>)
      requires Valid() && (e.Negate? || e.Prefix?)
      modifies this, instructions, jumps, scopes, variables
      ensures Did(o, EmitExpr(e, old(View())))
      decreases e, 1
    {
      o := Pass;
      :- VisitExpr(e.argument);
      if e.Negate? {
        :- EmitTwo(CONST(false), BINOP(Sub));
      } else {
        :- Emit(UNARY(e.op));
      }
      return Pass;
    }

    method VisitPostfix(e: Expr) returns (o: Outcome<CompileError>)
      requires Valid() && e.Postfix?
      modifies this, instructions, jumps, scopes, variables
      ensures Did(o, EmitExpr(e, old(View())))
      decreases e, 1
    {
      o := Pass;
      :- VisitExpr(e.argument);
      :- VisitExpr(e.argument);
      :- EmitTwo(CONST(true), BINOP(if e.increment then Add else Sub));
      :- Lvalue(e.argument);
      :- EmitTwo(STORE, POP);
      return Pass;
    }

    method VisitAssignment(e: Expr) returns (o: Outcome<CompileError>)
      requires Valid() && (e.Assign? || e.OpAssign?)
      modifies this, instructions, jumps, scopes, variables
      ensures Did(o, EmitExpr(e, old(View())))
      decreases e, 1
    {
      if e.OpAssign? {
        :- VisitExpr(e.lhs);
      }
      :- VisitExpr(e.rhs);
      if e.OpAssign? {
        :- Emit(BINOP(e.aop));
      }
      :- Lvalue(e.lhs);
      :- Emit(STORE);
      return Pass;
    }

    method VisitBinary(e: Expr) returns (o: Outcome<CompileError>)
      requires Valid() && e.Binary?
      modifies this, instructions, jumps, scopes, variables
      ensures Did(o, EmitExpr(e, old(View())))
      decreases e, 1
    {
      o := Pass;
      :- VisitExpr(e.lhs);
      :- VisitExpr(e.rhs);
      :- Emit(BINOP(e.bop));
      return Pass;
    }

    /** The `&&` and `||` of visit_ASTBinaryExpr. */
    method VisitLogical(e: Expr, jump: Instruction, op: BinaryOp) returns (o: Outcome<CompileError>)
      requires Valid() && (e.And? || e.Or?)
      modifies this, instructions, jumps, scopes, variables
      ensures Did(o, EmitLogical(e, jump, op, old(View())))
      decreases e, 1
    {
      ghost var st := View();
      o := VisitExpr(e.lhs);
      LogicalIs(e, jump, op, st, EmitExpr(e.lhs, st));
      if o.Fail? {
        return;
      }
      o := VisitRight(e, jump, op);
    }

    static lemma LogicalIs(e: Expr, jump: Instruction, op: BinaryOp, st: Emission, l: Emitted)
      requires (e.And? || e.Or?) && l == EmitExpr(e.lhs, st)
      ensures EmitLogical(e, jump, op, st) == if l.Success? then EmitRight(e, jump, op, l.value) else l
    {
    }

    method VisitRight(e: Expr, jump: Instruction, op: BinaryOp) returns (o: Outcome<CompileError>)
      requires Valid() && (e.And? || e.Or?)
      modifies this, instructions, jumps, scopes, variables
      ensures Did(o, EmitRight(e, jump, op, old(View())))
      decreases e, 0, 1
    {
      var at := instructionCount + 1;
      RightIs(e, jump, op, View(), at);
      o := EmitThree(TEST, jump, CONST(e.And?));
      if o.Fail? {
        return;
      }
      o := VisitRightOperand(e, at, op);
    }

    /** The right operand, and what follows it. */
    static ghost function RightOperand(e: Expr, at: nat, op: BinaryOp, st: Emission): Emitted
      requires e.And? || e.Or?
    {
      var s2 :- EmitExpr(e.rhs, st);
      FinishLogical(s2, at, op, !e.And?)
    }

    static lemma RightIs(e: Expr, jump: Instruction, op: BinaryOp, st: Emission, at: nat)
      requires (e.And? || e.Or?) && at == |st.code| + 1
      ensures var s1 := Put(st, [TEST, jump, CONST(e.And?)]);
              EmitRight(e, jump, op, st) == if s1.Success? then RightOperand(e, at, op, s1.value) else s1
    {
    }

    method VisitRightOperand(e: Expr, at: nat, op: BinaryOp) returns (o: Outcome<CompileError>)
      requires Valid() && (e.And? || e.Or?) && at < instructionCount
      modifies this, instructions, jumps, scopes, variables
      ensures Did(o, RightOperand(e, at, op, old(View())))
      decreases e, 0, 0
    {
      o := VisitExpr(e.rhs);
      if o.Pass? {
        o := JoinLogical(at, op, !e.And?);
      }
    }

    method JoinLogical(at: nat, op: BinaryOp, shortcut: bool) returns (o: Outcome<CompileError>)
      requires Valid() && at < instructionCount
      modifies `instructionCount, instructions
      ensures Did(o, FinishLogical(old(View()), at, op, shortcut))
    {
      var jmp := instructionCount + 1;
      :- EmitTwo(BINOP(op), JMP(UNRESOLVED));
      PatchRelJump(at);
      :- Emit(CONST(shortcut));
      PatchRelJump(jmp);
      return Pass;
    }

    method VisitTernary(e: Expr) returns (o: Outcome<CompileError>)
      requires Valid() && e.Ternary?
      modifies this, instructions, jumps, scopes, variables
      ensures Did(o, EmitExpr(e, old(View())))
      decreases e, 2
    {
      o := Pass;
      :- VisitConsequent(e);
      var jmp := instructionCount - 1;
      :- VisitExpr(e.alternative);
      PatchRelJump(jmp);
      return Pass;
    }

    method VisitConsequent(e: Expr) returns (o: Outcome<CompileError>)
      requires Valid() && e.Ternary?
      modifies this, instructions, jumps, scopes, variables
      ensures Did(o, EmitConsequent(e, old(View())))
      ensures o.Pass? ==> instructionCount > 0
      decreases e, 1
    {
      ConsequentIs(e, View(), EmitExpr(e.test, View()));
      o := VisitExpr(e.test);
      if o.Fail? {
        return;
      }
      o := VisitAfterTest(e);
    }

    method VisitAfterTest(e: Expr) returns (o: Outcome<CompileError>)
      requires Valid() && e.Ternary?
      modifies this, instructions, jumps, scopes, variables
      ensures Did(o, Consequent(e, old(View())))
      ensures o.Pass? ==> instructionCount > 0
      decreases e, 0
    {
      o := Pass;
      var jz := instructionCount + 1;
      :- EmitTwo(TEST, JZ(UNRESOLVED));
      :- VisitExpr(e.consequent);
      o := StartElse(jz);
    }

    /** What EmitConsequent does after the test. */
    static ghost function Consequent(e: Expr, s1: Emission): Emitted
      requires e.Ternary?
    {
      var s2 :- Put(s1, [TEST, JZ(UNRESOLVED)]);
      var s3 :- EmitExpr(e.consequent, s2);
      BeginElse(s3, |s1.code| + 1)
    }

    static lemma ConsequentIs(e: Expr, st: Emission, r: Emitted)
      requires e.Ternary? && r == EmitExpr(e.test, st)
      ensures EmitConsequent(e, st) == if r.Success? then Consequent(e, r.value) else r
    {
    }

    /** Between the two sides of an `if` or a `?:`. */
    method StartElse(jz: nat) returns (o: Outcome<CompileError>)
      requires Valid() && jz < instructionCount
      modifies `instructionCount, instructions
      ensures Did(o, BeginElse(old(View()), jz))
      ensures o.Pass? ==> instructionCount == old(instructionCount) + 1
    {
      o := Pass;
      :- Emit(JMP(UNRESOLVED));
      PatchRelJump(jz);
      return Pass;
    }

    /** Arguments last first, receiver or self, count, call. */
    method VisitCall(e: Expr) returns (o: Outcome<CompileError>)
      requires Valid() && e.Call?
      modifies this, instructions, jumps, scopes, variables
      ensures Did(o, EmitExpr(e, old(View())))
      decreases e, 1
    {
      if IsEventOperation(e.callee) {
        return Fail(NotModelled);
      }
      :- VisitArguments(e.arguments);
      :- VisitReceiver(e.receiver);
      :- EmitTwo(PUSH(PushCount(|e.arguments|)), CALL(e.callee, |e.arguments|, e.receiver.Some?));
      return Pass;
    }

    method VisitReceiver(receiver: Option<Expr>) returns (o: Outcome<CompileError>)
      requires Valid()
      modifies this, instructions, jumps, scopes, variables
      ensures Did(o, EmitReceiver(receiver, old(View())))
      decreases receiver, 0
    {
      match receiver
      case Some(e) => o := VisitExpr(e);
      case None => o := Emit(LOAD(0));
    }

    method VisitArguments(es: seq<Expr>) returns (o: Outcome<CompileError>)
      requires Valid()
      modifies this, instructions, jumps, scopes, variables
      ensures Did(o, EmitArguments(es, old(View())))
      decreases es, 0
    {
      var i, n := 0, |es|;
      ghost var st := View();
      while i < n
        invariant Valid() && i <= n
        invariant EmitArguments(es[n - i..], st) == Success(View())
      {
        assert es[n - i - 1..][1..] == es[n - i..] && es[n - i - 1..][0] == es[n - i - 1];
        o := VisitExpr(es[n - i - 1]);
        if o.Fail? {
          ArgumentsFail(es, n - i - 1, st);
          return;
        }
        i := i + 1;
      }
      assert es[0..] == es;
      return Pass;
    }

    static lemma {:induction false} ArgumentsFail(es: seq<Expr>, i: nat, st: Emission)
      requires i <= |es| && EmitArguments(es[i..], st).Failure?
      ensures EmitArguments(es, st) == EmitArguments(es[i..], st)
    {
      if i > 0 {
        assert es[i - 1..][1..] == es[i..];
        ArgumentsFail(es, i - 1, st);
      } else {
        assert es[0..] == es;
      }
    }

    method Lvalue(e: Expr) returns (o: Outcome<CompileError>)
      requires Valid()
      modifies this, instructions, jumps, scopes, variables
      ensures Did(o, EmitLvalue(e, old(View())))
    {
      match e
      case Self => o := Emit(REF(0));
      case Id(x) =>
        var slot := DefineLocalVariable(x);
        o := Emit(REF(slot));
      case _ => o := Fail(InvalidLvalue);
    }

    // ---- statements ----

    method VisitStmt(s: Stmt) returns (o: Outcome<CompileError>)
      requires Valid()
      modifies this, instructions, jumps, scopes, variables
      ensures Did(o, EmitStmt(s, old(View())))
      ensures o.Pass? ==> Follows(old(View()), View()) && instructionCount >= old(instructionCount)
      decreases s, 2
    {
      StmtGrows(s, View());
      match s
      case Empty => o := Pass;
      case ExprStmt(e) => o := VisitDiscarded(Some(e));
      case Return(value) => o := VisitReturn(value);
      case Block(body) => o := VisitStmts(body);
      case If(_, _, _) => o := VisitIf(s);
      case While(guard, loop) => o := VisitLoop(guard, loop, None);
      case For(init, guard, update, loop) =>
        :- VisitDiscarded(init);
        o := VisitLoop(guard, loop, update);
      case Switch(_, _) => o := VisitSwitch(s);
      case Break => o := EmitPending(BreakJump);
      case Continue => o := EmitPending(ContinueJump);
    }

    method VisitDiscarded(e: Option<Expr>) returns (o: Outcome<CompileError>)
      requires Valid()
      modifies this, instructions, jumps, scopes, variables
      ensures Did(o, EmitDiscarded(e, old(View())))
      ensures o.Pass? ==> Follows(old(View()), View()) && instructionCount >= old(instructionCount)
    {
      OptionGrows(e, View());
      if e.Some? {
        :- VisitExpr(e.value);
        :- Emit(POP);
      }
      return Pass;
    }

    method VisitGuard(e: Option<Expr>) returns (o: Outcome<CompileError>)
      requires Valid()
      modifies this, instructions, jumps, scopes, variables
      ensures Did(o, EmitGuard(e, old(View())))
      ensures o.Pass? ==> Follows(old(View()), View()) && instructionCount >= old(instructionCount)
    {
      OptionGrows(e, View());
      match e
      case Some(x) => o := VisitExpr(x);
      case None => o := Emit(CONST(true));
    }

    method VisitReturn(value: Option<Expr>) returns (o: Outcome<CompileError>)
      requires Valid()
      modifies this, instructions, jumps, scopes, variables
      ensures Did(o, EmitStmt(Return(value), old(View())))
    {
      if value.Some? {
        :- VisitExpr(value.value);
      } else {
        :- Emit(UNDEF);
      }
      :- Emit(RET);
      return Pass;
    }

    method VisitIf(s: Stmt) returns (o: Outcome<CompileError>)
      requires Valid() && s.If?
      modifies this, instructions, jumps, scopes, variables
      ensures Did(o, EmitStmt(s, old(View())))
      decreases s, 1
    {
      IfIs(s, View(), EmitExpr(s.test, View()));
      o := VisitExpr(s.test);
      if o.Fail? {
        return;
      }
      o := VisitBranches(s);
    }

    /** What EmitStmt does after the test of an `if`. */
    static ghost function Branches(s: Stmt, s1: Emission): Emitted
      requires s.If?
    {
      var s2 :- Put(s1, [TEST, JZ(UNRESOLVED)]);
      var s3 :- EmitStmt(s.consequent, s2);
      Alternative(s.alternative, |s1.code| + 1, s3)
    }

    /** And after the consequent. */
    static ghost function Alternative(alternative: Option<Stmt>, jz: nat, s3: Emission): Emitted {
      if alternative.None? then Success(PatchHere(s3, jz))
      else
        var s4 :- BeginElse(s3, jz);
        var s5 :- EmitStmt(alternative.value, s4);
        Success(PatchHere(s5, |s3.code|))
    }

    static lemma IfIs(s: Stmt, st: Emission, r: Emitted)
      requires s.If? && r == EmitExpr(s.test, st)
      ensures EmitStmt(s, st) == if r.Success? then Branches(s, r.value) else r
    {
    }

    method VisitBranches(s: Stmt) returns (o: Outcome<CompileError>)
      requires Valid() && s.If?
      modifies this, instructions, jumps, scopes, variables
      ensures Did(o, Branches(s, old(View())))
      decreases s, 0
    {
      o := Pass;
      var jz := instructionCount + 1;
      :- EmitTwo(TEST, JZ(UNRESOLVED));
      :- VisitStmt(s.consequent);
      o := VisitAlternative(s.alternative, jz);
    }

    method VisitAlternative(alternative: Option<Stmt>, jz: nat) returns (o: Outcome<CompileError>)
      requires Valid() && jz < instructionCount
      modifies this, instructions, jumps, scopes, variables
      ensures Did(o, Alternative(alternative, jz, old(View())))
      decreases alternative, 0
    {
      if alternative.Some? {
        var jmp := instructionCount;
        :- StartElse(jz);
        :- VisitStmt(alternative.value);
        PatchRelJump(jmp);
      } else {
        PatchRelJump(jz);
      }
      return Pass;
    }

    /** visit_ASTWhileStmt, and visit_ASTForStmt after its init. */
    method VisitLoop(guard: Option<Expr>, loop: Stmt, update: Option<Expr>) returns (o: Outcome<CompileError>)
      requires Valid()
      modifies this, instructions, jumps, scopes, variables
      ensures Did(o, EmitLoop(guard, loop, update, old(View())))
      decreases loop, 4
    {
      ghost var st := View();
      var begin := instructionCount;
      :- IncrementScope(Scope(true, true));
      ghost var s0 := View();
      :- VisitGuard(guard);
      LoopIs(guard, loop, update, st, s0, View());
      o := VisitLoopBody(begin, loop, update);
    }

    static lemma LoopIs(guard: Option<Expr>, loop: Stmt, update: Option<Expr>, st: Emission, s0: Emission, s1: Emission)
      requires OpenScope(st, Scope(true, true)) == Success(s0) && EmitGuard(guard, s0) == Success(s1)
      ensures EmitLoop(guard, loop, update, st) == EmitLoopBody(|st.code|, loop, update, s1)
    {
    }

    method VisitLoopBody(begin: nat, loop: Stmt, update: Option<Expr>) returns (o: Outcome<CompileError>)
      requires Valid() && currentScope > 0
      modifies this, instructions, jumps, scopes, variables
      ensures Did(o, EmitLoopBody(begin, loop, update, old(View())))
      decreases loop, 3
    {
      o := Pass;
      ghost var s1 := View();
      var jz := instructionCount + 1;
      :- EmitTwo(TEST, JZ(UNRESOLVED));
      LoopBodyIs(begin, loop, update, s1, View(), EmitStmt(loop, View()));
      o := VisitStmt(loop);
      if o.Fail? {
        return;
      }
      o := VisitUpdate(begin, jz, update);
    }

    static lemma LoopBodyIs(begin: nat, loop: Stmt, update: Option<Expr>, s1: Emission, s2: Emission, r: Emitted)
      requires Put(s1, [TEST, JZ(UNRESOLVED)]) == Success(s2) && r == EmitStmt(loop, s2)
      ensures EmitLoopBody(begin, loop, update, s1) == if r.Success? then EmitUpdate(begin, |s1.code| + 1, update, r.value) else r
    {
    }

    method VisitUpdate(begin: nat, jz: nat, update: Option<Expr>) returns (o: Outcome<CompileError>)
      requires Valid() && currentScope > 0 && jz < instructionCount
      modifies this, instructions, jumps, scopes, variables
      ensures Did(o, EmitUpdate(begin, jz, update, old(View())))
    {
      o := Pass;
      var continueOffset := instructionCount;
      :- VisitDiscarded(update);
      o := EndLoop(begin, jz, continueOffset);
    }

    method EndLoop(begin: nat, jz: nat, continueOffset: nat) returns (o: Outcome<CompileError>)
      requires Valid() && jz < instructionCount && currentScope > 0
      modifies this, instructions, jumps, scopes, variables
      ensures Did(o, FinishLoop(old(View()), begin, jz, continueOffset))
    {
      o := Pass;
      :- Emit(JMP(begin - instructionCount - 1));
      PatchRelJump(jz);
      DecrementScope(Some(continueOffset), instructionCount);
      return Pass;
    }

    /** The loop over the statements of a block or of a case. */
    method VisitStmts(body: Stmts) returns (o: Outcome<CompileError>)
      requires Valid()
      modifies this, instructions, jumps, scopes, variables
      ensures Did(o, EmitStmts(body, old(View())))
      ensures o.Pass? ==> Follows(old(View()), View()) && instructionCount >= old(instructionCount)
      decreases body, 0
    {
      StmtsGrow(body, View());
      ghost var st := View();
      var it := body;
      while it.Cons?
        invariant Valid() && (it == body || (body decreases to it))
        invariant EmitStmts(it, View()) == EmitStmts(body, st)
        decreases it
      {
        :- VisitStmt(it.head);
        it := it.tail;
      }
      return Pass;
    }

    // ---- switch ----

    method VisitSwitch(s: Stmt) returns (o: Outcome<CompileError>)
      requires Valid() && s.Switch?
      modifies this, instructions, jumps, scopes, variables
      ensures Did(o, EmitStmt(s, old(View())))
      decreases s, 1
    {
      o := Pass;
      ghost var st := View();
      :- IncrementScope(Scope(true, false));
      SwitchIs(s, st, View(), EmitTests(s.discriminant, s.cases, [], View()));
      var caseJnz := new nat[MAX_CASES];
      var n;
      o, n := VisitTests(s.discriminant, s.cases, caseJnz);
      if o.Fail? {
        return;
      }
      o := VisitArms(s.cases, caseJnz, n);
    }

    /** What EmitStmt does after the tests of a switch. */
    static ghost function ArmsEmitted(cases: Cases, js: seq<nat>, s2: Emission): Emitted {
      var s3 :- Put(s2, if DefaultBody(cases).None? then [] else [JMP(UNRESOLVED)]);
      var s4 :- EmitBodies(cases, js, 0, s3);
      var s5 :- EmitDefault(cases, |s2.code|, s4);
      Success(CloseScope(s5, None, |s5.code|))
    }

    static lemma SwitchIs(s: Stmt, st: Emission, s1: Emission, r: Result<(seq<nat>, Emission), CompileError>)
      requires s.Switch? && OpenScope(st, Scope(true, false)) == Success(s1)
      requires r == EmitTests(s.discriminant, s.cases, [], s1)
      ensures EmitStmt(s, st) ==
              if r.Success? then ArmsEmitted(s.cases, r.value.0, r.value.1) else Failure(r.error)
    {
    }

    method VisitArms(cases: Cases, caseJnz: array<nat>, n: nat) returns (o: Outcome<CompileError>)
      requires Valid() && currentScope > 0
      requires n <= caseJnz.Length && Listed(caseJnz, n, caseJnz[..n]) && n == TestCount(cases)
      modifies this, instructions, jumps, scopes, variables
      ensures Did(o, ArmsEmitted(cases, caseJnz[..n], old(View())))
      decreases cases, 2
    {
      o := Pass;
      var jump := instructionCount;
      :- BeginDefault(DefaultBody(cases).Some?);
      :- VisitBodies(cases, caseJnz, n);
      :- VisitDefault(cases, jump);
      DecrementScope(None, instructionCount);
      return Pass;
    }

    /** The jump to the default, if there is one. */
    method BeginDefault(has: bool) returns (o: Outcome<CompileError>)
      requires Valid()
      modifies `instructionCount, instructions
      ensures Did(o, Put(old(View()), if has then [JMP(UNRESOLVED)] else []))
      ensures o.Pass? && has ==> instructionCount > old(instructionCount)
      ensures o.Pass? ==> Follows(old(View()), View()) && instructionCount >= old(instructionCount)
    {
      assert View().code + [] == View().code;
      assert |View().code| == instructionCount;
      if has {
        :- Emit(JMP(UNRESOLVED));
        assert |View().code| == instructionCount;
      }
      return Pass;
    }

    static ghost function TestCount(cases: Cases): nat {
      match cases case NoCases => 0 case Case(test, _, rest) => (if test.Some? then 1 else 0) + TestCount(rest)
    }

    /** The addresses that `caseJnz` holds, all of them of emitted jumps. */
    ghost predicate Listed(caseJnz: array<nat>, n: nat, js: seq<nat>)
      reads caseJnz, this
    {
      n == |js| <= caseJnz.Length && caseJnz[..n] == js && forall k :: 0 <= k < n ==> js[k] < instructionCount
    }

    /** The first loop of visit_ASTSwitchStmt. */
    method VisitTests(d: Expr, cases: Cases, caseJnz: array<nat>) returns (o: Outcome<CompileError>, n: nat)
      requires Valid() && caseJnz.Length == MAX_CASES
      modifies this, instructions, jumps, scopes, variables, caseJnz
      ensures Valid()
      ensures match EmitTests(d, cases, [], old(View()))
              case Success((js, st)) =>
                o.Pass? && View() == st && Listed(caseJnz, n, js) && n == TestCount(cases) && Follows(old(View()), st)
              case Failure(e) => o == Fail(e)
    {
      n := 0;
      o := Pass;
      var it := cases;
      ghost var st, js := View(), [];
      TestsGrow(d, cases, [], st);
      while it.Case?
        invariant o.Pass? && Valid() && Listed(caseJnz, n, js) && n + TestCount(it) == TestCount(cases)
        invariant EmitTests(d, it, js, View()) == EmitTests(d, cases, [], st)
        decreases it
      {
        if it.test.Some? {
          var at;
          o, at := VisitCase(d, it, caseJnz, n, js);
          if o.Fail? {
            return;
          }
          n, js := n + 1, js + [at];
        }
        it := it.rest;
      }
    }

    /** The test of one case, and its place in the list. */
    method VisitCase(d: Expr, cases: Cases, caseJnz: array<nat>, n: nat, ghost js: seq<nat>)
      returns (o: Outcome<CompileError>, at: nat)
      requires Valid() && cases.Case? && cases.test.Some? && caseJnz.Length == MAX_CASES && Listed(caseJnz, n, js)
      modifies this, instructions, jumps, scopes, variables, caseJnz
      ensures Valid()
      ensures match o
              case Pass =>
                && Listed(caseJnz, n + 1, js + [at])
                && EmitTests(d, cases, js, old(View())) == EmitTests(d, cases.rest, js + [at], View())
              case Fail(e) => EmitTests(d, cases, js, old(View())) == Failure(e)
    {
      TestIs(d, cases, js, View(), EmitTest(d, cases.test.value, n, View()));
      o, at := VisitTest(d, cases.test.value, n);
      if o.Pass? {
        caseJnz[n] := at;
      }
    }

    static lemma TestIs(d: Expr, cases: Cases, js: seq<nat>, st: Emission, r: Result<(nat, Emission), CompileError>)
      requires cases.Case? && cases.test.Some? && r == EmitTest(d, cases.test.value, |js|, st)
      ensures EmitTests(d, cases, js, st) ==
              if r.Success? then EmitTests(d, cases.rest, js + [r.value.0], r.value.1) else Failure(r.error)
    {
    }

    method VisitTest(d: Expr, test: Expr, n: nat) returns (o: Outcome<CompileError>, at: nat)
      requires Valid()
      modifies this, instructions, jumps, scopes, variables
      ensures Valid()
      ensures match EmitTest(d, test, n, old(View()))
              case Success((a, st)) =>
                o.Pass? && View() == st && at == a < instructionCount && n < MAX_CASES && Follows(old(View()), st)
              case Failure(e) => o == Fail(e)
    {
      ghost var st := View();
      TestGrows(d, test, n, st);
      at := 0;
      o := VisitExpr(d);
      if o.Fail? {
        return;
      }
      o := VisitExpr(test);
      if o.Fail? {
        return;
      }
      at := instructionCount + 2;
      o := EmitThree(BINOP(Equal), TEST, JNZ(UNRESOLVED));
      if o.Pass? && n >= MAX_CASES {
        o := Fail(TooManyCases);
      }
    }

    /** The second loop of visit_ASTSwitchStmt. */
    method VisitBodies(cases: Cases, caseJnz: array<nat>, n: nat) returns (o: Outcome<CompileError>)
      requires Valid() && n <= caseJnz.Length && Listed(caseJnz, n, caseJnz[..n]) && n == TestCount(cases)
      modifies this, instructions, jumps, scopes, variables
      ensures Did(o, EmitBodies(cases, caseJnz[..n], 0, old(View())))
      ensures o.Pass? ==> Follows(old(View()), View()) && instructionCount >= old(instructionCount)
      decreases cases, 1
    {
      var it := cases;
      var k: nat := 0;
      ghost var st, js := View(), caseJnz[..n];
      BodiesGrow(cases, js, 0, st);
      while it.Case?
        invariant Valid() && (it == cases || (cases decreases to it))
        invariant Listed(caseJnz, n, js) && k + TestCount(it) == n
        invariant EmitBodies(it, js, k, View()) == EmitBodies(cases, js, 0, st)
        decreases it
      {
        o, k := VisitCaseBody(it, caseJnz, n, js, k);
        if o.Fail? {
          return;
        }
        it := it.rest;
      }
      return Pass;
    }

    /** One case; a `default` has no body here. */
    method VisitCaseBody(cases: Cases, caseJnz: array<nat>, n: nat, ghost js: seq<nat>, k: nat)
      returns (o: Outcome<CompileError>, m: nat)
      requires Valid() && Listed(caseJnz, n, js) && cases.Case? && k + TestCount(cases) == n
      modifies this, instructions, jumps, scopes, variables
      ensures Valid() && m + TestCount(cases.rest) == n && (o.Pass? ==> Listed(caseJnz, n, js))
      ensures o.Pass? ==> EmitBodies(cases, js, k, old(View())) == EmitBodies(cases.rest, js, m, View())
      ensures o.Fail? ==> EmitBodies(cases, js, k, old(View())) == Failure(o.error)
      decreases cases, 0, 1
    {
      o, m := Pass, k;
      if cases.test.Some? {
        m := k + 1;
        o := VisitBody(cases, caseJnz[k], js, k);
      } else {
        NoBodyIs(cases, js, k, View());
      }
    }

    /** One body, with the jump of its test, which is entry `k` of the list. */
    method VisitBody(cases: Cases, jnz: nat, ghost js: seq<nat>, ghost k: nat) returns (o: Outcome<CompileError>)
      requires Valid() && cases.Case? && cases.test.Some? && k < |js| && js[k] == jnz < instructionCount
      modifies this, instructions, jumps, scopes, variables
      ensures Valid() && (o.Pass? ==> instructionCount >= old(instructionCount))
      ensures match o
              case Pass => EmitBodies(cases, js, k, old(View())) == EmitBodies(cases.rest, js, k + 1, View())
              case Fail(e) => EmitBodies(cases, js, k, old(View())) == Failure(e)
      decreases cases, 0, 0
    {
      BodyIs(cases, js, k, View(), EmitStmts(cases.consequent, PatchHere(View(), jnz)));
      PatchRelJump(jnz);
      o := VisitStmts(cases.consequent);
    }

    static lemma NoBodyIs(cases: Cases, js: seq<nat>, k: nat, st: Emission)
      requires cases.Case? && cases.test.None?
      ensures EmitBodies(cases, js, k, st) == EmitBodies(cases.rest, js, k, st)
    {
    }

    static lemma BodyIs(cases: Cases, js: seq<nat>, k: nat, st: Emission, r: Emitted)
      requires cases.Case? && cases.test.Some? && k < |js| && r == EmitStmts(cases.consequent, PatchHere(st, js[k]))
      ensures EmitBodies(cases, js, k, st) == if r.Success? then EmitBodies(cases.rest, js, k + 1, r.value) else r
    {
    }

    method VisitDefault(cases: Cases, jump: nat) returns (o: Outcome<CompileError>)
      requires Valid() && (DefaultBody(cases).Some? ==> jump < instructionCount)
      modifies this, instructions, jumps, scopes, variables
      ensures Did(o, EmitDefault(cases, jump, old(View())))
      ensures o.Pass? ==> Follows(old(View()), View()) && instructionCount >= old(instructionCount)
      decreases cases, 1
    {
      DefaultGrows(cases, jump, View());
      var body := DefaultBody(cases);
      if body.Some? {
        PatchRelJump(jump);
        :- VisitStmts(body.value);
      }
      return Pass;
    }

    // ---- functions ----

    method DefineAll(parameters: seq<string>) returns (o: Outcome<CompileError>)
      requires Valid()
      modifies `variableIndex, `names, variables
      ensures Valid()
      ensures match DefineParameters(parameters, old(names))
              case Success(all) => o.Pass? && View() == old(View()).(names := all)
              case Failure(e) => o == Fail(e)
    {
      ghost var before := names;
      for i := 0 to |parameters|
        invariant Valid() && View() == old(View()).(names := names)
        invariant DefineParameters(parameters[i..], names) == DefineParameters(parameters, before)
      {
        assert parameters[i..][0] == parameters[i] && parameters[i..][1..] == parameters[i + 1..];
        var r := Declare(parameters[i], true);
        if r.Failure? {
          return Fail(r.error);
        }
      }
      return Pass;
    }

    /** The loop at the end of compile_function. */
    method SweepUnresolved()
      requires Valid()
      modifies instructions
      ensures Valid() && View() == old(View()).(code := Sweep(old(View()).code))
    {
      ghost var code := View().code;
      for i := 0 to instructionCount
        modifies instructions
        invariant Valid() && instructionCount == |code| && View() == old(View()).(code := View().code)
        invariant forall k :: 0 <= k < i ==> instructions[k] == Sweep(code)[k]
        invariant forall k :: i <= k < instructionCount ==> instructions[k] == code[k]
      {
        if instructions[i].IsJump() && instructions[i].rel == UNRESOLVED {
          instructions[i] := instructions[i].WithRel(0);
        }
      }
      assert View().code == Sweep(code);
    }

    /** Parameters, body, and the return of undefined at the end. */
    static ghost function Emitting(parameters: seq<string>, body: Stmt): Emitted {
      var names :- DefineParameters(parameters, ["self"]);
      var s1 :- EmitStmt(body, Emission([], [], [], names));
      Put(s1, [UNDEF, RET])
    }

    static lemma CompileIs(parameters: seq<string>, body: Stmt, r: Emitted)
      requires r == Emitting(parameters, body)
      ensures CompileFunction(parameters, body) ==
              match r
              case Success(st) => Success(Function(Sweep(st.code), |parameters|, st.names))
              case Failure(e) => Failure(e)
    {
    }

    /** The compiler is reused: whatever it held before is discarded. */
    method Reset()
      requires Valid()
      modifies this, instructions, jumps, scopes, variables
      ensures Valid() && View() == Emission([], [], [], ["self"])
    {
      variables.Init();
      instructionCount, jumpCount, currentScope, variableIndex, names := 0, 0, 0, 0, [];
      assert View() == Emission([], [], [], []);
      assert Lower("self") == "self";
      var self := Declare("self", true);
    }

    method VisitFunction(parameters: seq<string>, body: Stmt) returns (o: Outcome<CompileError>)
      requires Valid() && View() == Emission([], [], [], ["self"])
      modifies this, instructions, jumps, scopes, variables
      ensures Did(o, Emitting(parameters, body))
    {
      o := Pass;
      :- DefineAll(parameters);
      :- VisitStmt(body);
      :- EmitTwo(UNDEF, RET);
      return Pass;
    }

    /** `compile_function`: the names are those that the list of the trie goes through. */
    method Compile(parameters: seq<string>, body: Stmt) returns (r: Result<Function, CompileError>)
      requires Valid()
      modifies this, instructions, jumps, scopes, variables
      ensures Valid() && r == CompileFunction(parameters, body)
    {
      Reset();
      CompileIs(parameters, body, Emitting(parameters, body));
      var o := VisitFunction(parameters, body);
      if o.Fail? {
        return Failure(o.error);
      }
      var variableNames := variables.Enumerate();
      SweepUnresolved();
      return Success(Function(instructions[..instructionCount], |parameters|, variableNames));
    }
  }
}
