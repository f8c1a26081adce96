/**
 * A thread of the virtual machine as vm.c has it: a fixed operand stack and a fixed array of
 * frames, updated in place. Each method is proved to do what the step functions of Machine.dfy do.
 */
module VirtualMachine {
  import opened Wrappers
  import opened Values
  import opened Syntax
  import opened Bytecode
  import M = Machine

  /** What `vm_execute_instruction` reports: go on, the last frame returned, or `vm_error`. */
  datatype Fate = Going | Ended(value: Value) | Broke(fault: Fault)

  /** Every function has slots for self and its parameters. */
  ghost predicate Callable(prog: M.Program) {
    forall f :: f in prog ==> prog[f].parameterCount < |prog[f].locals|
  }

  class ScriptThread {
    const stack: array<Value>
    const frames: array<M.Frame>
    var sp: nat
    var bp: nat
    /** `thr->result`, as far as JZ and JNZ look at it. */
    var flag: bool

    ghost predicate Valid()
      reads this
    {
      stack.Length == VM_STACK_SIZE && frames.Length == VM_FRAME_SIZE && sp <= VM_STACK_SIZE && bp < VM_FRAME_SIZE
    }

    ghost function View(): M.Thread
      requires Valid()
      reads this, stack, frames
    {
      M.Thread(stack[..sp], frames[..bp], frames[bp], flag)
    }

    ghost predicate Did(f: Fate, o: M.Outcome)
      reads this, stack, frames
    {
      Valid() && match o
      case Running(t) => f == Going && View() == t
      case Finished(v) => f == Ended(v)
      case Failed(x) => f == Broke(x)
    }

    /** A thread that is about to run a function with the given locals. */
    constructor (code: Code, locals: seq<Value>)
      ensures Valid() && fresh(stack) && fresh(frames)
      ensures View() == M.Thread([], [], M.Frame(code, locals, 0), false)
    {
      stack := new Value[VM_STACK_SIZE](_ => Undefined);
      frames := new M.Frame[VM_FRAME_SIZE](_ => M.Frame([], [], 0));
      sp, bp, flag := 0, 0, false;
      new;
      frames[0] := M.Frame(code, locals, 0);
    }

    // ---- the operand stack ----

    method Push(v: Value) returns (f: Fate)
      requires Valid()
      modifies this, stack, frames
      ensures Did(f, M.Push(old(View()), v))
    {
      if sp >= VM_STACK_SIZE {
        return Broke(StackOverflow);
      }
      stack[sp] := v;
      sp := sp + 1;
      return Going;
    }

    method Pop() returns (v: Value)
      requires Valid() && sp > 0
      modifies this, stack, frames
      ensures Valid() && View() == M.Drop(old(View()), 1) && v == M.Peek(old(View()), 0)
      ensures bp == old(bp) && sp == old(sp) - 1
    {
      sp := sp - 1;
      v := stack[sp];
      assert stack[..sp] == old(stack[..sp])[..old(sp) - 1];
    }

    method PushResult(r: Result<Value, Fault>) returns (f: Fate)
      requires Valid()
      modifies this, stack, frames
      ensures Did(f, M.PushResult(old(View()), r))
    {
      match r
      case Success(v) => f := Push(v);
      case Failure(x) => f := Broke(x);
    }

    /** Add to the instruction pointer of the running frame. */
    method Jump(rel: int)
      requires Valid()
      modifies this, stack, frames
      ensures Valid() && View() == M.Jump(old(View()), rel)
    {
      frames[bp] := frames[bp].(ip := frames[bp].ip + rel);
    }

    // ---- single instructions ----

    method ExecuteBinop(op: BinaryOp) returns (f: Fate)
      requires Valid()
      modifies this, stack, frames
      ensures Did(f, if |old(View()).stack| < 2 then M.Failed(StackUnderflow)
                     else M.PushResult(M.Drop(old(View()), 2), Binop(op, M.Peek(old(View()), 1), M.Peek(old(View()), 0))))
    {
      if sp < 2 {
        return Broke(StackUnderflow);
      }
      var b := Pop();
      var a := Pop();
      assert View().stack == M.Drop(old(View()), 2).stack;
      f := PushResult(Binop(op, a, b));
    }

    method ExecuteUnary(op: UnaryOp) returns (f: Fate)
      requires Valid()
      modifies this, stack, frames
      ensures Did(f, if old(View()).stack == [] then M.Failed(StackUnderflow)
                     else M.PushResult(M.Drop(old(View()), 1), Unary(op, M.Peek(old(View()), 0))))
    {
      if sp == 0 {
        return Broke(StackUnderflow);
      }
      var a := Pop();
      f := PushResult(Unary(op, a));
    }

    method ExecuteTest() returns (f: Fate)
      requires Valid()
      modifies this, stack, frames
      ensures Did(f, if old(View()).stack == [] then M.Failed(StackUnderflow)
                     else match Test(M.Peek(old(View()), 0))
                          case Success(b) => M.Running(M.Drop(old(View()), 1).(flag := b))
                          case Failure(x) => M.Failed(x))
    {
      if sp == 0 {
        return Broke(StackUnderflow);
      }
      var a := Pop();
      match Test(a)
      case Success(b) =>
        flag := b;
        f := Going;
      case Failure(x) => f := Broke(x);
    }

    method ExecuteLoad(slot: nat) returns (f: Fate)
      requires Valid()
      modifies this, stack, frames
      ensures Did(f, if slot < |old(View()).top.locals| then M.Push(old(View()), old(View()).top.locals[slot])
                     else M.Failed(BadLocal))
    {
      if slot >= |frames[bp].locals| {
        return Broke(BadLocal);
      }
      f := Push(frames[bp].locals[slot]);
    }

    method ExecuteRef(slot: nat) returns (f: Fate)
      requires Valid()
      modifies this, stack, frames
      ensures Did(f, if slot < |old(View()).top.locals| then M.Push(old(View()), Ref(|old(View()).callers|, slot))
                     else M.Failed(BadLocal))
    {
      if slot >= |frames[bp].locals| {
        return Broke(BadLocal);
      }
      f := Push(Ref(bp, slot));
    }

    /** OP_STORE: write through the reference on top, and push the value again. */
    method ExecuteStore() returns (f: Fate)
      requires Valid()
      modifies this, stack, frames
      ensures Did(f, M.Store(old(View())))
    {
      if sp < 2 {
        return Broke(StackUnderflow);
      }
      var dst := Pop();
      var src := Pop();
      assert View().stack == M.Drop(old(View()), 2).stack;
      if !dst.Ref? {
        return Broke(TypeFault);
      }
      if dst.frame > bp || dst.slot >= |frames[dst.frame].locals| {
        return Broke(BadReference);
      }
      ghost var t := View();
      frames[dst.frame] := frames[dst.frame].(locals := frames[dst.frame].locals[dst.slot := src]);
      assert M.Assign(t, dst.frame, dst.slot, src) == Some(View());
      f := Push(src);
    }

    // ---- calls and returns ----

    /** OP_RET: back to the caller, or the end of the thread. */
    method ExecuteRet() returns (f: Fate)
      requires Valid()
      modifies this, stack, frames
      ensures Did(f, M.Leave(old(View())))
    {
      if bp > 0 {
        bp := bp - 1;
        assert frames[..bp] == old(frames[..bp])[..bp];
        return Going;
      }
      if sp == 0 {
        return Broke(StackUnderflow);
      }
      return Ended(stack[sp - 1]);
    }

    /** The locals of `call_function`: all undefined, then self and the arguments as they are popped. */
    method BindLocals(g: Function, nargs: nat) returns (locals: seq<Value>)
      requires Valid() && g.parameterCount < |g.locals| && sp >= nargs + 2
      modifies this, stack, frames
      ensures Valid() && locals == M.CalleeLocals(g, old(stack[..sp]), nargs)
      ensures bp == old(bp) && flag == old(flag) && frames[..] == old(frames[..])
      ensures sp == old(sp) - nargs - 2 && stack[..] == old(stack[..])
    {
      locals := seq(|g.locals|, i requires 0 <= i < |g.locals| => Undefined);
      sp := sp - 1;
      for i := 0 to nargs + 1
        invariant Valid() && bp == old(bp) && flag == old(flag) && frames[..] == old(frames[..])
        invariant sp == old(sp) - 1 - i && stack[..] == old(stack[..]) && |locals| == |g.locals|
        invariant forall k :: 0 <= k < |locals| ==>
          locals[k] == if k < i && k <= g.parameterCount then old(stack[sp - 2 - k]) else Undefined
      {
        sp := sp - 1;
        if i < g.parameterCount + 1 {
          locals := locals[i := stack[sp]];
        }
      }
    }

    /** OP_CALL of a script function. */
    method ExecuteCall(prog: M.Program, callee: string) returns (f: Fate)
      requires Valid() && Callable(prog)
      modifies this, stack, frames
      ensures Did(f, M.Invoke(prog, old(View()), callee))
    {
      if sp == 0 {
        return Broke(StackUnderflow);
      }
      var count := stack[sp - 1];
      if !count.Int? {
        return Broke(TypeFault);
      }
      if bp + 1 >= VM_FRAME_SIZE {
        return Broke(FrameOverflow);
      }
      if Lower(callee) !in prog {
        return Broke(NoFunction);
      }
      if count.i < 0 {
        return Broke(BadOperand);
      }
      var g, n: nat := prog[Lower(callee)], count.i;
      if sp < n + 2 {
        return Broke(StackUnderflow);
      }
      if |g.locals| > VM_MAX_LOCALS {
        return Broke(LocalsOverflow);
      }
      ghost var t := View();
      var locals := BindLocals(g, n);
      bp := bp + 1;
      frames[bp] := M.Frame(g.code, locals, 0);
      assert frames[..bp] == t.callers + [t.top];
      assert stack[..sp] == t.stack[..|t.stack| - n - 2];
      return Going;
    }

    // ---- dispatch ----

    method ExecuteInstruction(prog: M.Program, ins: Instruction) returns (f: Fate)
      requires Valid() && Callable(prog)
      modifies this, stack, frames
      ensures Did(f, M.Execute(prog, old(View()), ins))
    {
      match ins
      case PUSH(l) => f := Push(ValueOf(l));
      case POP =>
        if sp == 0 {
          return Broke(StackUnderflow);
        }
        var _ := Pop();
        f := Going;
      case UNDEF => f := Push(Undefined);
      case LOAD(slot) => f := ExecuteLoad(slot);
      case STORE => f := ExecuteStore();
      case REF(slot) => f := ExecuteRef(slot);
      case BINOP(op) => f := ExecuteBinop(op);
      case UNARY(op) => f := ExecuteUnary(op);
      case RET => f := ExecuteRet();
      case CALL(callee, _, _) => f := ExecuteCall(prog, callee);
      case TEST => f := ExecuteTest();
      case JMP(rel) => Jump(rel); f := Going;
      case JZ(rel) =>
        if !flag { Jump(rel); }
        f := Going;
      case JNZ(rel) =>
        if flag { Jump(rel); }
        f := Going;
      case CONST(one) => f := Push(Int(IntOf(one)));
    }

    /** One turn of the loop in `run_thread`. */
    method Step(prog: M.Program) returns (f: Fate)
      requires Valid() && Callable(prog)
      modifies this, stack, frames
      ensures Did(f, M.Step(prog, old(View())))
    {
      var sf := frames[bp];
      if !(0 <= sf.ip < |sf.code|) {
        return Broke(IpOutOfBounds);
      }
      Jump(1);
      f := ExecuteInstruction(prog, sf.code[sf.ip]);
    }

    /** `run_thread`, for at most `limit` instructions. */
    method RunThread(prog: M.Program, limit: nat) returns (f: Fate)
      requires Valid() && Callable(prog)
      modifies this, stack, frames
      ensures Did(f, M.Run(prog, old(View()), limit))
    {
      f := Going;
      ghost var t := View();
      var n := 0;
      while n < limit && f == Going
        invariant n <= limit && Valid()
        invariant f == Going ==> M.Run(prog, t, limit) == M.Run(prog, View(), limit - n)
        invariant f != Going ==> Did(f, M.Run(prog, t, limit))
        decreases limit - n
      {
        M.RunsOn(prog, View(), limit - n, M.Step(prog, View()));
        f := Step(prog);
        n := n + 1;
      }
    }
  }
}
