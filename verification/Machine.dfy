/** One thread of the virtual machine: `vm_execute_instruction` as a step on values (vm.c). */
module Machine {
  import opened Wrappers
  import opened Values
  import opened Syntax
  import opened Bytecode

  datatype Frame = Frame(code: Code, locals: seq<Value>, ip: int)

  /** The running frame is `top`; `flag` is whether `thr->result` is nonzero. */
  datatype Thread = Thread(stack: seq<Value>, callers: seq<Frame>, top: Frame, flag: bool)

  /** Functions by their folded names. */
  type Program = map<string, Function>

  datatype Outcome =
    | Running(thread: Thread)
    | Finished(value: Value)
    | Failed(fault: Fault)

  function Push(t: Thread, v: Value): Outcome {
    if |t.stack| >= VM_STACK_SIZE then Failed(StackOverflow) else Running(t.(stack := t.stack + [v]))
  }

  /** The value `n` below the top of the stack. */
  function Peek(t: Thread, n: nat): Value
    requires n < |t.stack|
  {
    t.stack[|t.stack| - 1 - n]
  }

  function Drop(t: Thread, n: nat): Thread
    requires n <= |t.stack|
  {
    t.(stack := t.stack[..|t.stack| - n])
  }

  function PushResult(t: Thread, r: Result<Value, Fault>): Outcome {
    match r case Success(v) => Push(t, v) case Failure(f) => Failed(f)
  }

  function Jump(t: Thread, rel: int): Thread {
    t.(top := t.top.(ip := t.top.ip + rel))
  }

  /** `*dst = src` through a reference. */
  function Assign(t: Thread, frame: nat, slot: nat, v: Value): Option<Thread> {
    if frame == |t.callers| && slot < |t.top.locals| then
      Some(t.(top := t.top.(locals := t.top.locals[slot := v])))
    else if frame < |t.callers| && slot < |t.callers[frame].locals| then
      var f := t.callers[frame];
      Some(t.(callers := t.callers[frame := f.(locals := f.locals[slot := v])]))
    else None
  }

  function Store(t: Thread): Outcome {
    if |t.stack| < 2 then Failed(StackUnderflow)
    else
      match Peek(t, 0)
      case Ref(frame, slot) =>
        (match Assign(Drop(t, 2), frame, slot, Peek(t, 1))
         case Some(u) => Push(u, Peek(t, 1))
         case None => Failed(BadReference))
      case _ => Failed(TypeFault)
  }

  /**
   * The locals of a callee: slot 0 is self, the slots after it are the arguments as far as there
   * are arguments and parameters, the rest is undefined. The caller pushed the last argument
   * first, then self, then the count.
   */
  function CalleeLocals(f: Function, stack: seq<Value>, nargs: nat): seq<Value>
    requires nargs + 2 <= |stack|
  {
    seq(|f.locals|, i requires 0 <= i < |f.locals| =>
      if i <= nargs && i <= f.parameterCount then stack[|stack| - 2 - i] else Undefined)
  }

  function Invoke(prog: Program, t: Thread, callee: string): Outcome {
    if t.stack == [] then Failed(StackUnderflow)
    else
      match Peek(t, 0)
      case Int(n) =>
        if |t.callers| + 1 >= VM_FRAME_SIZE then Failed(FrameOverflow)
        else if Lower(callee) !in prog then Failed(NoFunction)
        else if n < 0 then Failed(BadOperand)
        else if |t.stack| < n + 2 then Failed(StackUnderflow)
        else if |prog[Lower(callee)].locals| > VM_MAX_LOCALS then Failed(LocalsOverflow)
        else
          var f := prog[Lower(callee)];
          Running(Thread(t.stack[..|t.stack| - n - 2], t.callers + [t.top],
                         Frame(f.code, CalleeLocals(f, t.stack, n), 0), t.flag))
      case _ => Failed(TypeFault)
  }

  function Leave(t: Thread): Outcome {
    if t.callers != [] then
      var n := |t.callers| - 1;
      Running(t.(callers := t.callers[..n], top := t.callers[n]))
    else if t.stack == [] then Failed(StackUnderflow)
    else Finished(Peek(t, 0))
  }

  /** `vm_execute_instruction`; the instruction pointer is past the instruction already. */
  function Execute(prog: Program, t: Thread, ins: Instruction): Outcome {
    match ins
    case PUSH(l) => Push(t, ValueOf(l))
    case POP => if t.stack == [] then Failed(StackUnderflow) else Running(Drop(t, 1))
    case UNDEF => Push(t, Undefined)
    case LOAD(slot) => if slot < |t.top.locals| then Push(t, t.top.locals[slot]) else Failed(BadLocal)
    case STORE => Store(t)
    case REF(slot) => if slot < |t.top.locals| then Push(t, Ref(|t.callers|, slot)) else Failed(BadLocal)
    case BINOP(op) =>
      if |t.stack| < 2 then Failed(StackUnderflow)
      else PushResult(Drop(t, 2), Binop(op, Peek(t, 1), Peek(t, 0)))
    case UNARY(op) =>
      if t.stack == [] then Failed(StackUnderflow)
      else PushResult(Drop(t, 1), Unary(op, Peek(t, 0)))
    case RET => Leave(t)
    case CALL(callee, _, _) => Invoke(prog, t, callee)
    case TEST =>
      if t.stack == [] then Failed(StackUnderflow)
      else
        (match Test(Peek(t, 0))
         case Success(b) => Running(Drop(t, 1).(flag := b))
         case Failure(f) => Failed(f))
    case JMP(rel) => Running(Jump(t, rel))
    case JZ(rel) => Running(if t.flag then t else Jump(t, rel))
    case JNZ(rel) => Running(if t.flag then Jump(t, rel) else t)
    case CONST(one) => Push(t, Int(IntOf(one)))
  }

  /** One turn of the loop in `run_thread`. */
  function Step(prog: Program, t: Thread): Outcome {
    if !(0 <= t.top.ip < |t.top.code|) then Failed(IpOutOfBounds)
    else Execute(prog, Jump(t, 1), t.top.code[t.top.ip])
  }

  /** A run given its first step. */
  lemma RunsOn(prog: Program, t: Thread, n: nat, o: Outcome)
    requires n > 0 && o == Step(prog, t)
    ensures Run(prog, t, n) == if o.Running? then Run(prog, o.thread, n - 1) else o
  {
  }

  function Run(prog: Program, t: Thread, n: nat): Outcome
    decreases n
  {
    if n == 0 then Running(t)
    else
      match Step(prog, t)
      case Running(u) => Run(prog, u, n - 1)
      case o => o
  }
}
