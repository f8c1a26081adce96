/**
 * The operand stack in every run of a compiled program: whatever has been called, each frame has on it what its
 * function's profile says. So no instruction lacks an operand, a slot, or a place to go on.
 */
module Heights {
  import opened Values
  import opened Syntax
  import opened Bytecode
  import opened Emitter
  import opened Depths
  import opened Paths
  import opened Bounds
  import opened Blame
  import opened Machine

  /** A profile for every function. */
  type Profiles = map<string, Profile>

  ghost predicate FunctionProfiled(f: Function, ds: Profile) {
    f.code != [] && Balanced(f.code, ds) && SlotsIn(f.code, |f.locals|)
  }

  ghost predicate Profiled(prog: Program, dss: Profiles) {
    dss.Keys == prog.Keys && forall g :: g in prog ==> FunctionProfiled(prog[g], dss[g])
  }

  // ---- the chain of calls ----

  function FrameAt(t: Thread, k: nat): Frame {
    if k < |t.callers| then t.callers[k] else t.top
  }

  predicate FrameOf(f: Function, frame: Frame) {
    frame.code == f.code && |frame.locals| == |f.locals| && 0 <= frame.ip < |f.code|
  }

  /** Whose frames the frames are, the running one last. */
  predicate Chain(prog: Program, gs: seq<string>, t: Thread) {
    |gs| == |t.callers| + 1 && forall k :: 0 <= k < |gs| ==> gs[k] in prog && FrameOf(prog[gs[k]], FrameAt(t, k))
  }

  function SpotAt(dss: Profiles, g: string, frame: Frame): Spot {
    if g in dss && 0 <= frame.ip < |dss[g]| then dss[g][frame.ip] else Plain(0)
  }

  /** What the first `n` frames hold while they wait: all that they will have, but for the result of the call. */
  function Held(dss: Profiles, gs: seq<string>, callers: seq<Frame>, n: nat): int
    requires n <= |callers| && n <= |gs|
  {
    if n == 0 then 0 else Held(dss, gs, callers, n - 1) + SpotAt(dss, gs[n - 1], callers[n - 1]).depth - 1
  }

  /** The result is to come, and nothing else is due. */
  predicate Waits(dss: Profiles, gs: seq<string>, callers: seq<Frame>)
    requires |callers| <= |gs|
  {
    forall k :: 0 <= k < |callers| ==>
      SpotAt(dss, gs[k], callers[k]).due == Anything && SpotAt(dss, gs[k], callers[k]).depth >= 1
  }

  /** What is due is on top: a reference into the running frame, or the number of arguments. */
  predicate Met(due: Due, t: Thread) {
    match due
    case Anything => true
    case StoreDue => t.stack != [] && Peek(t, 0).Ref? && Peek(t, 0).frame == |t.callers| && Peek(t, 0).slot < |t.top.locals|
    case CallDue(n) => t.stack != [] && Peek(t, 0) == ValueOf(PushCount(n))
  }

  /** The operand stack is that of the frames, one upon the other. */
  predicate Stacked(dss: Profiles, gs: seq<string>, t: Thread)
    requires |gs| == |t.callers| + 1
  {
    var n := |t.callers|;
    && Waits(dss, gs, t.callers)
    && |t.stack| == Held(dss, gs, t.callers, n) + SpotAt(dss, gs[n], t.top).depth <= VM_STACK_SIZE
    && Met(SpotAt(dss, gs[n], t.top).due, t)
  }

  ghost predicate Tallies(prog: Program, dss: Profiles, gs: seq<string>, t: Thread) {
    Chain(prog, gs, t) && Stacked(dss, gs, t)
  }

  lemma {:induction false} HeldIsLocal(dss: Profiles, gs: seq<string>, hs: seq<string>, callers: seq<Frame>,
                                       others: seq<Frame>, n: nat)
    requires n <= |callers| && n <= |others| && n <= |gs| && n <= |hs|
    requires forall k :: 0 <= k < n ==> gs[k] == hs[k] && callers[k] == others[k]
    ensures Held(dss, gs, callers, n) == Held(dss, hs, others, n)
  {
    if n > 0 {
      HeldIsLocal(dss, gs, hs, callers, others, n - 1);
    }
  }

  lemma {:induction false} HeldIsPositive(dss: Profiles, gs: seq<string>, callers: seq<Frame>, n: nat)
    requires n <= |callers| <= |gs| && Waits(dss, gs, callers)
    ensures Held(dss, gs, callers, n) >= 0
  {
    if n > 0 {
      HeldIsPositive(dss, gs, callers, n - 1);
    }
  }

  // ---- one instruction ----

  /** Where an instruction leaves its frame, and what it leaves on the stack. */
  ghost predicate Stays(t: Thread, o: Outcome, ins: Instruction) {
    match o
    case Running(u) =>
      && u.callers == t.callers && u.top.code == t.top.code && |u.top.locals| == |t.top.locals|
      && |u.stack| <= VM_STACK_SIZE && |u.stack| == |t.stack| - Pops(ins) + Pushes(ins)
      && ((FallsThrough(ins) && u.top.ip == t.top.ip) || (ins.IsJump() && u.top.ip == t.top.ip + ins.rel))
      && (ins.PUSH? ==> Peek(u, 0) == ValueOf(ins.literal))
      && (ins.REF? ==> ins.slot < |u.top.locals| && Peek(u, 0) == Ref(|u.callers|, ins.slot))
    case Finished(_) => false
    case Failed(x) => Sensible(x) || (x == StackOverflow && !ins.IsJump() && |t.stack| - Pops(ins) + Pushes(ins) > VM_STACK_SIZE)
  }

  lemma OperatorStays(prog: Program, t: Thread, ins: Instruction)
    requires ins.BINOP? || ins.UNARY? || ins.TEST?
    requires Pops(ins) <= |t.stack| <= VM_STACK_SIZE
    ensures Stays(t, Execute(prog, t, ins), ins)
  {
    match ins
    case BINOP(op) => ArithmeticBlames(op, Peek(t, 1), Peek(t, 0));
    case UNARY(op) => UnaryBlames(op, Peek(t, 0));
    case TEST => UnaryBlames(Not, Peek(t, 0));
  }

  lemma StoreStays(prog: Program, t: Thread)
    requires 2 <= |t.stack| <= VM_STACK_SIZE && Met(StoreDue, t)
    ensures Stays(t, Execute(prog, t, STORE), STORE)
  {
    var u := Machine.Assign(Drop(t, 2), |t.callers|, Peek(t, 0).slot, Peek(t, 1));
    assert u.Some? && |u.value.top.locals| == |t.top.locals|;
  }

  lemma ExecuteStays(prog: Program, t: Thread, ins: Instruction)
    requires !ins.RET? && !ins.CALL? && Pops(ins) <= |t.stack| <= VM_STACK_SIZE && SlotIn(ins, |t.top.locals|)
    requires ins.STORE? ==> Met(StoreDue, t)
    ensures Stays(t, Execute(prog, t, ins), ins)
  {
    ExecuteCounts(prog, t, ins);
    if ins.BINOP? || ins.UNARY? || ins.TEST? {
      OperatorStays(prog, t, ins);
    } else if ins.STORE? {
      StoreStays(prog, t);
    }
  }

  /** An instruction that stays in its frame leaves the stack as the profile has it. */
  lemma StaysTallies(prog: Program, dss: Profiles, gs: seq<string>, t: Thread, ins: Instruction, u: Thread)
    requires Profiled(prog, dss) && Tallies(prog, dss, gs, t) && ins == t.top.code[t.top.ip] && !ins.RET? && !ins.CALL?
    requires Stays(Jump(t, 1), Running(u), ins)
    ensures Tallies(prog, dss, gs, u)
  {
    var n, i := |t.callers|, t.top.ip;
    assert FrameOf(prog[gs[n]], FrameAt(t, n));
    assert BalancedAt(prog[gs[n]].code, dss[gs[n]], i);
    forall k | 0 <= k < |gs| ensures gs[k] in prog && FrameOf(prog[gs[k]], FrameAt(u, k)) {
      assert FrameOf(prog[gs[k]], FrameAt(t, k));
    }
  }

  // ---- calls and returns ----

  /** Whose frames there are after an instruction that goes on. */
  function NextChain(gs: seq<string>, ins: Instruction): seq<string>
    requires gs != []
  {
    match ins
    case CALL(callee, _, _) => gs + [Lower(callee)]
    case RET => gs[..|gs| - 1]
    case _ => gs
  }

  /** The limit of the machine that has been reached, when it is one that fails. */
  predicate Over(prog: Program, t: Thread, ins: Instruction, x: Fault) {
    match x
    case StackOverflow => !ins.IsJump() && |t.stack| - Pops(ins) + Pushes(ins) > VM_STACK_SIZE
    case FrameOverflow => ins.CALL? && |t.callers| + 1 >= VM_FRAME_SIZE
    case LocalsOverflow => ins.CALL? && Lower(ins.callee) in prog && |prog[Lower(ins.callee)].locals| > VM_MAX_LOCALS
    case _ => false
  }

  lemma CallTallies(prog: Program, dss: Profiles, gs: seq<string>, t: Thread, ins: Instruction)
    requires Profiled(prog, dss) && Tallies(prog, dss, gs, t) && ins == t.top.code[t.top.ip] && ins.CALL?
    ensures match Execute(prog, Jump(t, 1), ins)
            case Running(u) => Tallies(prog, dss, NextChain(gs, ins), u)
            case Finished(_) => false
            case Failed(x) => Sensible(x) || Over(prog, t, ins, x)
  {
    var n, i := |t.callers|, t.top.ip;
    assert FrameOf(prog[gs[n]], FrameAt(t, n));
    assert BalancedAt(prog[gs[n]].code, dss[gs[n]], i);
    HeldIsPositive(dss, gs, t.callers, n);
    CountIsExact(ins.nargs, |t.stack|);
    if Execute(prog, Jump(t, 1), ins).Running? {
      var u := Execute(prog, Jump(t, 1), ins).thread;
      CallCounts(prog, Jump(t, 1), ins, u);
      CalledChain(prog, gs, t, u, Lower(ins.callee));
      CalledStacked(prog, dss, gs, t, u, NextChain(gs, ins), n, ins);
    }
  }

  /** A call of as many arguments as the stack holds pushes that number, and not what is left of it in 64 bits. */
  lemma CountIsExact(nargs: nat, size: nat)
    requires nargs <= size <= VM_STACK_SIZE
    ensures ValueOf(PushCount(nargs)) == Int(nargs)
  {
  }

  lemma CalledChain(prog: Program, gs: seq<string>, t: Thread, u: Thread, g: string)
    requires Chain(prog, gs, t) && g in prog && u.callers == t.callers + [t.top.(ip := t.top.ip + 1)]
    requires t.top.ip + 1 < |t.top.code| && FrameOf(prog[g], u.top)
    ensures Chain(prog, gs + [g], u)
  {
    var hs := gs + [g];
    forall k | 0 <= k < |hs| ensures hs[k] in prog && FrameOf(prog[hs[k]], FrameAt(u, k)) {
      if k < |gs| {
        assert FrameOf(prog[gs[k]], FrameAt(t, k));
      }
    }
  }

  lemma CalledStacked(prog: Program, dss: Profiles, gs: seq<string>, t: Thread, u: Thread, hs: seq<string>, n: nat,
                      ins: Instruction)
    requires Profiled(prog, dss) && Tallies(prog, dss, gs, t) && Chain(prog, hs, u) && n == |t.callers|
    requires |hs| == n + 2 && gs <= hs && ins == t.top.code[t.top.ip] && ins.CALL? && u.top.ip == 0
    requires u.callers == t.callers + [t.top.(ip := t.top.ip + 1)] && |u.stack| == |t.stack| - Pops(ins)
    ensures Stacked(dss, hs, u)
  {
    var i := t.top.ip;
    assert FrameOf(prog[gs[n]], FrameAt(t, n)) && BalancedAt(prog[gs[n]].code, dss[gs[n]], i);
    HeldIsLocal(dss, gs, hs, t.callers, u.callers, n);
    assert hs[n] == gs[n] && u.callers[n].ip == i + 1;
    assert SpotAt(dss, hs[n + 1], u.top) == Plain(0);
    forall k | 0 <= k < |u.callers|
      ensures SpotAt(dss, hs[k], u.callers[k]).due == Anything && SpotAt(dss, hs[k], u.callers[k]).depth >= 1
    {
      if k < n {
        assert hs[k] == gs[k] && u.callers[k] == t.callers[k];
      }
    }
  }

  lemma ReturnTallies(prog: Program, dss: Profiles, gs: seq<string>, t: Thread, ins: Instruction)
    requires Profiled(prog, dss) && Tallies(prog, dss, gs, t) && ins == t.top.code[t.top.ip] && ins.RET?
    ensures match Execute(prog, Jump(t, 1), ins)
            case Running(u) => Tallies(prog, dss, NextChain(gs, ins), u)
            case Finished(_) => true
            case Failed(_) => false
  {
    var n, i := |t.callers|, t.top.ip;
    assert FrameOf(prog[gs[n]], FrameAt(t, n)) && BalancedAt(prog[gs[n]].code, dss[gs[n]], i);
    if n > 0 {
      var u, hs := Execute(prog, Jump(t, 1), ins).thread, NextChain(gs, ins);
      assert u.callers == t.callers[..n - 1] && u.top == t.callers[n - 1];
      forall k | 0 <= k < |hs| ensures hs[k] in prog && FrameOf(prog[hs[k]], FrameAt(u, k)) {
        assert FrameOf(prog[gs[k]], FrameAt(t, k));
      }
      ReturnedStacked(prog, dss, gs, t, u, hs, n);
    }
  }

  lemma ReturnedStacked(prog: Program, dss: Profiles, gs: seq<string>, t: Thread, u: Thread, hs: seq<string>, n: nat)
    requires Tallies(prog, dss, gs, t) && n == |t.callers| > 0 && SpotAt(dss, gs[n], t.top).depth == 1 && u.stack == t.stack
    requires u.callers == t.callers[..n - 1] && u.top == t.callers[n - 1] && hs == gs[..n]
    ensures Stacked(dss, hs, u)
  {
    HeldIsLocal(dss, gs, hs, t.callers, u.callers, n - 1);
    assert hs[n - 1] == gs[n - 1];
    forall k | 0 <= k < |u.callers|
      ensures SpotAt(dss, hs[k], u.callers[k]).due == Anything && SpotAt(dss, hs[k], u.callers[k]).depth >= 1
    {
      assert hs[k] == gs[k] && u.callers[k] == t.callers[k];
    }
  }

  // ---- whole runs ----

  lemma StepTallies(prog: Program, dss: Profiles, gs: seq<string>, t: Thread, ins: Instruction)
    requires Profiled(prog, dss) && Tallies(prog, dss, gs, t)
    requires 0 <= t.top.ip < |t.top.code| ==> ins == t.top.code[t.top.ip]
    ensures match Step(prog, t)
            case Running(u) => Tallies(prog, dss, NextChain(gs, ins), u)
            case Finished(_) => true
            case Failed(x) => Sensible(x) || Over(prog, t, ins, x)
  {
    var n, i := |t.callers|, t.top.ip;
    assert FrameOf(prog[gs[n]], FrameAt(t, n)) && BalancedAt(prog[gs[n]].code, dss[gs[n]], i);
    if ins.CALL? {
      CallTallies(prog, dss, gs, t, ins);
    } else if ins.RET? {
      ReturnTallies(prog, dss, gs, t, ins);
    } else {
      HeldIsPositive(dss, gs, t.callers, n);
      ExecuteStays(prog, Jump(t, 1), ins);
      if Step(prog, t).Running? {
        StaysTallies(prog, dss, gs, t, ins, Step(prog, t).thread);
      }
    }
  }

  /** What the running frame is about to execute, if anything. */
  function Next(t: Thread): Instruction {
    if 0 <= t.top.ip < |t.top.code| then t.top.code[t.top.ip] else UNDEF
  }

  /** Every step from a state that is well leads to one, ends, or fails as it may. */
  ghost predicate Preserved(prog: Program, well: Thread -> bool, may: Fault -> bool) {
    forall t :: well(t) ==> Remains(Step(prog, t), well, may)
  }

  predicate Remains(o: Outcome, well: Thread -> bool, may: Fault -> bool) {
    match o case Running(u) => well(u) case Finished(_) => true case Failed(x) => may(x)
  }

  lemma RunRemains(prog: Program, t: Thread, well: Thread -> bool, may: Fault -> bool, n: nat)
    requires Preserved(prog, well, may) && well(t)
    ensures Remains(Run(prog, t, n), well, may)
  {
    var run := (u: Thread, m: nat) => Run(prog, u, m);
    RunStarts(prog, run);
    forall u, m: nat | m > 0 && well(u) ensures GoesOn(run, u, m, well, may) {
      StepGoesOn(prog, run, u, m, well, may);
    }
    AllRemain(run, t, well, may, n);
  }

  lemma RunStarts(prog: Program, run: (Thread, nat) -> Outcome)
    requires forall u, m: nat :: run(u, m) == Run(prog, u, m)
    ensures forall u :: run(u, 0) == Running(u)
  {
    forall u ensures run(u, 0) == Running(u) {
      assert run(u, 0) == Run(prog, u, 0);
    }
  }

  lemma StepGoesOn(prog: Program, run: (Thread, nat) -> Outcome, t: Thread, n: nat, well: Thread -> bool, may: Fault -> bool)
    requires (forall u, m: nat :: run(u, m) == Run(prog, u, m)) && Preserved(prog, well, may) && well(t) && n > 0
    ensures GoesOn(run, t, n, well, may)
  {
    var o := Step(prog, t);
    assert Remains(o, well, may);
    RunsOn(prog, t, n, o);
    assert run(t, n) == Run(prog, t, n);
    if o.Running? {
      assert run(o.thread, n - 1) == Run(prog, o.thread, n - 1);
    }
  }

  /** A run of `n` steps is one step, which leads to a state that is well, ends or fails as it may, and then the others. */
  ghost predicate GoesOn(run: (Thread, nat) -> Outcome, t: Thread, n: nat, well: Thread -> bool, may: Fault -> bool)
    requires n > 0
  {
    exists o :: Remains(o, well, may) && run(t, n) == if o.Running? then run(o.thread, n - 1) else o
  }

  lemma {:induction false} AllRemain(run: (Thread, nat) -> Outcome, t: Thread, well: Thread -> bool, may: Fault -> bool, n: nat)
    requires forall u :: run(u, 0) == Running(u)
    requires forall u, m: nat :: m > 0 && well(u) ==> GoesOn(run, u, m, well, may)
    requires well(t)
    ensures Remains(run(t, n), well, may)
    decreases n
  {
    if n > 0 {
      assert GoesOn(run, t, n, well, may);
      var o :| Remains(o, well, may) && run(t, n) == if o.Running? then run(o.thread, n - 1) else o;
      if o.Running? {
        AllRemain(run, o.thread, well, may, n - 1);
      }
    }
  }

  ghost predicate Orderly(prog: Program, dss: Profiles, t: Thread) {
    exists gs :: Tallies(prog, dss, gs, t)
  }

  /**
   * Every state that a run reaches is in order, for whatever profiles the functions have; and a run fails only for
   * a fault of the script or a limit of the machine.
   */
  lemma RunTallies(prog: Program, dss: Profiles, gs: seq<string>, t: Thread, n: nat)
    requires Profiled(prog, dss) && Tallies(prog, dss, gs, t)
    ensures match Run(prog, t, n)
            case Running(u) => Orderly(prog, dss, u)
            case Finished(_) => true
            case Failed(x) => x.IsLimit() || Sensible(x)
  {
    var well, may := u => Orderly(prog, dss, u), (x: Fault) => x.IsLimit() || Sensible(x);
    forall u | well(u) ensures Remains(Step(prog, u), well, may) {
      var hs :| Tallies(prog, dss, hs, u);
      StepTallies(prog, dss, hs, u, Next(u));
    }
    RunRemains(prog, t, well, may, n);
  }

  // ---- runs that meet no limit ----

  /** How deep the calls of a function may nest, and how many operands they may hold in all. */
  datatype Budget = Budget(calls: nat, room: nat)

  type Budgets = map<string, Budget>

  /** The operands at `i`, and what is called there, are within the budget of `g`. */
  predicate Affords(prog: Program, dss: Profiles, bs: Budgets, g: string, i: nat)
    requires g in prog && g in dss && g in bs && i < |prog[g].code| && i < |dss[g]|
  {
    && dss[g][i].depth <= bs[g].room
    && match prog[g].code[i]
       case CALL(callee, nargs, _) =>
         && bs[g].calls >= 1
         && (Lower(callee) in bs ==>
               bs[Lower(callee)].calls < bs[g].calls && dss[g][i].depth - (nargs + 2) + bs[Lower(callee)].room <= bs[g].room)
       case _ => true
  }

  /** Budgets that every function keeps to, calls included. None exist for a recursive function. */
  ghost predicate Affordable(prog: Program, dss: Profiles, bs: Budgets) {
    && bs.Keys == prog.Keys == dss.Keys
    && forall g :: g in prog ==>
         |prog[g].locals| <= VM_MAX_LOCALS && |dss[g]| == |prog[g].code|
         && forall i :: 0 <= i < |prog[g].code| ==> Affords(prog, dss, bs, g, i)
  }

  /** What the frame at `k` may still use, on top of what lies below it, is in the budget of the whole run. */
  predicate Thrifty(dss: Profiles, bs: Budgets, gs: seq<string>, t: Thread, total: Budget) {
    |gs| == |t.callers| + 1 && forall k :: 0 <= k < |gs| ==> Share(bs, gs[k], k, Held(dss, gs, t.callers, k), total)
  }

  predicate Share(bs: Budgets, g: string, k: nat, held: int, total: Budget) {
    g in bs && k + bs[g].calls <= total.calls && held + bs[g].room <= total.room
  }

  /** Enough for the machine. */
  predicate Fits(total: Budget) {
    total.calls < VM_FRAME_SIZE && total.room <= VM_STACK_SIZE
  }

  lemma NotOver(prog: Program, dss: Profiles, bs: Budgets, gs: seq<string>, t: Thread, total: Budget, x: Fault)
    requires Profiled(prog, dss) && Tallies(prog, dss, gs, t) && Affordable(prog, dss, bs)
    requires Thrifty(dss, bs, gs, t, total) && Fits(total)
    ensures !Over(prog, t, Next(t), x)
  {
    var n, i := |t.callers|, t.top.ip;
    assert FrameOf(prog[gs[n]], FrameAt(t, n)) && BalancedAt(prog[gs[n]].code, dss[gs[n]], i);
    assert Affords(prog, dss, bs, gs[n], i) && Share(bs, gs[n], n, Held(dss, gs, t.callers, n), total);
    if FallsThrough(Next(t)) {
      assert Affords(prog, dss, bs, gs[n], i + 1);
    }
  }

  lemma CalledThrifty(dss: Profiles, bs: Budgets, gs: seq<string>, t: Thread, total: Budget, u: Thread, hs: seq<string>, n: nat)
    requires Thrifty(dss, bs, gs, t, total) && n == |t.callers| && |u.callers| == n + 1 && |hs| == n + 2
    requires forall i :: 0 <= i <= n ==> gs[i] == hs[i]
    requires forall i :: 0 <= i < n ==> t.callers[i] == u.callers[i]
    requires hs[n + 1] in bs && bs[hs[n + 1]].calls < bs[gs[n]].calls
    requires SpotAt(dss, gs[n], u.callers[n]).depth - 1 + bs[hs[n + 1]].room <= bs[gs[n]].room
    ensures Thrifty(dss, bs, hs, u, total)
  {
    forall k | 0 <= k < |hs| ensures Share(bs, hs[k], k, Held(dss, hs, u.callers, k), total) {
      if k == n + 1 {
        CalleeShare(dss, bs, gs, t, total, u, hs, n);
      } else {
        SameShare(dss, bs, gs, t, total, u, hs, k);
      }
    }
  }

  lemma SameShare(dss: Profiles, bs: Budgets, gs: seq<string>, t: Thread, total: Budget, u: Thread, hs: seq<string>, k: nat)
    requires Thrifty(dss, bs, gs, t, total) && k < |gs| && k < |hs| && k <= |u.callers| && gs[k] == hs[k]
    requires forall i :: 0 <= i < k ==> gs[i] == hs[i] && t.callers[i] == u.callers[i]
    ensures Share(bs, hs[k], k, Held(dss, hs, u.callers, k), total)
  {
    assert Share(bs, gs[k], k, Held(dss, gs, t.callers, k), total);
    HeldIsLocal(dss, gs, hs, t.callers, u.callers, k);
  }

  lemma CalleeShare(dss: Profiles, bs: Budgets, gs: seq<string>, t: Thread, total: Budget, u: Thread, hs: seq<string>, n: nat)
    requires Thrifty(dss, bs, gs, t, total) && n == |t.callers| && |u.callers| == n + 1 && |hs| == n + 2
    requires forall i :: 0 <= i <= n ==> gs[i] == hs[i]
    requires forall i :: 0 <= i < n ==> t.callers[i] == u.callers[i]
    requires hs[n + 1] in bs && bs[hs[n + 1]].calls < bs[gs[n]].calls
    requires SpotAt(dss, gs[n], u.callers[n]).depth - 1 + bs[hs[n + 1]].room <= bs[gs[n]].room
    ensures Share(bs, hs[n + 1], n + 1, Held(dss, hs, u.callers, n + 1), total)
  {
    SameShare(dss, bs, gs, t, total, u, hs, n);
  }

  lemma ReturnedThrifty(dss: Profiles, bs: Budgets, gs: seq<string>, t: Thread, total: Budget, u: Thread)
    requires Thrifty(dss, bs, gs, t, total) && t.callers != [] && u.callers == t.callers[..|t.callers| - 1]
    ensures Thrifty(dss, bs, gs[..|gs| - 1], u, total)
  {
    var hs := gs[..|gs| - 1];
    forall k | 0 <= k < |hs| ensures Share(bs, hs[k], k, Held(dss, hs, u.callers, k), total) {
      SameShare(dss, bs, gs, t, total, u, hs, k);
    }
  }

  lemma StaysThrifty(prog: Program, dss: Profiles, bs: Budgets, gs: seq<string>, t: Thread, total: Budget, u: Thread)
    requires Profiled(prog, dss) && Tallies(prog, dss, gs, t) && Affordable(prog, dss, bs) && Thrifty(dss, bs, gs, t, total)
    requires Step(prog, t) == Running(u)
    ensures Thrifty(dss, bs, NextChain(gs, Next(t)), u, total)
  {
    var n, i, ins := |t.callers|, t.top.ip, Next(t);
    assert FrameOf(prog[gs[n]], FrameAt(t, n)) && BalancedAt(prog[gs[n]].code, dss[gs[n]], i);
    if ins.CALL? {
      assert Share(bs, gs[n], n, Held(dss, gs, t.callers, n), total) && Affords(prog, dss, bs, gs[n], i);
      CalledThrifty(dss, bs, gs, t, total, u, gs + [Lower(ins.callee)], n);
    } else if ins.RET? {
      ReturnedThrifty(dss, bs, gs, t, total, u);
    } else {
      HeldIsPositive(dss, gs, t.callers, n);
      ExecuteStays(prog, Jump(t, 1), ins);
      assert u.callers == t.callers;
    }
  }

  ghost predicate Solvent(prog: Program, dss: Profiles, bs: Budgets, total: Budget, t: Thread) {
    exists gs :: Tallies(prog, dss, gs, t) && Thrifty(dss, bs, gs, t, total)
  }

  /** A run within its budget fails only for a fault of the script. */
  lemma RunInBudget(prog: Program, dss: Profiles, bs: Budgets, gs: seq<string>, t: Thread, total: Budget, n: nat)
    requires Profiled(prog, dss) && Tallies(prog, dss, gs, t) && Affordable(prog, dss, bs)
    requires Thrifty(dss, bs, gs, t, total) && Fits(total)
    ensures Run(prog, t, n).Failed? ==> Sensible(Run(prog, t, n).fault)
  {
    var well, may := u => Solvent(prog, dss, bs, total, u), (x: Fault) => Sensible(x);
    forall u | well(u) ensures Remains(Step(prog, u), well, may) {
      StepSolvent(prog, dss, bs, total, u);
    }
    RunRemains(prog, t, well, may, n);
  }

  lemma StepSolvent(prog: Program, dss: Profiles, bs: Budgets, total: Budget, t: Thread)
    requires Profiled(prog, dss) && Affordable(prog, dss, bs) && Fits(total) && Solvent(prog, dss, bs, total, t)
    ensures match Step(prog, t)
            case Running(u) => Solvent(prog, dss, bs, total, u)
            case Finished(_) => true
            case Failed(x) => Sensible(x)
  {
    var gs :| Tallies(prog, dss, gs, t) && Thrifty(dss, bs, gs, t, total);
    StepTallies(prog, dss, gs, t, Next(t));
    match Step(prog, t) {
      case Running(u) => StaysThrifty(prog, dss, bs, gs, t, total, u);
      case Finished(_) =>
      case Failed(x) => NotOver(prog, dss, bs, gs, t, total, x);
    }
  }
}
