/**
 * How a thread starts: by a threaded call, or by a call of the host. Both bind the arguments from the last one on, and
 * do not look whether there are too many.
 */
module Starting {
  import opened Wrappers
  import opened Values
  import opened Syntax
  import opened Bytecode
  import opened Emitter
  import opened Machine
  import opened Semantics
  import opened Locals
  import opened Threading

  /** A thread that is about to run a function with these locals. */
  function Fresh(f: Function, locals: seq<Value>): Thread {
    Thread([], [], Frame(f.code, locals, 0), false)
  }

  /** What `call_function` makes of a new thread. Where it writes behind the locals, there is an error. */
  function Start(f: Function, self: Value, args: seq<Value>): Machine.Outcome {
    if |args| + 2 > VM_STACK_SIZE then Failed(StackOverflow)
    else if |f.locals| > VM_MAX_LOCALS then Failed(LocalsOverflow)
    else
      match ThreadLocals(f, [self] + args)
      case None => Failed(BadLocal)
      case Some(locals) => Running(Fresh(f, locals))
  }

  /** The same thread with its arguments bound as a plain call binds them. */
  function Spawned(r: Routine, f: Function, self: Value, args: seq<Value>): Thread {
    Fresh(f, Represent(f.locals, Entry(self, r.parameters, args)))
  }

  // ---- the two ways to start ----

  /** What a caller has pushed: the last argument first, then self, then the count. */
  function Pushed(self: Value, args: seq<Value>): (s: seq<Value>)
    ensures |s| == |args| + 2
  {
    Reversed(args) + [self] + [ValueOf(PushCount(|args|))]
  }

  /** A threaded call of so many locals that they fit starts the thread. */
  lemma ThreadedCallStarts(f: Function, below: seq<Value>, self: Value, args: seq<Value>)
    ensures ThreadedLocals(f, below + Pushed(self, args), |args|) == ThreadLocals(f, [self] + args)
  {
    var stack := below + Pushed(self, args);
    assert seq(|args| + 1, i requires 0 <= i <= |args| => Passed(stack, i)) == [self] + args by {
      forall i | 0 <= i <= |args| ensures Passed(stack, i) == ([self] + args)[i] {
        if i > 0 {
          assert stack[|stack| - 2 - i] == Reversed(args)[|args| - i];
        }
      }
    }
  }

  /** The arguments that `vm_call_function_thread` has room for. */
  const HOST_ARGUMENTS := 64

  /** `vm_call_function_thread`; the host has pushed the arguments in order. Nothing is started with more than 64. */
  method StartByHost(f: Function, temp: seq<Value>, nargs: nat, self: Value) returns (rest: seq<Value>, o: Option<Machine.Outcome>)
    requires nargs <= |temp| && f.parameterCount < |f.locals|
    ensures nargs > 64 ==> o == None
    ensures nargs <= 64 ==>
              rest == temp[..|temp| - nargs] && o == Some(Start(f, self, temp[|temp| - nargs..]))
  {
    rest := temp;
    if nargs > HOST_ARGUMENTS {
      return rest, None;
    }
    var buffer := new Value[HOST_ARGUMENTS](_ => Undefined);
    for k := 0 to nargs
      invariant rest == temp[..|temp| - k]
      invariant forall i :: 0 <= i < k ==> buffer[i] == temp[|temp| - 1 - i]
    {
      buffer[k] := rest[|rest| - 1];
      rest := rest[..|rest| - 1];
    }
    var thread, k := [self], nargs;
    while k > 0
      invariant 0 <= k <= nargs && thread == [self] + temp[|temp| - nargs..|temp| - k]
      invariant forall i :: 0 <= i < nargs ==> buffer[i] == temp[|temp| - 1 - i]
    {
      k := k - 1;
      thread := thread + [buffer[k]];
    }
    assert thread == [self] + temp[|temp| - nargs..];
    if |f.locals| > VM_MAX_LOCALS {
      return rest, Some(Failed(LocalsOverflow));
    }
    var locals := BindThread(f, thread);
    o := Some(match locals case None => Failed(BadLocal) case Some(values) => Running(Fresh(f, values)));
  }

  // ---- when the arguments are bound as they are meant to be ----

  /** There is room for what is pushed and for the locals. */
  predicate HasRoom(f: Function, args: seq<Value>) {
    |args| + 2 <= VM_STACK_SIZE && |f.locals| <= VM_MAX_LOCALS
  }

  /** There are no more arguments than parameters; or there are, and what is bound wrongly is undefined anyway. */
  predicate BoundAsMeant(f: Function, self: Value, args: seq<Value>) {
    || |args| <= f.parameterCount
    || (|args| < |f.locals|
        && forall i :: 0 <= i <= |args| ==>
          ([self] + args)[i] == Undefined || (i <= f.parameterCount <==> |args| - f.parameterCount <= i))
  }

  /** A thread starts with the arguments as they are meant exactly under these two conditions. */
  lemma StartIsSpawnedIff(r: Routine, f: Function, self: Value, args: seq<Value>)
    requires FrameNames(f.locals, r.parameters) && f.parameterCount == |r.parameters|
    ensures Start(f, self, args) == Running(Spawned(r, f, self, args)) <==> HasRoom(f, args) && BoundAsMeant(f, self, args)
  {
    if |args| < |f.locals| {
      var given := [self] + args;
      var threaded, plain := ThreadLocals(f, given).value, Represent(f.locals, Entry(self, r.parameters, args));
      forall i | 0 <= i < |f.locals|
        ensures threaded[i] == plain[i] <==>
                i > |args| || given[i] == Undefined || (i <= f.parameterCount <==> |args| - f.parameterCount <= i)
      {
        EntryInSlot(f.locals, r.parameters, args, self, i);
      }
      if threaded == plain {
        forall i | 0 <= i <= |args|
          ensures given[i] == Undefined || (i <= f.parameterCount <==> |args| - f.parameterCount <= i)
        {
          assert threaded[i] == plain[i];
        }
      } else {
        assert exists i :: 0 <= i < |f.locals| && threaded[i] != plain[i];
      }
    }
  }

  /** No thread is started exactly when it does not fit, or an argument is written behind the locals. */
  lemma StartFailsIff(f: Function, self: Value, args: seq<Value>)
    ensures Start(f, self, args).Failed? <==> !HasRoom(f, args) || |args| >= |f.locals|
    ensures Start(f, self, args).Running? ==>
              var t := Start(f, self, args).thread;
              t == Fresh(f, t.top.locals) && |t.top.locals| == |f.locals| <= VM_MAX_LOCALS
  {
  }
}
