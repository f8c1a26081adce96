/** The arguments of a threaded call, which are reversed twice on their way into the locals (vm.c). */
module Threading {
  import opened Wrappers
  import opened Values
  import opened Syntax
  import opened Bytecode
  import M = Machine

  /**
   * The locals of a new thread whose stack holds self and the arguments; none if one of them would be written
   * behind the last local. The values are taken from the last one on, and only as many of them as there are
   * parameters, counting self.
   */
  function ThreadLocals(f: Function, thread: seq<Value>): Option<seq<Value>>
    requires thread != []
  {
    var nargs := |thread| - 1;
    if nargs >= |f.locals| then None
    else
      Some(seq(|f.locals|, i requires 0 <= i < |f.locals| =>
        if nargs - f.parameterCount <= i <= nargs then thread[i] else Undefined))
  }

  /** Self, for 0, or an argument, on the stack of the caller. */
  function Passed(stack: seq<Value>, i: nat): Value
    requires i + 2 <= |stack|
  {
    stack[|stack| - 2 - i]
  }

  /** The locals that a threaded call gives to the callee. */
  function ThreadedLocals(f: Function, stack: seq<Value>, nargs: nat): Option<seq<Value>>
    requires nargs + 2 <= |stack|
  {
    ThreadLocals(f, seq(nargs + 1, i requires 0 <= i <= nargs => Passed(stack, i)))
  }

  /** The loop of `call_function` over the stack of a new thread. */
  method BindThread(f: Function, start: seq<Value>) returns (locals: Option<seq<Value>>)
    requires start != [] && f.parameterCount < |f.locals|
    ensures locals == ThreadLocals(f, start)
  {
    var nargs, thread := |start| - 1, start;
    var slots := seq(|f.locals|, i requires 0 <= i < |f.locals| => Undefined);
    for i := 0 to nargs + 1
      invariant |slots| == |f.locals| && thread == start[..nargs + 1 - i] && (i > 0 ==> nargs < |f.locals|)
      invariant forall j :: 0 <= j < |slots| ==>
        slots[j] == if nargs - i < j <= nargs && nargs - f.parameterCount <= j then start[j] else Undefined
    {
      var arg := thread[|thread| - 1];
      thread := thread[..|thread| - 1];
      if i < f.parameterCount + 1 {
        if nargs - i >= |slots| {
          return None;
        }
        slots := slots[nargs - i := arg];
      }
    }
    assert slots == ThreadLocals(f, start).value;
    locals := Some(slots);
  }

  /** The threaded case of OP_CALL with `call_function`; `caller` is what is left on the caller's stack. */
  method BindThreaded(f: Function, stack: seq<Value>, nargs: nat) returns (caller: seq<Value>, locals: Option<seq<Value>>)
    requires nargs + 2 <= |stack| && f.parameterCount < |f.locals|
    ensures caller == stack[..|stack| - nargs - 2] + [Undefined]
    ensures locals == ThreadedLocals(f, stack, nargs)
  {
    var n := |stack|;
    caller := stack[..n - 1];
    var thread := [];
    for k := 0 to nargs + 1
      invariant caller == stack[..n - 1 - k] && |thread| == k
      invariant forall i :: 0 <= i < k ==> thread[i] == Passed(stack, i)
    {
      thread := thread + [caller[|caller| - 1]];
      caller := caller[..|caller| - 1];
    }
    caller := caller + [Undefined];
    assert thread == seq(nargs + 1, i requires 0 <= i <= nargs => Passed(stack, i));
    locals := BindThread(f, thread);
  }

  /** What only one of the two ways of calling binds is undefined anyway. */
  predicate OthersUndefined(f: Function, stack: seq<Value>, nargs: nat)
    requires nargs + 2 <= |stack|
  {
    forall i :: 0 <= i <= nargs ==>
      Passed(stack, i) == Undefined || (i <= f.parameterCount <==> nargs - f.parameterCount <= i)
  }

  /**
   * A threaded call gives the callee the locals of a plain call exactly when there are no more arguments than
   * parameters - or when there are, but still fewer than locals, and the values that are bound differently are
   * undefined. Self is one of these.
   */
  lemma ThreadedAgreesIff(f: Function, stack: seq<Value>, nargs: nat)
    requires nargs + 2 <= |stack| && f.parameterCount < |f.locals|
    ensures ThreadedLocals(f, stack, nargs) == Some(M.CalleeLocals(f, stack, nargs)) <==>
            nargs <= f.parameterCount || (nargs < |f.locals| && OthersUndefined(f, stack, nargs))
    ensures nargs > f.parameterCount && OthersUndefined(f, stack, nargs) ==> Passed(stack, 0) == Undefined
  {
    if nargs < |f.locals| {
      var threaded, plain := ThreadedLocals(f, stack, nargs).value, M.CalleeLocals(f, stack, nargs);
      forall i | 0 <= i < |f.locals|
        ensures threaded[i] == plain[i] <==>
                i > nargs || Passed(stack, i) == Undefined || (i <= f.parameterCount <==> nargs - f.parameterCount <= i)
      {
        assert i <= nargs ==> Passed(stack, i) == stack[|stack| - 2 - i];
      }
      if threaded == plain {
        forall i | 0 <= i <= nargs
          ensures Passed(stack, i) == Undefined || (i <= f.parameterCount <==> nargs - f.parameterCount <= i)
        {
          assert threaded[i] == plain[i];
        }
      }
    }
  }
}
