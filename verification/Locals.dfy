/** The locals of a frame hold the store of the running function. */
module Locals {
  import opened Wrappers
  import opened Values
  import opened Syntax
  import opened Bytecode
  import opened Emitter
  import opened Machine
  import opened Semantics

  predicate Distinct(names: seq<string>) {
    forall i, j :: 0 <= i < j < |names| ==> names[i] != names[j]
  }

  /** Self in slot 0, the parameters in order in the slots after it, each name once. */
  predicate FrameNames(names: seq<string>, parameters: seq<string>) {
    && Distinct(names) && |names| >= |parameters| + 1 && names[0] == "self"
    && forall i :: 0 <= i < |parameters| ==> names[i + 1] == Lower(parameters[i])
  }

  function Represent(names: seq<string>, store: Store): (r: seq<Value>)
    ensures |r| == |names|
  {
    seq(|names|, i requires 0 <= i < |names| => Lookup(store, names[i]))
  }

  lemma RepresentUpdate(names: seq<string>, store: Store, x: string, v: Value)
    requires Distinct(names) && x in names
    ensures Represent(names, store)[IndexOf(names, x) := v] == Represent(names, store[x := v])
  {
  }

  /** What a callee's parameters are bound to. */
  lemma {:induction false} EntryLookup(self: Value, parameters: seq<string>, args: seq<Value>, x: string)
    requires forall i, j :: 0 <= i < j < |parameters| ==> Lower(parameters[i]) != Lower(parameters[j])
    requires forall i :: 0 <= i < |parameters| ==> Lower(parameters[i]) != "self"
    ensures x == "self" ==> Lookup(Entry(self, parameters, args), x) == self
    ensures forall i :: 0 <= i < |parameters| && x == Lower(parameters[i]) ==>
      Lookup(Entry(self, parameters, args), x) == if i < |args| then args[i] else Undefined
    ensures x != "self" && (forall i :: 0 <= i < |parameters| ==> x != Lower(parameters[i])) ==>
      Lookup(Entry(self, parameters, args), x) == Undefined
  {
    if parameters != [] {
      EntryLookup(self, parameters[..|parameters| - 1], args, x);
    }
  }

  function Reversed(vs: seq<Value>): (r: seq<Value>)
    ensures |r| == |vs|
  {
    seq(|vs|, i requires 0 <= i < |vs| => vs[|vs| - 1 - i])
  }

  lemma ReversedMore(v: Value, vs: seq<Value>)
    ensures Reversed([v] + vs) == Reversed(vs) + [v]
  {
  }

  /** What a callee finds in slot `k`. */
  function Bound(self: Value, args: seq<Value>, parameterCount: nat, k: nat): Value {
    if k == 0 then self
    else if k <= |args| && k <= parameterCount then args[k - 1]
    else Undefined
  }

  lemma EntryInSlot(names: seq<string>, parameters: seq<string>, args: seq<Value>, self: Value, k: nat)
    requires FrameNames(names, parameters) && k < |names|
    ensures Lookup(Entry(self, parameters, args), names[k]) == Bound(self, args, |parameters|, k)
  {
    forall i, j | 0 <= i < j < |parameters| ensures Lower(parameters[i]) != Lower(parameters[j]) {
      assert names[i + 1] != names[j + 1];
    }
    forall i | 0 <= i < |parameters| ensures Lower(parameters[i]) != "self" {
      assert names[0] != names[i + 1];
    }
    EntryLookup(self, parameters, args, names[k]);
    if k != 0 {
      assert names[0] != names[k];
    }
    if k > |parameters| {
      forall i | 0 <= i < |parameters| ensures names[k] != Lower(parameters[i]) {
        assert names[i + 1] != names[k];
      }
    } else if k > 0 {
      assert names[k] == Lower(parameters[k - 1]);
    }
  }

  lemma StackInSlot(f: Function, below: seq<Value>, args: seq<Value>, self: Value, count: Value, k: nat)
    requires k < |f.locals|
    ensures CalleeLocals(f, below + Reversed(args) + [self] + [count], |args|)[k] ==
            Bound(self, args, f.parameterCount, k)
  {
    var stack := below + Reversed(args) + [self] + [count];
    if 0 < k <= |args| {
      assert stack[|stack| - 2 - k] == Reversed(args)[|args| - k];
    }
  }

  /** The machine's binding of arguments is the one of the semantics. */
  lemma CalleeIsEntry(f: Function, parameters: seq<string>, below: seq<Value>, args: seq<Value>, self: Value, count: Value)
    requires FrameNames(f.locals, parameters) && f.parameterCount == |parameters|
    ensures CalleeLocals(f, below + Reversed(args) + [self] + [count], |args|) ==
            Represent(f.locals, Entry(self, parameters, args))
  {
    var stack := below + Reversed(args) + [self] + [count];
    forall k | 0 <= k < |f.locals|
      ensures CalleeLocals(f, stack, |args|)[k] == Represent(f.locals, Entry(self, parameters, args))[k]
    {
      EntryInSlot(f.locals, parameters, args, self, k);
      StackInSlot(f, below, args, self, count, k);
    }
  }
}
