/**
 * Names are the same when they differ in the case of ASCII letters only. Case is spelled out here by character codes;
 * what follows for variables, parameters, calls and tries is said in these terms.
 */
module Folding {
  import opened Wrappers
  import opened Values
  import opened Syntax
  import opened Bytecode
  import opened Emitter
  import opened Semantics
  import opened Locals
  import Arithmetic
  import Machine
  import HashTries

  // ---- letters and names ----

  predicate IsUpperOf(c: char, d: char) {
    65 <= c as int <= 90 && d as int == c as int + 32
  }

  predicate SameLetter(c: char, d: char) {
    c == d || IsUpperOf(c, d) || IsUpperOf(d, c)
  }

  /** Equal up to the case of ASCII letters. */
  predicate SameName(a: string, b: string) {
    |a| == |b| && forall i :: 0 <= i < |a| ==> SameLetter(a[i], b[i])
  }

  lemma LetterFolds(c: char, d: char)
    ensures LowerChar(c) == LowerChar(d) <==> SameLetter(c, d)
    ensures SameLetter(c, LowerChar(c)) && !(65 <= LowerChar(c) as int <= 90)
  {
  }

  /** The folded forms of two names are equal if and only if the names are the same up to case. */
  lemma LowerIff(a: string, b: string)
    ensures Lower(a) == Lower(b) <==> SameName(a, b)
  {
    if Lower(a) == Lower(b) {
      assert |a| == |Lower(a)| == |b|;
      forall i | 0 <= i < |a| ensures SameLetter(a[i], b[i]) {
        assert Lower(a)[i] == Lower(b)[i];
        LetterFolds(a[i], b[i]);
      }
    } else if SameName(a, b) {
      forall i | 0 <= i < |a| ensures Lower(a)[i] == Lower(b)[i] {
        LetterFolds(a[i], b[i]);
      }
    }
  }

  /** The folded form is the same name, without upper-case letters. */
  lemma LowerIsSameName(a: string)
    ensures SameName(a, Lower(a)) && forall i :: 0 <= i < |a| ==> !(65 <= Lower(a)[i] as int <= 90)
  {
    forall i | 0 <= i < |a| ensures SameLetter(a[i], Lower(a)[i]) && !(65 <= Lower(a)[i] as int <= 90) {
      LetterFolds(a[i], a[i]);
    }
  }

  // ---- variables ----

  /** Two names that a function uses have one slot if and only if they are the same up to case. */
  lemma OneSlotIff(names: seq<string>, a: string, b: string)
    ensures var all := Define(Define(names, a), b);
            && Slot(all, a) < |all| && Slot(all, b) < |all|
            && (Slot(all, a) == Slot(all, b) <==> SameName(a, b))
            && (SameName(a, b) ==> all == Define(names, a))
  {
    LowerIff(a, b);
    var some := Define(names, a);
    DefinedIsThere(names, a);
    DefinedIsThere(some, b);
    assert Lower(a) in Define(some, b);
  }

  lemma DefinedIsThere(names: seq<string>, x: string)
    ensures Lower(x) in Define(names, x) && names <= Define(names, x)
  {
    var all := Define(names, x);
    if Lower(x) !in names {
      assert all[|names|] == Lower(x);
    }
  }

  /** An assignment to one name is what is read under another if and only if they are the same up to case. */
  lemma AssignmentReaches(src: Source, a: string, r: Expr, b: string, store: Store, fuel: nat, v: Value, s: Store)
    requires Eval(src, r, store, fuel) == Success((v, s))
    ensures var done := Eval(src, Assign(Id(a), r), store, fuel);
            && done.Success? && done.value.0 == v
            && Eval(src, Id(b), done.value.1, fuel) ==
               if SameName(a, b) then Success((v, done.value.1))
               else Success((Eval(src, Id(b), s, fuel).value.0, done.value.1))
  {
    LowerIff(a, b);
  }

  // ---- parameters ----

  /** Some parameter is the same name as one that is there, or as an earlier parameter. */
  predicate Repeats(parameters: seq<string>, names: seq<string>) {
    || (exists i, j :: 0 <= i < |parameters| && 0 <= j < |names| && SameName(parameters[i], names[j]))
    || (exists i, j :: 0 <= i < j < |parameters| && SameName(parameters[i], parameters[j]))
  }

  lemma InIff(names: seq<string>, x: string)
    requires forall j :: 0 <= j < |names| ==> Lower(names[j]) == names[j]
    ensures Lower(x) in names <==> exists j :: 0 <= j < |names| && SameName(x, names[j])
  {
    forall j | 0 <= j < |names| ensures SameName(x, names[j]) <==> Lower(x) == names[j] {
      LowerIff(x, names[j]);
    }
  }

  lemma LowerTwice(x: string)
    ensures Lower(Lower(x)) == Lower(x)
  {
    LowerIsSameName(x);
    LowerIff(x, Lower(x));
  }

  lemma SameNameFolded(a: string, b: string)
    ensures SameName(a, Lower(b)) <==> SameName(a, b)
    ensures SameName(a, b) <==> SameName(b, a)
  {
    LowerTwice(b);
    LowerIff(a, b);
    LowerIff(a, Lower(b));
  }

  /** One parameter, and then the others. */
  lemma RepeatsLater(parameters: seq<string>, names: seq<string>, x: string, more: seq<string>)
    requires parameters != [] && x == parameters[0] && more == names + [Lower(x)]
    requires forall j :: 0 <= j < |names| ==> !SameName(x, names[j])
    ensures Repeats(parameters, names) <==> Repeats(parameters[1..], more)
  {
    var rest := parameters[1..];
    forall i | 0 <= i < |rest| ensures SameName(rest[i], more[|names|]) <==> SameName(parameters[0], parameters[i + 1]) {
      SameNameFolded(rest[i], x);
      SameNameFolded(parameters[0], parameters[i + 1]);
    }
    if Repeats(parameters, names) {
      RepeatsThen(parameters, names, x, more);
    }
    if Repeats(rest, more) {
      RepeatsBefore(parameters, names, x, more);
    }
  }

  lemma RepeatsThen(parameters: seq<string>, names: seq<string>, x: string, more: seq<string>)
    requires parameters != [] && x == parameters[0] && more == names + [Lower(x)] && Repeats(parameters, names)
    requires forall j :: 0 <= j < |names| ==> !SameName(x, names[j])
    requires forall i :: 0 <= i < |parameters[1..]| ==>
               (SameName(parameters[1..][i], more[|names|]) <==> SameName(parameters[0], parameters[i + 1]))
    ensures Repeats(parameters[1..], more)
  {
    var rest := parameters[1..];
    if i, j :| 0 <= i < |parameters| && 0 <= j < |names| && SameName(parameters[i], names[j]) {
      assert rest[i - 1] == parameters[i] && more[j] == names[j];
    } else {
      var i, j :| 0 <= i < j < |parameters| && SameName(parameters[i], parameters[j]);
      if i == 0 {
        assert SameName(rest[j - 1], more[|names|]);
      } else {
        assert rest[i - 1] == parameters[i] && rest[j - 1] == parameters[j];
      }
    }
  }

  lemma RepeatsBefore(parameters: seq<string>, names: seq<string>, x: string, more: seq<string>)
    requires parameters != [] && x == parameters[0] && more == names + [Lower(x)] && Repeats(parameters[1..], more)
    requires forall i :: 0 <= i < |parameters[1..]| ==>
               (SameName(parameters[1..][i], more[|names|]) <==> SameName(parameters[0], parameters[i + 1]))
    ensures Repeats(parameters, names)
  {
    var rest := parameters[1..];
    if i, j :| 0 <= i < |rest| && 0 <= j < |more| && SameName(rest[i], more[j]) {
      if j < |names| {
        assert parameters[i + 1] == rest[i] && names[j] == more[j];
      } else {
        assert SameName(parameters[0], parameters[i + 1]);
      }
    } else {
      var i, j :| 0 <= i < j < |rest| && SameName(rest[i], rest[j]);
      assert parameters[i + 1] == rest[i] && parameters[j + 1] == rest[j];
    }
  }

  lemma {:induction false} DefineParametersIff(parameters: seq<string>, names: seq<string>)
    requires forall j :: 0 <= j < |names| ==> Lower(names[j]) == names[j]
    ensures DefineParameters(parameters, names).Failure? <==> Repeats(parameters, names)
    ensures DefineParameters(parameters, names).Failure? ==> DefineParameters(parameters, names) == Failure(ParameterRedefined)
    decreases |parameters|
  {
    if parameters != [] {
      var x := parameters[0];
      InIff(names, x);
      if Lower(x) !in names {
        var more := names + [Lower(x)];
        LowerTwice(x);
        RepeatsLater(parameters, names, x, more);
        DefineParametersIff(parameters[1..], more);
      }
    }
  }

  /**
   * A function is refused for its parameters if and only if two of them, or one and `self`, are the same name up to
   * case. No other function is refused for this reason.
   */
  lemma RepeatedParameterIff(parameters: seq<string>, body: Stmt)
    ensures Repeats(parameters, ["self"]) ==> CompileFunction(parameters, body) == Failure(ParameterRedefined)
    ensures !Repeats(parameters, ["self"]) ==> DefineParameters(parameters, ["self"]).Success?
  {
    assert Lower("self") == "self";
    DefineParametersIff(parameters, ["self"]);
  }

  /** A callee starts with nothing but self under a folded name that no parameter has. */
  lemma {:induction false} EntryWithout(self: Value, parameters: seq<string>, args: seq<Value>, y: string)
    requires forall i :: 0 <= i < |parameters| ==> Lower(parameters[i]) != y
    ensures Lookup(Entry(self, parameters, args), y) == if y == "self" then self else Undefined
    decreases |parameters|
  {
    if parameters != [] {
      EntryWithout(self, parameters[..|parameters| - 1], args, y);
    }
  }

  /** Under that of a parameter, the last one of this name, it starts with the argument. */
  lemma {:induction false} EntryWith(self: Value, parameters: seq<string>, args: seq<Value>, i: nat)
    requires i < |parameters| && forall j :: i < j < |parameters| ==> Lower(parameters[j]) != Lower(parameters[i])
    ensures Lookup(Entry(self, parameters, args), Lower(parameters[i])) == if i < |args| then args[i] else Undefined
    decreases |parameters|
  {
    var n := |parameters| - 1;
    if i < n {
      assert parameters[..n][i] == parameters[i];
      EntryWith(self, parameters[..n], args, i);
    }
  }

  /** What a callee finds under the name of a parameter is its argument, or undefined if there is none. */
  lemma ParameterBinds(src: Source, self: Value, parameters: seq<string>, args: seq<Value>, x: string, i: nat, fuel: nat)
    requires !Repeats(parameters, ["self"]) && i < |parameters| && SameName(x, parameters[i])
    ensures var start := Entry(self, parameters, args);
            Eval(src, Id(x), start, fuel) == Success((if i < |args| then args[i] else Undefined, start))
  {
    forall j | i < j < |parameters| ensures Lower(parameters[j]) != Lower(parameters[i]) {
      LowerIff(parameters[i], parameters[j]);
    }
    LowerIff(x, parameters[i]);
    EntryWith(self, parameters, args, i);
  }

  /** In self it finds what it was called on, and under any other name undefined. */
  lemma OthersUnbound(src: Source, self: Value, parameters: seq<string>, args: seq<Value>, x: string, fuel: nat)
    requires !Repeats(parameters, ["self"])
    ensures var start := Entry(self, parameters, args);
            && Eval(src, Self, start, fuel) == Success((self, start))
            && (!SameName(x, "self") && (forall i :: 0 <= i < |parameters| ==> !SameName(x, parameters[i])) ==>
                  Eval(src, Id(x), start, fuel) == Success((Undefined, start)))
  {
    assert Lower("self") == "self";
    LowerIff(x, "self");
    forall i | 0 <= i < |parameters|
      ensures Lower(parameters[i]) != "self" && (Lower(parameters[i]) == Lower(x) <==> SameName(x, parameters[i]))
    {
      assert !SameName(parameters[i], ["self"][0]);
      LowerIff(parameters[i], "self");
      LowerIff(x, parameters[i]);
    }
    EntryWithout(self, parameters, args, "self");
    if forall i :: 0 <= i < |parameters| ==> !SameName(x, parameters[i]) {
      EntryWithout(self, parameters, args, Lower(x));
    }
  }

  // ---- calls ----

  /** A call finds the function whose name is the same up to case. */
  lemma CalleeFoundIff(functions: set<string>, callee: string)
    requires forall f :: f in functions ==> Lower(f) == f
    ensures Lower(callee) in functions <==> exists f :: f in functions && SameName(f, callee)
    ensures forall f :: f in functions && SameName(f, callee) ==> f == Lower(callee)
  {
    forall f | f in functions ensures SameName(f, callee) <==> f == Lower(callee) {
      LowerIff(f, callee);
    }
  }

  /** So the case of the callee's name makes no difference, in the meaning and in the machine. */
  lemma CallsOfOneName(src: Source, receiver: Option<Expr>, a: string, b: string, arguments: seq<Expr>, store: Store, fuel: nat)
    requires SameName(a, b)
    ensures Eval(src, Call(receiver, a, arguments), store, fuel) == Eval(src, Call(receiver, b, arguments), store, fuel)
  {
    LowerIff(a, b);
  }

  lemma InvocationsOfOneName(prog: Machine.Program, t: Machine.Thread, a: string, b: string, n: nat, m: bool)
    requires SameName(a, b)
    ensures Machine.Execute(prog, t, CALL(a, n, m)) == Machine.Execute(prog, t, CALL(b, n, m))
  {
    LowerIff(a, b);
  }

  // ---- tries ----

  /** A trie holds two keys in one node if and only if they are equal, up to case if case does not matter. */
  lemma OneNodeIff(nodes: seq<HashTries.Node>, a: string, b: string, caseSensitive: bool, n: nat, m: nat)
    requires HashTries.WellFormed(nodes, caseSensitive) && nodes != []
    requires HashTries.Search(nodes, 0, HashTries.Hash(a, caseSensitive), a, caseSensitive) == HashTries.Found(n)
    requires HashTries.Search(nodes, 0, HashTries.Hash(b, caseSensitive), b, caseSensitive) == HashTries.Found(m)
    ensures n == m <==> if caseSensitive then a == b else SameName(a, b)
  {
    LowerIff(a, b);
    if HashTries.Canon(a, caseSensitive) == HashTries.Canon(b, caseSensitive) {
      HashTries.SearchSame(nodes, a, b, caseSensitive);
    }
  }

  /** And finds a key exactly if it holds one that is the same in this sense. */
  lemma FoundIffHeld(nodes: seq<HashTries.Node>, key: string, caseSensitive: bool)
    requires HashTries.WellFormed(nodes, caseSensitive) && nodes != []
    ensures HashTries.Search(nodes, 0, HashTries.Hash(key, caseSensitive), key, caseSensitive).Found? <==>
            exists i :: 0 <= i < |nodes| && if caseSensitive then nodes[i].key == key else SameName(nodes[i].key, key)
  {
    HashTries.SearchIsMembership(nodes, key, caseSensitive);
    forall i | 0 <= i < |nodes|
      ensures HashTries.Keys(nodes, caseSensitive)[i] == HashTries.Canon(key, caseSensitive) <==>
              if caseSensitive then nodes[i].key == key else SameName(nodes[i].key, key)
    {
      LowerIff(nodes[i].key, key);
    }
  }

  // ---- hashes ----

  lemma {:induction false} XorIsBitwise(a: nat, b: nat, bits: nat)
    ensures HashTries.Xor(a, b, bits) == Bitwise((x, y) => x != y, a, b, bits)
    decreases bits
  {
    if bits > 0 {
      XorIsBitwise(a / 2, b / 2, bits - 1);
    }
  }

  /** One step of the hash: exclusive or, bit by bit, and a multiplication modulo 2^64. */
  lemma MixIsExact(h: HashTries.Word, c: char) returns (x: nat)
    ensures forall k :: 0 <= k < 64 ==> Arithmetic.Bit(x, k) == (Arithmetic.Bit(h, k) != Arithmetic.Bit(c as int, k))
    ensures Arithmetic.Congruent(HashTries.Mix(h, c), x * 1111111111111111111)
  {
    x := HashTries.Xor(h, c as int, 64);
    XorIsBitwise(h, c as int, 64);
    forall k | 0 <= k < 64 ensures Arithmetic.Bit(x, k) == (Arithmetic.Bit(h, k) != Arithmetic.Bit(c as int, k)) {
      Arithmetic.BitwiseBits((p, q) => p != q, h, c as int, 64, k);
    }
    ModuloIsCongruent(x * 1111111111111111111, HashTries.Mix(h, c));
  }

  lemma ModuloIsCongruent(x: int, y: int)
    requires y == x % 0x1_0000_0000_0000_0000
    ensures Arithmetic.Congruent(y, x)
  {
  }
}
