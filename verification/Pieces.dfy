/**
 * Code with scopes and unresolved jumps, and what back-patching does to it. A piece is a tree
 * of fixed code, of `break` and `continue` jumps, and of scopes that resolve them.
 */
module Pieces {
  import opened Wrappers
  import opened Bytecode
  import opened Emitter

  datatype Piece =
    | Fixed(code: Code)
    | Then(first: Piece, second: Piece)
    | Leave(kind: JumpKind)
    | Scoped(scope: Scope, continueAt: nat, body: Piece)

  /** A jump target relative to the start of a piece, or nowhere yet. */
  type Target = Option<int>

  /** The same target seen from `n` instructions further on. */
  function Skip(t: Target, n: nat): Target {
    match t
    case Some(x) => Some(x - n)
    case None => None
  }

  function Goto(t: Target): Instruction {
    JMP(match t case Some(x) => x - 1 case None => UNRESOLVED)
  }

  function Size(p: Piece): nat {
    match p
    case Fixed(code) => |code|
    case Then(a, b) => Size(a) + Size(b)
    case Leave(_) => 1
    case Scoped(_, _, body) => Size(body)
  }

  /**
   * The code of a piece whose breaks and continues go to the given targets. A scope that allows
   * breaks sends them to its end; one that allows continues sends them to its continue address.
   */
  function Render(p: Piece, brk: Target, cont: Target): (code: Code)
    ensures |code| == Size(p)
  {
    match p
    case Fixed(code) => code
    case Then(a, b) => Render(a, brk, cont) + Render(b, Skip(brk, Size(a)), Skip(cont, Size(a)))
    case Leave(kind) => [Goto(if kind.BreakJump? then brk else cont)]
    case Scoped(scope, at, body) =>
      Render(body, if scope.allowsBreak then Some(Size(body)) else brk, if scope.allowsContinue then Some(at) else cont)
  }

  // ---- the pending list ----

  type Pending = seq<PendingJump>

  function Move(j: PendingJump, n: nat): PendingJump {
    if j.ip == UNRESOLVED then j else j.(ip := j.ip + n)
  }

  /** The same entries for code that is placed `n` instructions further on. */
  function Shift(h: Pending, n: nat): (r: Pending)
    ensures |r| == |h|
  {
    seq(|h|, i requires 0 <= i < |h| => Move(h[i], n))
  }

  /**
   * The entries of the pending list that emitting a piece leaves behind, with addresses relative
   * to its start. `brk` and `cont` say which kinds of jump are resolved by an enclosing scope.
   */
  function Holes(p: Piece, level: nat, brk: bool, cont: bool): Pending {
    match p
    case Fixed(_) => []
    case Then(a, b) => Holes(a, level, brk, cont) + Shift(Holes(b, level, brk, cont), Size(a))
    case Leave(kind) =>
      [PendingJump(if (if kind.BreakJump? then brk else cont) then UNRESOLVED else 0, level, kind)]
    case Scoped(scope, _, body) => Holes(body, level + 1, brk || scope.allowsBreak, cont || scope.allowsContinue)
  }

  function GoalOf(j: PendingJump, brk: Target, cont: Target): Target {
    if j.ip == UNRESOLVED then None
    else match j.kind case BreakJump => brk case ContinueJump => cont
  }

  /** Point every live entry whose kind has a target to that target. */
  function Fill(code: Code, h: Pending, brk: Target, cont: Target): (r: Code)
    ensures |r| == |code|
  {
    if h == [] then code
    else
      var n := |h| - 1;
      var c := Fill(code, h[..n], brk, cont);
      match GoalOf(h[n], brk, cont)
      case Some(t) => SetTarget(c, h[n].ip, t)
      case None => c
  }

  /** Live entries lie inside the code, and belong to a scope at `level` or deeper. */
  predicate Within(h: Pending, size: nat, level: nat) {
    forall i :: 0 <= i < |h| ==> (h[i].ip == UNRESOLVED || 0 <= h[i].ip < size) && h[i].scope >= level
  }

  lemma {:induction false} HolesWithin(p: Piece, level: nat, brk: bool, cont: bool)
    ensures Within(Holes(p, level, brk, cont), Size(p), level)
  {
    match p
    case Then(a, b) =>
      HolesWithin(a, level, brk, cont);
      HolesWithin(b, level, brk, cont);
      WithinBoth(Holes(a, level, brk, cont), Size(a), Holes(b, level, brk, cont), Size(b), level);
    case Scoped(scope, _, body) =>
      HolesWithin(body, level + 1, brk || scope.allowsBreak, cont || scope.allowsContinue);
    case _ =>
  }

  lemma WithinBoth(h: Pending, n: nat, k: Pending, m: nat, level: nat)
    requires Within(h, n, level) && Within(k, m, level)
    ensures Within(h + Shift(k, n), n + m, level)
  {
  }

  // ---- filling the holes ----

  lemma {:induction false} FillMore(code: Code, h: Pending, k: Pending, brk: Target, cont: Target)
    ensures Fill(code, h + k, brk, cont) == Fill(Fill(code, h, brk, cont), k, brk, cont)
  {
    if k == [] {
      assert h + k == h;
    } else {
      var n := |k| - 1;
      FillMore(code, h, k[..n], brk, cont);
      assert (h + k)[..|h| + n] == h + k[..n];
    }
  }

  /** Holes of the left part leave the right part alone. */
  lemma {:induction false} FillLeft(x: Code, y: Code, h: Pending, brk: Target, cont: Target)
    requires Within(h, |x|, 0)
    ensures Fill(x + y, h, brk, cont) == Fill(x, h, brk, cont) + y
  {
    if h != [] {
      FillLeft(x, y, h[..|h| - 1], brk, cont);
    }
  }

  /** Holes of the right part, seen from the start of the left part. */
  lemma {:induction false} FillRight(x: Code, y: Code, k: Pending, brk: Target, cont: Target)
    requires Within(k, |y|, 0)
    ensures Fill(x + y, Shift(k, |x|), brk, cont) == x + Fill(y, k, Skip(brk, |x|), Skip(cont, |x|))
  {
    if k != [] {
      var n := |k| - 1;
      FillRight(x, y, k[..n], brk, cont);
      assert Shift(k, |x|)[..n] == Shift(k[..n], |x|);
    }
  }

  lemma FillConcat(x: Code, y: Code, h: Pending, k: Pending, brk: Target, cont: Target)
    requires Within(h, |x|, 0) && Within(k, |y|, 0)
    ensures Fill(x + y, h + Shift(k, |x|), brk, cont) ==
            Fill(x, h, brk, cont) + Fill(y, k, Skip(brk, |x|), Skip(cont, |x|))
  {
    FillMore(x + y, h, Shift(k, |x|), brk, cont);
    FillLeft(x, y, h, brk, cont);
    FillRight(Fill(x, h, brk, cont), y, k, brk, cont);
  }

  function Known(t: Target, more: Target): Target {
    if t.Some? then t else more
  }

  lemma KnownSkip(t: Target, more: Target, n: nat)
    ensures Skip(Known(t, more), n) == Known(Skip(t, n), Skip(more, n))
  {
  }

  /** Filling the holes of a rendered piece is rendering it with more targets known. */
  lemma {:induction false} FillRender(p: Piece, level: nat, b: Target, c: Target, brk: Target, cont: Target)
    ensures Fill(Render(p, b, c), Holes(p, level, b.Some?, c.Some?), brk, cont) ==
            Render(p, Known(b, brk), Known(c, cont))
    decreases p
  {
    match p
    case Fixed(_) =>
    case Then(x, y) =>
      var n := Size(x);
      HolesWithin(x, level, b.Some?, c.Some?);
      HolesWithin(y, level, b.Some?, c.Some?);
      FillRender(x, level, b, c, brk, cont);
      FillRender(y, level, Skip(b, n), Skip(c, n), Skip(brk, n), Skip(cont, n));
      FillConcat(Render(x, b, c), Render(y, Skip(b, n), Skip(c, n)),
                 Holes(x, level, b.Some?, c.Some?), Holes(y, level, b.Some?, c.Some?), brk, cont);
      KnownSkip(b, brk, n);
      KnownSkip(c, cont, n);
    case Leave(_) =>
    case Scoped(scope, at, body) =>
      FillRender(body, level + 1, if scope.allowsBreak then Some(Size(body)) else b,
                 if scope.allowsContinue then Some(at) else c, brk, cont);
  }
}
