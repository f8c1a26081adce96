/**
 * When a later loop takes over a waiting `continue`, the compiled code is not the intended code.
 * Together with Backpatch.PlayIsRender this makes `NoAdoption` the exact condition under which
 * every break and continue leads where it should.
 */
module Adoption {
  import opened Wrappers
  import opened Bytecode
  import opened Emitter
  import opened Pieces
  import opened Backpatch

  /** The end of the last jump or scope of a piece. */
  function Extent(p: Piece): (n: nat)
    ensures n <= Size(p)
  {
    match p
    case Fixed(_) => 0
    case Then(a, b) => if Extent(b) > 0 then Size(a) + Extent(b) else Extent(a)
    case Leave(_) => 1
    case Scoped(_, _, body) => Size(body)
  }

  /** Every scope allows breaks; the continue address of a loop comes after the loop's body and before its end. */
  predicate Proper(p: Piece) {
    match p
    case Then(a, b) => Proper(a) && Proper(b)
    case Scoped(scope, at, body) =>
      Proper(body) && scope.allowsBreak && (scope.allowsContinue ==> 1 <= at && Extent(body) <= at < Size(body))
    case _ => true
  }

  predicate Unique(jumps: Pending) {
    forall i, k :: 0 <= i < k < |jumps| ==> jumps[i].ip == UNRESOLVED || jumps[i].ip != jumps[k].ip
  }

  lemma {:induction false} PlayKeepsUnique(p: Piece, level: nat, code: Code, jumps: Pending)
    requires Unique(jumps) && Live(jumps, |code|)
    ensures Unique(Play(p, level, code, jumps).1)
  {
    match p
    case Then(a, b) =>
      PlayKeepsUnique(a, level, code, jumps);
      PlayKeepsLive(a, level, code, jumps);
      var (c, j) := Play(a, level, code, jumps);
      PlayKeepsUnique(b, level, c, j);
    case Scoped(_, _, body) => PlayKeepsUnique(body, level + 1, code, jumps);
    case _ =>
  }

  // ---- one waiting jump among the others ----

  lemma {:induction false} ResolveMisses(code: Code, jumps: Pending, i: nat, level: nat, scope: Scope,
                                         cont: Option<nat>, brk: nat)
    requires i < |jumps| && Unique(jumps) && 0 <= jumps[i].ip < |code|
    requires !Captured(jumps[i], level, scope, cont)
    ensures ResolvedCode(code, jumps, level, scope, cont, brk)[jumps[i].ip] == code[jumps[i].ip]
  {
    var n := |jumps| - 1;
    if i < n {
      ResolveMisses(code, jumps[..n], i, level, scope, cont, brk);
    } else {
      ResolveKeepsInstruction(code, jumps[i].ip, jumps[..n], level, scope, cont, brk);
    }
  }

  lemma {:induction false} ResolveHits(code: Code, jumps: Pending, i: nat, level: nat, scope: Scope,
                                       cont: Option<nat>, brk: nat)
    requires i < |jumps| && Unique(jumps) && 0 <= jumps[i].ip < |code| && code[jumps[i].ip].JMP?
    requires Captured(jumps[i], level, scope, cont)
    ensures ResolvedCode(code, jumps, level, scope, cont, brk)[jumps[i].ip] ==
            JMP(TargetOf(jumps[i], cont, brk) - jumps[i].ip - 1)
  {
    var n := |jumps| - 1;
    if i < n {
      ResolveHits(code, jumps[..n], i, level, scope, cont, brk);
    } else {
      ResolveKeepsInstruction(code, jumps[i].ip, jumps[..n], level, scope, cont, brk);
    }
  }

  /** A waiting jump that no scope of the piece takes is still waiting afterwards. */
  lemma {:induction false} StillWaiting(p: Piece, level: nat, code: Code, jumps: Pending, i: nat)
    requires Unique(jumps) && Live(jumps, |code|) && i < |jumps| && jumps[i].ip != UNRESOLVED
    requires !Captures(p, jumps[i].kind, jumps[i].scope - level)
    ensures var (c, j) := Play(p, level, code, jumps);
            |j| >= |jumps| && j[i] == jumps[i] && c[jumps[i].ip] == code[jumps[i].ip]
  {
    match p
    case Then(a, b) =>
      StillWaiting(a, level, code, jumps, i);
      PlayKeepsUnique(a, level, code, jumps);
      PlayKeepsLive(a, level, code, jumps);
      var (c, j) := Play(a, level, code, jumps);
      StillWaiting(b, level, c, j, i);
    case Scoped(scope, at, body) =>
      StillWaiting(body, level + 1, code, jumps, i);
      PlayKeepsUnique(body, level + 1, code, jumps);
      var (c, j) := Play(body, level + 1, code, jumps);
      ResolveMisses(c, j, i, level + 1, scope, ContinueOffset(scope, |code| + at), |c|);
    case _ =>
  }

  /** A waiting `continue` that a loop of the piece takes ends up pointing into the piece, for good. */
  lemma {:induction false} Taken(p: Piece, level: nat, code: Code, jumps: Pending, i: nat) returns (t: nat)
    requires Unique(jumps) && Live(jumps, |code|) && Proper(p)
    requires i < |jumps| && jumps[i].ip != UNRESOLVED && jumps[i].kind == ContinueJump && code[jumps[i].ip].JMP?
    requires Captures(p, ContinueJump, jumps[i].scope - level)
    ensures |code| + 1 <= t < |code| + Extent(p)
    ensures var (c, j) := Play(p, level, code, jumps);
            Untouched(j, jumps[i].ip) && c[jumps[i].ip] == JMP(t - jumps[i].ip - 1)
    decreases p
  {
    var q, depth := jumps[i].ip, jumps[i].scope - level;
    match p
    case Then(a, b) =>
      var (c, j) := Play(a, level, code, jumps);
      if Captures(a, ContinueJump, depth) {
        t := Taken(a, level, code, jumps, i);
        PlayKeepsInstruction(b, level, c, q, j);
      } else {
        StillWaiting(a, level, code, jumps, i);
        PlayKeepsUnique(a, level, code, jumps);
        PlayKeepsLive(a, level, code, jumps);
        t := Taken(b, level, c, j, i);
      }
    case Scoped(scope, at, body) =>
      var (c, j) := Play(body, level + 1, code, jumps);
      var cont := ContinueOffset(scope, |code| + at);
      if Captures(body, ContinueJump, depth - 1) {
        t := Taken(body, level + 1, code, jumps, i);
        ResolveKeepsInstruction(c, q, j, level + 1, scope, cont, |c|);
      } else {
        StillWaiting(body, level + 1, code, jumps, i);
        PlayKeepsUnique(body, level + 1, code, jumps);
        ResolveHits(c, j, i, level + 1, scope, cont, |c|);
        t := |code| + at;
      }
  }

  // ---- what waits, and what it should point to ----

  lemma {:induction false} DeepestHole(p: Piece, kind: JumpKind, level: nat, brk: bool, cont: bool) returns (i: nat)
    requires WaitingDepth(p, kind) >= 0 && !(if kind.BreakJump? then brk else cont)
    ensures i < |Holes(p, level, brk, cont)|
    ensures var h := Holes(p, level, brk, cont)[i];
            h.ip != UNRESOLVED && h.kind == kind && h.scope == level + WaitingDepth(p, kind)
    decreases p
  {
    match p
    case Then(a, b) =>
      if WaitingDepth(a, kind) < WaitingDepth(b, kind) {
        var k := DeepestHole(b, kind, level, brk, cont);
        HolesWithin(b, level, brk, cont);
        i := |Holes(a, level, brk, cont)| + k;
      } else {
        i := DeepestHole(a, kind, level, brk, cont);
      }
    case Leave(_) => i := 0;
    case Scoped(scope, _, body) =>
      i := DeepestHole(body, kind, level + 1, brk || scope.allowsBreak, cont || scope.allowsContinue);
  }

  /** A hole is rendered as a jump to the target of its kind. */
  lemma {:induction false} HoleIsGoto(p: Piece, level: nat, brk: bool, cont: bool, i: nat, b: Target, c: Target)
    requires i < |Holes(p, level, brk, cont)| && Holes(p, level, brk, cont)[i].ip != UNRESOLVED
    ensures var h := Holes(p, level, brk, cont)[i];
            && 0 <= h.ip < Size(p)
            && Render(p, b, c)[h.ip] == Goto(Skip(if h.kind.BreakJump? then b else c, h.ip))
    decreases p
  {
    HolesWithin(p, level, brk, cont);
    match p
    case Then(x, y) =>
      var n := |Holes(x, level, brk, cont)|;
      if i < n {
        HoleIsGoto(x, level, brk, cont, i, b, c);
      } else {
        HolesWithin(y, level, brk, cont);
        HoleIsGoto(y, level, brk, cont, i - n, Skip(b, Size(x)), Skip(c, Size(x)));
      }
    case Leave(_) =>
    case Scoped(scope, at, body) =>
      var ab, ac := brk || scope.allowsBreak, cont || scope.allowsContinue;
      HolesDepth(body, level + 1, ab, ac);
      HoleIsGoto(body, level + 1, ab, ac, i, if scope.allowsBreak then Some(Size(body)) else b,
                 if scope.allowsContinue then Some(at) else c);
  }

  lemma {:induction false} CapturesOnlyDeeper(p: Piece, kind: JumpKind, depth: int)
    requires Captures(p, kind, depth)
    ensures depth >= 1
  {
    match p
    case Then(a, b) =>
      if Captures(a, kind, depth) { CapturesOnlyDeeper(a, kind, depth); } else { CapturesOnlyDeeper(b, kind, depth); }
    case Scoped(_, _, body) =>
      if Captures(body, kind, depth - 1) { CapturesOnlyDeeper(body, kind, depth - 1); }
  }

  /** A break never waits outside its own scope. */
  lemma {:induction false} BreaksWaitAtHome(p: Piece)
    requires Proper(p)
    ensures WaitingDepth(p, BreakJump) <= 0
  {
    match p
    case Then(a, b) =>
      BreaksWaitAtHome(a);
      BreaksWaitAtHome(b);
    case _ =>
  }

  // ---- adoption spoils the code ----

  /** Wherever a continue of the piece may lead outside the piece, it does not lead to `t`. */
  ghost predicate Wrong(p: Piece, q: nat, t: int) {
    && q + 1 < t < Extent(p) && q < Size(p)
    && forall b: Target, c: Target :: (c.None? || c.value >= Extent(p)) ==> Render(p, b, c)[q] != JMP(t - q - 1)
  }

  lemma WrongFirst(a: Piece, b: Piece, q: nat, t: int)
    requires Wrong(a, q, t)
    ensures Wrong(Then(a, b), q, t)
  {
    forall bt: Target, ct: Target | ct.None? || ct.value >= Extent(Then(a, b))
      ensures Render(Then(a, b), bt, ct)[q] != JMP(t - q - 1)
    {
      assert Render(Then(a, b), bt, ct)[q] == Render(a, bt, ct)[q];
    }
  }

  lemma WrongSecond(a: Piece, b: Piece, q: nat, t: int)
    requires Wrong(b, q, t)
    ensures Wrong(Then(a, b), Size(a) + q, Size(a) + t)
  {
    var n := Size(a);
    forall bt: Target, ct: Target | ct.None? || ct.value >= Extent(Then(a, b))
      ensures Render(Then(a, b), bt, ct)[n + q] != JMP(n + t - (n + q) - 1)
    {
      assert Render(Then(a, b), bt, ct)[n + q] == Render(b, Skip(bt, n), Skip(ct, n))[q];
    }
  }

  lemma WrongScoped(p: Piece, q: nat, t: int)
    requires p.Scoped? && Proper(p) && Wrong(p.body, q, t)
    ensures Wrong(p, q, t)
  {
    forall b: Target, c: Target | c.None? || c.value >= Extent(p)
      ensures Render(p, b, c)[q] != JMP(t - q - 1)
    {
      assert Render(p, b, c) == Render(p.body, Some(Size(p.body)), if p.scope.allowsContinue then Some(p.continueAt) else c);
    }
  }

  lemma {:induction false} Spoiled(p: Piece, level: nat, code: Code, jumps: Pending) returns (q: nat, t: int)
    requires !NoAdoption(p) && Quiet(p, level, jumps) && Unique(jumps) && Live(jumps, |code|) && Proper(p)
    ensures Wrong(p, q, t)
    ensures var (c, j) := Play(p, level, code, jumps);
            Untouched(j, |code| + q) && c[|code| + q] == JMP(t - q - 1)
    decreases p, 1
  {
    match p
    case Then(a, b) =>
      var (c, j) := Play(a, level, code, jumps);
      if !NoAdoption(a) {
        q, t := Spoiled(a, level, code, jumps);
        PlayKeepsInstruction(b, level, c, |code| + q, j);
        WrongFirst(a, b, q, t);
      } else if NoAdoption(b) || !Quiet(b, level, Shift(Holes(a, level, false, false), |code|)) {
        q, t := SpoiledBetween(p, level, code, jumps);
      } else {
        AfterFirst(a, b, level, code, jumps);
        q, t := Spoiled(b, level, c, j);
        WrongSecond(a, b, q, t);
        q, t := Size(a) + q, Size(a) + t;
      }
    case Scoped(scope, at, body) =>
      q, t := Spoiled(body, level + 1, code, jumps);
      SpoiledScoped(p, level, code, jumps, q, t);
  }

  lemma SpoiledScoped(p: Piece, level: nat, code: Code, jumps: Pending, q: nat, t: int)
    requires p.Scoped? && Proper(p) && Wrong(p.body, q, t)
    requires var (c, j) := Play(p.body, level + 1, code, jumps);
             |code| + q < |c| && Untouched(j, |code| + q) && c[|code| + q] == JMP(t - q - 1)
    ensures Wrong(p, q, t)
    ensures var (c, j) := Play(p, level, code, jumps);
            |code| + q < |c| && Untouched(j, |code| + q) && c[|code| + q] == JMP(t - q - 1)
  {
    var (c, j) := Play(p.body, level + 1, code, jumps);
    ResolveKeepsInstruction(c, |code| + q, j, level + 1, p.scope, ContinueOffset(p.scope, |code| + p.continueAt), |c|);
    WrongScoped(p, q, t);
  }

  lemma AfterFirst(a: Piece, b: Piece, level: nat, code: Code, jumps: Pending)
    requires NoAdoption(a) && Quiet(Then(a, b), level, jumps) && Unique(jumps) && Live(jumps, |code|)
    requires Quiet(b, level, Shift(Holes(a, level, false, false), |code|))
    ensures var (c, j) := Play(a, level, code, jumps);
            Quiet(b, level, j) && Unique(j) && Live(j, |c|)
  {
    PlayIsRender(a, level, code, jumps);
    PlayKeepsUnique(a, level, code, jumps);
    PlayKeepsLive(a, level, code, jumps);
    QuietMore(b, level, jumps, Shift(Holes(a, level, false, false), |code|));
  }

  /** The second part takes a jump that the first part leaves waiting. */
  lemma {:induction false} SpoiledBetween(p: Piece, level: nat, code: Code, jumps: Pending) returns (q: nat, t: int)
    requires p.Then? && !NoAdoption(p) && NoAdoption(p.first)
    requires NoAdoption(p.second) || !Quiet(p.second, level, Shift(Holes(p.first, level, false, false), |code|))
    requires Quiet(p, level, jumps) && Unique(jumps) && Live(jumps, |code|) && Proper(p)
    ensures Wrong(p, q, t)
    ensures var (c, j) := Play(p, level, code, jumps);
            Untouched(j, |code| + q) && c[|code| + q] == JMP(t - q - 1)
    decreases p, 0
  {
    var a, b := p.first, p.second;
    var i := TakenBetween(a, b, level, |code|);
    var h := Holes(a, level, false, false);
    PlayIsRender(a, level, code, jumps);
    PlayKeepsUnique(a, level, code, jumps);
    PlayKeepsLive(a, level, code, jumps);
    HolesWithin(a, level, false, false);
    HoleIsGoto(a, level, false, false, i, None, None);
    var (c, j) := Play(a, level, code, jumps);
    q := h[i].ip;
    var u := Taken(b, level, c, j, |jumps| + i);
    t := u - |code|;
    forall bt: Target, ct: Target | ct.None? || ct.value >= Extent(p)
      ensures Render(p, bt, ct)[q] != JMP(t - q - 1)
    {
      HoleIsGoto(a, level, false, false, i, bt, ct);
    }
  }

  /** Which waiting jump of `a` is taken by `b`. */
  lemma TakenBetween(a: Piece, b: Piece, level: nat, n: nat) returns (i: nat)
    requires !NoAdoption(Then(a, b)) && NoAdoption(a) && Proper(a)
    requires NoAdoption(b) || !Quiet(b, level, Shift(Holes(a, level, false, false), n))
    ensures i < |Holes(a, level, false, false)|
    ensures var h := Holes(a, level, false, false)[i];
            h.ip != UNRESOLVED && h.kind == ContinueJump && Captures(b, ContinueJump, h.scope - level)
  {
    BreaksWaitAtHome(a);
    if Captures(b, BreakJump, WaitingDepth(a, BreakJump)) {
      CapturesOnlyDeeper(b, BreakJump, WaitingDepth(a, BreakJump));
    }
    var h := Holes(a, level, false, false);
    if NoAdoption(b) {
      CapturesOnlyDeeper(b, ContinueJump, WaitingDepth(a, ContinueJump));
      i := DeepestHole(a, ContinueJump, level, false, false);
    } else {
      i :| 0 <= i < |h| && Shift(h, n)[i].ip != UNRESOLVED && Captures(b, h[i].kind, h[i].scope - level);
      HolesDepth(a, level, false, false);
      CapturesOnlyDeeper(b, h[i].kind, h[i].scope - level);
    }
  }

  /** Back-patching from scratch gives the intended code exactly when nothing is adopted. */
  lemma PlayIsRenderIff(p: Piece)
    requires Proper(p)
    ensures Play(p, 0, [], []).0 == Render(p, None, None) <==> NoAdoption(p)
  {
    if NoAdoption(p) {
      PlayIsRender(p, 0, [], []);
    } else {
      var q, t := Spoiled(p, 0, [], []);
      assert Render(p, None, None)[q] != JMP(t - q - 1);
    }
  }
}
