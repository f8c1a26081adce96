/**
 * Back-patching as the compiler does it: jumps are emitted unresolved and queued, and closing a
 * scope resolves every queued jump of a kind it allows whose scope is at least as deep.
 *
 * The test `j->scope < scope_level` does not ask whether the jump was emitted inside the scope
 * that is closing. A `continue` that waits under a switch is taken over by the next loop that
 * closes at the switch's depth. `NoAdoption` is the check that this does not happen.
 */
module Backpatch {
  import opened Wrappers
  import opened Bytecode
  import opened Emitter
  import opened Pieces

  predicate Allows(scope: Scope, kind: JumpKind) {
    match kind case BreakJump => scope.allowsBreak case ContinueJump => scope.allowsContinue
  }

  function ContinueOffset(scope: Scope, at: nat): Option<nat> {
    if scope.allowsContinue then Some(at) else None
  }

  /** Emit a piece after the given code, with the given pending list, inside `level` scopes. */
  function Play(p: Piece, level: nat, code: Code, jumps: Pending): (r: (Code, Pending))
    ensures |r.0| == |code| + Size(p)
  {
    match p
    case Fixed(c) => (code + c, jumps)
    case Then(a, b) =>
      var (c, j) := Play(a, level, code, jumps);
      Play(b, level, c, j)
    case Leave(kind) => (code + [JMP(UNRESOLVED)], jumps + [PendingJump(|code|, level, kind)])
    case Scoped(scope, at, body) =>
      var (c, j) := Play(body, level + 1, code, jumps);
      var cont := ContinueOffset(scope, |code| + at);
      (ResolvedCode(c, j, level + 1, scope, cont, |c|), ResolvedJumps(j, level + 1, scope, cont))
  }

  /** Live entries point at emitted code. */
  predicate Live(jumps: Pending, size: nat) {
    forall i :: 0 <= i < |jumps| ==> jumps[i].ip == UNRESOLVED || 0 <= jumps[i].ip < size
  }

  lemma {:induction false} PlayKeepsLive(p: Piece, level: nat, code: Code, jumps: Pending)
    requires Live(jumps, |code|)
    ensures Live(Play(p, level, code, jumps).1, |code| + Size(p))
  {
    match p
    case Then(a, b) =>
      PlayKeepsLive(a, level, code, jumps);
      var (c, j) := Play(a, level, code, jumps);
      PlayKeepsLive(b, level, c, j);
    case Scoped(_, _, body) => PlayKeepsLive(body, level + 1, code, jumps);
    case _ =>
  }

  // ---- an instruction that no pending jump points at can be patched before or after ----

  predicate Untouched(jumps: Pending, q: int) {
    forall i :: 0 <= i < |jumps| ==> jumps[i].ip != q
  }

  lemma {:induction false} ResolveUpdate(code: Code, q: nat, ins: Instruction, jumps: Pending, level: nat,
                                         scope: Scope, cont: Option<nat>, brk: nat)
    requires q < |code| && Untouched(jumps, q)
    ensures ResolvedCode(code[q := ins], jumps, level, scope, cont, brk) ==
            ResolvedCode(code, jumps, level, scope, cont, brk)[q := ins]
  {
    if jumps != [] {
      ResolveUpdate(code, q, ins, jumps[..|jumps| - 1], level, scope, cont, brk);
    }
  }

  lemma {:induction false} PlayUpdate(p: Piece, level: nat, code: Code, q: nat, ins: Instruction, jumps: Pending)
    requires q < |code| && Untouched(jumps, q)
    ensures Untouched(Play(p, level, code, jumps).1, q)
    ensures var (c, j) := Play(p, level, code, jumps);
            Play(p, level, code[q := ins], jumps) == (c[q := ins], j)
  {
    match p
    case Fixed(c) => assert code[q := ins] + c == (code + c)[q := ins];
    case Then(a, b) =>
      PlayUpdate(a, level, code, q, ins, jumps);
      var (c, j) := Play(a, level, code, jumps);
      PlayUpdate(b, level, c, q, ins, j);
    case Leave(_) => assert code[q := ins] + [JMP(UNRESOLVED)] == (code + [JMP(UNRESOLVED)])[q := ins];
    case Scoped(scope, at, body) =>
      PlayUpdate(body, level + 1, code, q, ins, jumps);
      var (c, j) := Play(body, level + 1, code, jumps);
      ResolveUpdate(c, q, ins, j, level + 1, scope, ContinueOffset(scope, |code| + at), |c|);
  }

  lemma {:induction false} ResolveKeepsInstruction(code: Code, q: nat, jumps: Pending, level: nat,
                                                   scope: Scope, cont: Option<nat>, brk: nat)
    requires q < |code| && Untouched(jumps, q)
    ensures ResolvedCode(code, jumps, level, scope, cont, brk)[q] == code[q]
  {
    if jumps != [] {
      ResolveKeepsInstruction(code, q, jumps[..|jumps| - 1], level, scope, cont, brk);
    }
  }

  lemma PlayKeepsInstruction(p: Piece, level: nat, code: Code, q: nat, jumps: Pending)
    requires q < |code| && Untouched(jumps, q)
    ensures var (c, j) := Play(p, level, code, jumps); c[q] == code[q] && Untouched(j, q)
  {
    PlayUpdate(p, level, code, q, code[q], jumps);
    assert code[q := code[q]] == code;
  }

  // ---- who takes over whose jump ----

  /** Would the piece resolve a jump of this kind that already waits `depth` scopes further in? */
  predicate Captures(p: Piece, kind: JumpKind, depth: int) {
    match p
    case Then(a, b) => Captures(a, kind, depth) || Captures(b, kind, depth)
    case Scoped(scope, _, body) => (Allows(scope, kind) && depth >= 1) || Captures(body, kind, depth - 1)
    case _ => false
  }

  /** The greatest depth at which the piece leaves a jump of this kind waiting, or -1. */
  function WaitingDepth(p: Piece, kind: JumpKind): (d: int)
    ensures d >= -1
  {
    match p
    case Fixed(_) => -1
    case Then(a, b) =>
      var x, y := WaitingDepth(a, kind), WaitingDepth(b, kind);
      if x < y then y else x
    case Leave(k) => if k == kind then 0 else -1
    case Scoped(scope, _, body) =>
      var x := WaitingDepth(body, kind);
      if Allows(scope, kind) || x == -1 then -1 else x + 1
  }

  predicate NoAdoption(p: Piece) {
    match p
    case Then(a, b) =>
      && NoAdoption(a) && NoAdoption(b)
      && !Captures(b, BreakJump, WaitingDepth(a, BreakJump))
      && !Captures(b, ContinueJump, WaitingDepth(a, ContinueJump))
    case Scoped(_, _, body) => NoAdoption(body)
    case _ => true
  }

  /** None of the jumps that wait already is resolved by the piece. */
  predicate Quiet(p: Piece, level: nat, jumps: Pending) {
    forall i :: 0 <= i < |jumps| && jumps[i].ip != UNRESOLVED ==>
      !Captures(p, jumps[i].kind, jumps[i].scope - level)
  }

  // ---- back-patching gives the intended code when nothing is taken over ----

  lemma {:induction false} ResolveMore(code: Code, h: Pending, k: Pending, level: nat, scope: Scope,
                                       cont: Option<nat>, brk: nat)
    ensures ResolvedCode(code, h + k, level, scope, cont, brk) ==
            ResolvedCode(ResolvedCode(code, h, level, scope, cont, brk), k, level, scope, cont, brk)
  {
    if k == [] {
      assert h + k == h;
    } else {
      var n := |k| - 1;
      ResolveMore(code, h, k[..n], level, scope, cont, brk);
      assert (h + k)[..|h| + n] == h + k[..n];
    }
  }

  lemma {:induction false} ResolveNothing(code: Code, h: Pending, level: nat, scope: Scope,
                                          cont: Option<nat>, brk: nat)
    requires forall i :: 0 <= i < |h| ==> !Captured(h[i], level, scope, cont)
    ensures ResolvedCode(code, h, level, scope, cont, brk) == code
  {
    if h != [] {
      ResolveNothing(code, h[..|h| - 1], level, scope, cont, brk);
    }
  }

  function BreakTarget(scope: Scope, brk: int): Target {
    if scope.allowsBreak then Some(brk) else None
  }

  function ContinueTarget(scope: Scope, at: int): Target {
    if scope.allowsContinue then Some(at) else None
  }

  /** On entries of the closing scope, the patching loop is filling holes. */
  lemma {:induction false} ResolveIsFill(code: Code, h: Pending, level: nat, scope: Scope, at: nat, brk: nat)
    requires forall i :: 0 <= i < |h| ==> h[i].scope >= level
    ensures ResolvedCode(code, h, level, scope, ContinueOffset(scope, at), brk) ==
            Fill(code, h, BreakTarget(scope, brk), ContinueTarget(scope, at))
  {
    if h != [] {
      ResolveIsFill(code, h[..|h| - 1], level, scope, at, brk);
    }
  }

  /** Marking the entries that a scope resolves. */
  lemma {:induction false} MarkHoles(p: Piece, closing: nat, level: nat, brk: bool, cont: bool, scope: Scope, at: nat)
    requires closing <= level
    ensures ResolvedJumps(Holes(p, level, brk, cont), closing, scope, ContinueOffset(scope, at)) ==
            Holes(p, level, brk || scope.allowsBreak, cont || scope.allowsContinue)
  {
    match p
    case Fixed(_) =>
    case Then(a, b) =>
      MarkHoles(a, closing, level, brk, cont, scope, at);
      MarkHoles(b, closing, level, brk, cont, scope, at);
      MarkMore(Holes(a, level, brk, cont), Shift(Holes(b, level, brk, cont), Size(a)), closing, scope, at);
      HolesWithin(b, level, brk, cont);
      MarkShift(Holes(b, level, brk, cont), Size(b), Size(a), closing, scope, at);
    case Leave(_) =>
    case Scoped(s, _, body) =>
      MarkHoles(body, closing, level + 1, brk || s.allowsBreak, cont || s.allowsContinue, scope, at);
  }

  lemma MarkMore(h: Pending, k: Pending, level: nat, scope: Scope, at: nat)
    ensures var o := ContinueOffset(scope, at);
            ResolvedJumps(h + k, level, scope, o) == ResolvedJumps(h, level, scope, o) + ResolvedJumps(k, level, scope, o)
  {
  }

  lemma MarkShift(h: Pending, size: nat, n: nat, level: nat, scope: Scope, at: nat)
    requires Within(h, size, 0)
    ensures var o := ContinueOffset(scope, at);
            ResolvedJumps(Shift(h, n), level, scope, o) == Shift(ResolvedJumps(h, level, scope, o), n)
  {
  }

  lemma ShiftMore(h: Pending, k: Pending, size: nat, m: nat, n: nat)
    requires Within(k, size, 0)
    ensures Shift(h + Shift(k, m), n) == Shift(h, n) + Shift(k, n + m)
  {
  }

  /** A waiting jump of a piece waits no deeper than its waiting depth. */
  lemma {:induction false} HolesDepth(p: Piece, level: nat, brk: bool, cont: bool)
    ensures forall i :: 0 <= i < |Holes(p, level, brk, cont)| ==>
              var j := Holes(p, level, brk, cont)[i];
              j.ip != UNRESOLVED ==>
                && !(if j.kind.BreakJump? then brk else cont)
                && level <= j.scope <= level + WaitingDepth(p, j.kind)
  {
    match p
    case Then(a, b) =>
      HolesDepth(a, level, brk, cont);
      HolesDepth(b, level, brk, cont);
    case Scoped(scope, _, body) =>
      HolesDepth(body, level + 1, brk || scope.allowsBreak, cont || scope.allowsContinue);
    case _ =>
  }

  lemma {:induction false} CapturesDeeper(p: Piece, kind: JumpKind, d: int, e: int)
    requires d <= e && Captures(p, kind, d)
    ensures Captures(p, kind, e)
  {
    match p
    case Then(a, b) =>
      if Captures(a, kind, d) { CapturesDeeper(a, kind, d, e); } else { CapturesDeeper(b, kind, d, e); }
    case Scoped(scope, _, body) =>
      if Captures(body, kind, d - 1) { CapturesDeeper(body, kind, d - 1, e - 1); }
  }

  /** What the first part leaves waiting, the second part does not take. */
  lemma QuietAfter(a: Piece, b: Piece, level: nat, n: nat)
    requires NoAdoption(Then(a, b))
    ensures Quiet(b, level, Shift(Holes(a, level, false, false), n))
  {
    var h := Holes(a, level, false, false);
    HolesDepth(a, level, false, false);
    forall i | 0 <= i < |h| && Shift(h, n)[i].ip != UNRESOLVED
      ensures !Captures(b, h[i].kind, h[i].scope - level)
    {
      var kind := h[i].kind;
      assert kind == BreakJump || kind == ContinueJump;
      if Captures(b, kind, h[i].scope - level) {
        CapturesDeeper(b, kind, h[i].scope - level, WaitingDepth(a, kind));
      }
    }
  }

  lemma QuietMore(p: Piece, level: nat, h: Pending, k: Pending)
    requires Quiet(p, level, h) && Quiet(p, level, k)
    ensures Quiet(p, level, h + k)
  {
  }

  /** Back-patching a piece that adopts nothing yields its rendering with only its own holes left. */
  lemma {:induction false} PlayIsRender(p: Piece, level: nat, code: Code, jumps: Pending)
    requires NoAdoption(p) && Quiet(p, level, jumps)
    ensures Play(p, level, code, jumps) ==
            (code + Render(p, None, None), jumps + Shift(Holes(p, level, false, false), |code|))
    decreases p, 1
  {
    match p
    case Fixed(_) => assert jumps + Shift([], |code|) == jumps;
    case Then(_, _) => PlayThenIsRender(p, level, code, jumps);
    case Leave(kind) =>
      assert Shift(Holes(p, level, false, false), |code|) == [PendingJump(|code|, level, kind)];
    case Scoped(scope, at, body) => PlayScopedIsRender(p, level, code, jumps);
  }

  lemma {:induction false} PlayThenIsRender(p: Piece, level: nat, code: Code, jumps: Pending)
    requires p.Then? && NoAdoption(p) && Quiet(p, level, jumps)
    ensures Play(p, level, code, jumps) ==
            (code + Render(p, None, None), jumps + Shift(Holes(p, level, false, false), |code|))
    decreases p, 0
  {
    var a, b := p.first, p.second;
    PlayIsRender(a, level, code, jumps);
    var (c, j) := Play(a, level, code, jumps);
    QuietAfter(a, b, level, |code|);
    QuietMore(b, level, jumps, Shift(Holes(a, level, false, false), |code|));
    PlayIsRender(b, level, c, j);
    HolesWithin(b, level, false, false);
    ShiftMore(Holes(a, level, false, false), Holes(b, level, false, false), Size(b), Size(a), |code|);
    assert Play(p, level, code, jumps).0 == code + (Render(a, None, None) + Render(b, None, None));
    assert Play(p, level, code, jumps).1 ==
           jumps + (Shift(Holes(a, level, false, false), |code|) +
                    Shift(Holes(b, level, false, false), |code| + Size(a)));
  }

  lemma {:induction false} PlayScopedIsRender(p: Piece, level: nat, code: Code, jumps: Pending)
    requires p.Scoped? && NoAdoption(p) && Quiet(p, level, jumps)
    ensures Play(p, level, code, jumps) ==
            (code + Render(p, None, None), jumps + Shift(Holes(p, level, false, false), |code|))
    decreases p, 0
  {
    var n := |code|;
    PlayIsRender(p.body, level + 1, code, jumps);
    CloseIsFill(p, level, code, jumps);
    CloseMarks(p, level, n, jumps);
    HolesWithin(p.body, level + 1, false, false);
    FillRight(code, Render(p.body, None, None), Holes(p.body, level + 1, false, false),
              BreakTarget(p.scope, n + Size(p.body)), ContinueTarget(p.scope, n + p.continueAt));
    FillRender(p.body, level + 1, None, None, BreakTarget(p.scope, Size(p.body)), ContinueTarget(p.scope, p.continueAt));
  }

  /** The code side of closing a scope. */
  lemma CloseIsFill(p: Piece, level: nat, code: Code, jumps: Pending)
    requires p.Scoped? && Quiet(p, level, jumps)
    ensures var h, n := Holes(p.body, level + 1, false, false), |code|;
            var x := code + Render(p.body, None, None);
            ResolvedCode(x, jumps + Shift(h, n), level + 1, p.scope, ContinueOffset(p.scope, n + p.continueAt), |x|) ==
            Fill(x, Shift(h, n), BreakTarget(p.scope, n + Size(p.body)), ContinueTarget(p.scope, n + p.continueAt))
  {
    var h, n := Holes(p.body, level + 1, false, false), |code|;
    var x := code + Render(p.body, None, None);
    var cont := ContinueOffset(p.scope, n + p.continueAt);
    HolesWithin(p.body, level + 1, false, false);
    ResolveMore(x, jumps, Shift(h, n), level + 1, p.scope, cont, |x|);
    ResolveNothing(x, jumps, level + 1, p.scope, cont, |x|);
    ResolveIsFill(x, Shift(h, n), level + 1, p.scope, n + p.continueAt, |x|);
  }

  /** The pending list side of closing a scope. */
  lemma CloseMarks(p: Piece, level: nat, n: nat, jumps: Pending)
    requires p.Scoped? && Quiet(p, level, jumps)
    ensures ResolvedJumps(jumps + Shift(Holes(p.body, level + 1, false, false), n), level + 1, p.scope,
                          ContinueOffset(p.scope, n + p.continueAt)) ==
            jumps + Shift(Holes(p, level, false, false), n)
  {
    var h, at := Holes(p.body, level + 1, false, false), n + p.continueAt;
    MarkMore(jumps, Shift(h, n), level + 1, p.scope, at);
    HolesWithin(p.body, level + 1, false, false);
    MarkShift(h, Size(p.body), n, level + 1, p.scope, at);
    MarkHoles(p.body, level + 1, level + 1, false, false, p.scope, at);
    assert ResolvedJumps(jumps, level + 1, p.scope, ContinueOffset(p.scope, at)) == jumps;
  }
}
