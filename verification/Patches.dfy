/**
 * What back-patching does to a function, whatever its breaks and continues: only they are patched, each at most
 * once, forward, and to the end of a scope or to where a loop continues; the others wait to the end.
 */
module Patches {
  import opened Wrappers
  import opened Bytecode
  import opened Emitter
  import opened Pieces
  import opened Backpatch
  import opened Adoption

  /** Is there a break or a continue at `q`, when the piece starts at `x`? */
  predicate IsLeaf(p: Piece, x: nat, q: int) {
    match p
    case Fixed(_) => false
    case Then(a, b) => IsLeaf(a, x, q) || IsLeaf(b, x + Size(a), q)
    case Leave(_) => q == x
    case Scoped(_, _, body) => IsLeaf(body, x, q)
  }

  /** Does a scope end, or a loop continue, at `t`? */
  predicate IsStop(p: Piece, x: nat, t: int) {
    match p
    case Then(a, b) => IsStop(a, x, t) || IsStop(b, x + Size(a), t)
    case Scoped(scope, at, body) => IsStop(body, x, t) || t == x + Size(body) || (scope.allowsContinue && t == x + at)
    case _ => false
  }

  lemma {:induction false} LeafWithin(p: Piece, x: nat, q: int)
    requires IsLeaf(p, x, q)
    ensures x <= q < x + Extent(p) <= x + Size(p)
    decreases p
  {
    match p
    case Then(a, b) => if IsLeaf(a, x, q) { LeafWithin(a, x, q); } else { LeafWithin(b, x + Size(a), q); }
    case Scoped(_, _, body) => LeafWithin(body, x, q);
    case _ =>
  }

  /** Only breaks and continues depend on where breaks and continues go. */
  lemma {:induction false} RenderElsewhere(p: Piece, x: nat, b: Target, c: Target, y: Target, z: Target, q: int, k: nat)
    requires k < Size(p) && q == x + k && !IsLeaf(p, x, q)
    ensures Render(p, b, c)[k] == Render(p, y, z)[k]
    decreases p
  {
    match p
    case Fixed(_) =>
    case Then(a, r) =>
      var n := Size(a);
      if k < n {
        RenderElsewhere(a, x, b, c, y, z, q, k);
      } else {
        RenderElsewhere(r, x + n, Skip(b, n), Skip(c, n), Skip(y, n), Skip(z, n), q, k - n);
      }
    case Leave(_) =>
    case Scoped(scope, at, body) =>
      var end: int, next: int := Size(body), at;
      RenderElsewhere(body, x, if scope.allowsBreak then Some(end) else b, if scope.allowsContinue then Some(next) else c,
                      if scope.allowsBreak then Some(end) else y, if scope.allowsContinue then Some(next) else z, q, k);
  }

  // ---- the invariant of back-patching ----

  predicate Waits(jumps: Pending, q: int) {
    exists k :: 0 <= k < |jumps| && jumps[k].ip == q
  }

  /** A break or continue that waits has the sentinel; one that does not leads forward to a stop. */
  predicate Settled(code: Code, jumps: Pending, q: nat, stop: int -> bool)
    requires q < |code|
  {
    && code[q].JMP?
    && if Waits(jumps, q) then code[q].rel == UNRESOLVED else code[q].rel >= 0 && stop(q + 1 + code[q].rel)
  }

  ghost predicate AllSettled(code: Code, jumps: Pending, leaf: int -> bool, stop: int -> bool) {
    && Live(jumps, |code|) && Unique(jumps)
    && (forall k :: 0 <= k < |jumps| && jumps[k].ip != UNRESOLVED ==> leaf(jumps[k].ip))
    && forall q :: 0 <= q < |code| && leaf(q) ==> Settled(code, jumps, q, stop)
  }

  /** The breaks and continues of the piece are leaves, and nothing else of it is; its stops are stops. */
  ghost predicate Known(p: Piece, n: nat, leaf: int -> bool, stop: int -> bool) {
    && (forall q :: n <= q < n + Size(p) ==> (leaf(q) <==> IsLeaf(p, n, q)))
    && (forall t :: IsStop(p, n, t) ==> stop(t))
  }

  /** Code that was there is only changed at leaves; new code is what the piece says, except at leaves. */
  ghost predicate Keeps(p: Piece, n: nat, code: Code, c: Code, leaf: int -> bool) {
    && n == |code| && |c| == n + Size(p)
    && (forall q :: 0 <= q < n && !leaf(q) ==> c[q] == code[q])
    && forall q :: n <= q < |c| && !leaf(q) ==> c[q] == Render(p, None, None)[q - n]
  }

  lemma {:induction false} PlaySettles(p: Piece, level: nat, code: Code, jumps: Pending, leaf: int -> bool, stop: int -> bool)
    requires AllSettled(code, jumps, leaf, stop) && Proper(p) && Known(p, |code|, leaf, stop)
    ensures var (c, j) := Play(p, level, code, jumps);
            AllSettled(c, j, leaf, stop) && Keeps(p, |code|, code, c, leaf)
    decreases p
  {
    match p
    case Fixed(c) => FixedSettles(c, code, jumps, leaf, stop);
    case Leave(kind) => LeaveSettles(kind, level, code, jumps, leaf, stop);
    case Then(a, b) =>
      var (c, j) := Play(a, level, code, jumps);
      KnownParts(a, b, |code|, |c|, leaf, stop);
      PlaySettles(a, level, code, jumps, leaf, stop);
      PlaySettles(b, level, c, j, leaf, stop);
      KeepsBoth(a, b, code, c, Play(b, level, c, j).0, |code|, |c|, leaf);
    case Scoped(scope, at, body) =>
      var (c, j) := Play(body, level + 1, code, jumps);
      KnownBody(p, |code|, leaf, stop);
      PlaySettles(body, level + 1, code, jumps, leaf, stop);
      CloseSettles(p, level + 1, code, c, j, leaf, stop);
  }

  lemma FixedSettles(c: Code, code: Code, jumps: Pending, leaf: int -> bool, stop: int -> bool)
    requires AllSettled(code, jumps, leaf, stop) && Known(Fixed(c), |code|, leaf, stop)
    ensures AllSettled(code + c, jumps, leaf, stop) && Keeps(Fixed(c), |code|, code, code + c, leaf)
  {
    forall q | 0 <= q < |code + c| && leaf(q) ensures Settled(code + c, jumps, q, stop) {
      assert q >= |code| ==> !IsLeaf(Fixed(c), |code|, q);
      assert Settled(code, jumps, q, stop);
    }
  }

  lemma LeaveSettles(kind: JumpKind, level: nat, code: Code, jumps: Pending, leaf: int -> bool, stop: int -> bool)
    requires AllSettled(code, jumps, leaf, stop) && Known(Leave(kind), |code|, leaf, stop)
    ensures var (c, j) := Play(Leave(kind), level, code, jumps);
            AllSettled(c, j, leaf, stop) && Keeps(Leave(kind), |code|, code, c, leaf)
  {
    var (c, j) := Play(Leave(kind), level, code, jumps);
    var n := |code|;
    assert IsLeaf(Leave(kind), n, n);
    assert j[|jumps|].ip == n;
    forall q | 0 <= q < |c| && leaf(q) ensures Settled(c, j, q, stop) {
      if q < n {
        assert Settled(code, jumps, q, stop);
        MoreWaits(jumps, j, q);
      }
    }
  }

  lemma MoreWaits(jumps: Pending, j: Pending, q: nat)
    requires |j| == |jumps| + 1 && jumps == j[..|jumps|] && j[|jumps|].ip != q
    ensures Waits(j, q) <==> Waits(jumps, q)
  {
    if Waits(jumps, q) {
      var k :| 0 <= k < |jumps| && jumps[k].ip == q;
      assert j[k].ip == q;
    }
  }

  lemma KnownParts(a: Piece, b: Piece, n: nat, m: nat, leaf: int -> bool, stop: int -> bool)
    requires Known(Then(a, b), n, leaf, stop) && m == n + Size(a)
    ensures Known(a, n, leaf, stop) && Known(b, m, leaf, stop)
  {
    var p := Then(a, b);
    forall q | n <= q < m ensures leaf(q) <==> IsLeaf(a, n, q) {
      assert leaf(q) <==> IsLeaf(p, n, q);
      if IsLeaf(b, m, q) {
        LeafWithin(b, m, q);
      }
    }
    forall q | m <= q < m + Size(b) ensures leaf(q) <==> IsLeaf(b, m, q) {
      assert leaf(q) <==> IsLeaf(p, n, q);
      if IsLeaf(a, n, q) {
        LeafWithin(a, n, q);
      }
    }
    forall t | IsStop(a, n, t) || IsStop(b, m, t) ensures stop(t) {
      assert IsStop(p, n, t);
    }
  }

  lemma KnownBody(p: Piece, n: nat, leaf: int -> bool, stop: int -> bool)
    requires p.Scoped? && Known(p, n, leaf, stop)
    ensures Known(p.body, n, leaf, stop) && stop(n + Size(p.body)) && (p.scope.allowsContinue ==> stop(n + p.continueAt))
  {
    forall q | n <= q < n + Size(p.body) ensures leaf(q) <==> IsLeaf(p.body, n, q) {
      assert leaf(q) <==> IsLeaf(p, n, q);
    }
    forall t | IsStop(p.body, n, t) ensures stop(t) {
      assert IsStop(p, n, t);
    }
    assert IsStop(p, n, n + Size(p.body));
    assert p.scope.allowsContinue ==> IsStop(p, n, n + p.continueAt);
  }

  lemma KeepsBoth(a: Piece, b: Piece, code: Code, c: Code, d: Code, n: nat, m: nat, leaf: int -> bool)
    requires Keeps(a, n, code, c, leaf) && Keeps(b, m, c, d, leaf)
    ensures Keeps(Then(a, b), n, code, d, leaf)
  {
    var r := Render(Then(a, b), None, None);
    assert r == Render(a, None, None) + Render(b, None, None);
    forall q | n <= q < |d| && !leaf(q) ensures d[q] == r[q - n] {
      if q < m {
        assert d[q] == c[q] == Render(a, None, None)[q - n];
      } else {
        assert d[q] == Render(b, None, None)[q - m];
      }
    }
  }

  // ---- closing a scope ----

  lemma CloseSettles(p: Piece, level: nat, code: Code, c: Code, j: Pending, leaf: int -> bool, stop: int -> bool)
    requires p.Scoped? && Proper(p) && Known(p, |code|, leaf, stop) && Known(p.body, |code|, leaf, stop)
    requires stop(|code| + Size(p.body)) && (p.scope.allowsContinue ==> stop(|code| + p.continueAt))
    requires AllSettled(c, j, leaf, stop) && Keeps(p.body, |code|, code, c, leaf)
    ensures var cont := ContinueOffset(p.scope, |code| + p.continueAt);
            var d, k := ResolvedCode(c, j, level, p.scope, cont, |c|), ResolvedJumps(j, level, p.scope, cont);
            AllSettled(d, k, leaf, stop) && Keeps(p, |code|, code, d, leaf)
  {
    var cont := ContinueOffset(p.scope, |code| + p.continueAt);
    var d, k := ResolvedCode(c, j, level, p.scope, cont, |c|), ResolvedJumps(j, level, p.scope, cont);
    forall q | 0 <= q < |c| && leaf(q) ensures Settled(d, k, q, stop) {
      CloseSettlesOne(p, level, code, c, j, leaf, stop, q, cont);
    }
    forall q | 0 <= q < |c| && !leaf(q) ensures d[q] == c[q] {
      assert Untouched(j, q);
      ResolveKeepsInstruction(c, q, j, level, p.scope, cont, |c|);
    }
    CloseKeeps(p, |code|, code, c, d, leaf, stop);
  }

  lemma CloseKeeps(p: Piece, n: nat, code: Code, c: Code, d: Code, leaf: int -> bool, stop: int -> bool)
    requires p.Scoped? && Keeps(p.body, n, code, c, leaf) && Known(p.body, n, leaf, stop) && |d| == |c|
    requires forall q :: 0 <= q < |c| && !leaf(q) ==> d[q] == c[q]
    ensures Keeps(p, n, code, d, leaf)
  {
    forall q | n <= q < |d| && !leaf(q) ensures d[q] == Render(p, None, None)[q - n] {
      var end: int, next: int := Size(p.body), p.continueAt;
      assert d[q] == c[q] == Render(p.body, None, None)[q - n];
      assert leaf(q) <==> IsLeaf(p.body, n, q);
      RenderElsewhere(p.body, n, None, None, if p.scope.allowsBreak then Some(end) else None,
                      if p.scope.allowsContinue then Some(next) else None, q, q - n);
    }
  }

  lemma CloseSettlesOne(p: Piece, level: nat, code: Code, c: Code, j: Pending, leaf: int -> bool, stop: int -> bool,
                        q: nat, cont: Option<nat>)
    requires p.Scoped? && Proper(p) && Known(p.body, |code|, leaf, stop) && |c| == |code| + Size(p.body)
    requires stop(|c|) && (p.scope.allowsContinue ==> stop(|code| + p.continueAt))
    requires AllSettled(c, j, leaf, stop) && q < |c| && leaf(q) && cont == ContinueOffset(p.scope, |code| + p.continueAt)
    ensures Settled(ResolvedCode(c, j, level, p.scope, cont, |c|), ResolvedJumps(j, level, p.scope, cont), q, stop)
  {
    var k := ResolvedJumps(j, level, p.scope, cont);
    assert Settled(c, j, q, stop);
    if Waits(j, q) {
      var i :| 0 <= i < |j| && j[i].ip == q;
      if Captured(j[i], level, p.scope, cont) {
        ResolveHits(c, j, i, level, p.scope, cont, |c|);
        StopsWaiting(j, i, level, p.scope, cont);
        if q >= |code| {
          assert leaf(q) <==> IsLeaf(p.body, |code|, q);
          LeafWithin(p.body, |code|, q);
        }
      } else {
        ResolveMisses(c, j, i, level, p.scope, cont, |c|);
        assert k[i].ip == q;
      }
    } else {
      assert Untouched(j, q);
      ResolveKeepsInstruction(c, q, j, level, p.scope, cont, |c|);
      assert Untouched(k, q);
    }
  }

  lemma StopsWaiting(j: Pending, i: nat, level: nat, scope: Scope, cont: Option<nat>)
    requires Unique(j) && i < |j| && j[i].ip >= 0 && Captured(j[i], level, scope, cont)
    ensures !Waits(ResolvedJumps(j, level, scope, cont), j[i].ip)
  {
    var k := ResolvedJumps(j, level, scope, cont);
    forall m | 0 <= m < |k| ensures k[m].ip != j[i].ip {
      if m < i {
        assert j[m].ip == UNRESOLVED || j[m].ip != j[i].ip;
      } else if i < m {
        assert j[i].ip == UNRESOLVED || j[i].ip != j[m].ip;
      }
    }
  }

  // ---- whole pieces ----

  /** What every address of a piece holds after back-patching from scratch, before the sweep. */
  ghost predicate Patched(p: Piece, c: Code, j: Pending) {
    && |c| == Size(p)
    && (forall q :: 0 <= q < |c| && !IsLeaf(p, 0, q) ==> c[q] == Render(p, None, None)[q])
    && (forall q :: 0 <= q < |c| && IsLeaf(p, 0, q) ==> Settled(c, j, q, t => IsStop(p, 0, t)))
    && forall k :: 0 <= k < |j| && j[k].ip != UNRESOLVED ==> 0 <= j[k].ip < |c| && IsLeaf(p, 0, j[k].ip)
  }

  lemma PlayFromScratch(p: Piece)
    requires Proper(p)
    ensures var (c, j) := Play(p, 0, [], []); Patched(p, c, j)
  {
    var leaf: int -> bool, stop: int -> bool := q => IsLeaf(p, 0, q), t => IsStop(p, 0, t);
    KnownSelf(p, leaf, stop);
    PlaySettles(p, 0, [], [], leaf, stop);
    var (c, j) := Play(p, 0, [], []);
    FromScratch(p, c, j, leaf, stop, []);
  }

  lemma KnownSelf(p: Piece, leaf: int -> bool, stop: int -> bool)
    requires (forall q :: leaf(q) <==> IsLeaf(p, 0, q)) && forall t :: stop(t) <==> IsStop(p, 0, t)
    ensures Known(p, 0, leaf, stop)
  {
  }

  lemma FromScratch(p: Piece, c: Code, j: Pending, leaf: int -> bool, stop: int -> bool, none: Code)
    requires AllSettled(c, j, leaf, stop) && Keeps(p, 0, none, c, leaf)
    requires (forall q :: leaf(q) <==> IsLeaf(p, 0, q)) && forall t :: stop(t) <==> IsStop(p, 0, t)
    ensures Patched(p, c, j)
  {
    forall q | 0 <= q < |c| && IsLeaf(p, 0, q) ensures Settled(c, j, q, t => IsStop(p, 0, t)) {
      assert leaf(q) && Settled(c, j, q, stop);
    }
  }
}
