/** The skeletons of loops and switches, given their parts. */
module Shapes {
  import opened Wrappers
  import opened Bytecode
  import opened Emitter
  import opened Pieces

  /** Guard, body, update, jump back. The update is where `continue` goes. */
  function LoopPiece(g: Code, body: Piece, u: Code): Piece {
    var n := Size(body);
    Scoped(Scope(true, true), |g| + 2 + n,
           Then(Fixed(g + [TEST, JZ(n + |u| + 1)]),
                Then(body, Fixed(u + [JMP(-(|g| + 2 + n + |u|) - 1)]))))
  }

  /** The cases of a switch: the code that leaves the comparison in the flag, and the body. */
  datatype Arms = NoArms | Arm(test: Code, body: Piece, rest: Arms)

  /** `d` is the distance from here to the body of the first arm. */
  function TestsCode(arms: Arms, d: int): Code {
    match arms
    case NoArms => []
    case Arm(test, body, rest) =>
      var n := |test| + 1;
      test + [JNZ(d - n)] + TestsCode(rest, d - n + Size(body))
  }

  function TestsSize(arms: Arms): nat {
    match arms case NoArms => 0 case Arm(test, _, rest) => |test| + 1 + TestsSize(rest)
  }

  function BodiesPiece(arms: Arms): Piece {
    match arms case NoArms => Fixed([]) case Arm(_, body, rest) => Then(body, BodiesPiece(rest))
  }

  lemma {:induction false} TestsCodeSize(arms: Arms, d: int)
    ensures |TestsCode(arms, d)| == TestsSize(arms)
  {
    if arms.Arm? {
      TestsCodeSize(arms.rest, d - |arms.test| - 1 + Size(arms.body));
    }
  }

  /** After the tests have failed: the jump to the default body, over all the others. */
  function DefaultJump(arms: Arms, default: Option<Piece>): Code {
    if default.None? then [] else [JMP(Size(BodiesPiece(arms)))]
  }

  function DefaultOrNothing(default: Option<Piece>): Piece {
    match default case None => Fixed([]) case Some(p) => p
  }

  /** Tests, the jump to the default if there is one, the bodies in order, the default's body. */
  function SwitchPiece(arms: Arms, default: Option<Piece>): Piece {
    var j := DefaultJump(arms, default);
    Scoped(Scope(true, false), 0,
           Then(Fixed(TestsCode(arms, TestsSize(arms) + |j|) + j), Then(BodiesPiece(arms), DefaultOrNothing(default))))
  }

  // ---- tests whose jumps are patched when the bodies are emitted ----

  /** The tests before their jumps are patched. */
  function OpenTests(arms: Arms): (c: Code)
    ensures |c| == TestsSize(arms)
  {
    match arms case NoArms => [] case Arm(test, _, rest) => test + [JNZ(UNRESOLVED)] + OpenTests(rest)
  }

  /** The addresses of those jumps when the tests start at `at`. */
  function TestAddresses(arms: Arms, at: nat): seq<nat> {
    match arms
    case NoArms => []
    case Arm(test, _, rest) => [at + |test|] + TestAddresses(rest, at + |test| + 1)
  }

  /** Point each test, the first of which starts at `at`, to its body; the first body starts at `target`. */
  function PointTests(code: Code, arms: Arms, at: nat, target: nat): (r: Code)
    ensures |r| == |code|
    decreases arms
  {
    match arms
    case NoArms => code
    case Arm(test, body, rest) =>
      PointTests(SetTarget(code, at + |test|, target), rest, at + |test| + 1, target + Size(body))
  }

  /** Pointing the tests to the bodies completes the tests. */
  lemma {:induction false} PointIsTests(arms: Arms, pre: Code, post: Code, at: nat, target: nat, d: int)
    requires at == |pre| && d == target - at
    ensures PointTests(pre + OpenTests(arms) + post, arms, at, target) == pre + TestsCode(arms, d) + post
    decreases arms
  {
    if arms.Arm? {
      var n := |arms.test| + 1;
      var next, at1, start, d1 := pre + (arms.test + [JNZ(d - n)]), at + n, target + Size(arms.body), d - n + Size(arms.body);
      PointFirst(arms, pre, post, at, target, d - n, next, at1, start);
      PointIsTests(arms.rest, next, post, at1, start, d1);
      JoinTests(pre, arms.test, JNZ(d - n), TestsCode(arms.rest, d1), post);
    }
  }

  lemma PointFirst(arms: Arms, pre: Code, post: Code, at: nat, target: nat, x: int, next: Code, at1: nat, start: nat)
    requires arms.Arm? && at == |pre| && at1 == at + |arms.test| + 1 && x == target - at1 && start == target + Size(arms.body)
    requires next == pre + (arms.test + [JNZ(x)])
    ensures PointTests(pre + OpenTests(arms) + post, arms, at, target) ==
            PointTests(next + OpenTests(arms.rest) + post, arms.rest, at1, start)
  {
    UpdateTest(pre, arms.test, OpenTests(arms.rest), post, at + |arms.test|, x);
    PointStep(pre + OpenTests(arms) + post, next + OpenTests(arms.rest) + post, arms, at, at + |arms.test|, target, x);
  }

  lemma PointStep(code: Code, next: Code, arms: Arms, at: nat, q: nat, target: nat, x: int)
    requires arms.Arm? && q == at + |arms.test| && q < |code| && x == target - q - 1
    requires next == code[q := code[q].WithRel(x)]
    ensures PointTests(code, arms, at, target) == PointTests(next, arms.rest, q + 1, target + Size(arms.body))
  {
  }

  /** Patching one test among others. */
  lemma UpdateTest(pre: Code, t: Code, rest: Code, post: Code, q: nat, x: int)
    requires q == |pre| + |t|
    ensures var code := pre + (t + [JNZ(UNRESOLVED)] + rest) + post;
            q < |code| && code[q] == JNZ(UNRESOLVED) && code[q := JNZ(x)] == pre + (t + [JNZ(x)]) + rest + post
  {
  }

  lemma JoinTests(pre: Code, t: Code, jump: Instruction, rest: Code, post: Code)
    ensures pre + (t + [jump]) + rest + post == pre + (t + [jump] + rest) + post
  {
  }
}
