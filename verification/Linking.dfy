/** Programs and their compiled code, as the simulation relates them. */
module Linking {
  import opened Wrappers
  import opened Values
  import opened Syntax
  import opened Bytecode
  import opened Emitter
  import opened Pieces
  import opened Layout
  import opened Placement
  import opened Statements
  import opened Machine
  import opened Semantics
  import opened Locals

  /** Every break and continue has an enclosing statement to leave or to go on with. */
  predicate WellScoped(s: Stmt, brk: bool, cont: bool)
    decreases s, 1
  {
    match s
    case Block(body) => AllScoped(body, brk, cont)
    case If(_, a, b) => WellScoped(a, brk, cont) && (match b case None => true case Some(b) => WellScoped(b, brk, cont))
    case While(_, loop) => WellScoped(loop, true, true)
    case For(_, _, _, loop) => WellScoped(loop, true, true)
    case Switch(_, cases) => CasesScoped(cases, cont)
    case Break => brk
    case Continue => cont
    case _ => true
  }

  predicate AllScoped(ss: Stmts, brk: bool, cont: bool)
    decreases ss, 0
  {
    match ss case Nil => true case Cons(s, rest) => WellScoped(s, brk, cont) && AllScoped(rest, brk, cont)
  }

  predicate CasesScoped(cases: Cases, cont: bool)
    decreases cases, 0
  {
    match cases case NoCases => true case Case(_, body, rest) => AllScoped(body, true, cont) && CasesScoped(rest, cont)
  }

  /** The code, slots and limits of a compiled function. */
  ghost predicate Compiled(r: Routine, f: Function) {
    && f.code == Render(StmtPiece(r.body, f.locals), None, None) + [UNDEF, RET]
    && |f.code| <= MAX_INSTRUCTIONS
    && StmtBound(r.body, f.locals) && WellScoped(r.body, false, false)
    && FrameNames(f.locals, r.parameters) && f.parameterCount == |r.parameters|
  }

  ghost predicate Linked(src: Source, prog: Program) {
    src.Keys == prog.Keys && forall f :: f in src ==> Compiled(src[f], prog[f])
  }
}
