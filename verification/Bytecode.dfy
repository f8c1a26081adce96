/** The instructions the modelled part of the compiler emits (instruction.h). */
module Bytecode {
  import opened Values
  import opened Syntax

  datatype Instruction =
    | PUSH(literal: Literal)
    | POP
    | UNDEF
    | LOAD(slot: nat)
    | STORE
    | REF(slot: nat)
    | BINOP(bop: BinaryOp)
    | UNARY(uop: UnaryOp)
    | RET
    | CALL(callee: string, nargs: nat, isMethod: bool)
    | TEST
    | JMP(rel: int)
    | JZ(rel: int)
    | JNZ(rel: int)
    | CONST(one: bool)
  {
    predicate IsJump() {
      JMP? || JZ? || JNZ?
    }

    /** Overwrite operand 0 of a jump. */
    function WithRel(r: int): Instruction {
      match this
      case JMP(_) => JMP(r)
      case JZ(_) => JZ(r)
      case JNZ(_) => JNZ(r)
      case _ => this
    }
  }

  type Code = seq<Instruction>

  /** The operand of a jump that nobody has patched yet. */
  const UNRESOLVED := -1

  const MAX_INSTRUCTIONS := 131072
  const MAX_PENDING_JUMPS := 1024
  const COMPILER_MAX_SCOPES := 32
  const MAX_CASES := 256
  const VM_STACK_SIZE := 256
  const VM_FRAME_SIZE := 32
  const VM_MAX_LOCALS := 256

  /** A compiled function: `locals[k]` is the folded name whose slot is `k`. */
  datatype Function = Function(code: Code, parameterCount: nat, locals: seq<string>)
}
