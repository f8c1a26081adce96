# A verified model of GSC

GSC is a small scripting language: a Pratt parser, a one-pass bytecode compiler that back-patches its jumps, a stack
machine, and a round-robin scheduler of threads that wait for time, frames and events. This project models these parts
in Dafny and proves what they do. `dafny verify dfyconfig.toml` checks everything.

The code that updates state in place is modelled as classes whose methods are proved against functions on values; the
theorems are about those functions, over all inputs and all runs.

**Compiler and machine.** `Compiling.Compiler` has the arrays and counters of `compiler.c` and emits, patches, opens and
closes scopes as it does; it is proved equal to `Emitter`, the same on values. `VirtualMachine.ScriptThread` is the stack
machine of `vm.c`, equal to `Machine`. `Semantics` gives the meaning of the syntax without any machine: integers are
64-bit words that wrap, a condition looks at the low 32 bits (`thr->result` is an `int`), undefined behaviour of C
(division of the least integer by -1, modulo zero, shifts out of range) is a fault of its own. `Layout` is the intended
code, written without back-patching. The main results: the compiler emits the intended code exactly under a condition
that can be read off the source; the code then does what the source means, over nested calls and all runs. Whatever the
breaks and continues of a body, every jump stays inside its function and every address has one stack depth; that depth
is the machine's in every run, frame upon frame, so the only faults are those of the script and the fixed limits.

- `Pieces`, `Shapes`, `Backpatch`, `Adoption`, `Placement`, `Statements`: from emission to layout, and exactly when.
- `Runs`, `Glue`, `Runners`, `Calling`, `Flowing`, `Looping`, `Switching`: executions of code fragments, for arbitrary
  meanings of the parts. `Simulation`, `Behaviour`, `Correctness`: the induction over the syntax.
- `Arithmetic`: what the operators compute, in the integers of mathematics. `Folding`: names up to case, and what follows for
  variables, parameters, calls and tries. `Limits`: the fixed sizes in numbers.
- `Functions`, `Slots`, `Bounds`, `Jumps`, `Patches`, `Depths`, `Paths`, `Nesting`: facts about one compiled function.
  `Heights`, `Programs`, `Blame`: whole programs. `Quirks`, `Switches`: where the language is not what its syntax
  suggests, and exactly when it is. `Threading`, `Starting`: how a thread gets its first locals.

**Parser.** `Pratt` and the class `ExpressionParser.Parser` follow `precedence.c` over the real operator table. `Trees`
says, without mentioning the parser, which trees the table demands; the parser accepts exactly those. `Levels` says, without
mentioning the table, how the operators group.

**Scheduler.** `Scheduling` is `vm_run_threads` as a function; what a running thread does before it waits or ends is an
arbitrary list of actions. `Schedulers.Scheduler` is the ring buffer, the event array and the thread pool, updated in
place. `Conservation`, `Delivery`, `Waiting` and `Episodes` prove the laws of ticks and of whole runs; `Performed` and
`Pauses` connect them to what scripts and host do: each `notify`, `wait`, `waittill` and `endon`.

**Index structures.** `HashTries` (also the field table of an object), `StringTables`, and `FreeLists` (the object pool
and the reference registry).

## What the code does, against expectation

- A `continue` inside a `switch` waits in the list of pending jumps, and a later loop that closes at a smaller scope
  level takes it over, because `decrement_scope` only tests `j->scope < scope_level`. This also happens inside an
  enclosing loop: `for (;;) { switch (1) { case 1: continue; } for (;;); }` continues in the second loop.
  `Functions.Undisturbed` is the exact condition, on the source; `Quirks.ContinueIsTakenOver` is the counterexample.
- Unary minus subtracts zero, so it is the identity.
- A `switch` runs the bodies that C's would run, whatever matches, exactly if it ends in its one `default` or is empty
  (`Switches.UnmatchedIsCsIff`, `Switches.MatchedIsCsIff`). Without `default` and match it runs its bodies from the
  first on (`MissingDefault`); the body of the last `default` is moved to the end and run after every other one
  (`EarlyDefault`); a `default` that another one follows is not compiled.
- The discriminant of a `switch` is compiled again in front of every label: `switch (x++) { case 5: case 1: }` with `x`
  0 finds the label 1 and leaves 2 in `x` (`Switches.DiscriminantTwice`). Without labels it is not evaluated at all.
- A condition is true when the low 32 bits of the integer are not zero.
- The 32nd nested scope passes the guard of `increment_scope` and is written to index 32 of an array of 32; only the 33rd
  is refused. Here both are errors: at most 31 loops and switches can be nested (`Nesting.ScopesSuffice`).
- `&&` and `||` yield an integer on the short path and a boolean otherwise (`Quirks.AndResult`, `Quirks.OrResult`).
- A function with more than 256 local variables is called, or started in a new thread, without any check, and the locals
  behind the 256th are written past the end of `locals`. Here such a call or start is an error.
- The pool of threads has `max_threads` records but the ring has one place less: a thread that starts the last free
  thread cannot be queued again, and the tick fails.
- A new thread, whether a script or the host starts it, takes its arguments from the last one on. With more arguments
  than parameters it does not bind `self`, nor the first arguments; and an argument that has no local is written through
  a null pointer. `Programs.ProgramStartsIff` says exactly when the arguments are bound as they are meant. The inputs
  are `Programs.ArgumentBehindLocals`, `f() { return self; }` started with one argument, and `Programs.SelfIsLost`.
- The guard of `gsc_push_ref` and `gsc_unref` takes the last slot of the free list for a held handle. Releasing it makes
  the list circular.
- `string_table_get` of an index that was not issued yet yields the string at offset 0.

## Model

| member | source | states |
|---|---|---|
| Compiling.Compiler.Emit | compiler.c:126-156 | an instruction is appended and nothing else changes; when the buffer is full, there is an error instead |
| Compiling.Compiler.PatchRelJump | compiler.c:173-180 | the operand of the given jump becomes the distance to the next instruction; no other instruction changes |
| Compiling.Compiler.IncrementScope | compiler.c:182-191 | a scope is pushed with its two permissions; with 31 open ones, where the C code writes past its array, there is an error |
| Nesting.ScopesSuffice | compiler.c:182-191 | a body with at most 31 nested loops and switches never overruns the array of scopes; with 32 or more nothing is compiled |
| Nesting.ThirtyTwoScopesOverrun | compiler.c:182-191 | 31 nested endless loops compile, and with 32 or more the array is overrun |
| Compiling.Compiler.EmitPending | compiler.c:193-211 | a jump without target is emitted and entered in the pending list with the current scope level |
| Compiling.Compiler.DecrementScope | compiler.c:213-239 | every pending jump that the closing scope captures is patched in place to its target and marked; all others stay |
| Compiling.Compiler.Declare | compiler.c:585-599 | the entry of the folded name in the trie of variables has its slot, which for a new name is the next one; the slots count the names in the order of the trie; a repeated parameter is an error; which names are one is said by `Folding.OneSlotIff` |
| Compiling.Compiler.DefineLocalVariable | compiler.c:601-618 | a use of a name has its slot, new or old, and never fails |
| Compiling.Compiler.VisitExpr | compiler.c:746-997 | emitting an expression in place is the emission function; names and code only grow and scopes are restored |
| Compiling.Compiler.VisitLogical | compiler.c:860-892 | the short-circuit jump skips the right operand, its combination and the jump over the short result |
| Compiling.Compiler.VisitIf | compiler.c:490-507 | the two forward jumps of a branch are patched after the branches are emitted |
| Compiling.Compiler.VisitSwitch | compiler.c:651-708 | tests first, then the bodies in order, each test patched to its body, the default last |
| Compiling.Compiler.VisitStmt | compiler.c:381-422 | emitting a statement in place is the emission function, and every scope it opens is closed again |
| Compiling.Compiler.SweepUnresolved | compiler.c:1099-1108 | only jumps that still have the sentinel are rewritten |
| Compiling.Compiler.Compile | compiler.c:1065-1120 | a used compiler object compiles a function as a fresh one would; the names that it reports are those that the list of the trie goes through, by slot |
| Placement.EmitExprIsLayout | compiler.c:746-997 | emitting an expression, with all its later patches, appends its layout under the names that are known in the end |
| Placement.ExprCodeIsStable | compiler.c:585-599 | code stays valid when later code invents more slots |
| Statements.EmitStmtIsPlay | compiler.c:385-744 | emitting a statement appends its skeleton with exactly the skeleton's pending jumps |
| Backpatch.PlayIsRender | compiler.c:213-239 | when no pending jump is adopted, each is patched once, to the end or continue address of the innermost scope that allows it |
| Adoption.PlayIsRenderIff | compiler.c:219-234 | back-patching gives the intended code if and only if no jump is adopted by a scope that does not contain it |
| Functions.CompiledAsMeantIff | compiler.c:1065-1120 | a function is compiled to its intended code if and only if its body satisfies a syntactic condition: no loop follows a switch from which a `continue` leaves, at a depth where it takes that jump |
| Quirks.ContinueIsTakenOver | compiler.c:219-234 | the body of the example above is well-scoped and compiles, but not to its intended code |
| Paths.SentinelIffPending | compiler.c:1098-1108 | when any body has been compiled, a jump has the sentinel if and only if it is a break or continue that is still pending; so the sweep changes these and no others |
| Paths.JumpsStayInside | compiler.c:1098-1108 | whatever the body, no jump of a compiled function is left at the sentinel, and every jump target lies inside the function |
| Jumps.StmtKeeps | compiler.c:163-239 | told where breaks and continues go, the code of a well-scoped statement jumps only inside itself and there |
| Slots.DefineParametersInOrder | compiler.c:1078-1090 | parameters get the slots after self in order, case-folded; a repeated one is refused |
| Slots.CompiledSlots | compiler.c:1078-1097 | slots are 0..n-1, distinct up to case, self is 0, parameters are 1..p in order |
| Folding.LowerIff | compiler.c:80-91 | folded names are equal if and only if the names have one length and are, at every place, one character or the two forms of one ASCII letter |
| Folding.LowerIsSameName | compiler.c:80-91 | the folded name is the same name without upper-case letters |
| Folding.OneSlotIff | compiler.c:585-599 | two names have one slot if and only if they are the same up to case in this sense |
| Folding.AssignmentReaches | compiler.c:601-618 | what is assigned under one name is read under another if and only if they are the same up to case |
| Folding.RepeatedParameterIff | compiler.c:1078-1085 | a function is refused for its parameters if and only if two of them, or one and self, are the same up to case |
| Folding.ParameterBinds | vm.c:2617-2628 | a callee finds the argument under the name of its parameter in any case, or undefined if there is none |
| Folding.OthersUnbound | vm.c:2617-2628 | it finds what it was called on in self, and undefined under any other name |
| Folding.CalleeFoundIff | library.c:113-122 | a call finds a function if and only if there is one whose name is the same up to case |
| Folding.CallsOfOneName | library.c:113-122 | so the case of a callee's name changes no meaning |
| Folding.InvocationsOfOneName | library.c:113-122 | nor does it change a step of the machine |
| Depths.ExprClimbs | compiler.c:746-972 | along every path the code of an expression leaves exactly one value more, and stays inside itself |
| Depths.StmtLevel | compiler.c:381-744 | along every path a statement starts, ends, breaks and continues with nothing of its own on the stack |
| Paths.FunctionIsBalanced | compiler.c:1065-1108 | any compiled function has a depth for every address such that every instruction has its operands, every successor has the depth that it leaves, and a return has one value |
| Paths.FunctionSlots | compiler.c:585-618 | any compiled function uses the slots of its own local variables only |
| Paths.OneDepthPerAddress | vm.c:1388-1393 | all paths to one address have the same stack depth and never leave the function; a return is reached with one value |
| Heights.StepTallies | vm.c:1388-1977 | a step keeps the stack as the profiles of the functions in the chain of calls have it, over calls and returns too; it fails only for a fault of the script, or when a limit is really reached |
| Programs.StackIsAsProfiled | vm.c:2727-2742 | from any start, in every state of every run of a compiled program the operand stack consists, frame upon frame, of what the static profiles say |
| VirtualMachine.ScriptThread.BindLocals | vm.c:2613-2628 | slot 0 is self, slots 1..min(nargs, params) are the arguments in source order, the rest is undefined |
| VirtualMachine.ScriptThread.ExecuteCall | vm.c:1893-1965 | frame limit, unknown function, argument count and locals as in the source, with the caller's frame kept |
| VirtualMachine.ScriptThread.ExecuteRet | vm.c:1850-1874 | the caller's frame is restored with its instruction pointer, or the thread ends with the value on top |
| VirtualMachine.ScriptThread.ExecuteStore | vm.c:1589-1630 | assignment through a reference changes one slot of one frame |
| VirtualMachine.ScriptThread.Step | vm.c:2727-2742 | one instruction executed in place is one step of the machine on values; what an operator computes in it is said by the module `Arithmetic` |
| VirtualMachine.ScriptThread.RunThread | vm.c:2727-2742 | running in place is running on values, for any number of instructions |
| Values.TestIsNonzero | vm.c:1676-1680 | a condition agrees with C's on an integer if and only if the integer is zero or no multiple of 2^32 |
| Arithmetic.AddIsExact | vm.c:1032-1033 | for all operands, a sum is the 64-bit word congruent to the exact sum modulo 2^64, and the exact sum if that is in range |
| Arithmetic.SubIsExact | vm.c:1050-1051 | the same for differences |
| Arithmetic.MulIsExact | vm.c:1048-1049 | the same for products |
| Arithmetic.SubUndoesAdd | vm.c:1032-1051 | `x + y - y` is `x`, whatever overflows |
| Arithmetic.MulDistributes | vm.c:1032-1049 | `(x + y) * z` is `x * z + y * z`, whatever overflows |
| Arithmetic.Compares | vm.c:1058-1081 | exactly one of less, equal and greater holds; less is that the difference of the integers is positive, and the other comparisons follow from these |
| Arithmetic.DifferenceTellsOrderIff | vm.c:1050-1081 | `a < b` agrees with `a - b < 0` if and only if the difference does not overflow |
| Arithmetic.DivModIsExact | vm.c:1034-1047 | quotient and remainder are the only q and r with a = q*b + r where r is smaller than b and has the sign of a |
| Arithmetic.DivModElsewhere | vm.c:1034-1047 | dividing by zero gives 0; the remainder by zero, and the least integer with -1, are faults |
| Arithmetic.ShiftLeftIsExact | vm.c:1092-1093 | a shift to the left multiplies by 2^n modulo 2^64; n outside 0..63 is a fault |
| Arithmetic.ShiftRightIsExact | vm.c:1094-1095 | a shift to the right divides by 2^n and rounds down |
| Arithmetic.ShiftBack | vm.c:1092-1095 | shifting to the left and back is the identity if nothing is lost |
| Arithmetic.BitAndIsExact | vm.c:1054-1055 | the result is the one word that has, bit by bit, the conjunction of the bits of the operands in two's complement |
| Arithmetic.BitOrIsExact | vm.c:1052-1053 | the same with the disjunction |
| Arithmetic.BitXorIsExact | vm.c:1056-1057 | the same with the exclusive disjunction |
| Arithmetic.BitNotIsExact | vm.c:923 | `~x` is -1 - x, has exactly the other bits, and is its own inverse |
| Arithmetic.NotInverts | vm.c:886-930 | `!` inverts the truth value, also when it is a condition |
| Arithmetic.NotOppositeIff | vm.c:1676-1680 | the conditions `!i` and `i` are opposites if and only if i is zero or no multiple of 2^32 |
| Arithmetic.BooleanCounts | vm.c:787-816 | a boolean operand counts as 0 or 1 |
| Arithmetic.UndefinedIsAlone | vm.c:1002-1024 | undefined equals only undefined, and has no other operation |
| Arithmetic.LogicalIsExact | vm.c:1082-1089 | the combining operators are those of the truth values |
| Arithmetic.LiteralsMeanThemselves | vm.c:1682-1738 | a literal is the value that it spells: `true` tests true, `false` false, an integer is itself |
| Arithmetic.BinaryMeans | compiler.c:894-900 | in an expression, `l < r` and the sums, differences and products of l and r are those of the integers that l and then r evaluate to |
| Arithmetic.PostfixCounts | compiler.c:768-797 | after `x++` or `x--`, which have the old value, x is one more or less, modulo 2^64 |
| Arithmetic.OpAssignMeans | compiler.c:845-853 | `x op= r` has the value of the operator on x and r, and leaves it in x |
| Correctness.ExprSim | vm.c:1397-1977 | running the code of any expression, from any state that represents the store, pushes its value and represents the new store, or fails with its fault |
| Correctness.StmtSim | vm.c:1397-1977 | running the code of any statement reaches its end, its break or continue target, or a return, as the statement means |
| Correctness.LoopSim | compiler.c:397-422 | loops with any nesting, with break and continue, run as they mean |
| Correctness.SwitchSim | compiler.c:651-708 | test chain, bodies and fall-through run as the switch means |
| Correctness.CalleeSim | vm.c:2580-2644 | calling a function with arbitrarily nested calls replaces arguments, self and count by its value and restores the caller |
| Starting.ThreadedCallStarts | vm.c:1931-1952 | a threaded call gives the new thread the locals that a start with its self and arguments gives |
| Starting.StartByHost | vm.c:2646-2684 | a call by the host takes the arguments off its stack and starts the thread with them, in their order; it refuses more than 64 |
| Starting.StartFailsIff | vm.c:2580-2644 | no thread is started if and only if the stack or the 256 locals do not suffice, or there are as many arguments as locals; otherwise it stands at the start of the function |
| Programs.ProgramStartsIff | vm.c:2617-2628 | a thread of a compiled program starts with its arguments bound as in a plain call if and only if it fits, and there are no more arguments than parameters or what is bound wrongly is undefined anyway |
| Programs.ProgramIsCorrect | vm.c:2727-2742 | compiler correctness: a thread that is started with its arguments bound as they are meant returns the value that the source means, fails with the fault that it means, and runs on while that runs on, unless a fixed limit of the machine is hit |
| Programs.AnyStartIsCorrect | vm.c:2617-2628 | however the arguments are bound, the thread does what the body of the function means for the variables that it starts with |
| Programs.ArgumentBehindLocals | vm.c:2617-2628 | a function without parameters that returns self, started with one argument, means self, but is not started at all |
| Programs.SelfIsLost | vm.c:2617-2628 | one with a variable of its own is started without self, and means undefined instead |
| Programs.ReturnsOnlyTheMeaning | vm.c:2727-2742 | the converse: whatever value such a thread returns is the value that the source means |
| Programs.ProgramIsSafe | vm.c:2727-2742 | no run of any length of any compiled program, from any start, underflows the stack, leaves the code, touches a slot that is not there or stores through something else than a reference |
| Programs.BudgetMeetsNoLimit | vm.c:1893-1965 | from any start, no limit of the machine is met if the functions keep to budgets of at most 31 nested calls and 256 operands in all, and have at most 256 locals each |
| Limits.SwitchFits | compiler.c:651-677 | a switch that is compiled has at most 256 labels |
| Limits.LabelFitsIff | compiler.c:651-677 | the 256th label is compiled and the next one refused |
| Limits.PendingFitsIff | compiler.c:193-211 | 1024 breaks and continues of a function can be pending, and no more |
| Limits.CallFitsIff | vm.c:1893-1965 | a call succeeds if and only if at most 30 calls are open below it and the callee has at most 256 locals |
| Programs.MeaningBlames | vm.c:972-1090 | the meaning of any compiled program has only the faults of scripts: wrong types, undefined arithmetic, functions that do not exist |
| Quirks.MinusIsIdentity | compiler.c:754-759 | the negation of an integer is that integer |
| Quirks.MinusNegatesIff | compiler.c:754-759 | unary minus negates an integer if and only if it is 0 or the least one |
| Quirks.AndResult | compiler.c:860-892 | the result of `&&` is a boolean if and only if the right operand was evaluated, that is if the left one tests true; it is then whether the right one is nonzero, and 0 otherwise |
| Quirks.OrResult | compiler.c:860-892 | the same for `||`, with the left operand testing false, and 1 otherwise |
| Switches.ChoiceIsCs | compiler.c:662-677 | if the discriminant assigns nothing or there is at most one label, and no label assigns anything, evaluating the discriminant again at every label is evaluating it once and taking the first equal label; without labels it is not evaluated |
| Switches.SwitchesAreOrders | compiler.c:679-706 | this switch and C's both run bodies one after the other until one leaves; which ones, is a matter of the syntax and of the match |
| Switches.MatchedIsCsIff | compiler.c:679-706 | after a match these are the same bodies if and only if there is no default, or the cases from the match on end in their one default |
| Switches.UnmatchedIsCsIff | compiler.c:679-706 | without a match they are the same if and only if the switch is empty or ends in its one default |
| Switches.SwitchIsCs | compiler.c:651-708 | under the same condition the switch is C's as a statement, in each case that the two conditions on the bodies allow |
| Switches.EndingSwitchIsCs | compiler.c:651-708 | so a switch that ends in its one default is C's whatever it finds, provided that it has a label or its discriminant neither fails nor assigns |
| Switches.UnmatchedFallsIn | compiler.c:679-706 | without match and default this switch runs all bodies from the first, which is what C does if and only if that changes nothing |
| Switches.MissingDefault | compiler.c:679-706 | a switch without default that returns here and is skipped in C |
| Switches.EarlyDefault | compiler.c:679-706 | a switch with the default first that returns in C and not here |
| Switches.DiscriminantTwice | compiler.c:662-677 | a switch over `x++` that finds a label here, and none in C |
| Threading.BindThreaded | vm.c:1931-1952 | reversing the arguments twice, on the way to the new stack and into the locals |
| Threading.ThreadedAgreesIff | vm.c:2613-2628 | a threaded call binds the locals of a plain call if and only if there are no more arguments than parameters, or what is bound differently is undefined anyway, self included |
| ExpressionParser.Parser.ParseExpression | precedence.c:580-597 | the loop over operators in place is the recursive specification, on every token sequence; what that reads is said by `Accepting.ParserIsExact` and, symbol by symbol, by the module `Levels` |
| ExpressionParser.Parser.NullDenotation | precedence.c:547-560 | prefix position, in place, is the specification, errors included |
| ExpressionParser.Parser.LeftDenotation | precedence.c:562-578 | infix and postfix position, in place, is the specification, errors included |
| ExpressionParser.Parser.CallExpression | precedence.c:140-174 | the argument list with its limit of 32 and its optional trailing comma |
| Parsing.ParseSound | precedence.c:580-597 | what is parsed spells the consumed tokens, has the shape that the table demands, and no operator that binds tighter is left in front |
| Accepting.ParserIsExact | precedence.c:461-597 | the parser returns a tree if and only if it is a tree that the table demands, spelled by the consumed tokens and rightly followed |
| Printing.SpellsIffShown | precedence.c:275-459 | spelling a tree from a position is having the printed tokens there |
| Roundtrip.PrintThenParse | precedence.c:413-438 | any tree, printed with parentheses where the table needs them, is parsed back to itself up to groups |
| Roundtrip.RoundTrip | precedence.c:461-597 | a tree without groups comes back exactly once the added groups are stripped |
| Roundtrip.ParseThenPrint | precedence.c:580-597 | printing a parsed tree gives the very tokens that were read, of which there is at least one |
| Roundtrip.ArrangeKeeps | precedence.c:461-519 | no parentheses are added to a tree that the parser can return |
| Roundtrip.Unambiguous | precedence.c:461-597 | one token sequence has at most one tree |
| Roundtrip.MinusTakesTheProduct | precedence.c:521-545 | `-a*b` is `-(a*b)` |
| Roundtrip.LeftAssociative | precedence.c:275-282 | binary operators of one level group to the left |
| Roundtrip.RightAssociative | precedence.c:440-447 | assignments group to the right |
| Levels.TighterTakesFirst | precedence.c:463-480 | for operands x, y, z and any two binary operators of different levels, listed by name, y belongs to the tighter one, wherever that stands; the levels are the products, the sums, the shifts, comparisons and bitwise operators, and the logical operators |
| Levels.LevelGroupsLeft | precedence.c:463-480 | two operators of one of these levels group to the left |
| Levels.BinaryBeforeTernary | precedence.c:492 | all of them bind tighter than the conditional operator, in its three parts |
| Levels.TernaryBeforeAssignment | precedence.c:481-492 | a conditional expression is assigned as a whole |
| Levels.TernaryTakesAll | precedence.c:449-457 | the last part of a conditional expression takes another one, or an assignment |
| Levels.BinaryBeforeAssignment | precedence.c:481-491 | all of them bind tighter than any of the eleven assignments, on both sides |
| Levels.AssignmentsGroupRight | precedence.c:481-491 | any two of the assignments group to the right |
| Levels.NotBeforeBinary | precedence.c:505-506 | `!` and `~` bind tighter than any binary operator |
| Levels.SignBeforeSum | precedence.c:463-464 | prefix signs bind tighter than all binary operators but the products |
| Levels.SuffixBeforePrefix | precedence.c:495-504 | `++`, `--`, a member, an index or a call takes the operand before any prefix operator does |
| Levels.SuffixBeforeBinary | precedence.c:495-504 | and before any binary operator does |
| Levels.SuffixesInOrder | precedence.c:495-504 | several of them are applied from left to right |
| Levels.MethodCallFirst | precedence.c:512 | a method call takes the object before any prefix operator does |
| Levels.CallLimit | precedence.c:140-174 | a call is read if and only if it has at most 32 arguments |
| Levels.ParenthesesGroup | precedence.c:413-438 | parentheses overrule all levels; with three expressions they are a vector |
| Levels.NotAPrefix | precedence.c:547-560 | no other symbol starts an expression, whatever follows |
| Levels.NotAnInfix | precedence.c:562-597 | an expression ends before the symbols that are not operators; `!`, `~` and an opening brace behind an operand are errors |
| Schedulers.Scheduler.AddThread | vm.c:1273-1281 | the ring is a queue of capacity `max_threads - 1`: appending, or an error when it is full |
| Schedulers.Scheduler.RemoveThread | vm.c:1283-1290 | the front of the queue is removed; nothing when it is empty |
| Schedulers.Scheduler.ThreadCount | vm.c:190-197 | the number of queued threads, also when the ring wraps around |
| Schedulers.Scheduler.NotifyArgs | vm.c:2698-2712 | an active event for exactly the given name and object, with the first 16 values, is appended; with 256 events there is an overflow error, and only then |
| Schedulers.Scheduler.StartThread | vm.c:1931-1952 | a record is taken from the front of the pool, reset and queued |
| Schedulers.Scheduler.CheckEndOn | vm.c:2757-2768 | a thread becomes inactive if and only if some active event has one of its names |
| Schedulers.Scheduler.DeliverEvent | vm.c:2814-2837 | the first active event with the name and object is taken and consumed; only as many arguments as both sides have are passed |
| Schedulers.Scheduler.CompactEvents | vm.c:2845-2851 | the active events are kept in their order, in place |
| Schedulers.Scheduler.RunThreads | vm.c:2744-2854 | one tick in place is one tick on values, for everything that running threads may do; the representation stays sound |
| Conservation.TickOrder | vm.c:2744-2843 | each thread queued at the start gets one turn, in order; none that is started in the tick does; the queue becomes, thread by thread, what it started and then itself unless it was freed |
| Conservation.StartedIsFresh | vm.c:1931-1952 | a thread started in a tick is at its end as it was when it was started |
| Pauses.StartedRuns | vm.c:1931-1952 | a thread that is started in a tick is active then, is not ended in the next one, and performs its first slice there |
| Pauses.CalledRuns | vm.c:2580-2644 | so does one that the host starts; it takes a free record, is queued behind all others, and changes nothing else |
| Conservation.ConservedIsPartition | object_pool.h:81-111 | queued and free records are disjoint, without repetition, and together all; at least one is free |
| Conservation.LastRecordIsOneTooMany | vm.c:1273-1281 | a turn whose actions all succeed fails, with a full queue, if and only if they took the last free record |
| Delivery.TickBalances | vm.c:2698-2851 | per key: what was pending and then posted is what was delivered and is then pending, in one order |
| Delivery.CompactKeeps | vm.c:2845-2851 | compaction loses no pending event and changes no order |
| Delivery.CompactDrops | vm.c:2845-2851 | and no taken event stays |
| Delivery.EventMatching | vm.c:2814-2837 | the i-th thread that waits for a key, in queue order and not ended, gets the i-th pending event for it and is active again |
| Delivery.NoLostWakeup | vm.c:2814-2837 | when a thread still waits for a key at the end of a tick, every event for it that was pending at the start has been delivered |
| Performed.NotifyPends | vm.c:2698-2712 | after a notification the pending events of its key are the earlier ones and then one with the first 16 values, by index; those of all other keys are unchanged |
| Performed.TickTells | vm.c:1796-1814 | the events of a tick are, for each key and in order, the notifications of the threads that ran; and as many threads are started |
| Performed.EveryNotify | vm.c:2125-2147 | over every run of a new VM: what scripts and host have notified for a key, in that order, is what has been delivered, oldest first, and then what is pending |
| Pauses.InboxByIndex | vm.c:2814-2837 | the i-th waiting thread has in its variables, one by one, the values of the i-th event, as many as both have |
| Pauses.NotifyWakes | vm.c:1766-1794 | a thread that executes `waittill` and is alone with its key is active after the next `notify` for it and a tick, with the first values, at most as many as it has variables and at most 16 |
| Pauses.WaitsForItsKey | vm.c:2814-2837 | nothing but an event for its key wakes it |
| Delivery.EndedExactly | vm.c:2757-2768 | a thread is freed in a tick if and only if it has returned, or if at its turn an event with one of its `endon` names was pending at the start or posted earlier in the tick and has not been taken by a thread before it |
| Waiting.TickMoves | vm.c:2774-2812 | a thread that has returned is freed in the next tick; one without `endon` names stays; one that stays has moved on by one turn |
| Pauses.SliceEnds | vm.c:1750-1794 | the action that ends a slice decides the state: `wait d` waits for d, `waittill` for exactly that name and object with at most 16 variables; the `endon` names are the earlier ones and those of the slice |
| Pauses.ActiveRuns | vm.c:2806-2812 | an active thread that is not ended performs its actions: what it notifies is among the events of the tick, in one piece |
| Pauses.ExecutedFinish | vm.c:2793-2804 | a thread that returns from its last function is freed in the next tick, performs nothing any more, and its record is in the pool or in use for a thread started after it |
| Pauses.ExecutedFrameWait | vm.c:1759-1762 | a `wait` without a time takes exactly one tick |
| Pauses.ExecutedWaitLasts | vm.c:1750-1758 | a thread that executes `wait d` is waiting after that tick and up to ceil(d/dt) more ticks of length dt |
| Pauses.ExecutedWaitEnds | vm.c:1750-1758 | it is active after the one that follows, so it goes on in the tick ceil(d/dt) + 2 after the one of its `wait` |
| Waiting.UnendedSurvives | vm.c:2757-2785 | a thread without `endon` names is not freed before its time is up, whatever happens in the ticks |
| Waiting.StillWaiting | vm.c:2776-2785 | a wait for d of a thread that has no `endon` names, or is not ended by them, goes on as long as less than d has gone by before every tick, and counts down the time |
| Waiting.WakesWhenDue | vm.c:2776-2785 | the first tick before which d has gone by makes the thread active, so that it runs in the one after |
| Waiting.WaitsThroughEvenTicks | vm.c:2776-2785 | with ticks of length dt a stored wait of d lasts through ceil(d/dt) ticks, or none if d is not positive |
| Waiting.WakesAfterEvenTicks | vm.c:2776-2785 | and ends in the next one |
| Episodes.EpisodeConserves | vm.c:2580-2854 | conservation of threads over every run of calls, posts and ticks |
| Episodes.EveryRun | vm.c:2125-2147 | from a new VM, over every run: no record is lost or shared, and the posted events of a key are the delivered ones followed by the pending ones, each once |
| HashTries.HashAgrees | hash_trie.h:50-59 | keys that are equal, up to case if so chosen, have equal hashes |
| Folding.MixIsExact | hash_trie.h:50-59 | a step of the hash is the exclusive disjunction, bit by bit, times a constant modulo 2^64 |
| Folding.OneNodeIff | hash_trie.h:61-75 | two keys that are found are one node if and only if they are equal, or, without case, the same up to the case of ASCII letters |
| Folding.FoundIffHeld | hash_trie.h:61-75 | a key is found if and only if a key is held that is the same in this sense |
| HashTries.SearchIsMembership | hash_trie.h:61-96 | a key is found if and only if it was inserted, at its place in the order of insertion |
| HashTries.SearchAfterInsert | hash_trie.h:61-96 | an insertion changes no lookup that found a node |
| HashTries.InsertIsWellFormed | hash_trie.h:76-88 | list and tree stay two views of the same keys, in insertion order, after `*m`, `*tail` and `tail` are written |
| HashTries.HashTrie.Upsert | vm.c:2028-2071 | refines an insertion-ordered map, also when the hash has been shifted to zero; without an allocator nothing changes |
| HashTries.HashTrie.Enumerate | hash_trie.h:84-87 | following `next` visits every key once, in insertion order |
| StringTables.StringTable.Intern | string_table.h:73-97 | a known string keeps its index, a new one gets the next; exactly when and how it fails |
| StringTables.StringTable.Get | string_table.h:63-71 | the string of an issued index; offset 0 for one not issued; nothing out of range |
| StringTables.IndexIsStable | string_table.h:63-97 | over any run, an index still stands for its string at the end |
| StringTables.InternIsInjective | string_table.h:73-97 | over any run, two strings have one index if and only if they are equal |
| StringTables.IndicesAreDense | string_table.h:90-96 | over any run, the indices are 0, 1, ... without gap |
| FreeLists.RefRegistry.constructor | library.c:279-293 | all slots are on the free list, none is held |
| FreeLists.RefRegistry.Ref | library.c:758-781 | a handle that is not held yet, for the value; refused if and only if all are held |
| FreeLists.RefRegistry.PushRef | library.c:783-796 | accepts exactly the held handles and the last free slot; yields the value that was stored for a held handle |
| FreeLists.RefRegistry.Unref | library.c:798-811 | a held handle is released to the front of the list; the structure is spoiled if and only if the handle is the last free slot |
| FreeLists.RefRegistry.HeldCount | library.c:758-781 | held handles and free slots add up to the capacity |
| FreeLists.RefRegistry.AcceptedIffHeldOrLast | library.c:786 | the guard holds for exactly the held handles and the last slot of the free list |
| FreeLists.PutTwice | library.c:798-811 | putting a free slot on the list again makes the links no list at all |
| FreeLists.ObjectPool.constructor | object_pool.h:38-71 | the loop chains the blocks in order; without a capacity the pool does not grow |
| FreeLists.ObjectPool.Allocate | object_pool.h:81-105 | a block that is not in use, the first of the free list; a fresh one while the capacity allows; none otherwise |
| FreeLists.ObjectPool.Deallocate | object_pool.h:107-111 | the block goes to the front of the free list and is in use no more |

## Left out

- Lexer, streams, statement parsing, the visitors and the debugger: long but easy. The parser takes tokens, the compiler trees.
- Native functions, proxies (`__call`, `__get`, `__set`) and the embedding API: foreign code. A call of a function that is not in the program is a fault.
- Floats, vectors, strings, objects, globals, arrays and field access in compiled code: the compiler model has integers, booleans, undefined and local variables. Times of waits are real numbers.
- Event operations and threaded calls inside compiled code: the scheduler takes the actions of a running thread as given, and `Threading` has the binding of arguments.
- `return_value` of a threaded call, which points into the caller's stack: absent.
- Array and struct literals, `[[ ]]`, thread calls, file references and `#animtree` in the parser: they end in an error of their own.
- Reference counts and the reclamation of locals: `decref` frees nothing.
- `arena.h`, `gsc_link`, `compile_node` and global initialisers.
- Programs.ProgramIsCorrect: only for programs whose functions satisfy `WellScoped` and `Undisturbed`, since for the others the code is not what the source means, or the source means nothing; only for starts that satisfy `BoundAsMeant`, the others being covered by `Programs.AnyStartIsCorrect`; up to the machine's limits of stack, frames and locals, which `Programs.BudgetMeetsNoLimit` excludes. `Programs.ProgramIsSafe` has no such restriction.
- Compiling.Compiler.IncrementScope: where the C code would write past its array of scopes, the model reports an error.
- VirtualMachine.ScriptThread.ExecuteCall: where the C code would write past the 256 locals of a frame, the model reports an error.
- Starting.StartByHost: where the C code would write past the locals of the first frame, or through a slot that has none, the model reports an error; any value stands for the object that self has to be.
- VirtualMachine.ScriptThread.RunThread: bounded by a number of instructions, because scripts need not end; the theorems are about every bound.
- Schedulers.Scheduler.RunThreads: after an error the state is left open, as the C code leaves it by a long jump.
- Waiting.WakesWhenDue: for a thread that has no `endon` names or is not ended in between; times are exact, without rounding.
