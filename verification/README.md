# Vredrs: models and proofs

Vredrs is a small language with two compilers over one syntax tree. One emits stack bytecode and
back-patches its jumps; the other lowers to an IR of virtual registers and labels and emits x86-64
assembly from it. Around them stand a threaded channel, a module resolver, a package resolver, a
vtable table, the dictionary of the C runtime and the lexer.

The centre of this project is one source semantics (`Source`) for the fragment of the language in
`Ast`, and three machines: the bytecode machine (`Bytecode`, after the virtual machine), the IR
machine (`StaticIr`) and a processor (`X86`). The chain of theorems is

- `Texts`, `Elements`: what values are printed as and what the operations on them yield, by place;
- `BytecodePrograms`: source and bytecode, both ways, for runs that end, fail or go on for ever;
- `LoweringPrograms`: source and IR, on the typed fragment of integers and truth values, for runs
  that end, go on for ever, or are stopped by a division;
- `NativePrograms`: IR and processor, with the calling convention of sections 3.2.1 to 3.2.3 of the
  System V AMD64 ABI; and so the two compilers agree (`Agreement`, `BytecodeAgreesWithNative`).

Each compiler is there twice: as functions that say what code belongs to a tree (`Layout`,
`Lowering`, `Emission`), which the theorems are about, and as a class that works as the original
does (`BytecodeCompiler`, `Lowerer`, `Emitter`): appending, overwriting placeholders, counting
registers and labels, keeping a loop stack. The methods are proved to yield what the functions say.

A loop may run for ever, so the source semantics takes fuel. A theorem over all amounts of fuel on
one side and all numbers of steps on the other speaks about endless runs too.

Integers have sixty-four bits and wrap around, as in a release build; in a debug build the virtual
machine would panic where they overflow. Dividing the smallest integer by minus one fails in both.

## Where code and documentation part

The model follows the code. `Source` gives a program three readings: what is documented, and what
each of the two compilers makes of it (`Compiled`, `Lowered`). Each compiler is
proved right against its own reading, and the differences between the readings are proved exactly.

- `a ?? b` tests truth, not null (`CoalesceExact`).
- The `else` of an `if` with an `elif` is never entered (`ElifElseExact`).
- `break` out of a `for` leaves the iterator on the stack; inside another `for` the outer loop then
  goes on with it (`ForExact`, `LoudLeakExact`). A loop over a text can so run for ever
  (`NestedStops`).
- All comprehensions collect in one variable, so the lists of nested ones are doubled or overwritten
  (`AppendedExact`, `FilteredExact`, `OverwrittenExact`).
- `m[i][j] op= v` cannot succeed (`ElementUpdateFails`).
- A global set from outside is lost if the name is cached with another value (`SetGlobal`).
- `//` is called floor division, and `%` is said to take the sign of the divisor; both are Euclidean
  (`FloorExact`).
- `//` and `%` of negative dividends differ between the two targets (`DivisionExact`), and so do
  whole programs (`DividingExact`).
- Spill slots lie below the saved registers only if the lowest registers are handed out
  (`SlotsClear`); in `main` they are.
- In the IR, `and` of two integer literals is folded bit by bit (`LogicFoldExact`), `not` of an
  integer flips its lowest bit (`NotExact`), and truth values are printed as numbers
  (`TruthsPrinted`).
- There `and` and `or` are called short-circuiting, but both operands are evaluated before the
  branch, so a guard does not keep a division from faulting (`EagerExact`, `GuardingExact`).
- A lowered range loop counts in its own variable, looks at its bound again in every round, and
  stops at the bound from below whatever the sign of the step (`CountingExact`, `LoudSteadyExact`,
  `PrintingExact`, `BoundReadAgain`).
- A program without such divisions, logic, printing and ranges is called steady (`SteadyRanges`), and
  is lowered right (`SteadyRight`).
- A channel of capacity zero is described as unbuffered; it is unbounded (`CapacityExact`), and the
  theorems hold for it as it is.
- The module list is in dependency order exactly if no import in it lies on a cycle (`OrderedExact`,
  `RingOutOfOrder`).
- The rounds over the class table are meant to go on until nothing changes; they look at one class
  at a time and can stop early (`StaleExact`), or never (`RestlessExact`).
- An unterminated comment is an error inside a line (`ScanRest`); at the start of a line it is
  accepted, its error is dropped (`ScanLineStart`).

## Model

| member | source | states |
|---|---|---|
| BytecodePrograms.ProgramKept | src/bytecode/compiler.rs:481-638 | For every program whose `break` and `continue` are inside loops, the machine stops if and only if the program ends, and wherever both have stopped they agree on output, variables, error, and the iterators that `break` left behind, each with the items it still has |
| BytecodePrograms.ProgramRuns | src/bytecode/compiler.rs:84-197 | For every amount of fuel there is a run of the compiled program that is exactly as far as the source: halted with the same store and output, failed with the same error, or still going with the same output after at least that many steps |
| BytecodePrograms.DivergenceKept | src/bytecode/compiler.rs:1009-1063 | A program that never ends keeps the machine going for ever, and each stage of its output is reached |
| BytecodePrograms.PlainProgramsKept | src/bytecode/compiler.rs:481-638 | Without `??`, without an `if` that has both an `elif` and an `else`, without `break` out of a `for` inside another `for`, and without a comprehension inside another, stopping and outcome agree with the documented meaning |
| BytecodePrograms.StoppedOnce | src/bytecode/vm.rs:1008-1036 | A stopped machine stays stopped: two numbers of steps that both stop give the same status |
| Bytecode.RunAdd | src/bytecode/vm.rs:1008-1036 | Running n and then m steps is running n + m steps |
| Bytecode.RunStopped | src/bytecode/vm.rs:1008-1036 | A halted or failed machine does not change |
| BytecodeStmts.StmtRuns | src/bytecode/compiler.rs:481-638 | From any surrounding code and any stack, the back-patched code of a statement gives the source's store, output, error and exit; `break` arrives just past the innermost loop, `continue` at its start, with the stack as it was and on top of it exactly the iterators left behind, each with the items it still has |
| BytecodeStmts.BlockRuns | src/bytecode/compiler.rs:481-638 | The same for a block: a statement after an early exit is not reached |
| BytecodeStmts.IfRuns | src/bytecode/compiler.rs:950-1007 | `if` with its branches: the code takes the branch the source takes, including the false jump that is aimed past the `else` when an `elif` precedes it |
| BytecodeStmts.RestRuns | src/bytecode/compiler.rs:979-1005 | The `elif` chain and the `else`, entered with the false jump of the branch before |
| BytecodeStmts.WhileRuns | src/bytecode/compiler.rs:1009-1029 | `while` runs its body as often as the source does, leaves by its condition or by `break`, and uses up at least as many steps as the source uses fuel when it does not end |
| BytecodeStmts.LoopRuns | src/bytecode/compiler.rs:1039-1063 | `loop` is left by `break` only, wherever it stands |
| BytecodeStmts.ForRuns | src/bytecode/compiler.rs:1065-1150 | `for` over a value and over a range: the rounds the source makes over the iterators on the stack, whatever the body leaves on top of them, and what is left behind in the end |
| BytecodeStmts.ForLoop | src/bytecode/compiler.rs:1069-1103 | From any stack of left-behind iterators above the loop's own the loop takes items from the one on top, drops it when it is used up, and ends; an endless loop takes at least as many steps as it has rounds |
| BytecodeStmts.RangeRuns | src/bytecode/compiler.rs:1105-1122 | The three bounds are evaluated once, left to right, and the range value is built or its error reported |
| BytecodeStmts.AssignRuns | src/bytecode/compiler.rs:1186-1192 | Assignment stores the value of its expression and changes nothing else |
| BytecodeStmts.CompoundRuns | src/bytecode/compiler.rs:1345-1382 | `x op= e` reads `x` before it evaluates `e`, as the source does |
| BytecodeStmts.IndexAssignRuns | src/bytecode/compiler.rs:1239-1252 | `x[i] = e` stores the updated container back into `x`, or reports the index error |
| BytecodeStmts.PrintlnRuns | src/bytecode/compiler.rs:561-576 | `println` prints its arguments in order and one line end; if an argument fails, what was printed before stays printed |
| Exits.ExitFacts | src/bytecode/compiler.rs:1009-1150 | A loop ends normally; a statement without a `break` of its own does not break; as documented nothing is left behind, and as compiled nothing is if no `for` is left by `break` |
| Exits.ClosedBlockExits | src/bytecode/compiler.rs:618-634 | A program whose `break` and `continue` are all inside loops ends normally or not at all |
| BytecodeExprs.ExprRuns | src/bytecode/compiler.rs:1638-1850 | The code of an expression pushes exactly the source's value above an unchanged stack, with the source's store, or fails with the source's error |
| BytecodeExprs.AndRuns | src/bytecode/compiler.rs:2363-2381 | `and` gives a truth value, and the right operand does not run when the left one is false |
| BytecodeExprs.OrRuns | src/bytecode/compiler.rs:2382-2404 | `or` gives a truth value, and the right operand does not run when the left one is true |
| BytecodeExprs.TernaryRuns | src/bytecode/compiler.rs:1855-1867 | Only the chosen branch of `c ? a : b` runs |
| BytecodeExprs.CoalesceRuns | src/bytecode/compiler.rs:1868-1878 | `a ?? b` keeps its left value exactly when that is true |
| BytecodeExprs.BinaryRuns | src/bytecode/compiler.rs:2405-2455 | Operands are evaluated left to right and the operator applied to them, or its error reported |
| BytecodeExprs.IndexRuns | src/bytecode/compiler.rs:1797-1802 | Container first, then index, then the element or the error |
| BytecodeExprs.SpreadLitRuns | src/bytecode/compiler.rs:1704-1777 | A list literal with spreads is the concatenation of its pieces, for every length, through the emitted loops and temporaries |
| BytecodeExprs.SpreadLoop | src/bytecode/compiler.rs:1739-1761 | From any point of a spread the loop appends exactly the items that are left |
| BytecodeExprs.CompRuns | src/bytecode/compiler.rs:2178-2222 | A comprehension empties the variable `__lc_result`, filters and maps its items in order, appends each result to whatever that variable then holds, and yields what it holds in the end, whatever comprehensions are inside |
| BytecodeExprs.CompLoop | src/bytecode/compiler.rs:2185-2221 | From any point of a comprehension the loop does exactly what the items that are left do |
| BytecodeExprs.ExprsRun | src/bytecode/compiler.rs:1778-1784 | The elements of a tuple or list are pushed in order |
| BytecodeCompiler.CompileProgram | src/bytecode/compiler.rs:84-197 | Compilation succeeds exactly if every `break` and `continue` is inside a loop; the result is then the code with every jump aimed, no placeholder left |
| BytecodeCompiler.Compiler.constructor | src/bytecode/compiler.rs:69-82 | Nothing is emitted and no loop is open |
| BytecodeCompiler.Compiler.Emit | src/bytecode/instr.rs:251-256 | Appends one instruction and returns its place |
| BytecodeCompiler.Compiler.CompileStmt | src/bytecode/compiler.rs:481-638 | Whatever the open loops and pending `break` jumps are, the code grows by the statement's code as it will be once the pending jumps are aimed at any target; failure is exactly a stray `break` or `continue` |
| BytecodeCompiler.Compiler.CompileBlock | src/bytecode/compiler.rs:481-638 | The same for a block |
| BytecodeCompiler.Compiler.CompileIf | src/bytecode/compiler.rs:950-1007 | Back-patching the false jumps and the end jumps by index yields the code laid out forwards |
| BytecodeCompiler.Compiler.CompileElifs | src/bytecode/compiler.rs:979-992 | Each `elif` aims the false jump before it at itself and leaves its own end jump pending |
| BytecodeCompiler.Compiler.CompileElse | src/bytecode/compiler.rs:993-1005 | All end jumps, and the last false jump of an `elif` once more, are aimed past the `else` |
| BytecodeCompiler.Compiler.CompileWhile | src/bytecode/compiler.rs:1009-1063 | The loop is closed: its false jump and the `break` jumps of its body are aimed past it, pending jumps of outer loops stay pending |
| BytecodeCompiler.Compiler.CompileFor | src/bytecode/compiler.rs:1065-1150 | The exit of the iterator instruction and the `break` jumps are aimed past the loop |
| BytecodeCompiler.Compiler.CompileLoopBody | src/bytecode/compiler.rs:1013-1027 | Opens a loop, compiles the body, jumps back and aims the `break` jumps of that loop alone |
| BytecodeCompiler.Compiler.CompileBreak | src/bytecode/compiler.rs:618-626 | Adds a pending jump to the innermost loop, or fails outside loops |
| BytecodeCompiler.Compiler.CompileContinue | src/bytecode/compiler.rs:627-634 | Jumps to the start of the innermost loop, or fails outside loops |
| BytecodeCompiler.Compiler.PatchAll | src/bytecode/compiler.rs:1024-1027 | Overwrites exactly the given places |
| BytecodeCompiler.Compiler.CompileExpr | src/bytecode/compiler.rs:1638-1850 | The code grows by the expression's code and everything else is as before |
| BytecodeCompiler.Compiler.CompileAnd | src/bytecode/compiler.rs:2363-2381 | The three back-patched jumps of `and` yield its forward layout |
| BytecodeCompiler.Compiler.CompileOr | src/bytecode/compiler.rs:2382-2404 | The same for `or` |
| BytecodeCompiler.Compiler.CompileTernary | src/bytecode/compiler.rs:1855-1867 | The same for `c ? a : b` |
| BytecodeCompiler.Compiler.CompileCoalesce | src/bytecode/compiler.rs:1868-1878 | The same for `??` |
| BytecodeCompiler.Compiler.CompileSpreadLit | src/bytecode/compiler.rs:1704-1777 | The same for a list literal with spreads; each literal gets a temporary of its own |
| BytecodeCompiler.Compiler.CompileComprehension | src/bytecode/compiler.rs:2178-2222 | The same for a comprehension, with and without a filter |
| Layout.StmtLen | src/bytecode/compiler.rs:481-638 | The length of a statement's code does not depend on where its `break` and `continue` jumps lead |
| Readings.BlockAgrees | src/bytecode/compiler.rs:950-1007 | On plain blocks the documented and the compiled reading are the same but for iterators left behind, for every state and every amount of fuel |
| Readings.ExprAgrees | src/bytecode/compiler.rs:1868-1878 | On expressions without `??` and without a comprehension inside another the two readings are the same, the list in the variable `__lc_result` included |
| Readings.CoalesceExact | src/bytecode/compiler.rs:1868-1878 | `a ?? b` does what is documented if and only if the left value is true or null, or the right operand gives the left value again |
| Readings.CoalesceDiffers | src/bytecode/compiler.rs:1868-1878 | `0 ?? 1` is 0 as documented and 1 as compiled |
| Readings.ElifElseExact | src/bytecode/compiler.rs:989-1002 | An `if` with an `elif` does what is documented if and only if, when every condition is false, no `else` is reached or the `else` does nothing |
| Readings.RestExact | src/bytecode/compiler.rs:989-1002 | The same for the rest of the chain |
| StackSafety.NeverUnderflows | src/bytecode/compiler.rs:950-1150 | In every run of every program without a stray `break` or `continue`, finite or not, the program counter stays inside the code, the stack is at least as high as the place needs, and no operand is ever missing |
| StackSafety.ExactHeights | src/bytecode/compiler.rs:950-1150 | If no `for` is left by `break`, every place has one height, and in every run the stack has exactly the height of the place it is at |
| StackSafety.ProgramFine | src/bytecode/compiler.rs:84-197 | Every place of a program's code has a height that fits its instruction and every jump (exactly, if no `for` is left by `break`, and from below otherwise), and every jump lands inside the code |
| StackSafety.StmtFine | src/bytecode/compiler.rs:481-638 | The same for a statement inside any code, from any height |
| StackHeights.ExprFine | src/bytecode/compiler.rs:1638-1850 | The code of an expression raises the height by one on every path |
| StackHeights.RunFits | src/bytecode/vm.rs:1008-1036 | Heights that fit the code are kept by every number of steps, exactly or as lower bounds |
| StackHeights.StepFits | src/bytecode/vm.rs:1918-2835 | A step from a fitting height reaches a fitting height and never underflows |
| Leftovers.ForExact | src/bytecode/compiler.rs:1069-1103 | A `for` over given items does in both readings the same if and only if no round that is followed by another look leaves an iterator behind, or from the first such round on the loops with and without the iterators left behind end alike |
| LoudLoops.LoudLeakExact | src/bytecode/compiler.rs:1069-1103 | If every round prints a line, and the first round that leaves iterators behind was the last one or left an exhausted one on top, the loop is right if and only if both are so |
| Leftovers.ForStmtExact | src/bytecode/compiler.rs:1065-1103 | The same for a `for` statement, its iterable included |
| Leftovers.ForExhausted | src/bytecode/vm.rs:2595-2680 | If the first iterators left behind have no more items, the loop ends there; that is right if and only if the items left do nothing |
| Leftovers.ForFramed | src/bytecode/vm.rs:2595-2680 | A round does not depend on the iterators below the one on top |
| Leftovers.NestedStops | src/bytecode/compiler.rs:1092-1096 | `for x in s { for y in t { break }  println x }` ends as documented for all texts; the machine stops if and only if `s` is empty or `t` has at most one character |
| Leftovers.NestedExact | src/bytecode/compiler.rs:1092-1096 | That program stops with the documented output if and only if `s` is empty, `t` is empty, or both have one character |
| NestedComps.AppendedMeans | src/bytecode/compiler.rs:2178-2222 | A comprehension whose iterable is a comprehension computes the inner list followed by the outer one |
| NestedComps.AppendedExact | src/bytecode/compiler.rs:2178-2222 | That is what is documented if and only if the inner list is empty or the evaluation fails |
| NestedComps.TwiceDoubles | src/bytecode/compiler.rs:2178-2222 | `[x for x in [y for y in s]]` yields every text `s` twice |
| NestedComps.PrintTwiceExact | src/bytecode/compiler.rs:2178-2222 | The program that prints it halts on the machine, with the documented output if and only if the text is empty |
| NestedComps.OverwrittenMeans | src/bytecode/compiler.rs:2178-2222 | A comprehension whose result is a comprehension yields the items of its last list and then that list |
| NestedComps.FilteredExact | src/bytecode/compiler.rs:2178-2222 | A comprehension whose filter is a comprehension is right if and only if its list is what the last round leaves, the list it is filtered by followed by its own result, or the evaluation fails |
| NestedComps.OverwrittenExact | src/bytecode/compiler.rs:2178-2222 | That is what is documented if and only if the items of the last list are the lists before it, or the evaluation fails |
| Quirks.ElementUpdateFails | src/bytecode/compiler.rs:1458-1500 | `m[i][j] op= v` never succeeds, whatever the variables hold and whatever the operands are |
| GlobalCache.Globals.LoadGlobal | src/bytecode/vm.rs:1199-1236 | Yields what the program sees under the name and changes nothing the program sees |
| GlobalCache.Globals.StoreGlobal | src/bytecode/vm.rs:1237-1269 | Changes what the program sees under that name alone, also when only the cache is written |
| GlobalCache.Globals.InvalidateGlobalCache | src/bytecode/vm.rs:766-786 | Afterwards the map alone holds what the program saw |
| GlobalCache.Globals.SetGlobal | src/bytecode/vm.rs:601-606 | The program sees a value set from outside if and only if the name was not cached or was cached with that value; other names are unchanged |
| GlobalCache.Replay | src/bytecode/vm.rs:1199-1269 | Any sequence of loads and stores through the cache yields what one plain map yields |
| Texts.DisplayMeans | src/bytecode/vm.rs:111-145 | A list is printed as its items in order, each in its place by the lengths of those before it, in brackets and with ", " between; a tuple so in parentheses; a number as its sign and numeral; a text as it is |
| Texts.DecimalMeans | src/bytecode/vm.rs:111-113 | An integer is printed as digits, after a sign if it is negative, without a zero in front; read as a number to the base of ten they are its size |
| Texts.NumeralUnique | src/bytecode/vm.rs:111-113 | A number has one such numeral |
| Texts.JoinedUnique | src/bytecode/vm.rs:127-142 | And items have one such text |
| Texts.ParseExact | src/bytecode/vm.rs:147-160 | A text is taken as an integer if and only if it is digits, at least one, perhaps after a sign, that fit into sixty-four bits; it then has their value |
| Texts.RoundTrip | src/bytecode/vm.rs:111-160 | An integer that is printed is read back |
| Texts.StrLessExact | src/bytecode/vm.rs:1324-1420 | A text is less than another if and only if it goes on as the other or is less at the first place where they differ |
| Texts.OrderExact | src/bytecode/vm.rs:1324-1420 | Of two texts exactly one of less, equal and greater holds, and the four comparisons say which |
| Texts.CopiesExact | src/bytecode/vm.rs:1127-1165 | A text times a number, in either order, is as many copies of it, and empty if the number is not positive |
| Elements.IndexExact | src/bytecode/vm.rs:6951-6985 | The item at k of a list, tuple or text is found under k and under k less the size; every other integer is out of bounds |
| Elements.IndexRefused | src/bytecode/vm.rs:6951-6985 | Anything else cannot be indexed, and nothing but an integer is an index |
| Elements.UpdateExact | src/bytecode/vm.rs:7014-7034 | Element assignment succeeds if and only if the place is not before the list; it changes that place alone, and a list that is too short grows up to it with nulls between |
| Elements.UpdateRefused | src/bytecode/vm.rs:7014-7034 | It is refused for what is no list and for what is no integer |
| Elements.UpdatedIndex | src/bytecode/vm.rs:6951-7034 | What was assigned is found under every index of its place, and under the others what was there |
| Elements.ItemsExact | src/bytecode/vm.rs:2595-2680 | A loop over a sequence goes through its items in order, and over anything else it has no rounds |
| Elements.FalseExact | src/bytecode/vm.rs:92-109 | Null, false, zero and what is empty are false, and nothing else is |
| Elements.NotExact | src/bytecode/vm.rs:2341-2344 | `not` of these is true and of others false |
| Elements.EqualExact | src/bytecode/vm.rs:1424-1460 | Two values are equal if and only if they are the same |
| Elements.TextsAdd | src/bytecode/vm.rs:1053-1062 | Adding to a text, on either side, appends what is printed |
| Elements.ListsAdd | src/bytecode/vm.rs:1072-1088 | A sum with a list holds, place by place, the items of both, what is no list counting as one item |
| Elements.OthersAdd | src/bytecode/vm.rs:1046-1098 | Integers are added modulo two to the sixty-fourth, tuples place by place, and anything else is an error |
| Elements.OthersRefused | src/bytecode/vm.rs:1104-1165 | What is no number has no difference, product, quotient, order or negative: an error or null, as the operator has it |
| Elements.DivisionErrors | src/bytecode/vm.rs:2162-2235 | A zero divisor is an error of its own for quotients and for remainders, and the quotient that does not fit another |
| Elements.GrownExact | src/bytecode/vm.rs:8057-8069 | `list_append` adds at the end, and begins a list if it is given none |
| Elements.RangeExact | src/bytecode/vm.rs:7366-7388 | The k-th item of a range is k steps from its start, modulo two to the sixty-fourth; each is before the end and the next one would not be |
| Elements.EndlessExact | src/bytecode/vm.rs:7366-7388 | A range is refused for want of memory if and only if it never comes to its end |
| Elements.RangeErrors | src/bytecode/vm.rs:7366-7373 | Bounds and step are integers, truth values as one and zero, or texts that are integers; anything else, or a step of zero, is an error |
| StaticIr.RunAdd | src/codegen/ir.rs:190-290 | Running n and then m steps of the register machine is running n + m steps |
| StaticIr.FindAt | src/codegen/ir.rs:190-290 | With distinct labels a jump finds the place where the label stands |
| LoweringPrograms.LoweringKept | src/codegen/lower.rs:378-415 | For every program of the fragment and any register contents, the lowered program stops if and only if the program ends in the lowered reading, in which ranges of any bounds and steps count in their variable; it has then printed the same and returned zero, or trapped if there a division by zero or an overflowing one fails |
| RangeQuirks.SteadyRight | src/codegen/lower.rs:378-415 | If the program is steady, that is what is documented: the lowered program stops if and only if the source ends, and has then printed the same |
| LoweringPrograms.LoweredRuns | src/codegen/lower.rs:378-415 | For every amount of fuel there is a run of the lowered program exactly as far as the source: returned with the same output, trapped with the same output where a division fails, or still going |
| LoweringPrograms.ProgramLabels | src/codegen/lower.rs:419-429 | No label is defined twice in a lowered program |
| LoweringPrograms.StmtLabels | src/codegen/lower.rs:578-625 | A statement defines only labels that were fresh when its lowering began, each once |
| LoweringRuns.StmtLowered | src/codegen/lower.rs:578-625 | The labels and branches of a statement give the source's output and exit and keep every variable in its register; registers of variables it does not write are untouched; if a division in it fails, the machine traps there with the output so far |
| LoweringRuns.IfLowered | src/codegen/lower.rs:1137-1164 | `if`, `elif` and `else`: exactly the source's branch runs |
| LoweringRuns.WhileLowered | src/codegen/lower.rs:1190-1210 | `while` and `loop`: `break` and `continue` reach their labels, and an endless loop runs for ever |
| LoweringRuns.RangeLowered | src/codegen/lower.rs:1212-1269 | A range loop counts in its variable and looks at a variable in its bound or step again in every round: bounds, steps of either sign, a body that assigns the counter or the bound, wrap-around and the counter after the loop included |
| LoweringRuns.AssignLowered | src/codegen/lower.rs:900-1002 | Assignment to a variable updates its register |
| LoweringRuns.PrintLowered | src/codegen/lower.rs:1089-1135 | `println` with arguments prints integers as the source does, and truth values as the numbers one and zero; if an argument fails, what was printed before stays printed |
| LoweringExprs.ExprLowered | src/codegen/lower.rs:1675-1777 | The operand of a lowered expression denotes the source's value, for literals the one computed at compile time, and registers below the fresh ones are kept; or the machine traps where a division fails |
| LoweringExprs.CondLowered | src/codegen/lower.rs:1168-1188 | The branch on the negated condition is taken exactly when the source's condition is false |
| LoweringExprs.ChoiceLowered | src/codegen/lower.rs:1761-1777 | Only the chosen branch runs and its value is in the result register |
| LoweringExprs.PairLowered | src/codegen/lower.rs:2316-2506 | Binary operators with folding, static and boxed operands give the source's value, division truncating, or trap; `and` and `or` evaluate both operands |
| LoweringExprs.LogicRuns | src/codegen/lower.rs:2400-2440 | The code of `and` and `or` on any two words: literals are combined bit by bit; otherwise the second operand is passed on if the first does not decide |
| LogicFolding.LogicExact | src/codegen/lower.rs:2394-2440 | `and` and `or` of operands that mean what is documented give the documented truth value if and only if they are not an `and` of two folded literals, or one of these is zero or they have a bit in common |
| LogicFolding.NotExact | src/codegen/lower.rs:2524-2530 | `not` of an operand that means what is documented gives the documented truth value if and only if the operand is not known to be unboxed, or is zero or one |
| LogicFolding.NotTwoDiffers | src/codegen/lower.rs:2524-2530 | `not 2` is false, and lowered to three |
| LoweringExprs.UnaryLowered | src/codegen/lower.rs:2508-2540 | Negation, and `not` as it is lowered: of a truth value the other one, of an unboxed integer the same with its lowest bit flipped |
| LoweringExprs.NegateFlips | src/codegen/lower.rs:3080-3089 | The negated condition holds exactly when the condition does not |
| LoweringStmts.StmtState | src/codegen/lower.rs:419-453 | Lowering keeps registers and labels fresh and every assigned variable declared with its type |
| Lowerer.LowerMain | src/codegen/lower.rs:378-415 | The emitting methods yield the specified body |
| Lowerer.Lowerer.LowerStatement | src/codegen/lower.rs:578-625 | Appends exactly the statement's code and moves the counters, locals and loop stack as specified |
| Lowerer.Lowerer.LowerExpression | src/codegen/lower.rs:1675-1777 | The same for an expression and its operand |
| Lowerer.Lowerer.LowerCondition | src/codegen/lower.rs:1168-1188 | The same for a branch on a condition |
| Lowerer.Lowerer.LowerIf | src/codegen/lower.rs:1137-1164 | The same for `if` |
| Lowerer.Lowerer.LowerWhile | src/codegen/lower.rs:1190-1210 | The same for `while` and `loop`; the loop stack is as before |
| Lowerer.Lowerer.LowerForRange | src/codegen/lower.rs:1212-1269 | The same for a range loop |
| Lowerer.Lowerer.EmitOperator | src/codegen/lower.rs:2394-2506 | The same for a binary operator: folded, comparison, static or boxed |
| Lowerer.Lowerer.FreshRegister | src/codegen/lower.rs:419-423 | A register that no one has |
| Lowerer.Lowerer.FreshLabel | src/codegen/lower.rs:424-429 | A label that no one has |
| Agreement.AgreementExact | src/codegen/lower.rs:378-415 | For every program of the fragment: the stack machine and the register machine stop together, and then with the same output, if and only if the compiled and the lowered reading end together and print the same; an error the one reports is a trap of the other |
| Agreement.CompilersAgree | src/codegen/lower.rs:378-415 | They do on the plain programs that are steady |
| Folding.FoldAgrees | src/codegen/lower.rs:3055-3078 | Folding gives up exactly on a zero divisor, and elsewhere equals the instruction, except for MIN by -1, where it wraps and the instruction faults |
| Folding.FoldedCode | src/codegen/emit_raw_x86.rs:503-655 | The code emitted for the unfolded operation leaves the folded value in the destination, including masked shift counts, or faults on MIN by -1 |
| Folding.FoldedComparison | src/codegen/lower.rs:3042-3078 | A folded comparison is what compare and set would have left |
| Folding.DivisionExact | src/codegen/lower.rs:3055-3078 | Where neither target stops, `//` and `%` agree on the two targets if and only if the dividend is not negative or divisible |
| Folding.DivisionStops | src/codegen/emit_raw_x86.rs:522-585 | The processor faults exactly where the stack machine reports an error |
| Folding.DivisionDiffers | src/bytecode/vm.rs:2162-2235 | -7 by 2: -4 rest 1 on the stack machine, -3 rest -1 on the processor |
| Folding.FloorExact | src/bytecode/vm.rs:2162-2235 | `//` rounds down, and `%` has the sign of the divisor, as is said there, if and only if the divisor is positive or nothing is left over; elsewhere they are Euclidean |
| Folding.FloorDiffers | src/bytecode/vm.rs:2162-2235 | 7 by -2: -3 rest 1, where rounding down gives -4 |
| Folding.TruncIsEuclid | src/bytecode/vm.rs:2162-2235 | Truncating and Euclidean division agree exactly on those dividends |
| LogicFolding.LogicFoldExact | src/codegen/lower.rs:3062-3063 | Two integer literals under `and` or `or` are folded bit by bit: `or` is then always right as a truth value, `and` if and only if one literal is zero or the two have a bit in common |
| LogicFolding.BitwiseExact | src/codegen/lower.rs:3055-3078 | Each bit of a folded `and`, `or` or exclusive `or` is that of the two bits |
| Folding.ShiftsExact | src/codegen/lower.rs:3055-3078 | A shift by one more place doubles the word, without what does not fit, or halves it, rounding down |
| Folding.BoxedDivision | src/codegen/emit_raw_x86.rs:1151-1152 | Dividing boxed numbers by zero yields zero where dividing others faults; elsewhere the two agree |
| LogicFolding.LogicFoldDiffers | src/codegen/lower.rs:2394-2399 | `2 and 1` is true and is folded to zero |
| SteadyRanges.ProgramsSame | src/codegen/lower.rs:1212-1269 | If bounds are not assigned in the loop, steps are positive, no counter is assigned or used after its loop, nothing but literals is divided and no dividend negative, `and` and `or` are not folded, `not` is of truth values and no truth value is printed, the documented and the lowered reading end together and print the same |
| RangeQuirks.CountingExact | src/codegen/lower.rs:1212-1269 | For any body, counting does what the list of the range says if and only if at every look the counter is the next item, with a round to come exactly if there is an item, or else the first look where it is not so makes no difference |
| RangeQuirks.PartsAtBound | src/codegen/lower.rs:1236-1243 | Counting up with a counter and a step that the body leaves alone, the two part exactly where the bound of the moment and the first one compare differently with the counter |
| RangeQuirks.SteadyExact | src/codegen/lower.rs:1236-1243 | With a bound that the body leaves alone as well, they never part if and only if the step is positive or the range starts where it ends |
| RangeQuirks.LiteralRangeExact | src/codegen/lower.rs:1220-1243 | A range between literals with a literal step is visited by the lowered loop if and only if the step is positive or the range starts where it ends |
| RangeQuirks.PrintingExact | src/codegen/lower.rs:1212-1269 | `for x from i to m step k { println x }`, for all literals, is lowered right if and only if the range is one (the step is not zero and the list comes to an end) and the step is positive or the range starts where it ends |
| LoudLoops.LoudExact | src/codegen/lower.rs:1212-1269 | If every round prints a line, counting up does what the list of the range says if and only if the two never part |
| LoudLoops.LoudSteadyExact | src/codegen/lower.rs:1220-1243 | With steady bounds, whatever else the rounds do: if and only if the step is positive or the range starts where it ends |
| RangeQuirks.CounterAfter | src/codegen/lower.rs:1254-1266 | After a loop that ran, the lowered counter is at or above the bound; the documented one is the last item, below it |
| RangeQuirks.BoundReadAgain | src/codegen/lower.rs:1220-1243 | A range loop whose body lowers the variable that bounds it is lowered wrong: one line is printed where the source prints two |
| LoweredPrints.TruthsPrinted | src/codegen/lower.rs:1089-1135 | `println e`, for steady `e` without variables, is lowered right if and only if `e` is a number: truth values are printed as numbers |
| LoweredPrints.EagerExact | src/codegen/lower.rs:2316-2440 | `and` and `or` evaluate both operands before they look at either: they fail just where they should if and only if the left operand lets the right one be evaluated, or that does not fail |
| LoweredPrints.GuardingExact | src/codegen/lower.rs:2400-2440 | `if y != 0 and x % y == 0 { println x }`, for all integers, is lowered right if and only if `y` is not zero: otherwise the processor stops at the division |
| LoweredPrints.DividingExact | src/codegen/lower.rs:2442-2506 | `x = i  y = j  println x // y`, and the same with `%`, for all integers, is lowered right if and only if the division fails, the dividend is not negative, or nothing is left over |
| NativePrograms.NativeKept | src/codegen/emit_raw_x86.rs:106-225 | From any state in which `main` may be called, the emitted program stops if and only if the program does in the lowered reading, and with its output: it has returned, with zero in `rax`, and `rbx`, `r12`-`r15`, `rbp` and `rsp` restored, or faulted where a division fails |
| NativePrograms.SteadyNative | src/codegen/emit_raw_x86.rs:106-225 | If the program is steady, the emitted program returns if and only if the source ends, with the source's output |
| NativePrograms.NativeEnds | src/codegen/emit_raw_x86.rs:106-225 | If the program ends, the processor returns with its output, and if a division fails it faults there |
| NativePrograms.NativeGoesOn | src/codegen/emit_raw_x86.rs:106-225 | If the program does not end, the processor is still going after any number of steps |
| NativePrograms.BytecodeAgreesWithNative | src/codegen/emit_raw_x86.rs:106-225 | For every program of the fragment: the stack machine and the processor stop together and have then printed the same, if and only if the compiled and the lowered reading end together and print the same; an error the one reports is a fault of the other |
| NativePrograms.ProgramTidy | src/codegen/lower.rs:419-423 | In every lowered program of the fragment an arithmetic destination differs from its right operand and no print result is used |
| Emitted.RunMatched | src/codegen/emit_raw_x86.rs:180-225 | Every run of the register machine, of any length, is matched by a run of the emitted code that is at least as far |
| Emitted.StepMatched | src/codegen/emit_raw_x86.rs:245-430 | Every step of the register machine is matched by the instructions emitted for it, jumps and dropped instructions included |
| Emitted.TargetFound | src/codegen/emit_raw_x86.rs:180-220 | A label that some instruction refers to is emitted once, so that every jump reaches the code of the instruction after it |
| Emitted.DroppedStep | src/codegen/emit_raw_x86.rs:180-220 | Leaving out a jump to the next label, or a label no one refers to, is matched by no step at all |
| Simulation.InsnSim | src/codegen/emit_raw_x86.rs:245-430 | An instruction that does not jump: the emitted code keeps every other virtual register and the frame, and puts the result in the home of the destination |
| Simulation.ArithSim | src/codegen/emit_raw_x86.rs:503-655 | In place, directly into the destination, or through `rax`: the destination gets the result and nothing else changes |
| Simulation.DivideSim | src/codegen/emit_raw_x86.rs:522-585 | Division through `rax` and `rcx` gives quotient or remainder, or faults exactly where the register machine traps |
| Simulation.CmpSim | src/codegen/emit_raw_x86.rs:340-356 | Compare, set and extend leave one or zero |
| Simulation.CallSim | src/codegen/emit_raw_x86.rs:658-691 | A call passes the arguments, keeps every home, and stores the result |
| Simulation.MovSim | src/codegen/emit_raw_x86.rs:257-269 | A move puts the value in the home of the destination |
| Simulation.LoadRuns | src/codegen/emit_raw_x86.rs:694-747 | Loading an operand puts its value in the register and changes no home |
| Simulation.StoreRuns | src/codegen/emit_raw_x86.rs:748-781 | Storing changes the home of one virtual register |
| Simulation.ConvertSim | src/codegen/emit_raw_x86.rs:270-318 | Boxing and unboxing keep the value |
| Frames.SlotsClear | src/codegen/emit_raw_x86.rs:128-156 | Spill slots stay clear of the saved registers if and only if the registers handed out are the lowest-numbered ones |
| Emission.BodyMaxNamed | src/codegen/emit_raw_x86.rs:114-131 | The highest register for which a home is sought is named by some instruction, or is the first |
| Frames.MainRoomy | src/codegen/emit_raw_x86.rs:128-156 | In `main` they are |
| Frames.PrologueRuns | src/codegen/emit_raw_x86.rs:110-178 | The prologue sets up the frame: saved registers in place, slots above the stack pointer, the stack aligned to sixteen (sections 3.2.1 to 3.2.3 of the System V AMD64 ABI) |
| Frames.EpilogueRuns | src/codegen/emit_raw_x86.rs:227-242 | The epilogue restores every register a function must keep, whatever the body did inside the frame, and ends at the return address |
| Frames.CallAligned | src/codegen/emit_raw_x86.rs:658-691 | For any number of arguments the stack moves by a multiple of sixteen before a call, and back by as much after it |
| Frames.CallsAligned | src/codegen/emit_raw_x86.rs:658-691 | So every call is made with an aligned stack |
| Frames.AllocGood | src/codegen/emit_raw_x86.rs:132-145 | The registers handed out are distinct, callee-saved and among those pushed |
| X86.PlainRuns | src/codegen/emit_raw_x86.rs:245-430 | Straight-line code inside any program does what its instructions do one after the other |
| Emitter.X86Emitter.EmitMain | src/codegen/emit_raw_x86.rs:106-225 | The emitter, filling its tables and pushing instructions, emits the specified code |
| Emitter.X86Emitter.Allocate | src/codegen/emit_raw_x86.rs:114-156 | The tables give the specified homes, and every register up to the highest has one |
| Emitter.X86Emitter.EmitInsn | src/codegen/emit_raw_x86.rs:245-430 | Appends exactly the code specified for the instruction |
| Emitter.X86Emitter.EmitBin | src/codegen/emit_raw_x86.rs:503-655 | The same for arithmetic |
| Emitter.X86Emitter.EmitCall | src/codegen/emit_raw_x86.rs:658-691 | The same for a call with any number of arguments |
| Emitter.X86Emitter.EmitEpilogue | src/codegen/emit_raw_x86.rs:227-242 | The same for the way out of a function |
| Emitter.X86Emitter.LoadOperand | src/codegen/emit_raw_x86.rs:694-747 | The same for loading an operand |
| Emitter.X86Emitter.StoreOperand | src/codegen/emit_raw_x86.rs:748-781 | The same for storing a result |
| Emitter.X86Emitter.CollectTargets | src/codegen/emit_raw_x86.rs:180-202 | Finds exactly the labels that some instruction refers to |
| Channel.InvStep | src/runtime/channel.rs:40-106 | Every step keeps: values are conserved in order within the capacity; the channel is closed exactly when no sender is left; a sleeping receiver means an empty open channel and a sleeping sender a full one; no live sender was refused |
| Channel.InvRun | src/runtime/channel.rs:40-106 | So does every state of every run, whatever the interleaving and the spurious wakeups |
| Channel.NeverBothAsleep | src/runtime/channel.rs:42-84 | A sender and a receiver are never asleep at the same time |
| Channel.Woken | src/runtime/channel.rs:42-106 | The step that removes a sleeper's reason wakes it |
| Channel.WokenProceeds | src/runtime/channel.rs:42-84 | A woken thread that finds its value or its room finishes its call |
| Channel.InOrder | src/runtime/channel.rs:42-84 | What has been received is a prefix of what has been sent, and the buffer is the difference |
| Channel.NoneMeansAll | src/runtime/channel.rs:62-75 | When `recv` returns nothing, everything ever sent has been received and nothing more will be sent |
| Channel.CapacityExact | src/runtime/channel.rs:10-52 | The buffer never holds more values than the capacity says, in any run, if and only if the capacity is not zero |
| Channel.SendExact | src/runtime/channel.rs:42-60 | `send` is refused if and only if the channel is closed, sleeps if and only if it is open and full, and else adds its value at the end of the buffer and wakes everyone |
| Channel.RecvExact | src/runtime/channel.rs:62-75 | `recv` takes the first value of the buffer; from an empty one it returns nothing if and only if the channel is closed, and sleeps if and only if it is open |
| Channel.TryRecvExact | src/runtime/channel.rs:77-84 | `try_recv` takes the first value of the buffer, or returns nothing if and only if the buffer is empty, and never waits |
| Channel.StaysClosed | src/runtime/channel.rs:96-106 | Closing is final, and the capacity never changes |
| ModuleResolver.CollectsReachable | src/backend/module_resolver.rs:23-57 | Success lists exactly the reachable texts, each once, and an import follows its importer only if the two lie on a cycle |
| ModuleResolver.OrderedExact | src/backend/module_resolver.rs:4-57 | Every import in the list stands before its importer if and only if no import in the list lies on a cycle |
| ModuleResolver.RingOutOfOrder | src/backend/module_resolver.rs:23-57 | Two modules that import each other are collected in an order that is not the promised one |
| ModuleResolver.SucceedsIff | src/backend/module_resolver.rs:23-57 | The collection succeeds if and only if every reachable text parses and names only modules that exist |
| ModuleResolver.CollectDid | src/backend/module_resolver.rs:23-57 | What one call appends, from any state of the recursion |
| ModuleResolver.Resolver.CollectModules | src/backend/module_resolver.rs:23-57 | The method that fills the list and the set ends, also on cyclic imports, in exactly the specified state |
| Vpm.MatchesInterval | src/vpm.rs:51-126 | A constraint matches exactly the versions of the interval its notation promises |
| Vpm.AtMostExact | src/vpm.rs:399-406 | Of two versions the first number that differs decides which is higher |
| Vpm.ChosenMatches | src/vpm.rs:399-406 | The version chosen for a constraint matches it |
| Vpm.ChosenLowest | src/vpm.rs:399-406 | And no version that matches is lower, except for `*` |
| Vpm.ResolveDeps | src/vpm.rs:370-423 | Ends for every finite set of packages; on success everything that the root or, in the registry, a resolved version depends on is there and meets the constraint, everything there is on a chain of such dependencies from the root, and every version was chosen by a request; failure names a request and the chosen version it does not match |
| Vpm.ServedAlike | src/vpm.rs:376-395 | Two requests for one package have the same result in both orders if and only if the same version is chosen for both |
| Vpm.FirstComeFirstServed | src/vpm.rs:376-395 | The result depends on the order of the requests: `*` then `^1.0.0` conflict, the other way round both are served |
| LinkTable.LinkTable.FromPrograms | src/backend/link_table.rs:23-66 | If a name has one definition, the rounds end, cyclic inheritance included, with the first round that reports no change; every class is there with its own methods and signatures and with no name that neither it nor an ancestor has; if the table is complete, every class is laid out for dispatch over the methods that its parent has in it |
| LinkTable.LinkTable.CollectClassMetadata | src/backend/link_table.rs:88-127 | One pass over a module, as specified |
| LinkTable.LinkTable.Repeat | src/backend/link_table.rs:39-58 | One round of visits, as specified, reporting a change exactly if a visited class got longer on its visit |
| LinkTable.CollectGrows | src/backend/link_table.rs:88-127 | A pass takes no method name from any class |
| LinkTable.CollectSound | src/backend/link_table.rs:88-127 | A pass adds only names of the class or of an ancestor |
| LinkTable.PutAllExtends | src/backend/link_table.rs:104-122 | Inherited methods keep their indices, an override replaces the inherited entry in place, and no name occurs twice |
| LinkTable.SameIndices | src/backend/link_table.rs:104-122 | So the methods of a class that is up to date begin with those its parent has in the table: every index has the same name, and the same method unless the class defines one; the names it adds follow in the order of their definitions, and what it defines is its last definition |
| LinkTable.InOrder | src/backend/link_table.rs:23-66 | If every parent is declared before its children, the first pass is already the final table, whatever the order of visits |
| LinkTable.CompleteExact | src/backend/link_table.rs:39-58 | The table is complete, every class with its parent's names and its own in place, if and only if a further pass over any module would change nothing |
| LinkOrders.StaleExact | src/backend/link_table.rs:39-58 | Three modules, five classes of any names, each parent in a later module, and any orders of visits, from round to round: when the rounds end, the table is complete if and only if it is not so that the first round visits `x` and `c` before `w`, and `w` before `d` |
| LinkOrders.RestlessExact | src/backend/link_table.rs:39-58 | Any number of modules that define one class, without parents: the rounds end if and only if all definitions have equally many methods, and then with the first |
| Dictionary.ProbeEndsIff | src/codegen/emit_raw_x86.rs:1224-1230 | The probe for a key ends if and only if a slot is free or the key is there, and then within one round |
| Dictionary.MakeDict | src/codegen/emit_raw_x86.rs:1213-1237 | A dictionary made of n entries maps every key to the value given last, counts distinct keys, and has more than half its slots free |
| Dictionary.EnteredExact | src/codegen/emit_raw_x86.rs:1222-1233 | A key is in a dictionary literal if and only if some entry has it, and has the value of the last entry that does |
| Dictionary.HashExact | src/codegen/emit_raw_x86.rs:1225 | A key hashes to its characters as the digits of a number to the base of thirty-one, cut to sixty-four bits |
| Dictionary.Dict.constructor | src/codegen/emit_raw_x86.rs:1213-1219 | An empty dictionary with 2n + 4 slots |
| Dictionary.Dict.Probe | src/codegen/emit_raw_x86.rs:1224-1230 | Finds the slot of the key or the free slot where it belongs, wrapping around |
| Dictionary.Dict.GetField | src/codegen/emit_raw_x86.rs:1282-1292 | The value set last, or 0 for an absent key |
| Dictionary.Dict.SetField | src/codegen/emit_raw_x86.rs:1293-1303 | The map with one key set, and the length its number of keys |
| Dictionary.RoomIff | src/codegen/emit_raw_x86.rs:1293-1303 | A slot is free if and only if there are fewer keys than slots |
| Lexer.Lexer.Tokenize | src/lexer/mod.rs:37-203 | Ends. A source is accepted if and only if it can be cut into segments from end to end (blanks, line breaks, comments, brackets, directives, and what the scanner finds), and its tokens are then exactly those of the segments, with the indents and dedents of the lines; whatever happens, the tokens are ordered and no dedent precedes its indent |
| Lexer.Lexer.Finish | src/lexer/mod.rs:188-203 | The dedents at the end of the source cannot fail; the last line is ended if it has content |
| Lexer.Lexer.ScanLineStart | src/lexer/mod.rs:307-380 | A blank or comment line leaves the levels alone whatever its column; any other line is accepted if and only if its column, tabs counted as four, is an open level or deeper than all, and becomes the innermost level; otherwise no segment may follow |
| Lexer.Lexer.ScanRest | src/lexer/mod.rs:45-186 | Inside a line one segment is taken, or no segment may follow |
| Lexer.Lexer.GenerateIndents | src/lexer/mod.rs:269-279 | Opens a level, or closes levels down to an open one, or fails exactly when there is none at that column |
| Lexer.Lexer.GenerateDedents | src/lexer/mod.rs:281-303 | Closes exactly the levels deeper than the target, one dedent each, and fails exactly when the target is no level |
| Lexer.Lexer.ScanMultilineComment | src/lexer/mod.rs:426-466 | One token for a nested comment, up to the first place where it has as many closing as opening marks; it fails if and only if there is none, and is then at the end of the source |
| Lexer.Lexer.LineBreak | src/lexer/mod.rs:47-77 | A line break is a token outside brackets and nothing inside them |
| Lines.CutOnce | src/lexer/mod.rs:37-203 | There is only one way to cut a source: of two ways one begins with the other |
| Lines.PlaceExact | src/lexer/mod.rs:37-203 | Every place of the source is in one segment, and inside a token if and only if that is not a blank, a comment to the end of the line, something skipped, or a line break inside brackets or on a line without content |
| Lines.NewlineExact | src/lexer/mod.rs:47-77 | The line breaks that are tokens are exactly those at bracket depth zero that end a line with content; the depth is counted over the brackets before them, a closing one too many not counted |
| Lines.CommentExact | src/lexer/mod.rs:426-466 | The comments that are tokens are exactly the enclosed ones, each up to the first place where its marks, which do not overlap, are balanced |
| Lines.PlainExact | src/lexer/mod.rs:86-180 | Every bracket, every directive at the start of a line and every token that the scanner finds is a token, and nothing else |
| Lines.LayoutExact | src/lexer/mod.rs:269-303 | Before the first content of each line, and nowhere else, come the indent or the dedents that take the open levels to its column, which is then the innermost level |
| Lines.AllTokensSound | src/lexer/mod.rs:188-203 | The tokens of a whole source are in order, every indent has its dedent after it, and the last token is the end |
| Lines.ClosedMeans | src/lexer/mod.rs:281-303 | Closing keeps a prefix of the levels, whose last one is the target exactly if the target was a level |
| Lexer.BaseIsOpen | src/lexer/mod.rs:188-191 | Column one is an open level at every point |

## Left out

- Floats, dictionaries, objects, closures, classes, generators, `match`, `try`, `with`, `defer`, `spawn`: values and statements outside `Ast`.
- Functions, parameters and local slots of the bytecode compiler: the programs are top-level code over global variables.
- Assignment to several targets, `/=`, slices, `in`, `is`, `**` and `repeated`, whose operands the compiler emits twice; the `else` of a loop.
- The constant pool: instructions carry their strings and integers. The temporaries of list literals with spreads are kept apart from user names by their type, so a program that spells the name of one is not described.
- Operators overloaded by classes, and the part of the virtual machine that interprets trees.
- Readings.BlockAgrees: a plain block has no `for` left by `break` inside a `for`, and no comprehension inside another; what such loops and comprehensions do is said one at a time, by `Leftovers.ForExact` and by `NestedComps`, where the inner comprehension is the whole iterable, filter or result of the outer one.
- Source.Eval: a comprehension leaves its list in `__lc_result` in the documented reading too, as it leaves its loop variable assigned.
- The IR fragment: integers and truth values with fixed types for each variable, no `for` over values. What `and`, `or` and `not` make of integers is not stored in variables, and `not` is not applied to integers that may be boxed; a divisor that may be zero needs operands known to be unboxed, since the library yields zero where the processor traps.
- LoweringRuns.PrintLowered: `println` without arguments is lowered to a library call without its argument, which prints whatever a register holds; it is outside the fragment.
- LoweringExprs.UnaryLowered: `not` of a number that may be boxed depends on what the compiler knows of it; `LogicFolding.NotExact` covers it, one expression at a time.
- SteadyRanges.ProgramsSame: a step other than one is steady only between literals, since the counter could wrap around at a bound that is not known; `RangeQuirks.CountingExact` is about all ranges, one loop at a time. Whether a dividend is negative is known for literals only; `LoweredPrints.DividingExact` is about all dividends.
- Agreement.CompilersAgree: is about plain programs that are steady; `Agreement.AgreementExact` is about all programs of the fragment.
- NativePrograms.NativeKept: is about `main`; constants in arithmetic and comparisons fit into thirty-two bits; the processor starts where a caller of `main` leaves it, with the stack mapped.
- Other functions than `main` in the emitter, more than six parameters, `push`, `pop` and `alloca`, the AArch64 and LLVM emitters, and the text of the assembly, including the spelling of labels.
- The functions of the C runtime other than the dictionary are taken as wrapping arithmetic, comparison and printing on 64-bit integers; they may change every caller-saved register.
- Dictionary.Dict.GetField: needs a free slot or the key, since the probe does not end otherwise (`ProbeEndsIff`); keys are strings, and null objects, null keys and failed allocation are not described.
- The bytes of a dictionary key are the numbers of its characters.
- Lexer.Lexer.Tokenize: scanning an ordinary token is a parameter that must move forwards; this excludes the lifetime token, whose scanner does not. A `#` inside a line that opens no enclosed comment is the scanner's. Lexemes, line numbers and error messages are left out.
- Module texts stand for their hashes; files, paths and parsing are a map from texts to their imports.
- Parsing and printing of versions and manifests, and fetching; a package that cannot be fetched has no dependencies, as in the code.
- Vpm.ResolveDeps: takes a finite set of the names that can ever be asked for, without which the worklist need not end.
- LinkTable.LinkTable.FromPrograms: function signatures (`sigs`) are left out; the order of a hash map's keys is a parameter of the rounds.
- Poisoned mutexes and the number of receivers of a channel, which nothing depends on.
- Language server, debugger, command line, build driver and the semantic passes.
