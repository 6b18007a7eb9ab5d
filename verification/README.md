# dplang: compiler, virtual machine, collector, tables and scanner

dplang is a small scripting language: a one-pass compiler reads tokens, emits the bytes of a stack
machine while it parses, and a virtual machine executes them. Strings are interned, closures share
variables through upvalues, and a mark-sweep collector frees what nothing refers to. This project
models these parts as Dafny programs and proves what they promise.

## How it is organised

**Compiling and running a script.** `Values`, `Syntax` and `Semantics` give the language and its
direct, tree-walking meaning, with a stack of scopes. `Bytecode`, `Codegen` and `Machine` give the
instruction set, the code of each tree and the transition function of the machine. `Expressions`,
`Scoping`, `Statements` and `Preservation` prove that running the code is evaluating the tree, in both
directions and with the run-time errors. `Grammar` is the grammar the parser reads, `RoundTrip` proves
that trees written with the fewest parentheses are read back. `SinglePass` (Compiler.dfy) is the
compiler as it is written: one class whose methods consume tokens, append bytes, overwrite jump
distances, search the chunk for open jumps and keep the picture of the stack; `Emissions` ties it to
the grammar and to the code of trees. `VirtualMachine` (Vm.dfy) is the dispatch loop, and `Interpreter`
puts everything together: from tokens to output. `Comparisons` says exactly when the comparison
operators say what they should, and `Truth` which values count as true and which are equal, said of
scripts that run.

**The grammar.** `Ladder` is the grammar as a ladder of rungs, one for each level of the operators, and
proves that the precedence parser reads exactly this; from it follows which operator binds tighter.
`Forms` says what each statement and declaration looks like, and that nothing else is read; `Writing` writes whole scripts down and reads them back. `Naming` has the rules of names a script has to
keep, and `Acceptance` proves that a script compiles exactly if it keeps them, as long as no limit of the
instruction set can be met.

**The search at the end of a loop.** `ExitSearch` (Search.dfy) is the search itself and what it means
that it never ends. `Pieces` is code as the compiler lays it down, with every patch and every search in
its order: flat code, conditionals and loops, whatever the language they come from; `Placing` gives the
pieces of a script, and the chunk the compiler leaves for every tree that has code. `Patching` says which
emitted bytes can look like an open jump, and `LoopScan` has the exact outcome of a search that meets one
or two open jumps. `Laying` and `Nesting` compare the chunk with the code that is meant: `Laying` for
loops outside of loops, `Nesting` for loops around loops. `Regular` says what this means for scripts, and
`Branches` has the exact conditions for a loop with one conditional jump open around it, with scripts that
meet them.

**Chunks.** `Functions` gives the code and the chunks of scripts with functions, closures and `return`,
one chunk for each function, with its own searches. `Instructions` and `SoundCode` prove that the code of
every tree, and the chunk of every script and function with tame loops, is whole instructions with
operands in range and jumps to instructions, closures included. `Frames` carries this over calls and
returns, `Leaving` has a script whose chunk a run can leave, `FunctionFree` shows that a script without
functions has the code of `Codegen` and the chunk of `Placing`, and `Chunks` (Chunk.dfy) is the growing
buffer and the disassembler's walk.

**Closures.** `CellMachine` is the reference semantics, in which every stack slot is a heap cell of its
own; `Upvalues` is the machine with a stack and a sorted linked list of open upvalues, proved to show
the same values over every run. `Lexical` is the compile-time half: how nested functions find the
variables of the functions around them. `ClosureCode` joins the two through the bytes of the closure
instruction, and `Functions` uses both. `StackTypes`, `PieceTypes`, `ExprTypes` and `Discipline` show how
many slots a frame has at every instruction of compiled code and which of them may be captured;
`Legality` proves from this that compiled scripts run as the cell machine allows, and so as `Upvalues`
shows, and `Popped` has a script for which that fails.

**Running scripts with functions.** `Meaning` is the direct evaluation of scripts with functions: an
environment says which place of a store a name stands for, and a function keeps the environment it was
declared in. `Engine` is the machine that executes their chunks, byte by byte, on the cells of
`CellMachine`. `Scripts` proves that the two do the same, in both directions, for every script whose
chunks are as meant: closures, recursion, the limit on calls and run-time errors included. `Growth` says
how compiling extends the chain of functions being compiled, `Agreement` how cells picture variables,
`Running` and `ExprRuns` what single instructions and expressions do, `Declaring` and `DeclRuns` what
declarations do, `Boundaries`, `SimpleRuns` and `StmtRuns` what statements do, and `Calls` closes the
circle through the bodies of functions, by induction on the calls that can still be made. `Shown` joins
this with `Legality`: every step of `Engine` is a legal operation on the cells. `Dispatch` is the dispatch
loop for such scripts, a class that changes its stack, its calls and its list of open upvalues in place;
it is proved to do what the evaluation says.

**Collector.** `Reachability` and `Gc`: gray worklist, tracing and the sweep that unlinks in place,
proved exact, between the operations of a machine that pushes, pops, captures and closes. `Survival`
says field by field what an object keeps alive, and that a collection leaves nothing dangling.

**Tables and strings.** `Hashing` (FNV-1a and masking), `Probing` (layouts and probes), `HashTable`
(Table.dfy) and `StringPool`.

**Scanner.** `Lexing` (blanks, comments and lexemes as functions), `Keywords`, `Tiling` (the laws),
`Spelling` (which texts are lexemes and of which kind) and `Scanner` (the class that reads character by
character).

Each part has its own small value type that keeps what the part looks at: numbers and strings for the
compiled fragment, references for the collector, closure numbers for the cell machine, keys for tables.

## Where the code does not do what one would expect

* The search that patches a loop's exit jump (compiler.c:785-797) subtracts the search position from
  an offset that is already absolute, and the position has eight bits. It looks at the whole chunk, so
  it also meets the open jumps of conditionals and loops around the loop, and finished jumps over
  exactly 65535 bytes.
  * A loop around a loop never gets its own exit: the first search inside it aims the exit at the bottom
    of the inner loop, and nothing touches that jump again, so a false condition leads back into the
    body (`Regular.LoopAroundLoop`, `Regular.NeverLeft`). `Branches.NestedLoops` is such a script.
    Scripts with no loop in the first branch of an `if` get the code of their tree if and only if no
    loop is in a loop (`Regular.NestedScript`, and `SoundCode.NestedChunk` for functions).
  * In the first branch of an `if` the exit can be wrong, and the search need not end:
    `Branches.LoopInBranch` has the exact conditions when one conditional jump is open around the loop,
    and `Branches.ThreeScripts` three scripts of one shape whose compilation never ends, gives the right
    code, and gives a wrong exit. `LoopScan.TwoUnending` says the same of the second search, with two
    open jumps over second branches.
  * A wrong exit need not even lead to an instruction: `Leaving.NotSound` has a script whose exit leads
    to offset 65554 of a chunk of 35 bytes, and `Leaving.RunLeaves` a run that leaves the chunk there.
  * A loop that is reported as too large is searched all the same, and that need not end either
    (`Branches.LoopTooLarge`, `Branches.LargeLoopHangs`).
  * The scripts for which none of this happens are called tame: loops are outside of loops, of first
    branches, and of second branches of second branches. With less than 65535 bytes their chunks are the
    code of their trees (`Regular.TameScript`, `SoundCode.TameChunk`), and running them is evaluating
    them (`Interpreter.ChunkMeaning`, and `Scripts.FunctionsMeaning` with functions).
* `continue` pops the locals it leaves plainly (compiler.c:596-599), while the end of a scope closes the
  captured ones. A script in which no `continue` leaves a captured local never pops a captured variable
  (`Legality.ScriptLegal`); `Popped.PopsCaptured` has one that does.
* `<=` and `>=` are compiled as the negations of `>` and `<`. `Comparisons.OperatorsMean` shows that
  every comparison says what it should, unless it is `<=` or `>=` and an operand is not-a-number;
  then the two hold where they should not (`Comparisons.NotANumber`).
* Deleted table entries are not counted in the load. `Probing.ProbeEnds` says exactly when a probe
  ends, and `HashTable.SlotsRunOut` gives a run of sets and deletes after which it does not.
* A block comment that is never closed makes every later scan return the same error, so the end of the
  source is never reached (`Scanner.Scanner.ScanToken`). The text `/*/` is a complete comment.

## Model

| member | source | states |
|---|---|---|
| Preservation.ScriptMeaning | vm.c:796-825 | For every script that compiles, loops at any place included, every choice of number operations and built-in functions, and all initial globals: running the code of its tree halts with an empty stack, given globals and output exactly if direct evaluation ends normally with them; it stops with a run-time error exactly if evaluation fails with the same globals and output; no run ever leaves the instruction set |
| Preservation.ScriptRuns | compiler.c:1295-1312 | Forward simulation for every bound on loop iterations, including running on for at least as many steps as the bound |
| Preservation.EndedRun | vm.c:886-903 | A run that has ended after n steps has the outcome of an evaluation with fuel n + 1 |
| Preservation.ReturnStep | vm.c:699-712 | The implicit `nil; return` of a script empties the stack, which the machine takes for success |
| Preservation.TopLevelSlots | compiler.c:375-378 | Declarations at the top level add no stack slot |
| Truth.NotMeans | vm.c:288-291 | Running the code of `!` on any value leaves true exactly for nil and false; every number, zero and not-a-number included, every string and every built-in function is true |
| Truth.IfRuns | vm.c:615-622 | Running `if (v) s else t` halts with given globals and output exactly if running `t` does, for nil and false, and exactly if running `s` does, for every other value |
| Truth.ShortRuns | compiler.c:1239-1259 | `print v and w;` prints `v` if it is nil or false and otherwise `w`; `print v or w;` prints the other one |
| Truth.WhileRuns | compiler.c:753-815 | `while (v) s` ends at once, with nothing changed, for nil and false, and never ends normally for any other value |
| Truth.EqualityMeans | value.c:101-120 | Running `==` and `!=` on two values: equal are nil and nil, a boolean and itself, strings of the same text, and a number other than not-a-number and itself; no other two values are, built-in functions included |
| Truth.ArithmeticMeans | vm.c:533-594 | `+` joins two strings, the left one first, and adds two numbers; the other operations take two numbers, in order; anything else is a run-time error |
| Truth.OrdersNeedNumbers | vm.c:520-530 | A comparison other than equality has a value exactly if both operands are numbers |
| Interpreter.ChunkMeaning | vm.c:886-903 | For every script of less than 65535 bytes whose loops are outside of loops, of first branches and of second branches of second branches: the compiler ends, and running the chunk it leaves halts, or fails, with given globals and output exactly if evaluating the tree does; no run is ever stuck |
| Interpreter.Interpret | vm.c:886-903 | From tokens to effects, for scripts whose loops are compiled as intended: a source with code is compiled without end exactly if the search of some loop does not end; if compilation ends, a source that does not compile changes nothing and gives -1, and for any other the status is 0 or -1, with globals and output as the tree evaluates |
| Expressions.ExprSim | compiler.c:861-1044 | The code of any expression, placed anywhere in a chunk, pushes exactly the expression's value, keeps every slot below, changes scopes and globals as evaluation does, or stops with the error evaluation meets |
| Expressions.ShortSim | compiler.c:1239-1259 | `and` and `or` evaluate the right operand only when the left one does not decide, and leave the deciding operand |
| Expressions.BinarySim | compiler.c:926-982 | Left operand, right operand, operator: in that order, with the error of the first that fails |
| Expressions.UnarySim | compiler.c:1026-1044 | The operator applies to the operand's value, or is a run-time error on it |
| Expressions.AssignSim | compiler.c:861-896 | Assignment stores into the resolved slot or the existing global, and leaves the value |
| Expressions.CallSim | vm.c:129-166 | A call evaluates callee and arguments in order and calls a built-in function, taken as a function of its arguments; any other callee is an error |
| Expressions.ArgsSim | compiler.c:429-443 | The arguments end up on the stack in order, or evaluation fails at the first that fails |
| Expressions.LookupAgrees | compiler.c:320-332 | The newest slot of a name is the variable of the innermost scope that binds it; no slot means no scope binds it |
| Expressions.AssignAgrees | vm.c:367-372 | Writing that slot is assigning that variable: every other slot still pictures its own variable |
| Expressions.LoadStep | vm.c:360-385 | Reading a variable by slot or by name gives its value, or the undefined-variable error |
| Expressions.StoreStep | vm.c:367-406 | Writing a variable by slot or by name, or the error for a global that does not exist |
| Expressions.BinaryStep | vm.c:512-594 | The one or two instructions of an operator compute the operator on the two top values |
| Expressions.OperatorMeaning | vm.c:512-530 | The one or two instructions of every operator give its value on all operands, with the same errors |
| Comparisons.OperatorRuns | vm.c:512-594 | Running the code of any operator on any two operands is evaluating the operator |
| Comparisons.OperatorsMean | compiler.c:952-977 | The code of a comparison says what IEEE 754 says of the two numbers if and only if it is not `<=` or `>=`, or neither operand is not-a-number |
| Comparisons.NotANumber | compiler.c:970-977 | The failing inputs: `<=` and `>=` are true with not-a-number on either side of anything |
| Statements.StmtSim | compiler.c:836-859 | The code of any statement does what the statement does, is left at its end or, by `continue`, at the top of the loop, with the slots and the height the compiler recorded for that place |
| Statements.BlockSim | compiler.c:451-458 | A block's variables live in its own slots and are popped at its end, also when it is left by `continue` |
| Statements.IfElseSim | compiler.c:707-725 | Exactly one branch runs, and both paths pop the condition |
| Statements.IfThenSim | compiler.c:707-725 | Without `else` a false condition does nothing |
| Statements.WhileSim | compiler.c:753-815 | Executing a loop's code is iterating condition and body; the loop's scope and slots are as before after every iteration |
| Statements.BackToTop | compiler.c:777-780 | Both ends of an iteration, normal and `continue`, arrive at the top of the loop at the same stack height |
| Statements.ContinueSim | compiler.c:589-602 | `continue` pops exactly the locals of the loop body and jumps to the loop's top |
| Statements.DeclsSim | compiler.c:818-833 | Declarations run in order until one fails or continues |
| Statements.LocalSim | compiler.c:568-580 | The value of a local's initializer becomes the local's slot |
| Statements.GlobalSim | vm.c:387-394 | A global's definition takes the initializer's value off the stack and binds the name |
| Statements.PopsStep | compiler.c:1281-1293 | As many pops as locals restore the height of the outer scope |
| Statements.StmtGrows | compiler.c:248-257 | Compiling a statement only appends to the constants |
| Scoping.LeaveScopes | compiler.c:1281-1293 | Leaving every scope deeper than a level keeps exactly the slots of the other scopes, each still at its own index |
| Scoping.EnterScope | compiler.c:1276-1279 | Entering a scope changes no slot |
| Scoping.EndInit | compiler.c:411-417 | Once its initializer is compiled a local is visible, with the initializer's value |
| Scoping.OuterSorted | compiler.c:1285-1291 | The locals of the ended scopes are exactly the newest ones of deeper level |
| RoundTrip.PrattRoundTrip | parser.c:83-109 | Every expression tree, written with the fewest parentheses its precedences allow and followed by anything that cannot extend it, is read back as the same tree, consuming exactly its own tokens |
| RoundTrip.ReadRendered | compiler.c:113-161 | The same at every level: parentheses exactly where the tree binds less tightly than its place asks |
| RoundTrip.ReadInfix | compiler.c:926-982 | A binary operator takes its left operand at its own level and its right operand one level higher, so equal levels nest to the left |
| RoundTrip.ReadAssign | compiler.c:861-896 | Assignment is read only where its level is allowed, and nests to the right |
| RoundTrip.ReadArgs | compiler.c:429-443 | Argument lists are read back whole, in order |
| Ladder.ReadsLevel | parser.c:83-109 | At every level of the operators, from every place of every token list, the precedence parser reads the same tree up to the same place as a grammar with one rung for each level does, or fails where that fails |
| Ladder.TighterOperator | compiler.c:113-161 | Said of tokens and trees alone: equality, comparison, sums and shifts, products bind tighter in this order, on either side; of two operators of one level the first comes first |
| Ladder.TighterThanShort | compiler.c:113-161 | Every binary operator binds tighter than `and`, `and` tighter than `or`, and chains of either nest to the right |
| Ladder.TightestFirst | compiler.c:113-161 | `!`, `-` and calls bind tighter than every binary operator, a call tighter than `!` |
| Ladder.LoosestLast | compiler.c:861-896 | Assignment takes everything to its right, nests to the right, and is an error behind anything but a name standing alone |
| Forms.ScriptForm | compiler.c:818-859 | A token list parses exactly if it has the form of a script up to its end, as the script it has the form of: every keyword, semicolon, brace and parenthesis where it belongs, and an `else` with the nearest `if` |
| Forms.StmtIsRead | compiler.c:836-859 | What has the form of a statement is read as that statement |
| Forms.ReadIsStmt | compiler.c:836-859 | What is read as a statement has its form |
| Writing.ScriptTrip | compiler.c:707-859 | Every script whose trees have a written form is read back as it is: which keyword begins which statement, which branch is which, and an `else` belongs to the nearest `if` |
| Naming.ScriptIsNamed | compiler.c:375-394 | Every script that compiles, whatever its size, if the loops of its functions are tame, keeps the rules of names: no scope declares a name twice, parameters included, no local occurs in its own initializer, `continue` is in a loop and `return` in a function |
| Naming.ExprNamed | compiler.c:320-332 | An expression that compiles does not mention the local that is being initialized |
| Acceptance.CompilesExactly | compiler.c:1295-1312 | A tame script of fewer than 250 parts compiles if and only if it keeps these rules |
| Acceptance.ExprMakes | compiler.c:861-1044 | An expression with room for its constants and upvalues, which does not mention a local being initialized, compiles, and takes no more room than it has parts |
| Acceptance.FunctionMakes | compiler.c:461-494 | A tame function with room around it whose body keeps the rules compiles |
| Acceptance.ConstantLimit | compiler.c:248-257 | A constant has an index exactly if fewer than 256 constants are there, or an equal one is among the first 256 |
| Acceptance.LocalLimit | compiler.c:300-310 | A local can be declared exactly if fewer than 256 slots are taken and its scope has no local of the name |
| SinglePass.Compile | compiler.c:1295-1312 | For every list of the fragment's tokens, well formed or not: failure exactly if the tokens do not parse or the tree has no code. If it does not fail, the constants are those of the tree, the original never returns exactly if the chunk of the tree is unending, and otherwise the bytes are that chunk |
| SinglePass.Compiler.CompileScript | compiler.c:1295-1312 | The same for the compiler's final state |
| SinglePass.Compiler.Declaration | compiler.c:818-833 | One declaration: an error exactly if there was one or it does not parse or has no code; otherwise exactly its tokens are consumed, its constants added and the chunk is the one after it; before the end of the source it consumes at least one token, also after an error |
| SinglePass.Compiler.Declarations | compiler.c:451-458 | A list of declarations up to its closing token, in order, with the chunk before each visible to the next |
| SinglePass.Compiler.Synchronize | parser.c:58-81 | Recovery from an error ends, leaves panic mode, and stops at the first place where a statement of the fragment seems to begin: after a semicolon, at one of its keywords, or at the end of the source |
| SinglePass.Compiler.Statement | compiler.c:836-859 | One statement: its chunk, its tokens, and the same locals, level and loop as before |
| SinglePass.Compiler.IfStatement | compiler.c:707-725 | Both jumps of a conditional are patched to lead past their branches, whatever a search has written into them, or a branch is too long and compilation fails |
| SinglePass.Compiler.CloseThen | compiler.c:717-719 | The jump over the second branch is emitted, and the conditional jump patched to lead past it; an error beyond 65535 |
| SinglePass.Compiler.WhileStatement | compiler.c:753-815 | A loop anywhere: condition, exit jump, body, jump back and both searches, with the scope and the loop around it as before |
| SinglePass.Compiler.CloseLoop | compiler.c:780-797 | The jump back fits in 16 bits or is an error and left out; either way the pop follows and both searches are made on the whole chunk |
| SinglePass.Compiler.SearchJumps | compiler.c:785-811 | Each of the two searches, on any chunk and also after an error: it leaves exactly the code of the search, with its 8-bit position, or is found never to end |
| SinglePass.Compiler.LoopBody | compiler.c:762-797 | The chunk at the end of a loop whose parts have code is that of the tree, also when the loop is too large |
| SinglePass.Compiler.FindPlaceholder | compiler.c:17-34 | The first match of the three bytes at or after a position, or none |
| SinglePass.Compiler.ContinueStatement | compiler.c:589-602 | Pops for the locals above the loop's level and a jump to its top, or an error outside a loop |
| SinglePass.Compiler.DiscardLocals | compiler.c:596-599 | One pop for each local of the loop body; the locals themselves stay |
| SinglePass.Compiler.BlockStatement | compiler.c:451-458 | A block's code, and the locals as they were before it |
| SinglePass.Compiler.ScopeExit | compiler.c:1281-1293 | Exactly the locals of the ended scope are dropped, with one pop for each |
| SinglePass.Compiler.VarDeclaration | compiler.c:568-580 | A global's name is added to the constants before its initializer is compiled; a local's slot is not readable until its initializer is compiled |
| SinglePass.Compiler.DeclareVariable | compiler.c:375-394 | An error exactly for a name already declared in this scope or a 257th local; otherwise a new uninitialized slot |
| SinglePass.Compiler.ParsePrecedence | parser.c:83-109 | The Pratt loop emits exactly the code of the expression the grammar reads at that precedence, and stops where the grammar stops |
| SinglePass.Compiler.Prefix | compiler.c:113-161 | Prefix rules: literals, names, grouping, unary operators; every other token is an error |
| SinglePass.Compiler.Infix | compiler.c:926-992 | Infix rules emit the operator's code after the right operand |
| SinglePass.Compiler.ShortCircuitOperator | compiler.c:1239-1259 | The conditional jump of `and` and `or` is patched over exactly the right operand |
| SinglePass.Compiler.NamedVariable | compiler.c:861-896 | A name is a slot if it resolves to an initialized local, an error if the local is being initialized, a global otherwise; `=` makes it an assignment only where one is allowed |
| SinglePass.Compiler.ArgumentList | compiler.c:429-443 | Arguments in order, at most 255 |
| SinglePass.Compiler.ResolveLocal | compiler.c:320-332 | The newest slot of the name, with an error if it is not initialized |
| SinglePass.Compiler.MakeConstant | compiler.c:248-257 | The index of an equal constant or of a new one; an error beyond 256 |
| SinglePass.Compiler.PatchJump | compiler.c:223-234 | The two bytes become the distance to the end of the code; an error beyond 65535 |
| SinglePass.Compiler.EmitLoop | compiler.c:203-214 | A jump back to the given place; an error beyond 65535 |
| SinglePass.Compiler.EmitJump | compiler.c:216-221 | A jump with the placeholder distance, and the place to patch |
| SinglePass.Compiler.Consume | parser.c:111-118 | The expected token is consumed; any other is an error and stays |
| Codegen.Resolve | compiler.c:320-332 | The highest index with the name, or -1 |
| Codegen.IndexOf | chunk.c:257-271 | The first equal constant, or the size of the pool |
| Codegen.Above | compiler.c:596-599 | How many of the newest locals are deeper than a level |
| ExitSearch.UnendingMeans | compiler.c:785-797 | A search is unending if and only if there is a turn after every number of turns |
| ExitSearch.SearchEnds | compiler.c:785-797 | A search that ends has a last turn and leaves the code before it |
| ExitSearch.TurnProgress | compiler.c:785-797 | Every turn closes a jump, in any code, or leaves the code alone and leads to one and the same position |
| Placing.StmtShaped | compiler.c:836-859 | Every statement consists of pieces: their code is its code, their loops and branches are its loops and branches, and laying them down leaves the chunk the compiler leaves, behind anything |
| Placing.StmtGrown | compiler.c:836-859 | The chunk grows by exactly the bytes of the statement's code, whatever the searches write |
| Laying.PlainLaid | compiler.c:707-725 | Code without loops adds exactly itself to any chunk |
| Laying.ClearLaid | compiler.c:753-815 | Behind any code, with any number of jumps over second branches open: loops that are in no loop and in no first branch get their code, the open jumps stay open jumps, and compilation ends if at most one of these is open and no loop is in a second branch inside it |
| Laying.LoopLaid | compiler.c:780-811 | A loop whose exit is the only open conditional jump gets its code; the jumps over second branches that the other search overwrites stay open jumps |
| Laying.CondLaid | compiler.c:707-725 | The jump over a second branch is patched at its end, so what searches inside the branch wrote into it does not matter |
| Nesting.LayKeeps | compiler.c:785-811 | Nothing that is laid down behind a jump that has its distance, patches and searches included, changes that jump |
| Nesting.FirstSearch | compiler.c:785-797 | A piece with a loop anywhere in it, laid behind an open exit, leaves that exit leading into the piece |
| Nesting.ExitLeadsBack | compiler.c:753-797 | The exit of a loop around a loop ends up leading back into the loop, to a place before its jump back |
| Nesting.NoneNested | compiler.c:753-815 | Where no loop is in a first branch, and wherever compilation ends, the chunk is the code that is meant if and only if no loop is in a loop |
| Nesting.LoopAlone | compiler.c:753-815 | A loop behind finished code gets its own code if and only if there is no loop in it |
| Regular.LoopAroundLoop | compiler.c:753-815 | The same for every condition, every body and every place of a loop in a script: the chunk after it is the intended one if and only if its body has no loop, in a branch or anywhere else |
| Regular.NeverLeft | compiler.c:785-797 | And if the body has one, a false condition leads to a place before the jump back |
| Regular.NestedScript | compiler.c:753-815 | Scripts of less than 65535 bytes with no loop in a first branch: wherever compilation ends, the chunk is the code of the tree if and only if no loop is in a loop; without those it ends if no loop is in a second branch inside a second branch |
| Regular.ScriptPlaced | compiler.c:753-815 | The same for scripts of any length in which no finished jump over exactly 65535 bytes is before the end of a loop |
| Regular.TameScript | compiler.c:753-815 | A condition on the outline of the tree alone, where its loops and branches are: for such scripts of less than 65535 bytes compilation ends with the code of the tree |
| Regular.PlainStmt | compiler.c:707-725 | A statement without loops adds exactly its code to any chunk |
| Branches.LoopInBranch | compiler.c:753-815 | A loop in a chunk with one open conditional jump: compilation never ends if and only if the rest of the loop is as long as the low byte of that jump's offset and the exit jump is at a multiple of 256; the loop gets its code if and only if that jump is at a multiple of 256, or the rest is that long and the two offsets add up to a multiple of 256; in every other case the bytes are those of the search, and the other jump always ends up at the bottom of this loop |
| Branches.LoopTooLarge | compiler.c:203-214 | A loop reported as too large is searched without end if and only if its body has 65534 bytes and its exit jump is at a multiple of 256 |
| Branches.LoopAfterAssignments | compiler.c:753-815 | Scripts with n assignments before a loop in a branch: unending exactly if 5n + 16 is a multiple of 256, the code of the tree exactly if 5n + 26 is one |
| Branches.ThreeScripts | compiler.c:753-815 | One such script that never compiles, one whose exit only a third turn gets right, and one whose exit is wrong |
| Branches.NestedLoops | compiler.c:753-815 | A script of a loop around a loop: its whole chunk, in which the outer exit leads to the jump back, and which is not the code of its tree |
| Branches.ExitLeftOpen | compiler.c:785-797 | The whole chunk of the third script, whose exit keeps the distance of an open jump |
| Branches.LargeLoopHangs | compiler.c:753-815 | A script whose only loop is in no branch and is reported as too large, and whose compilation never ends |
| Patching.StmtQuiet | compiler.c:785-797 | In a statement of less than 65535 bytes no operand, constant index or finished jump can look like an open jump |
| Regular.TailQuiet | compiler.c:753-783 | Neither the condition of a loop nor what comes behind its exit jump holds an open jump |
| LoopScan.OwnExitRight | compiler.c:785-811 | With a second open jump before it, the loop's own jump ends up with its own distance, and the rest of the chunk as it was, if and only if the other jump is at a multiple of 256, or the second turn leaves the jump open and the two offsets add up to a multiple of 256 |
| LoopScan.TwoUnending | compiler.c:785-811 | With two open jumps the search never ends if and only if the second turn leaves the loop's jump open and that jump is at a multiple of 256 |
| LoopScan.TwoSearched | compiler.c:785-811 | The first turn closes the other jump, and the search goes on from its offset, cut to eight bits, as if there were one jump |
| LoopScan.OneOpen | compiler.c:785-811 | The outcome of a search with one open jump, over all its turns and from any position before it |
| LoopScan.OneUnending | compiler.c:785-811 | With one open jump the search never ends if and only if the jump is at a multiple of 256 and as far from the bottom as a placeholder says |
| SoundCode.ScriptSound | compiler.c:1295-1312 | In every script that compiles, with functions and closures at any depth, if the loops of the script and of each function are outside of loops, of first branches and of second branches of second branches, and no chunk has 65535 bytes: the chunk the compiler leaves, and that of every function, is whole known instructions from its first byte to its last, with constants in range and of the right kind, upvalues the function has, closures that capture only what the function around them has, every jump to an instruction, and a return at the end |
| SoundCode.TameChunk | compiler.c:461-493 | The chunk of such a function, or script, is the code of its tree, whatever the searches of the functions around it and in it do |
| SoundCode.NestedChunk | compiler.c:461-493 | A function of less than 65535 bytes with no loop in a first branch: its chunk is the code of its tree if and only if no loop is in a loop |
| SoundCode.ScriptChunk | compiler.c:1295-1312 | A tame script whose tree has code of that size is compiled, with exactly this code |
| SoundCode.SoundQuiet | compiler.c:785-797 | In sound code of less than 65535 bytes, closures included, no three bytes look like an open jump |
| SoundCode.FunctionGood | compiler.c:461-493 | The chunk of a tame function is sound by itself, becomes a constant of the chunk around it, and its closure instruction has one pair of bytes for each of its upvalues |
| SoundCode.ItemGood | compiler.c:818-833 | The code of declarations, before searches: it keeps the chain of functions linked, only adds constants and upvalues, and is sound, if the functions declared are tame |
| SoundCode.StmtGood | compiler.c:836-859 | The same for the code of a statement anywhere, `return` and captured locals included: the only jump out of it is `continue`, to the loop's top |
| SoundCode.ExprGood | compiler.c:861-1044 | The same for an expression, whose jumps stay inside it, with names found as slots, upvalues or globals |
| SoundCode.StaysInside | vm.c:796-825 | From an instruction of a sound function control goes on at an instruction of it, never behind its last one |
| SoundCode.NoneTooLarge | compiler.c:334-373 | Slots and upvalue indexes of linked functions always fit in a byte |
| Frames.FramesStay | vm.c:110-127 | Over every run of a tame script whose chunks have less than 65535 bytes, through calls of any of its functions and returns, every frame is at an instruction of its function |
| Leaving.NotSound | compiler.c:785-797 | A script with a loop in a first branch that compiles to a chunk that is not sound |
| Leaving.RunLeaves | vm.c:796-825 | A run of that chunk whose last frame is at no instruction of it |
| Frames.Fetch | vm.c:674-690 | The machine, reading the operands byte by byte, comes exactly to the next instruction; at a closure it reads as many captures as the function has upvalues, and none the running function lacks |
| FunctionFree.ScriptLift | compiler.c:1295-1312 | A script without functions, whatever its loops, is compiled in the language with functions to the chunk it has without them, or without end if that is so |
| FunctionFree.TreeSound | compiler.c:1295-1312 | The code of the tree of every script without functions is sound, whatever its loops and however long |
| FunctionFree.StmtLift | compiler.c:836-859 | The two languages give a statement the same code, slot for slot |
| FunctionFree.ShapeLift | compiler.c:836-859 | And the same pieces |
| FunctionFree.StepStays | vm.c:302-304 | A step of the machine from an instruction of sound code leads to an instruction that may follow it |
| FunctionFree.RunStays | vm.c:796-825 | Over every run of a sound chunk the machine is at an instruction of it, never behind its last one |
| FunctionFree.TameRunStays | vm.c:796-825 | The same for the chunk the compiler leaves of every tame script of less than 65535 bytes |
| Instructions.Join | chunk.c:210-220 | Two pieces of sound code joined are sound if the jumps out of each lead into the other or to the places outside |
| Instructions.JoinedBoundary | chunk.c:210-220 | The instruction boundaries of joined code are those of its pieces |
| Chunks.Chunk.Disassemble | chunk.c:210-220 | The offsets visited are exactly the instruction boundaries, in rising order, in chunks with closures too |
| Chunks.Chunk.DisassembleInstruction | chunk.c:126-208 | Past every opcode by its length, a closure's by the number of upvalues of its function |
| Chunks.Chunk.WriteBytes | chunk.c:228-244 | The bytes and their line are appended, and nothing written before changes; one doubling is enough for as many bytes as the buffer has room for |
| Chunks.Chunk.WriteOpcode | chunk.c:247-255 | Opcode and operands are appended on one line, and nothing written before changes |
| Chunks.Chunk.AddConstant | chunk.c:257-271 | The index of the first equal constant, or of the new one |
| VirtualMachine.Vm.Run | vm.c:796-825 | The dispatch loop ends where the transition function ends, with its globals and output; the result is 0 exactly for the script's return |
| VirtualMachine.Vm.RunOne | vm.c:796-825 | One instruction is one step, or the end of the run |
| VirtualMachine.Vm.Add | vm.c:532-558 | Two strings are concatenated, two numbers added, anything else is an error |
| VirtualMachine.Vm.SetGlobal | vm.c:396-406 | An existing global is changed; one that does not exist stays absent and is an error |
| VirtualMachine.Vm.ReadOffset | vm.c:304-304 | Sixteen bits, least significant byte first |
| CellMachine.StepWellFormed | vm.c:360-372 | Every step keeps variables distinct cells, frames in order, and closures within the store |
| CellMachine.ReturnWellFormed | vm.c:699-712 | Returning drops the callee's variables and puts the result in their place |
| CellMachine.DepthLimit | vm.c:117-120 | A call with the right number of arguments fails exactly if 64 calls are active, and more than 64 never are |
| CellMachine.RecursionEnds | vm.h:12 | A function that calls itself gets as far as 64 active calls; the next one is refused |
| CellMachine.CalleeSlots | vm.c:122-125 | After a call the callee is in slot 0 of its frame and the i-th argument in slot i + 1 |
| Upvalues.Vm.Run | vm.c:796-825 | Over every run of pushes, reads, writes, closure creations, calls, closings and returns the stack shows exactly the cells, and reading through any upvalue, open or closed, gives its cell's value; a run ends at its first error |
| Upvalues.Vm.Execute | vm.c:796-825 | Each instruction is a step of the cell machine, or the failure the cell machine has |
| Upvalues.Vm.Capture | vm.c:214-235 | The upvalue of a slot: the existing one, with nothing changed, or a new one linked in order |
| Upvalues.Vm.FindPlace | vm.c:216-221 | The place after exactly the upvalues of higher slots |
| Upvalues.Vm.Insert | vm.c:227-234 | Linking in keeps the list chained, strictly descending and duplicate-free |
| Upvalues.Vm.CloseFrom | vm.c:237-245 | Exactly the upvalues at or above a slot leave the list, its rest is unchanged, and each closed one carries its variable's value |
| Upvalues.Vm.CloseFirst | vm.c:237-245 | Closing the first upvalue moves its variable's value into it |
| Upvalues.Vm.MakeClosure | vm.c:674-690 | The new closure is on the stack, and its upvalues stand for the captured cells, its own included |
| Upvalues.Vm.CaptureAll | vm.c:679-688 | Each upvalue is the shared one of its cell, from a slot or from the running closure |
| Upvalues.Vm.Call | vm.c:110-127 | A frame at the callee's slot; a callee that is no closure, a wrong number of arguments or a 65th frame is an error that changes nothing |
| Upvalues.Vm.Return | vm.c:699-712 | The callee's captured variables are closed, its slots dropped and the result put in their place |
| Upvalues.Vm.CloseUpvalue | vm.c:692-697 | The top variable leaves the stack and lives on in its upvalue |
| Upvalues.Vm.GetUpvalue | vm.c:451-456 | Reading an upvalue pushes its cell's value |
| Upvalues.Vm.SetUpvalue | vm.c:458-463 | Writing an upvalue is writing its cell, seen by the slot and by every closure that shares it |
| Upvalues.Vm.SetLocal | vm.c:367-372 | Writing a slot is writing its cell |
| Upvalues.Vm.Pop | vm.c:354-358 | Popping a variable that no closure has captured |
| Upvalues.ReadsCell | vm.c:451-456 | An open upvalue points at the slot of its cell below the top of the stack; a closed one carries the value of a cell no slot has |
| Upvalues.OpenIff | vm.c:214-225 | A variable on the stack has been captured exactly if the list has an upvalue for its slot |
| Legality.ScriptLegal | vm.c:796-825 | Over every run of every script that compiles, with functions and closures at any depth, whose loops are tame, whose chunks have less than 65535 bytes and in which no `continue` leaves a captured local, through calls, returns and jumps either way: every operation on variables is one the cell machine allows. No captured variable is popped, no slot outside the frame is read, written or captured, and every upvalue read or captured exists |
| Legality.RunScript | vm.c:796-825 | So over every such run the machine with its stack and its sorted list of open upvalues shows exactly the cells |
| Legality.NextLegal | vm.c:796-825 | In a process whose frames are as the types of their next instructions say, whatever instruction comes next is legal |
| Legality.NextStays | vm.c:110-127 | And leads to such a process: callers wait with the slots they will have when the call returns, and the callee's arguments are its first slots, not captured |
| Discipline.ScriptTyped | compiler.c:1295-1312 | In every such script, at every instruction of the script and of every function, the frame has one and the same number of slots whatever path leads there, and every slot that a closure may have captured is known |
| Discipline.FunctionTyped | compiler.c:461-493 | A function's chunk starts with its own slot and its arguments, and its closure instruction captures only slots that the function around it has flagged |
| Discipline.StmtTyped | compiler.c:836-859 | The code of a statement, entered with the compiler's locals, is left with them; more of them may be flagged captured |
| Discipline.ItemsTyped | compiler.c:818-833 | Declarations leave one more slot for each local they add |
| Discipline.BlockCarries | compiler.c:1281-1293 | The end of a scope closes exactly what may be captured and pops the rest |
| Discipline.WhileCarries | compiler.c:753-815 | What an iteration captures may be captured at the top of the loop, and nothing in the loop pops it |
| Discipline.SteadyAll | compiler.c:589-602 | Declarations without `continue`, in any function, never leave a captured local by it |
| Discipline.ContinueTyped | compiler.c:589-602 | `continue` arrives at the top of the loop with the slots it had there, if none of those it pops is captured |
| ExprTypes.ExprTyped | compiler.c:861-1044 | The code of an expression pushes one value, pops only its own temporaries, and names only slots that are there |
| ExprTypes.EndLocalsTyped | compiler.c:1281-1293 | Closing and popping the locals of a scope, newest first, leaves the slots of the others |
| StackTypes.JoinTyped | chunk.c:210-220 | Pieces of code joined keep their types if jumps out of each meet the types of the other |
| StackTypes.Raise | vm.c:692-697 | Slots that code never pops may be captured all the time |
| Popped.PopsCaptured | compiler.c:589-602 | `while (true) { var x; func f() { x; } continue; }` compiles and is tame, its `continue` leaves a captured local, and its run pops it |
| Scripts.FunctionsMeaning | vm.c:111-127 | For every script with functions, closures and recursion that compiles, whose loops are tame and whose chunks have less than 65535 bytes, with any number operations and built-in functions: executing its chunks halts with an empty stack, given globals and output exactly if direct evaluation ends normally with them; it fails exactly if evaluation fails; otherwise both go on for ever, and no run is ever stuck |
| Scripts.ScriptRuns | compiler.c:1295-1312 | Forward simulation for every bound on loop iterations; a script neither returns nor continues |
| Scripts.EndedRun | vm.c:886-903 | A run that has ended after n steps has the outcome of an evaluation with fuel n + 1 |
| Calls.BodyRuns | vm.c:605-641 | From the first instruction of a closure with its arguments on the stack to its result: the call leaves the value the body returns, or nil at its end, in place of its slots, and touches no cell but variables |
| Calls.AllFaithful | vm.c:111-127 | So does every call, however deep, up to 64 active ones |
| StmtRuns.StmtRuns | compiler.c:836-859 | The code of any statement, in any function, does what the statement does: it ends normally with the slots it began with, continues at the top of the loop with the slots there, returns, or fails |
| StmtRuns.ItemsRun | compiler.c:451-458 | The code of declarations does what they do, in order, with new slots for new variables |
| StmtRuns.WhileRuns | compiler.c:753-815 | A loop iterates, and is left by `return` from inside |
| SimpleRuns.ReturnRuns | compiler.c:734-751 | `return e;` leaves the value of `e`, and `return;` nil |
| SimpleRuns.ContinueRuns | compiler.c:589-602 | `continue` arrives at the top of the loop with exactly the slots there |
| ExprRuns.ExprRuns | compiler.c:861-1044 | The code of any expression, anywhere in any function, pushes its value in a new cell that is no variable, keeps every cell that is no variable, and reads and writes locals, captured variables and globals as evaluation does |
| ExprRuns.CallsRun | compiler.c:984-992 | A call evaluates callee and arguments in order, and calls; the wrong number of arguments, too deep a call, and a callee that is no function are errors |
| ExprRuns.AccessFinds | compiler.c:861-896 | A name leads, by slot or upvalue, to the cell of the variable its scope stands for, or to no variable |
| Declaring.ParameterSlot | compiler.c:469-481 | The i-th of distinct parameters is the local in slot i + 1 |
| Declaring.ArgumentRead | vm.c:122-125 | In the body of a routine the i-th parameter has the value of the i-th argument |
| Declaring.CallApplies | compiler.c:461-481 | Calling `func (a, b) { return a op b; }` applies the operator to the two arguments, in their order |
| Declaring.ParametersMatch | vm.c:122-125 | The cells behind the callee are the variables of the parameters, in order |
| Declaring.ClosureOuter | vm.c:676-690 | A new closure has captured, by name, exactly the variables of the environment it was declared in |
| DeclRuns.LocalFunRuns | compiler.c:560-566 | A function in a scope is a variable of it before its body is compiled, and can refer to itself |
| DeclRuns.LocalRuns | compiler.c:568-580 | The value of a local's initializer becomes its slot, and a variable of its scope |
| Growth.ItemsGrow | compiler.c:334-373 | Compiling declarations adds locals of their own scope, upvalues and marks of capture, and changes nothing else of the chain |
| Engine.StepsCompose | vm.c:796-825 | Runs can be put together |
| Meaning.ExecAllOk | compiler.c:461-494 | Every function value an evaluation holds is a routine that has been made |
| Shown.ScriptTraced | vm.c:214-245 | Every run of such a script in which no `continue` leaves a captured local is a legal run of the cell machine with the same cells |
| Shown.StepGoes | vm.c:605-712 | Every step of the machine is a sequence of legal operations on the cells |
| Dispatch.RunScript | vm.c:796-825 | From trees to effects on the machine itself: executing the chunks of such a script, in which no `continue` leaves a captured local, on one stack with a linked list of open upvalues, for at most n instructions, either goes on with the cells of the run, or returns with globals and output of an evaluation that ends normally, or stops with those of one that fails |
| Dispatch.Interpreter.Run | vm.c:796-825 | The loop of at most n instructions is n steps of the machine on cells, with every stack slot and upvalue showing its cell |
| Dispatch.Interpreter.RunOne | vm.c:796-825 | Fetching one instruction and handing it to its handler is one step |
| Dispatch.Interpreter.Call | vm.c:129-166 | A built-in function leaves its result; a closure with the right number of arguments becomes one more call, unless 64 are active; anything else stops the run |
| Dispatch.Interpreter.MakeClosure | vm.c:676-690 | The new closure is on the stack before its operands are read, and captures what they say |
| Dispatch.Interpreter.Return | vm.c:699-712 | The result replaces the slots of the call, whose variables are closed; the return of the script ends the run |
| Dispatch.Interpreter.Variable | vm.c:360-463 | Locals and captured variables are read and written |
| Dispatch.Interpreter.Named | vm.c:374-406 | Constants are pushed; globals are read, written if they exist, and defined |
| Dispatch.Interpreter.Simple | vm.c:596-606 | Literals, `!`, `-`, `print` and pops |
| Dispatch.Interpreter.Jump | vm.c:609-641 | A conditional jump goes where the top of the stack says and leaves it |
| Dispatch.Interpreter.Binary | vm.c:512-594 | An operator replaces its two operands by its value, or stops the run |
| Lexical.Addressing | compiler.c:355-373 | No index exactly if no enclosing function declares the name; otherwise, unless a function is full, following the entries outward ends at the newest local of that name in the nearest enclosing function that has one, which is flagged captured |
| Lexical.LookupGrows | compiler.c:334-373 | A lookup keeps chains well linked, changes or duplicates no entry, and leaves the innermost locals alone |
| Lexical.FollowStays | compiler.c:334-352 | What an index stands for never changes afterwards |
| Lexical.EveryEntryLeads | compiler.c:334-373 | Every upvalue of every function leads to a captured local |
| Lexical.FullAt256 | compiler.c:345-348 | Room is short only in a function that has 256 upvalues |
| Lexical.AddEntryOk | compiler.c:334-352 | An entry is found or appended, never duplicated; a full list is left alone |
| Lexical.Compiler.Resolve | compiler.c:861-896 | A name is a slot if this function declares it, a global if no function does, and otherwise the upvalue of its nearest declaration |
| Lexical.Compiler.ResolveUpvalue | compiler.c:355-373 | The recursion through the chain of compilers computes the lookup, with the errors for full and uninitialized variables |
| Lexical.Compiler.AddUpvalue | compiler.c:334-352 | The loop finds the existing entry or appends a new one |
| Lexical.Compiler.ResolveLocal | compiler.c:320-332 | The newest local of the name, with an error if it is not initialized |
| Lexical.Compiler.ScopeExit | compiler.c:1281-1293 | The locals of the ended scope go, newest first: a captured one is closed, any other is popped |
| Lexical.Compiler.constructor | compiler.c:259-292 | A new function starts with slot 0 and no upvalues, in front of the chain of the functions around it |
| ClosureCode.ClosureRoundTrip | compiler.c:484-492 | What the machine captures from the bytes of a closure instruction is exactly the upvalues the function's compiler collected, in order, and machine and disassembler agree on the next instruction |
| ClosureCode.ReadCaptures | vm.c:679-688 | The machine reads one pair of bytes for each upvalue |
| ClosureCode.SkipClosure | chunk.c:158-173 | The disassembler steps over the same pairs |
| ClosureCode.EmitClosure | compiler.c:484-492 | Opcode, constant, and a pair of bytes for each upvalue are appended |
| ClosureCode.IndexesFit | compiler.c:334-373 | Every upvalue index of a well-linked chain fits in a byte |
| Gc.Collector.Collect | memory.c:242-267 | The heap list keeps exactly the objects reachable from the roots or from the gray stack at entry, in their order, unmarked, with the gray stack empty; payloads are not modified and no interned string is dropped |
| Survival.Collect | memory.c:100-152 | An object is kept exactly if a chain of references leads to it, from the stack, a frame, an open upvalue, a global, the pool of strings, a function being compiled or the initializer name, through the fields of each kind of object; and nothing dangles: every object a field of a kept object or of the collector refers to is kept |
| Survival.SurvivorsReached | memory.c:154-178 | What marking keeps is what chains of references lead to |
| Survival.ValidDangles | memory.c:100-152 | In every valid state nothing dangles |
| Gc.Collector.Mark | memory.c:154-178 | The mark phase marks exactly what is reachable |
| Gc.Collector.TraceReferences | memory.c:172-178 | The worklist ends, with marks closed under references and on nothing unreachable |
| Gc.Collector.TraceOne | memory.c:172-178 | Each turn marks a new object or shrinks the worklist |
| Gc.Collector.Blacken | memory.c:92-142 | An object's references, of every kind of object, are marked, and the new ones become gray once |
| Gc.Collector.MarkRoots | memory.c:154-170 | Stack, frames, open upvalues, globals, strings, functions being compiled and the initializer name are marked |
| Gc.Collector.MarkObject | memory.c:43-69 | An unmarked object is marked and becomes gray; a marked one is left alone |
| Gc.Collector.MarkTable | memory.c:83-90 | Keys and values of every entry |
| Gc.Collector.Sweep | memory.c:180-200 | The list is the marked objects in their order, linked, and all marks are cleared |
| Gc.Collector.RemoveWhite | memory.c:144-152 | Exactly the unmarked keys become tombstones |
| Gc.Collector.Allocate | object.c:41-48 | A new object enters at the head of the list, unmarked |
| Gc.Collector.MakeConstant | compiler.c:248-257 | The index of the first equal constant, or of the new one at the end; the constant is marked and gray exactly once, also when an equal one is used |
| Gc.Collector.Mutate | memory.c:118-132 | Changing what an object contains, to anything on the heap, keeps every invariant of the collector |
| Gc.Collector.VariablesSurvive | memory.c:118-132 | In every state the machine and the collector reach, whatever a surviving closure can read through an upvalue survives, although an upvalue traces only what it has closed over |
| Gc.Collector.Capture | vm.c:214-235 | The upvalue of a slot is the one it has, or a new object linked in where its slot belongs; open upvalues stay in order below the top of the stack, and no other object is one |
| Gc.Collector.CloseFrom | vm.c:237-245 | Exactly the upvalues at or above a slot are closed with their variables' values, and the others keep their place |
| Gc.Collector.Return | vm.c:699-712 | A frame and its slots go, the result takes their place, and no open upvalue is left above it |
| Gc.Collector.CloseUpvalue | vm.c:692-697 | The top of the stack goes, captured or not |
| Gc.Collector.Pop | vm.c:354-358 | A value no upvalue refers to is popped |
| HashTable.Table.Set | table.c:139-159 | Binds the key and its object in the map; says whether it is new; keeps every other entry reachable; without deletions a never-used slot always remains |
| HashTable.Table.Get | table.c:162-175 | Found exactly if the map binds the key, with its value |
| HashTable.Table.Delete | table.c:177-197 | Unbinds exactly the key, leaving a tombstone, and says whether it was bound |
| HashTable.Table.AdjustCapacity | table.c:71-97 | Rehashing keeps the map, leaves no tombstone, and the capacity a power of two |
| HashTable.Table.AddAll | table.c:100-111 | The target becomes the override-union and the other table does not change; a target with deleted keys needs a never-used slot for each key of the other |
| HashTable.Table.FindEntry | table.c:50-69 | The probe ends within the table at the key, or at the first slot on its way without a key, tombstone or not |
| HashTable.Table.FindString | table.c:115-135 | In a table of strings without tombstones: the object with these bytes exactly if the map has one |
| HashTable.Table.RemoveWhite | memory.c:144-152 | Slot by slot: unmarked object keys become tombstones, everything else stays |
| HashTable.Table.InsertOnly | table.c:16-27 | In a table nothing was deleted from, a table that is not due to grow has a never-used slot, so every probe ends |
| HashTable.StaysFree | table.c:139-159 | The load limit of 75 percent and doubling from 8 leave a never-used slot after every insertion |
| HashTable.GrowsAt | table.c:16-27 | A table is due to grow when it has no slots or at least 76 in 100 hold keys; it starts with 8 slots and doubles |
| HashTable.Mask | table.c:52-66 | Masking with the capacity less one is the remainder, for every capacity a table has |
| HashTable.SlotsRunOut | table.c:177-197 | Whatever the hashes of numbers, a run of sets and deletes of eight one-byte strings never reaches the load limit and uses up all slots, after which no probe for an absent key ends |
| HashTable.DigitHome | hash.c:13-22 | The home slots of these strings under FNV-1a are all eight slots of the least table |
| Probing.ProbeEnds | table.c:50-69 | A probe ends if and only if the key is present or some slot was never used |
| Probing.PutLayout | table.c:139-159 | Writing where the probe ended keeps keys unique and every key reachable without passing a never-used slot |
| Probing.PutContents | table.c:139-159 | Writing where the probe ended is updating the map |
| Probing.DeleteLayout | table.c:177-197 | A tombstone keeps every other key reachable |
| Probing.DeleteContents | table.c:177-197 | A tombstone removes exactly its key from the map |
| Probing.FindsOne | table.c:50-69 | What a probe finds is determined |
| Probing.EqualHashes | hash.c:54-70 | Keys equal to themselves that are equal have equal hashes |
| Probing.FreeSlot | table.c:16-27 | Without tombstones, fewer keys than slots leave a never-used slot |
| Hashing.HashString | hash.c:13-22 | The loop computes the FNV-1a hash modulo 2 to the 32 |
| Hashing.KnownHashes | hash.c:13-22 | The published hashes of the empty string and of `a` |
| Hashing.OneByteApart | hash.c:13-22 | Two strings that differ in exactly one byte never have the same hash |
| Hashing.MaskIsMod | table.c:52-66 | Conjunction with a power of two less one is the remainder |
| StringPool.Pool.Run | vm.c:256-268 | Over every run of internings and collections, two requests get the same object exactly if their bytes are equal |
| StringPool.Pool.Intern | vm.c:256-268 | The pooled object of these bytes: the one it had, or a new one; no other string is forgotten or replaced |
| StringPool.Pool.Collect | memory.c:144-170 | Because the pool itself is marked, removing unmarked strings changes no slot of it |
| Tiling.TokensTile | scanner.c:294-369 | Lexemes are in order and disjoint, each at its place in the source and on the line one more than the newlines before it, with nothing but blanks and comments between neighbours, up to the end of the source; error tokens are the only exception |
| Tiling.ScannedAgain | scanner.c:294-369 | Scanning the lexemes of a text again, joined by spaces, gives the same kinds and lexemes |
| Tiling.LexResumes | scanner.c:218-292 | A lexeme followed by a space or by nothing is scanned as itself |
| Tiling.SkipsGap | scanner.c:109-143 | What is skipped is blanks and whole comments, and neither follows |
| Tiling.NewlinesCounted | scanner.c:109-143 | A line number is one more than the newlines before it, counted one by one |
| Spelling.TokensSpelled | scanner.c:294-369 | Every token but errors and the end has the spelling of its kind, by a table of fixed texts and three forms, and is the longest such text at its place |
| Spelling.KindsSpelled | scanner.c:294-369 | A token is of a kind with a fixed text exactly if it is that text: every operator and every keyword, both directions |
| Spelling.LongestTaken | scanner.c:218-292 | At every place the longest lexeme is taken, and there is an error exactly if no lexeme is there, or the longest one is a number that is cut short |
| Spelling.OneKind | scanner.c:155-215 | No text is a lexeme of two kinds |
| Scanner.ScanAll | scanner.c:294-369 | Scanning ends, and gives exactly the tiling tokens |
| Scanner.Scanner.ScanToken | scanner.c:294-369 | The next token and position; progress unless at the end; inside a comment that was never closed every call gives the same error and stays |
| Scanner.Scanner.SkipWhitespace | scanner.c:109-143 | Exactly the blanks and comments, with every newline in them counted once |
| Scanner.Scanner.BlockComment | scanner.c:92-100 | The closing mark is the first one from the opening slash on, and counting newlines on arrival counts each once |
| Scanner.Scanner.Number | scanner.c:240-272 | Binary, hexadecimal and decimal literals with fraction and exponent, and their errors |
| Scanner.Scanner.String | scanner.c:274-292 | A string up to the next quote, on the line it starts on; unterminated is an error |
| Scanner.Scanner.Identifier | scanner.c:218-222 | The longest run of word characters, as the keyword it spells or an identifier |
| Scanner.Scanner.Symbol | scanner.c:305-366 | One- and two-character operators, the longer first |
| Keywords.KeywordTable | scanner.c:155-215 | Deciding letter by letter finds exactly the keywords |

## Left out

- SinglePass.Compile: takes the tokens of the fragment as a list; error tokens, which the parser of the original reports and skips, and the tokens of function, class, `for`, `break`, `return`, index and property syntax are not in it. After a search that never ends its methods go on, only to say so; for token lists that fail, which searches end is said by `SinglePass.Compiler.SearchJumps` alone.
- SinglePass.Compiler.Synchronize: the keywords `class`, `func`, `for` and `return` are not among the tokens.
- Branches.LoopInBranch: one open conditional jump before the loop; with more of them the chunk is what `Placing` says, and no shorter condition is given, but for the outermost of nested loops.
- Interpreter.Interpret: says nothing about scripts whose loops are not compiled as intended, whose chunk is given by `Placing`, nor when the original returns for a source that does not compile.
- SoundCode.ScriptSound: the chunk of a script whose loops are not tame may be sound or not; which of them are is not characterised.
- HashTable.Table.AddAll: a target with deleted keys and fewer never-used slots than keys to come is not covered, though its probes may still end.
- Expressions.CallSim: built-in functions are total functions of their arguments, and closures are not called here; `ExprRuns.CallsRun` calls them.
- Scripts.FunctionsMeaning: the scripts are trees, as the parser of the original would read them; built-in functions give no functions; which chunks are as meant is for tame scripts, and for those with loops in first branches or in loops the chunk is what `Functions.MakeScript` says.
- Dispatch.RunScript: a `continue` that leaves a captured local pops it, and what the machine with upvalues does then is not described (`Popped.PopsCaptured` has such a script).
- Acceptance.CompilesExactly: larger scripts can meet a limit; which limits there are is said by `Acceptance.ConstantLimit` and its neighbours, one construct at a time.
- Writing.ScriptTrip: a first branch that ends in an `if` without `else` has to be a block to have a written form.
- Preservation.ScriptMeaning: numbers are not-a-number or a rank in the order of doubles, the two zeros being one number, and their arithmetic is arbitrary, so the details of doubles are not modelled.
- Upvalues.Vm.Run: a run ends before the script's own frame returns; that its operations are legal is a condition on the run, which `Legality.ScriptLegal` shows for compiled scripts.
- Legality.ScriptLegal: that no `continue` leaves a captured local is required, also of a `continue` that is never reached; which values an instruction takes and gives is left open there, and said by `Engine`.
- Upvalues.Vm.Return: the result is taken off the stack after the upvalues are closed; the original decrements the stack pointer first, which leaves the memory as it is.
- Lexical.Addressing: says nothing about the index returned by a function that already has 256 upvalues; the original reports an error there and returns 0.
- Gc.Collector.Collect: is one step, as the original runs it; collections in the middle of an allocation, byte counts and the freeing of memory are not modelled, nor the switch that disables the collector.
- HashTable.Table.Set: the product of 100 and the count is not bounded to 32 bits.
- Chunks.Chunk.Disassemble: prints nothing, and needs a chunk of whole instructions.
- Frames.FramesStay: which instruction follows a conditional jump, which function is called and when, depends on values and is left open; instructions about classes do not occur.
- Gc.Collector.Pop: that the top is not captured is a condition; the end of a scope closes captured locals, but `continue` pops them like the others.
- Functions in the parser: the compiler class reads the tokens of scripts without functions; scripts with functions are compiled from their trees, by `Functions`.
- `for`, `break`, classes, properties, bound methods, `super`, tables as language values, and the operators `~` and `^`.
- Escapes in string literals and the text of number literals: tokens carry their values.
- Hashes of doubles are any function of the number; not-a-number and objects other than strings are no table keys.
- The 256-slot stack is unbounded here; the limit on active calls is kept.
- Resetting the stack after a run-time error: a run ends at its first error.
- Null table pointers, input and output, formatting of values and messages, traces, the main program and the build.
