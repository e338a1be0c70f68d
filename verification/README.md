# Verified model of the Malin compiler

Malin is a small imperative language. Its compiler lexes and parses a source text, decorates the tree
with names and types, and lowers it twice: to its own intermediate representation (IR), which a cleanup
pass shortens, and to LLVM. This project models the class-free language (numbers, `bool`, `void`,
functions, globals, blocks, `if`, `while`, calls) and proves what the parts promise each other. The main
results, in the order of the compiler:

- Lexing: the tokens tile the text (`Tiling.AllTokensTile`), and written tokens lex back (`Rendering.RenderThenLex`).
- Parsing: the expression parser reads exactly the grammar (`Grammar.ParsesExactly`), with operators grouped as one list
  of them says (`Climbing.LaterBindsStronger`) and arguments in the order they are written (`ReadBack.CallReads`).
- Decorating: a program is accepted if and only if it is well-formed by rules that know nothing of the decorator
  (`RootRules.AcceptsExactly`), and then every call of every function means what it meant in the written tree, where names
  stand for their innermost declaration (`ProgramMeaning.DecoratedMeans`).
- Lowering: both lowerings run an accepted tree as it was written, result, globals, extern calls, faults and divergence
  included, in LLVM if it takes the module (`Compiler.AcceptedTreesRun`, `Compiler.AcceptedMainRuns`).

How the pieces fit, in the order of the compiler:

- `Tokens`, `Scanning`, `Lexer`, `Tiling`, `Rendering`: what the lexer reads at an index of the text,
  the lexer as a class that moves a location, and the theorems that tokens tile the text and that written
  tokens lex back.
- `Syntax`, `Climbing`, `Parsing`, `Parser`: the tree, precedence climbing on chains of operators, the
  expression parser as functions, and as a class with a cursor.
- `ReadBack`, `Grammar`: what token lists are read as, rule by rule, and the whole grammar as phrases.
- `Printing`, `PrintedTokens`, `RoundTrip`, `CallRoundTrip`: the code printer and printing, lexing,
  parsing and decorating back.
- `Scopes`, `Checking`, `CheckSound`, `Elaboration`, `ReturnFlags`, `DecoratorSound`, `ProgramSound`, `Decorator`: the
  scope stack, checking of expressions and calls, decorating of statements and programs with what it
  guarantees, the two return flags and when they agree, and the decorator as a class.
- `Lang`, `Source`, `Typing`: decorated programs, their big-step meaning with fuel, and type soundness.
- `Meaning`, `MeaningSound`, `ProgramMeaning`: the meaning of the tree as it is written, with bindings that shadow, and
  that decorating keeps it.
- `Rules`, `RulesExact`, `RootRules`: the static rules on the written tree, and that the decorator records no error
  exactly where they hold.
- `Machine`: control-flow graphs and the small-step machine that runs them.
- `Lowering`, `Growth`, `Builder`, `ExprGen`: what it means for a graph to hold the code of a statement, that
  this survives further generation, and the instruction buffer and expression code of both lowerings.
- `IRGen`, `IRGenerator`: the IR lowering, as functions and as the builder and generator classes.
- `CodeGen`, `CodeGenSound`, `BlockShape`, `ValidModule`, `CodeGenerator`: the same for the LLVM lowering, and when LLVM
  takes the module it makes.
- `Cleanup`, `Reachability`: the pass that cuts blocks behind their first terminator, and how the blocks that control
  can reach end after it.
- `Simulation`, `Preservation`, `Agreement`, `Compiler`: the simulation proof, preservation of whole runs, the
  agreement of the two lowerings, and the end-to-end theorems.
- `Counterexamples`: accepted programs that show the facts below.
- `Containment`: the check against classes that contain themselves. `Numerals`, `Names`: printed IR names.

One relation, `Lowering.StmtAt`, describes the code of both lowerings, so the simulation is proved once. Code
that the compiler runs step by step is a class here, each of whose methods is proved equal to a function;
the theorems are about the functions.

Five facts of the code are stated as they are, each with an input that shows it:

- The decorator gives an `if` without else part the return flag of its body, the LLVM lowering gives it none. The
  flags agree exactly when the decorator's does not rest on such an `if`
  (`ReturnFlags.FlagsAgreeExactly`, `ReturnFlags.AgreeThroughout`). A body whose flag is wrong gets no implicit return
  and no error: a run that takes the other path falls off a block, and the LLVM merge block has no terminator
  (`Counterexamples.BareReturnsFallOff`). Bodies return on every path, all LLVM blocks close and all reachable IR
  blocks close if and only if the flag of the body is right (`ProgramSound.LinkNamesSound`,
  `Compiler.AcceptedBlocksClose`), and IR runs go wrong exactly where the source lets a function end without a
  return (`Agreement.IRPreserves`).
- The decorator never compares a default value with the type of its parameter. A decorated program is
  typed if and only if the default values its calls use happen to match
  (`ProgramSound.LinkNamesSound`, `Counterexamples.DefaultsAreNotChecked`).
- Variables and parameters of type `void` are accepted, and LLVM allows no allocation of that type. LLVM takes the
  module of an accepted tree if and only if its flags are right and no variable is void
  (`Compiler.AcceptedModulesValid`, `Counterexamples.VoidVariablesAreAccepted`). The theorems about LLVM runs assume
  that it does.
- The LLVM lowering does not evaluate a void expression that is returned, the IR lowering does. They agree when
  no void expression is returned, and LLVM always agrees with the IR of the program without such
  expressions (`Agreement.LoweringsAgree`, `Agreement.LoweringsAgreeUpToVoidReturns`,
  `Counterexamples.VoidReturnsDiffer`). The converse is not claimed: a returned call without effect changes no run.
- Operators have distinct precedences, so `a / b * c` is `a / (b * c)` and `a - b + c` is `(a - b) + c`, but `a + b - c`
  is `a + (b - c)` (`Climbing.LaterBindsStronger`).

## Model

| member | source | states |
|---|---|---|
| Source.Wrap | src/codeGen/CodeGenerator.h:671-703 | an integer result fits 32 bits, is congruent to the exact one modulo 2^32, and is the exact one where that fits |
| Source.QuotientExactly | src/codeGen/CodeGenerator.h:689-696 | the quotient is the one number that leaves a remainder smaller than the divisor with the sign of the dividend: integer division truncates |
| Source.QuotientFits | src/codeGen/CodeGenerator.h:689-696 | of 32-bit numbers only the quotient of the smallest one by -1 does not fit |
| Source.SumLaws | src/codeGen/CodeGenerator.h:673-688 | addition counts up, from the largest integer to the smallest one, and subtraction undoes it |
| Source.ProductLaws | src/codeGen/CodeGenerator.h:689-704 | multiplication is repeated addition, and division faults exactly where there is no quotient that fits |
| Source.ReturnsIsSound | src/codeGen/CodeGenerator.h:465-515 | a statement that the LLVM lowering takes to return never completes normally, in any run |
| Source.AnyReturnsIsSound | src/codeGen/CodeGenerator.h:431-439 | a statement list that the LLVM lowering takes to return ends every completed run in a return |
| Growth.StmtAtGrows | src/ir/gen/IRGenerator.h:289-358 | the code of a statement stays the code of that statement while blocks grow, jump targets are set and unused blocks disappear |
| ExprGen.InstructionOpAgrees | src/ir/IRInstructions.h:108-238 | the IR operator chosen from operand and result type is the source operator exactly for the types the decorator's rule allows |
| ExprGen.LlvmOpAgrees | src/codeGen/CodeGenerator.h:643-713 | an LLVM instruction is made exactly if the operator compares numbers, computes a number or is logical, and always for the same operator; this covers every operation the decorator gives a type |
| ExprGen.ExprCodeAt | src/ir/gen/IRGenerator.h:362-491 | the code of an expression is appended to one block, evaluates it with the left operand before the right one and both always, and leaves its value in the returned operand |
| ExprGen.ExprCodeKeepsLayout | src/ir/gen/IRGenerator.h:387-398 | expressions allocate no variable |
| IRGen.StmtCodeAt | src/ir/gen/IRGenerator.h:253-358 | the blocks emitted for a statement, with the insertion point moved back and forth and targets set late, hold its code from the old insertion point to the new one, and touch nothing emitted before |
| IRGen.IfCodeAt | src/ir/gen/IRGenerator.h:289-331 | the code of an `if`: the test jumps to blocks that hold the branches, and every branch that does not return reaches the merge block |
| IRGen.WhileCodeAt | src/ir/gen/IRGenerator.h:333-358 | the code of a loop: the block before it jumps to the test, the body comes back, and the exit is the new insertion point |
| IRGen.ModuleCodeLowers | src/ir/gen/IRGenerator.h:165-197 | the generated module is a lowering of every program the decorator lets through: distinct variables have distinct cells, each function's entry block starts the code of its body, and nothing stands behind a body that can end without a return |
| IRGenerator.IRBuilder.Function | src/ir/builder/IRBuilder.h:62-68 | appends a function with one empty block to the list of the module, which keeps the earlier ones; function and block are selected |
| IRGenerator.IRBuilder.SetInsertionBasicBlock | src/ir/builder/IRBuilder.h:38-41 | selects a block, the current function follows it, and nothing else changes |
| IRGenerator.IRBuilder.FunctionArgument | src/ir/builder/IRBuilder.h:77-82 | appends an argument, in place in a cell of its own, to the current function |
| IRGenerator.IRBuilder.BasicBlock | src/ir/builder/IRBuilder.h:104-110 | adds one empty block with a new name to the current function and selects it; no other function changes |
| IRGenerator.IRBuilder.Instruction | src/ir/builder/IRBuilder.h:120-124 | appends to the selected block only, and the result is a new register |
| IRGenerator.IRGenerator.VisitExpression | src/ir/gen/IRGenerator.h:362-491 | emits exactly the code the expression theorems are about |
| IRGenerator.IRGenerator.VisitStatement | src/ir/gen/IRGenerator.h:165-185 | emits exactly the code the statement theorems are about |
| IRGenerator.IRGenerator.VisitIfStatement | src/ir/gen/IRGenerator.h:289-331 | the same for `if`, with targets set after the branches have been visited |
| IRGenerator.IRGenerator.VisitWhileStatement | src/ir/gen/IRGenerator.h:333-358 | the same for `while`, with the jumps into and out of the test added at the end |
| IRGenerator.IRGenerator.VisitRootDecl | src/ir/gen/IRGenerator.h:75-97 | defines all numeric globals and all functions before it visits any body, and each body leaves exactly the specified blocks in its own function |
| Lang.GlobalTypeAt | src/ir/gen/IRGenerator.h:103-128 | a global number is defined behind the ones declared before it and with its own type; globals that are no numbers define nothing |
| Lang.AllGlobalTypes | src/ir/gen/IRGenerator.h:103-128 | all globals of a program that can be lowered are defined, in their order |
| IRGenerator.IRGenerator.GenFunctionDefinition | src/ir/gen/IRGenerator.h:132-147 | appends a function with its arguments and an empty entry block |
| IRGenerator.IRGenerator.Generate | src/ir/gen/IRGenerator.h:47-56 | the generated module, after the cleanup pass, is the one the theorems are about |
| CodeGen.VoidReturnsShape | src/codeGen/CodeGenerator.h:333-335 | leaving out returned void expressions changes no return flag |
| CodeGenSound.GenStatementAt | src/codeGen/CodeGenerator.h:330-373 | the code of a statement up to its first return holds the statement without its void returns, its flag is the LLVM rule (an `if` without else part never returns), and unless it returns the insertion point is a block that exists |
| CodeGenSound.GenCompoundAt | src/codeGen/CodeGenerator.h:431-439 | statements behind a returning one are not emitted, and the flag is that of the whole list |
| CodeGenSound.GenIfAt | src/codeGen/CodeGenerator.h:465-515 | the code of an `if` is right whether its merge block stays or is erased because both branches return |
| CodeGenSound.GenWhileAt | src/codeGen/CodeGenerator.h:521-550 | the code of a loop is right whether or not its body returns |
| CodeGenSound.GenArgumentCellsAt | src/codeGen/CodeGenerator.h:308-316 | the entry block stores every argument into a cell of its own |
| CodeGenSound.GenModuleLowers | src/codeGen/CodeGenerator.h:289-324 | the generated module is a lowering of the program without its void returns |
| BlockShape.EveryBlockCloses | src/codeGen/CodeGenerator.h:431-550 | every block left in a function has exactly one terminator, as its last instruction, if and only if the body returns on every path; erased merge blocks do not come back |
| ValidModule.ValidExactly | src/codeGen/CodeGenerator.h:241-316 | LLVM takes the module (signatures and allocations without `void`, blocks that end in their only terminator) if and only if all bodies return on every path and no variable the lowering gets to is of type void |
| ValidModule.NoVoidExactly | src/codeGen/CodeGenerator.h:376-425 | an allocation of type void is made exactly for void parameters and void locals in front of the first return |
| CodeGenerator.LlvmBuilder.Insert | src/codeGen/CodeGenerator.h:465-515 | appends to the selected block, which must not have been erased: every call site is proved to meet this |
| CodeGenerator.CodeGenerator.Statement | src/codeGen/CodeGenerator.h:330-373 | emits exactly the code the theorems are about, and returns their flag |
| CodeGenerator.CodeGenerator.IfStatement | src/codeGen/CodeGenerator.h:465-515 | the same for `if`, including the erased merge block the insertion point is left on |
| CodeGenerator.CodeGenerator.WhileStatement | src/codeGen/CodeGenerator.h:521-550 | the same for `while` |
| CodeGenerator.CodeGenerator.GenerateCode | src/codeGen/CodeGenerator.h:47-90 | numeric globals and all functions are declared before any body; the bodies are the ones the theorems are about |
| Cleanup.Truncated | src/ir/passes/IRRemoveBBRedundantTermPass.hpp:18-25 | a prefix that ends in the block's first terminator, or the whole block if it has none |
| Cleanup.TruncatedIs | src/ir/passes/IRRemoveBBRedundantTermPass.hpp:18-25 | only one prefix of a block ends in its first terminator |
| Cleanup.CleanAgain | src/ir/passes/IRRemoveBBRedundantTermPass.hpp:18-25 | running the pass again changes nothing |
| Cleanup.CleanKeepsRuns | src/ir/passes/IRRemoveBBRedundantTermPass.hpp:18-25 | every run of every function of every module is the same, step by step, before and after the pass |
| Cleanup.TerminatorsAreLast | src/ir/passes/IRRemoveBBRedundantTermPass.hpp:28-32 | after the pass a terminator is the last instruction of its block, and no block has lost its terminator |
| Cleanup.VisitBasicBlock | src/ir/passes/IRRemoveBBRedundantTermPass.hpp:18-25 | shortens one block's list in place to that prefix |
| Cleanup.CleanUp | src/ir/passes/IRRemoveBBRedundantTermPass.hpp:14-16 | does so for all blocks of all functions |
| Reachability.ReachableExactly | src/ir/passes/IRRemoveBBRedundantTermPass.hpp:18-32 | after the cleanup pass every block that control can reach from the entry along jumps, whether a run does or not, has exactly one terminator, its last instruction, if and only if the body returns on every path |
| Simulation.SimStmts | src/ir/gen/IRGenerator.h:253-258 | a graph that holds the code of a statement list runs it: same results, globals, extern calls and faults, and at least as many steps as the source has fuel |
| Simulation.SimLoop | src/ir/gen/IRGenerator.h:333-358 | the same for a loop, over all its iterations |
| Simulation.SimBody | src/ir/gen/IRGenerator.h:188-197 | a whole activation, from the entry block back to the caller |
| Preservation.Matches | src/ir/gen/IRGenerator.h:188-197 | each source run with any fuel is matched by a machine run, and a source run out of fuel by a machine run that is at least as long and still going |
| Preservation.Reflects | src/ir/gen/IRGenerator.h:188-197 | a machine run that stops does so as the source does |
| Preservation.LoweringPreserves | src/ir/gen/IRGenerator.h:188-197 | a lowering ends a run exactly as the source does, hence diverges exactly where it does |
| Preservation.WrongExactly | src/ir/gen/IRGenerator.h:253-358 | a run reads an undefined register or cell, takes an unset jump or falls off a block if and only if the source lets a function end without a return |
| Typing.ExprSound | src/decorator/AstDecorator.h:103-151 | an expression of a typed program yields a value of its result type, a division fault or runs out of fuel |
| Typing.StmtSound | src/decorator/AstDecorator.h:500-541 | a typed statement never gets stuck and leaves every visible variable with a value of its type |
| Typing.InvokeSound | src/decorator/AstDecorator.h:17-92 | a typed call in a typed program gives a value of the declared type, a division fault, out of fuel or, only if some body need not return, a function that ended without a return |
| Agreement.IRPreserves | src/ir/gen/IRGenerator.h:165-197 | for every typed program, function, argument vector and world, the cleaned IR ends each run as the source does: result, globals, extern calls, fault; hence it diverges exactly where the source does, and it goes wrong exactly where the source lets a function end without a return, which never happens if all bodies return |
| Agreement.IRBlocksClose | src/ir/gen/IRGenerator.h:289-358 | the reachable blocks of the cleaned IR module end in their only terminators if and only if the body returns on every path |
| Agreement.LlvmPreserves | src/codeGen/CodeGenerator.h:330-550 | if LLVM takes the module, it ends each run as the program without its void returns does, and no run goes wrong |
| Agreement.LoweringsAgree | src/codeGen/CodeGenerator.h:330-550 | if LLVM takes the module and no void expression is returned, the two lowerings agree on all inputs: result, globals, extern calls, faults and divergence |
| Agreement.LoweringsAgreeUpToVoidReturns | src/codeGen/CodeGenerator.h:333-335 | with void returns LLVM agrees with the IR of the program that leaves them out |
| Agreement.ImplementsExactly | src/codeGen/CodeGenerator.h:333-335 | the tree that the LLVM path implements is the program itself if and only if no void expression is returned (identity of trees; nothing is said of runs) |
| Compiler.AcceptedTreesRun | src/decorator/AstDecorator.h:17-92 | for every accepted tree with matching default values and every call of a function: the written program is never stuck and its results have the declared type, the cleaned IR ends the call exactly as the written program does, no run goes wrong if the flags of all bodies are right, and a module that LLVM takes ends it alike where no void expression is returned |
| Compiler.AcceptedMainRuns | src/ir/gen/IRGenerator.h:47-56 | the same for the whole program: its main function is the function of that name and shape, called while the globals have their initial values |
| Compiler.AcceptedBlocksClose | src/decorator/AstDecorator.h:729-744 | all LLVM blocks of a function of an accepted tree end in their only terminators, and so do all reachable IR blocks, if and only if the flag of its body is right |
| Compiler.AcceptedModulesValid | src/codeGen/CodeGenerator.h:376-425 | LLVM takes the module of an accepted tree if and only if the flags of all bodies are right and no variable is of type void |
| Counterexamples.DefaultsAreNotChecked | src/decorator/AstDecorator.h:388-400 | a program that is accepted and whose `i32` main function returns a bool |
| Counterexamples.BareReturnsFallOff | src/decorator/AstDecorator.h:593-606 | `fun f(b: bool): i32 { if b { return 1; } }` and its void variant are accepted; called with `false`, also from the main function, the IR falls off a block, and their LLVM code keeps an open block |
| Counterexamples.VoidReturnsDiffer | src/codeGen/CodeGenerator.h:333-335 | an accepted program with `return f()` for an extern void `f`: LLVM takes its module, the IR run of the main function calls `f`, the LLVM run does not |
| Counterexamples.VoidVariablesAreAccepted | src/codeGen/CodeGenerator.h:407-411 | `let x = f();` with a void `f` is accepted, and LLVM does not take the module |
| Scopes.NamesStack.AddNamesScope | src/decorator/NamesStack.h:44-46 | opens an empty scope and changes no visible name |
| Scopes.NamesStack.RemoveNamesScope | src/decorator/NamesStack.h:48-54 | removes exactly the given scope, or reports that there is none |
| Scopes.NamesStack.AddName | src/decorator/NamesStack.h:18-26 | declares a name unless the scope has it; in the innermost scope this shadows every outer meaning |
| Scopes.NamesStack.FindName | src/decorator/NamesStack.h:61-69 | finds the innermost declaration, as the flat environment of the stack gives it |
| Checking.CheckArguments | src/decorator/AstDecorator.h:311-409 | an accepted call has a checked expression for every parameter |
| Checking.IndexOf | src/decorator/AstDecorator.h:340-344 | the first parameter of a name, or the number of parameters |
| Checking.CallExact | src/decorator/AstDecorator.h:311-409 | a call is accepted exactly when positional arguments fit, each named one names an existing parameter nothing else provides, the others have default values and all provided ones have their parameters' types; then each provided argument stands at its own parameter and default values only in the gaps |
| Checking.ArgumentTypes | src/decorator/AstDecorator.h:380-400 | the arguments of an accepted call have the parameters' types if and only if the default values it uses have them |
| CheckSound.CheckIsSound | src/decorator/AstDecorator.h:103-293 | an expression that records no error is not rejected, uses only visible variables, and is typed if and only if the default values of its calls match; so every rejection comes with an error |
| CheckSound.CallIsSound | src/decorator/AstDecorator.h:301-423 | the same for a call whose name resolves to a function |
| ReturnFlags.MustIsSome | src/decorator/AstDecorator.h:569-621 | what the LLVM lowering takes to return, the decorator takes to return too |
| ReturnFlags.FlagsAgreeExactly | src/decorator/AstDecorator.h:593-606 | the two return flags of a statement agree if and only if the decorator's does not rest on an `if` without else part |
| ReturnFlags.AgreeThroughout | src/decorator/AstDecorator.h:593-606 | they agree on a statement and everything in it if and only if every `if` in it whose body is taken to return has an else part |
| DecoratorSound.FlagIsHasReturn | src/decorator/AstDecorator.h:569-621 | the decorator's flag depends on the statement alone, errors or not, and the LLVM lowering gives the decorated statement the flag of its own rule |
| DecoratorSound.FlagIsSound | src/decorator/AstDecorator.h:569-621 | where the decorator's flag does not rest on an `if` without else part, no run of the decorated statement completes without returning |
| DecoratorSound.StatementSound | src/decorator/AstDecorator.h:500-541 | a statement that records no error is typed up to default values, uses only visible variables, and leaves what it declares with its type; what names stand for is the matter of `MeaningSound.StatementResolves` |
| DecoratorSound.BlockSound | src/decorator/AstDecorator.h:585-590 | a block leaves the visible names and the innermost scope as they were |
| DecoratorSound.BodySound | src/decorator/AstDecorator.h:729-744 | a function body without an error is typed up to default values, and it returns on every path, by an implicit return if need be, if and only if its flag is right |
| ProgramSound.LinkNamesSound | src/decorator/AstDecorator.h:17-92 | a program without an error has a main function of the right shape and known signatures; it is typed if and only if the default values its calls use match, each body returns on every path if and only if its flag is right, and both lowerings accept it if it has no `str` and only numeric globals |
| MeaningSound.DeclarationResolves | src/decorator/AstDecorator.h:507-513 | a declaration without an error takes its name over from every outer one, and no other name changes its meaning |
| MeaningSound.StatementResolves | src/decorator/NamesStack.h:61-69 | lexical scoping: where every name stands for the innermost declaration in front of it, so it does behind any statement without an error, blocks nested in any way included |
| MeaningSound.ExpressionMeans | src/decorator/AstDecorator.h:103-293 | a decorated expression evaluates to what the written one means: operands in their order, names by their innermost declaration, calls, faults, globals and extern calls included |
| MeaningSound.CallMeans | src/decorator/AstDecorator.h:301-423 | the same for calls: each parameter has the value of the argument for it, or its default value, evaluated in the order of the parameters |
| MeaningSound.StatementMeans | src/decorator/AstDecorator.h:500-541 | a decorated statement runs as the written one does with any fuel, and leaves its variables with the same values |
| MeaningSound.WhileMeans | src/decorator/AstDecorator.h:610-622 | the same for a loop, over all its iterations |
| MeaningSound.FunctionMeans | src/decorator/AstDecorator.h:715-758 | every call of a decorated function ends as the written one, with the implicit return if it gets one |
| ProgramMeaning.GlobalNamesMean | src/decorator/AstDecorator.h:17-42 | the global scope links each name to its global variable or function, and to nothing else |
| ProgramMeaning.GlobalsAreWritten | src/decorator/AstDecorator.h:765-808 | the globals of an accepted program are the written ones, in their order, with their constants |
| ProgramMeaning.DecoratedMeans | src/decorator/AstDecorator.h:17-92 | every call of every function of an accepted program ends, for every amount of fuel, exactly as in the written program |
| RulesExact.CheckExact | src/decorator/AstDecorator.h:103-293 | an expression records no error if and only if it has a type by the rules, and then the decorated one has that type |
| RulesExact.CallIsExact | src/decorator/AstDecorator.h:301-423 | the same for calls: every argument is for a parameter of its type, none is given twice, and default values fill the gaps |
| RulesExact.StatementExact | src/decorator/AstDecorator.h:500-541 | a statement records no error if and only if it is well-formed where it stands |
| RootRules.FunctionExact | src/decorator/AstDecorator.h:715-758 | a function records no error if and only if it is well-formed, and it is taken for the main function if and only if it is one |
| RootRules.AcceptsExactly | src/decorator/AstDecorator.h:17-92 | a program is decorated without an error if and only if it is well-formed |
| Decorator.AstDecorator.DoExpression | src/decorator/AstDecorator.h:103-151 | accepts, decorates and counts errors as the function whose results keep meaning and types (`MeaningSound.ExpressionMeans`, `RulesExact.CheckExact`) |
| Decorator.AstDecorator.DoCallExpression | src/decorator/AstDecorator.h:301-423 | the loops over positional, named and missing arguments fill the vector those functions describe |
| Decorator.AstDecorator.DoStatement | src/decorator/AstDecorator.h:500-541 | decorates a statement as the function whose results keep meaning and rules (`MeaningSound.StatementMeans`, `RulesExact.StatementExact`), and leaves all outer scopes untouched |
| Decorator.AstDecorator.DoCompoundStatementWithNewScope | src/decorator/AstDecorator.h:585-590 | afterwards the scope stack is exactly what it was |
| Decorator.AstDecorator.DoFunctionDeclarationBody | src/decorator/AstDecorator.h:715-758 | decorates one function as specified, with parameters and body in one scope, and restores the stack |
| Decorator.AstDecorator.LinkNames | src/decorator/AstDecorator.h:17-92 | the whole program, its main function and the number of errors are as specified; the answer is whether there were none |
| Containment.ParentsBounded | src/codeGen/CodeGenerator.h:222-224 | the list of parents has no repetition, so it is no longer than the number of classes |
| Containment.CheckIsExact | src/codeGen/CodeGenerator.h:205-229 | the check of a class succeeds exactly when no cycle of by-value members can be reached from it |
| Containment.AllPassExactlyWhenRanked | src/codeGen/CodeGenerator.h:68-76 | all classes pass if and only if the sizes of structs are well-founded |
| Containment.CheckClassDeclMemberLoop | src/codeGen/CodeGenerator.h:205-229 | the recursive check, with its early exit, terminates and computes that answer |
| Numerals.ValueOfNumeral | src/parser/Parser.h:672-678 | reading back a written decimal gives the number |
| Names.RegisteredNames | src/ir/printer/ValueNamesScope.h:34-51 | each element keeps the name of its repetition: the first is printed as named, later ones are numbered |
| Names.DistinctExactlyWhenSafe | src/ir/printer/ValueNamesScope.h:34-51 | over every sequence of registrations names are printed distinctly if and only if no name is another one with a number behind it |
| Names.NoDigitEndsAreSafe | src/ir/printer/ValueNamesScope.h:34-51 | names that do not end in a digit are safe, the empty one included |
| Names.IRNamesScope.CreateIRElementName | src/ir/printer/ValueNamesScope.h:34-51 | registers an element and returns its name; a name stored earlier stays |
| Names.IRNamesScope.GetName | src/ir/printer/ValueNamesScope.h:58-64 | the name first stored for an element, and no stored name ever changes |
| Scanning.PositionIs | src/lexer/Lexer.h:490-501 | line and column of an index follow from the new lines before it |
| Scanning.CharacterClasses | src/lexer/Lexer.h:553-674 | which characters belong to words, numbers and spaces, one by one |
| Scanning.SkipWhile | src/lexer/Lexer.h:684-695 | stops at the first character that fails the condition, or at the end |
| Lexer.Lexer.NextChar | src/lexer/Lexer.h:490-501 | moves one character and one column, or raises the exception at the end; the location stays right unless the character ends its line |
| Lexer.Lexer.SkipCharsWhile | src/lexer/Lexer.h:684-695 | moves to the first character that fails the condition and keeps the location right over new lines |
| Lexer.Lexer.MakeIdentifierOrKeyword | src/lexer/Lexer.h:338-386 | the longest word, as a keyword if it is one |
| Lexer.Lexer.MakeNumber | src/lexer/Lexer.h:416-441 | digits, and a dot with more digits if there is one |
| Lexer.Lexer.MakeString | src/lexer/Lexer.h:393-414 | the text between quotes, or the exception if the closing quote is missing |
| Lexer.Lexer.MakeMultiLineComment | src/lexer/Lexer.h:463-484 | the text up to the first end mark, or the exception |
| Lexer.Lexer.TokenHere | src/lexer/Lexer.h:211-308 | the token or comment at the location, with both fall-through cases |
| Lexer.Lexer.GetNextToken | src/lexer/Lexer.h:200-209 | the next token behind any spaces |
| Lexer.Lexer.GetAllTokens | src/lexer/Lexer.h:180-197 | exactly the tokens the theorems are about, or the exception |
| Tiling.AllTokensTile | src/lexer/Lexer.h:172-309 | on every text that lexes, tokens, spaces and comments tile it in order and without overlap up to the terminating NUL; every location is the one its index has, and every token says what the text says there |
| Rendering.ScanLexeme | src/lexer/Lexer.h:211-301 | a written token is read back whole if the next character does not belong to it |
| Rendering.RenderThenLex | src/lexer/Lexer.h:180-197 | lexing a written list of tokens, spaces and comments gives exactly the tokens and EndOfFile |
| Rendering.SpacedFits | src/lexer/Lexer.h:518-532 | tokens with a space or line break behind each of them always read back |
| Climbing.TableIsList | src/parser/AST.h:162-179 | the twelve operators from the weakest to the strongest: one binds weaker than another exactly if it stands in front of it |
| Climbing.ClimbAll | src/parser/AST.h:162-179 | climbing uses up the chain of operators and builds the one ordered tree over it |
| Climbing.OrderedTreesAreUnique | src/parser/AST.h:162-179 | only one tree over a chain has left operands that bind at least as strong and right ones that bind stronger than their parents |
| Climbing.LaterBindsStronger | src/parser/AST.h:162-179 | for any two operators between three operands: the right one takes the middle operand if and only if it stands later in the list |
| Parsing.RHSIsClimb | src/parser/Parser.h:702-741 | the operator loop with its recursion climbs the chain of operators and primary expressions; an error in the chain is found unless climbing stops before it |
| Parsing.ExpressionIsOrdered | src/parser/Parser.h:454-463 | an expression parses to the one ordered tree over its operands, and parsing stops at a token that is not an operator |
| ReadBack.NumberIs | src/parser/Parser.h:655-692 | a number, negative or not, is read as its value if it has one of 32 bits or as a float, and is an error otherwise |
| ReadBack.BoolReads | src/parser/Parser.h:470-509 | `true` and `false` are read as their values |
| ReadBack.ArgumentsRead | src/parser/Parser.h:598-646 | an argument list is read as exactly the values without and with names, in the order they are written, with or without a comma at the end; it is an error if and only if an argument without a name stands behind one with a name |
| ReadBack.CallReads | src/parser/Parser.h:588-646 | a call is read with exactly the written lists, and as an error if they are out of order |
| ReadBack.MemberCallReads | src/parser/Parser.h:543-584 | the same for a call of a member |
| ReadBack.OperatorsRead | src/parser/Parser.h:702-741 | operands with operators between them are read as the one ordered tree over them |
| ReadBack.TwoOperatorsRead | src/parser/Parser.h:702-741 | the tokens of `a op1 b op2 c` are read as `a op1 (b op2 c)` if op2 stands later in the list of operators, and as `(a op1 b) op2 c` otherwise |
| Grammar.PhraseReads | src/parser/Parser.h:454-741 | every grammatical phrase is read as its tree, in front of any token that cannot extend an expression |
| Grammar.ExpressionWritten | src/parser/Parser.h:454-741 | whatever is parsed was written: a grammatical phrase stands in front of where the parser stopped, and the tree is that of the phrase |
| Grammar.ParsesExactly | src/parser/Parser.h:454-741 | in front of a token that cannot extend an expression, parsing succeeds with a tree if and only if a grammatical phrase of that tree stands there |
| Parser.Parser.ConsumeToken | src/parser/Parser.h:78-94 | moves over a token of the expected type, or raises the exception |
| Parser.Parser.ParseExpression | src/parser/Parser.h:454-463 | parses as specified and leaves the cursor behind the expression; nothing is looked for behind an empty pair of parentheses |
| Parser.Parser.ParsePrimaryExpression | src/parser/Parser.h:470-509 | the same for primary expressions |
| Parser.Parser.ParseIdentifierExpression | src/parser/Parser.h:543-584 | the same for variables, calls and chains of members |
| Parser.Parser.ParseCallArguments | src/parser/Parser.h:598-646 | the argument loop gives what the specified function gives, whose lists and errors the argument theorems fix |
| Parser.Parser.ParseNumberExpression | src/parser/Parser.h:655-692 | the same for numbers, where an integer that does not fit 32 bits is an error |
| Parser.Parser.ParseBinaryExpressionRHS | src/parser/Parser.h:702-741 | the loop over operators gives what the specified function gives, whose grouping the operator theorems fix |
| Printing.AstCodePrinter.Accept | src/AstVisitor/AstCodePrinter.h:171-192 | appends the code of any decorated expression to the stream and nothing else: nothing for a bool, a string without quotes, a float as the stream formats it |
| Printing.PrintableCode | src/AstVisitor/AstCodePrinter.h:171-232 | for expressions without floats, bools and strings this is the code the round trips are about |
| Printing.AstCodePrinter.VisitBinaryExpression | src/AstVisitor/AstCodePrinter.h:226-232 | every binary operation is printed in parentheses |
| Printing.AstCodePrinter.VisitCallExpression | src/AstVisitor/AstCodePrinter.h:194-217 | a decorated call is printed with every argument named |
| PrintedTokens.ItemsRender | src/AstVisitor/AstCodePrinter.h:171-232 | the printed code is the written form of a list of tokens and spaces |
| PrintedTokens.ItemsFit | src/AstVisitor/AstCodePrinter.h:171-232 | in printed code no token runs into the next one |
| RoundTrip.LexedPlainly | src/lexer/Lexer.h:211-308 | the tokens of every text that lexes are fit for the grammar theorems: only words, numbers, strings and invalid characters have a contend |
| RoundTrip.PrimaryBack | src/parser/Parser.h:470-584 | the tokens of a printed expression are read as that expression, as a primary one |
| RoundTrip.ParseBack | src/parser/Parser.h:454-584 | they parse back to the same tree in front of any token that cannot extend it |
| RoundTrip.PrintLexParse | src/AstVisitor/AstCodePrinter.h:171-232 | printing, lexing and parsing gives back every expression of integers (negative ones and the smallest included), names, members, `!`, binary operators and calls |
| RoundTrip.PrintLexParseBefore | src/AstVisitor/AstCodePrinter.h:171-232 | printing such an expression in front of any text whose first character does not run into it and whose first token cannot extend it, lexing and parsing gives it back, with the cursor at that token |
| CallRoundTrip.NormaliseAgain | src/decorator/AstDecorator.h:339-405 | decorating an expression again after every call in it, nested ones included, has been normalised gives the same decorated expression if the default values its calls use match their parameters, and fails otherwise |
| CallRoundTrip.PrintedCallReadsBack | src/AstVisitor/AstCodePrinter.h:194-217 | a decorated expression that is printed, lexed, parsed and decorated has the same argument vectors |

## Left out

- Classes, constructors, member functions, `this` and the replacement of tree nodes: only the containment check is modelled, on the graph of class-typed members. A member access or member call is an error of the decorator here, as it is in a program without classes.
- `str` values in both lowerings: the IR rejects them and the LLVM lowering copies memory for them. The decorator handles them here.
- Globals that are not numbers: both lowerings print a message and ignore them. `Lang.Lowerable` excludes them; the generator functions treat every global as lowered.
- The pseudo function that stores the initial values of globals: a run takes the values of the globals as an input, and `Compiler.AcceptedMainRuns` gives it the written constants.
- LLVM itself, object files, linking, files, the command line, logging: of LLVM only blocks, the insertion point, appending and erasing are modelled, and of what it asks of a module only that blocks end in their only terminator and that nothing is of type void (`ValidModule.ValidLlvm`).
- Float arithmetic: floats are opaque and their operations are functions of the host. The conversion of a float literal is a parameter of the parser.
- Names in a module: functions and globals are referred to by position, and class types are not generated.
- IRGenerator.IRGenerator.GenFunctionDefinition: default values of parameters go into the pseudo function of initial values, which is left out; moving the insertion point there and back is not modelled.
- Assignment to an immutable variable: an error of the decorator that cannot arise, because nothing declares a variable immutable.
- Instruction and block identity: pointers are numbers here, and an allocation is one cell per activation.
- Result types of IR instructions, which `IRLogicalNot` never sets.
- Error messages and their locations: only the number of errors is kept. Where the compiler would dereference a null pointer while it builds a message (a declared type that is not known, an empty pair of parentheses, the missing name of a positional argument), the model records the error and goes on.
- Decorator.AstDecorator.DoExpression: the flag for isolated expressions is not modelled, because the parser and the check for constants let only constants reach it, and no branch depends on it then.
- Decorator.AstDecorator.LinkNames: decorating returns a new tree instead of writing types and links into the one it reads; a local declaration is identified by its number in its function. Default values are constants by type, as the parser guarantees, so the decorator's second check of that is not modelled.
- Statement and declaration parsing, and the printer's statements: the printer puts a semicolon behind nested blocks and prints no bool literals, so whole programs do not read back.
- Parser.Parser.ConsumeToken: locations are not part of the parser's tokens here; the token behind the last one is EndOfFile.
- Parsing.StringToInt: contends of number tokens that are not digits with at most one dot, which the lexer never makes, are parse errors here.
- Lexer.Lexer.SkipCharsWhile: reads behind the terminating NUL, which the lexer does before it notices the end, are taken to give NUL; no result depends on them.
- Names.IRNamesScope.CreateIRElementName: counters do not overflow here.
- IR printing, the tree printer and the child iterator: plumbing.
