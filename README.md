# Flat-B code generator, modelled in Dafny

Flat-B is a small imperative language. A program has a declaration block of integer
scalars and arrays, and a code block. The code block holds assignments, `for` and
`while` loops, `if`/`else`, labelled statements with conditional and unconditional
`goto`, and `print`, `println` and `read`. The compiler parses a program into an
abstract syntax tree and collects a symbol table. `CodeGenVisitor` then walks the tree
and emits LLVM IR: one global per declared variable and a single function `main`.
Its blocks are created as the walk goes. A stack of blocks tracks the block code goes
to, a map records the block of each label, and a counter counts semantic errors.
`generateCode` gives up when that counter is non-zero, and otherwise ends the block
lowering ended in (the top of the stack, not necessarily the last block created) with
`ret`.

This project models that code generator and the tree-building code it consumes.

- `ast.dfy` (module `Ast`) holds the tree.
  - Expressions, statements and the program are datatypes.
  - The builders that the parser mutates in place are classes: `Variable`,
    `VariableSet`, `DeclStatement` and `DeclBlock`.
  - The parser actions that rewrite nodes are functions: a negative literal, `-ident`
    and `!cond`.
- `ir.dfy` (module `IR`) is an abstract stand-in for the LLVM objects.
  - It has blocks of instructions, SSA registers, globals, and `printf`/`scanf` calls.
  - A block's terminator is its last instruction when that is a branch or `ret`.
- `lower_expr.dfy` (module `LowerExpr`) lowers expressions.
  - Math expressions, variable references, conditions, I/O calls and assignments are
    pure functions from a starting register to code, a value, an error count and the
    next register.
- `lower_stmt.dfy` (module `LowerStmt`) and `lower_program.dfy` (module `ProgramLowering`)
  specify the statement and declaration visits.
  - Each visit is a function from the generator's state before it (`Snap`) to the
    state after it.
  - `Snap` holds the blocks, block stack, labels, storage, error counter and next
    register.
- `codegen.dfy` (module `CodeGen`) holds the class `CodeGenVisitor`.
  - Its fields are that state, and its methods update them in place.
  - Each method is proved to leave the object in exactly the state its specification
    function gives.
  - The block-list loops of `visit(ASTCodeBlock)`, `visit(ASTDeclStatement)` and
    `visit(ASTDeclBlock)` are `for` loops with invariants.
- `invariants.dfy` (module `Invariants`) proves what every statement visit preserves.
  - The stack and the label map only name existing blocks.
  - Blocks are only added, never renamed.
  - Code already emitted is never changed.
  - The error counter never goes down.
  - Only the top of the block stack is replaced.
- `rules.dfy` (module `Rules`) states the rules of each visit.
  - Where code goes, which branch a block ends in, and which block lowering continues
    in.
  - The desugaring of `for`.
  - The error cases of declarations.
  - What `generateCode` produces.
  - A worked example of the finding below.

The statement and program lowering functions take one more argument, an `IOLabel`.
Under `Ignored` an I/O statement is lowered as `visit(ASTIOBlock)` has it, without its
label. This is the code generator as written, and `CodeGenVisitor` is proved against it.
Under `Spliced` its label is spliced in like every other statement's: this is the
corrected lowering of the finding below.

The model follows the code where it does something surprising:
- `-ident` compiles exactly like `ident`. The parser tags the reference with `usub`, and
  `visit(ASTTargetVar)` never reads that tag. The `usub` case of the operator switch, a
  signed division of `-1` by the operand, is reached by no tree the parser builds.
- A labelled `print`, `println` or `read` does not splice in its label (see Findings).
- The bound of a `for` loop is evaluated once, before the loop.
- The step expression of a `for` loop is ignored.
- The negation flag of a condition is ignored, because the code that would use it is
  commented out.
- An unconditional `goto` to a label whose block already exists branches there and goes
  on emitting into the same block.
- A conditional `goto` emits its condition and test even when the target is not in the
  symbol table.
- A `for` loop whose iterator has no storage loads from a null address.

The header `src/ASTDefinition.h` declares the comparator enum with `unot` and without
`eqto`. `CodeGen.cpp` uses `eqto`, and its tree has classes that this header does not
declare (loops, `if`, `goto`, I/O, conditions). The model follows `CodeGen.cpp`: six
comparators, with negation as a separate flag.

## Model

| member | source | states |
|---|---|---|
| Ast.NegativeLiteral | src/parser.tab.c:1521-1527 | `-NUMBER` becomes an integer literal whose value is the number's negation |
| Ast.SetUsub | src/parser.tab.c:1529-1536 | `-ident` sets the reference's operator to `usub` and keeps its name, index and target flag |
| Ast.FlipNot | src/parser.tab.c:1604-1609 | `!cond` flips the negation flag and keeps both sides and the comparator |
| Ast.Variable.WithLength | src/ASTDefinition.cpp:19-24 | the three-argument form sets name and array flag; the `int` length is stored as `unsigned int`, i.e. modulo 2^32, and unchanged when in range |
| Ast.Variable.constructor | src/ASTDefinition.cpp:26-30 | the two-argument form sets only name and array flag |
| Ast.Variable.SetDataType | src/ASTDefinition.cpp:32-35 | sets the data type and nothing else |
| Ast.VariableSet.constructor | src/ASTDefinition.h:168-178 | a set starts with no variables |
| Ast.VariableSet.AddVariable | src/ASTDefinition.cpp:46-49 | appends the variable at the end |
| Ast.VariableSet.GetVariables | src/ASTDefinition.cpp:51-54 | returns the whole list in insertion order |
| Ast.DeclStatement.constructor | src/ASTDefinition.cpp:64-69 | takes over the set's variables (the same objects, same order) and stamps the data type on every one, changing nothing else about them |
| Ast.DeclBlock.constructor | src/ASTDefinition.cpp:79-82 | a declaration block starts empty |
| Ast.DeclBlock.AddStatement | src/ASTDefinition.cpp:84-87 | appends the line at the end |
| Ast.DeclBlock.Decls | src/CodeGen.cpp:551-567 | the lines the declaration visits read: one per statement, in order, each the statement's variables as declarations |
| LowerExpr.OperationKind | src/CodeGen.cpp:403-419 | the instruction each operator becomes: `add`, `sub`, `mult` and `divd` become add, sub, mul and signed division, and `usub` signed division too |
| LowerExpr.OperationKindMeaning | src/CodeGen.cpp:405-412 | each binary operator's instruction computes the operator's value, division truncating toward zero |
| LowerExpr.PredicateOfMeaning | src/CodeGen.cpp:286-306 | each comparator's signed predicate holds of exactly the operands the comparator holds of |
| LowerExpr.UsubDividesMinusOne | src/CodeGen.cpp:413-415 | a `usub` node ends in a signed division of -1 by its operand's value, into the register it yields; for every operand, that division equals the operand's negation exactly when the operand is -1, 0 or 1 (division by zero is given the value 0) |
| LowerExpr.LowerMath | src/CodeGen.cpp:392-425 | registers are only ever allocated, never reused |
| LowerExpr.ArithRules | src/CodeGen.cpp:392-425 | an operator node emits its left operand's code, then its right operand's, then (except for `noop`) one instruction into the next free register, of the operator's kind, over the left value (-1 for `usub`) and the right value; `noop` yields the right value and no instruction |
| LowerExpr.LowerOperand | src/CodeGen.cpp:394-401 | an absent child yields null, no code and no error |
| LowerExpr.Combine | src/CodeGen.cpp:403-419 | `noop` hands on the right value and appends nothing; every other operator appends one instruction of its kind into one new register, whose operands are the left value (-1 for `usub`) and the right value, and yields that register; errors of both sides add up |
| LowerExpr.LowerTarget | src/CodeGen.cpp:427-470 | registers are only ever allocated, never reused |
| LowerExpr.TargetVarRules | src/CodeGen.cpp:427-470 | undeclared name, indexed scalar and unindexed array each count one error and yield null with no code; a scalar target yields its global, and a scalar read is one load of that global; an element reference is the index's code then the address of the element of that global at the index's value, which a target yields and a read loads |
| LowerExpr.UsubReferenceIgnored | src/CodeGen.cpp:427-470 | `-ident`, the reference tagged `usub`, lowers exactly as `ident` does |
| LowerExpr.LowerCond | src/CodeGen.cpp:280-312 | the value is the last register: a zero extension of a comparison, with the comparator's signed predicate, of the left side's value and the right side's value |
| LowerExpr.LowerMathNumbered | src/CodeGen.cpp:392-470 | expression code defines exactly the registers from the start register up to the next, in order, and holds no branch |
| LowerExpr.LowerTargetNumbered | src/CodeGen.cpp:427-470 | the same numbering for a variable reference |
| LowerExpr.LowerCondNumbered | src/CodeGen.cpp:280-312 | the same numbering for a condition |
| LowerExpr.CombineNumbered | src/CodeGen.cpp:403-419 | an operator node keeps the numbering of its operands' code |
| LowerExpr.CompareNumbered | src/CodeGen.cpp:286-306 | a comparison keeps the numbering of its sides' code |
| LowerExpr.LowerCondIgnoresNegation | src/CodeGen.cpp:308-311 | flipping the negation flag does not change a condition's code |
| LowerExpr.LowerMathErrorFree | src/CodeGen.cpp:392-470 | an expression counts no error exactly when every reference in it names storage of the right kind |
| LowerExpr.LowerTargetErrorFree | src/CodeGen.cpp:427-470 | the same for a single reference, index included |
| LowerExpr.LowerMathNullOnlyOnError | src/CodeGen.cpp:392-470 | on a tree the parser built, no error counted means no null operand and a non-null value |
| LowerExpr.LowerTargetNullOnlyOnError | src/CodeGen.cpp:427-470 | the same for a reference, whatever its target flag |
| LowerExpr.LowerCondNullOnlyOnError | src/CodeGen.cpp:280-312 | the same for a condition |
| LowerExpr.CombineNullFree | src/CodeGen.cpp:403-419 | an operator over non-null operands emits no null operand |
| LowerExpr.CompareNullFree | src/CodeGen.cpp:286-306 | a comparison of non-null sides emits no null operand |
| LowerExpr.IOFormat | src/CodeGen.cpp:114-152 | the format extends the text; `read` appends exactly "%d"; a print with an operand appends "%d"; `println` ends in a newline; it is empty only for a `print` with no text and no operand; its length is the text's plus 2 for "%d" plus 1 for the newline, which fixes it to exactly those additions |
| LowerExpr.IOCode | src/CodeGen.cpp:106-177 | an I/O statement counts exactly its operand's errors |
| LowerExpr.IOCall | src/CodeGen.cpp:116-135 | at most one call, with no null argument when its arguments have none |
| LowerExpr.IOCallRules | src/CodeGen.cpp:106-177 | `read` ends in a `scanf` call with format text + "%d" and the operand; `println` ends in a `printf` call with format text, then "%d" when there is an operand, then "\n"; an empty `print` emits nothing; any other `print` ends in a `printf` call with format text, then "%d" when there is an operand |
| LowerExpr.IOCodeNumbered | src/CodeGen.cpp:106-177 | I/O code keeps the register numbering and defines no register of its own |
| LowerExpr.IOCodeNullOnlyOnError | src/CodeGen.cpp:106-177 | no error counted means no null operand in I/O code |
| LowerExpr.AssignmentCode | src/CodeGen.cpp:478-486 | registers are only ever allocated, never reused |
| LowerExpr.AssignmentCodeNumbered | src/CodeGen.cpp:478-486 | assignment code keeps the register numbering |
| LowerExpr.AssignmentCodeErrorFree | src/CodeGen.cpp:478-486 | an assignment counts no error exactly when its target and right-hand side resolve |
| LowerExpr.AssignmentStoreRules | src/CodeGen.cpp:478-486 | a store is emitted exactly when the target's location is non-null: with a null location (which comes with an error) the code is the target's and the right-hand side's code and stores nothing; otherwise it is that code followed by exactly one store, of the right-hand side's value to the location |
| LowerExpr.LowerMathStoreFree | src/CodeGen.cpp:392-470 | expression code never stores |
| LowerExpr.LowerTargetStoreFree | src/CodeGen.cpp:427-470 | the code of a reference never stores |
| LowerExpr.AssignmentCodeNullOnlyOnError | src/CodeGen.cpp:478-486 | no error counted means the code ends in a store of the right-hand side's value to the target's address, with no null operand |
| LowerStmt.Splice | src/CodeGen.cpp:40-59 | `checkLabel` keeps the stack depth and the storage, counts no error and allocates no register |
| LowerStmt.CloseArm | src/CodeGen.cpp:246-252 | closing a nested block pops the stack, adds no block, and changes neither labels, storage, errors nor registers |
| LowerStmt.Nested | src/CodeGen.cpp:244-252 | a nested code block keeps the stack depth and the storage |
| LowerStmt.Divert | src/CodeGen.cpp:187-204 | a jump out of the current block keeps the stack depth and the storage, counts no error and allocates no register |
| LowerStmt.LowerAssignment | src/CodeGen.cpp:472-494 | an assignment keeps the stack depth and the storage |
| LowerStmt.LowerIOAsWritten | src/CodeGen.cpp:106-177 | `visit(ASTIOBlock)` as written keeps the stack depth and the storage |
| LowerStmt.LowerIO | src/CodeGen.cpp:106-177 | the corrected I/O visit keeps the stack depth and the storage |
| LowerStmt.LowerIOBy | src/CodeGen.cpp:106-177 | an I/O statement, with its label ignored or spliced in, keeps the stack depth and the storage |
| LowerStmt.LowerGoto | src/CodeGen.cpp:179-231 | a goto keeps the stack depth and the storage |
| LowerStmt.Guard | src/CodeGen.cpp:184-185 | a condition and its test only allocate registers |
| LowerStmt.LowerIfElse | src/CodeGen.cpp:233-278 | an if statement keeps the stack depth and the storage |
| LowerStmt.IfBranches | src/CodeGen.cpp:239-276 | the arms keep the stack depth and the storage |
| LowerStmt.JoinArms | src/CodeGen.cpp:254-276 | the else arm and the entry branch keep the stack depth and the storage |
| LowerStmt.LoopBody | src/CodeGen.cpp:339-351 | a loop body keeps the stack depth and the storage |
| LowerStmt.LowerWhile | src/CodeGen.cpp:356-390 | a while loop keeps the stack depth and the storage |
| LowerStmt.WhileHeader | src/CodeGen.cpp:362-373 | the while header adds exactly three blocks and keeps the stack depth and the storage |
| LowerStmt.LowerFor | src/CodeGen.cpp:314-354 | a for loop keeps the stack depth and the storage |
| LowerStmt.ForHeader | src/CodeGen.cpp:318-337 | the for header adds exactly three blocks and keeps the stack depth and the storage |
| LowerStmt.LowerStatement | src/CodeGen.cpp:498-501 | any statement keeps the stack depth and the storage; which I/O visit it uses is stated by `Rules.StatementIsIO` |
| LowerStmt.LowerCodeBlock | src/CodeGen.cpp:496-503 | a code block keeps the stack depth and the storage |
| ProgramLowering.Storage | src/CodeGen.cpp:516-536 | an array gets exactly `length` zeroed cells, a scalar one zeroed cell |
| ProgramLowering.DeclareVariable | src/CodeGen.cpp:505-540 | a declaration touches only storage and the error counter |
| ProgramLowering.DeclareLine | src/CodeGen.cpp:551-558 | a declaration line touches only storage and errors; names are never removed and errors never go down |
| ProgramLowering.DeclareBlock | src/CodeGen.cpp:560-567 | the same for the whole declaration block |
| ProgramLowering.LowerProgram | src/CodeGen.cpp:569-582 | the program keeps the stack depth, and every name with storage stays in the symbol table |
| ProgramLowering.DeclaredKeys | src/CodeGen.cpp:505-540 | declaring names from the symbol table gives storage only to names in the symbol table |
| ProgramLowering.Initial | src/CodeGen.cpp:61-72 | generation starts with `main` holding one empty "entry" block, the only one on the stack |
| Invariants.SpliceKeeps | src/CodeGen.cpp:40-59 | `checkLabel` preserves the invariant (sound state, code only appended, errors not decreasing, stack below the top unchanged) |
| Invariants.EmitCodeKeeps | src/CodeGen.cpp:392-470 | emitting expression code into the current block preserves the invariant |
| Invariants.DivertKeeps | src/CodeGen.cpp:187-204 | a jump out of the current block preserves the invariant |
| Invariants.CloseArmKeeps | src/CodeGen.cpp:246-252 | closing a nested block keeps the state sound and only appends |
| Invariants.AssignmentKeeps | src/CodeGen.cpp:472-494 | an assignment preserves the invariant |
| Invariants.IOKeeps | src/CodeGen.cpp:106-177 | an I/O statement with its label spliced in preserves the invariant (as written, it is `EmitCodeKeeps`) |
| Invariants.GotoKeeps | src/CodeGen.cpp:179-231 | a goto preserves the invariant |
| Invariants.WhileHeaderKeeps | src/CodeGen.cpp:362-373 | the while header preserves the invariant |
| Invariants.ForHeaderKeeps | src/CodeGen.cpp:318-337 | the for header preserves the invariant |
| Invariants.NestedKeeps | src/CodeGen.cpp:244-252 | a nested code block preserves the invariant and leaves the stack exactly as it was |
| Invariants.IfBranchesKeeps | src/CodeGen.cpp:239-276 | the arms of an if preserve the invariant |
| Invariants.JoinArmsKeeps | src/CodeGen.cpp:254-276 | the else arm and the entry branch preserve the invariant |
| Invariants.IfElseKeeps | src/CodeGen.cpp:233-278 | an if statement preserves the invariant |
| Invariants.LoopBodyKeeps | src/CodeGen.cpp:339-351 | a loop body preserves the invariant |
| Invariants.WhileKeeps | src/CodeGen.cpp:356-390 | a while loop preserves the invariant |
| Invariants.ForKeeps | src/CodeGen.cpp:314-354 | a for loop preserves the invariant |
| Invariants.StatementKeeps | src/CodeGen.cpp:498-501 | every statement preserves the invariant |
| Invariants.CodeBlockKeeps | src/CodeGen.cpp:496-503 | a whole code block preserves the invariant |
| Rules.SpliceRules | src/CodeGen.cpp:40-59 | an unlabelled statement changes nothing; a labelled one appends only a branch to the label's block, which becomes the top of the stack and is created empty, named after the label, only when the label has none |
| Rules.SpliceCreatesOnce | src/CodeGen.cpp:43-51 | splicing in the same label twice creates its block once |
| Rules.AssignmentRules | src/CodeGen.cpp:472-494 | an assignment to a name without storage counts one error and changes nothing else, not even the label; otherwise the code goes to the current block after the splice and, with no error, ends in the store; with a null target address it counts an error and stores nothing |
| Rules.CloseArmRules | src/CodeGen.cpp:246-252 | the block a nested block ended in gets a branch to the target exactly when it has no terminator; it ends in a terminator afterwards |
| Rules.IfElseRules | src/CodeGen.cpp:233-278 | the condition and its `!= 0` test go to the entry block, which ends in a conditional branch to "ifBlock" and to "elseBlock" or "mergeBlock"; lowering continues in "mergeBlock"; at least the condition's errors are added to the count |
| Rules.GuardAppends | src/CodeGen.cpp:237-238 | the condition's code and the `icmp ne` are appended to the current block |
| Rules.IfBranchesRules | src/CodeGen.cpp:239-276 | the arms preserve the invariant and leave the if's block shape |
| Rules.ArmsRules | src/CodeGen.cpp:254-276 | after the arms, the entry block ends in the conditional branch and lowering continues in "mergeBlock" |
| Rules.ElseArmRules | src/CodeGen.cpp:254-269 | with an else arm, the entry block's false target is the new "elseBlock" |
| Rules.BranchRules | src/CodeGen.cpp:268-276 | the entry block's last instruction is the conditional branch; no block is added or renamed; lowering moves to "mergeBlock" |
| Rules.WhileHeaderRules | src/CodeGen.cpp:362-373 | three blocks "loop_header", "loop_body", "after_loop"; the header holds exactly the condition, its test and the branch to body or exit; the entry block gains only a branch to the header; the count grows by exactly the condition's errors and one register follows the condition's |
| Rules.WhileRules | src/CodeGen.cpp:356-390 | after a while loop, lowering continues in "after_loop" with the rest of the stack unchanged, and the loop blocks keep their names |
| Rules.ForBodyRules | src/CodeGen.cpp:323-327 | the body a for loop lowers is its statements followed by exactly one `i = i + 1` |
| Rules.ForHeaderRules | src/CodeGen.cpp:318-337 | the initial assignment and the bound are lowered once, in the entry block, which then branches to the header; the header loads the iterator, compares it (signed, less than) with the bound and branches to body or exit |
| Rules.ForRules | src/CodeGen.cpp:314-354 | after a for loop, lowering continues in "after_loop" with the rest of the stack unchanged, and the loop blocks keep their names |
| Rules.GotoUnknownRules | src/CodeGen.cpp:179-231 | a goto to a name not in the symbol table does only its label splice and, when it has a condition, emits that condition and its test in the current block; it adds no branch |
| Rules.GotoConditionalRules | src/CodeGen.cpp:182-205 | a conditional goto to a known name emits the test in the current block, which ends in a branch on it to the label's block or a new "noJumpBlock", where lowering continues; the count grows by exactly the condition's errors and one register follows the condition's |
| Rules.GotoUnconditionalRules | src/CodeGen.cpp:206-229 | an unconditional goto to a label with a block branches there and stays in the same block; to a label without one, creates it, branches to it and continues in a new "noJumpBlock"; the error count and the register counter are unchanged |
| Rules.DivertRules | src/CodeGen.cpp:189-203 | the label's block is created unless it exists, a new "noJumpBlock" becomes current, and the old current block gains only the branch |
| Rules.IOLabelIgnored | src/CodeGen.cpp:106-177 | as written, a labelled I/O statement's code goes to whatever block is current, and the label map and stack are untouched; the count grows by exactly the operand's errors and the register counter is the operand's |
| Rules.IOLabelHonoured | src/CodeGen.cpp:40-59 | with the label spliced in, a labelled I/O statement's code goes to its label's block, where lowering continues; the count grows by exactly the operand's errors |
| Rules.SkipGoto | src/CodeGen.cpp:206-229 | in `goto done; print "skipped"; done: print "here"`, the goto creates "done", branches to it from "entry" and continues in "noJumpBlock" |
| Rules.SkipFirstPrint | src/CodeGen.cpp:135-176 | the unlabelled print goes to "noJumpBlock", as written and corrected alike |
| Rules.SkipSecondAsWritten | src/CodeGen.cpp:106-177 | as written, the labelled print also goes to "noJumpBlock", and "done" stays empty, without a terminator |
| Rules.SkipSecondPrint | src/CodeGen.cpp:40-59 | corrected, "noJumpBlock" branches to "done", which gets the labelled print and becomes current |
| Rules.SkipCorrected | src/CodeGen.cpp:496-503 | the corrected lowering of the whole example puts the labelled print in "done", ends there, and counts no error |
| Rules.SkipAsWritten | src/CodeGen.cpp:496-503 | the lowering as written of the whole example leaves "done" empty and without a terminator, with both prints in "noJumpBlock" |
| Rules.StatementIsIO | src/CodeGen.cpp:498-501 | with the label ignored, an I/O statement is lowered by `visit(ASTIOBlock)` as written; with it spliced in, by the corrected visit |
| Rules.StatementIsGoto | src/CodeGen.cpp:498-501 | a goto statement is lowered by the goto visit |
| Rules.DeclareVariableRules | src/CodeGen.cpp:505-540 | a repeated name or an array of fewer than one cell counts one error and declares nothing; otherwise the name gets its zeroed storage |
| Rules.DeclareLineRules | src/CodeGen.cpp:551-558 | a line counts no error exactly when every name is new (to earlier storage and to the line) and no array is empty; then every name has its storage |
| Rules.GenerateRules | src/CodeGen.cpp:61-97 | no module exactly when an error was counted; otherwise the globals are the declared storage, "entry" is the first block, and the block lowering ended in ends in `ret` |
| CodeGen.CodeGenVisitor.constructor | src/CodeGen.cpp:99-104 | a new generator holds the symbol table, no blocks, no storage and no errors |
| CodeGen.CodeGenVisitor.PushBlock | src/CodeGen.cpp:244 | pushes a block on the stack |
| CodeGen.CodeGenVisitor.PopBlock | src/CodeGen.cpp:247 | pops the stack |
| CodeGen.CodeGenVisitor.CreateBlock | src/CodeGen.cpp:239-240 | appends an empty named block and returns its index |
| CodeGen.CodeGenVisitor.CreateLoopBlocks | src/CodeGen.cpp:319-321 | creates "loop_header", "loop_body", "after_loop" in order |
| CodeGen.CodeGenVisitor.Append | src/CodeGen.cpp:251 | appends code to one block and changes nothing else |
| CodeGen.CodeGenVisitor.EmitDefs | src/CodeGen.cpp:406-415 | appends code to the current block and allocates its registers |
| CodeGen.CodeGenVisitor.LabelBlock | src/CodeGen.cpp:43-51 | returns the label's block, creating it on first use |
| CodeGen.CodeGenVisitor.CheckLabel | src/CodeGen.cpp:40-59 | leaves the state `Splice` gives |
| CodeGen.CodeGenVisitor.VisitMath | src/CodeGen.cpp:392-425 | appends exactly `LowerMath`'s code, returns its value, counts its errors |
| CodeGen.CodeGenVisitor.VisitOperand | src/CodeGen.cpp:397-401 | the same for an optional child |
| CodeGen.CodeGenVisitor.VisitTarget | src/CodeGen.cpp:427-470 | appends exactly `LowerTarget`'s code, returns its value, counts its errors |
| CodeGen.CodeGenVisitor.ElementAddress | src/CodeGen.cpp:442-446 | appends the index code and the element address, which it returns |
| CodeGen.CodeGenVisitor.VisitCond | src/CodeGen.cpp:280-312 | appends exactly `LowerCond`'s code and returns its value |
| CodeGen.CodeGenVisitor.TestCondition | src/CodeGen.cpp:237-238 | appends the condition and its `icmp ne` and returns the test |
| CodeGen.CodeGenVisitor.VisitAssignment | src/CodeGen.cpp:472-494 | leaves the state `LowerAssignment` gives |
| CodeGen.CodeGenVisitor.StoreValue | src/CodeGen.cpp:478-486 | appends exactly the assignment's code |
| CodeGen.CodeGenVisitor.VisitIO | src/CodeGen.cpp:106-177 | leaves the state `LowerIOAsWritten` gives: the code goes to the current block and the label is not spliced in |
| CodeGen.CodeGenVisitor.CallIO | src/CodeGen.cpp:108-176 | appends exactly the I/O statement's code |
| CodeGen.CodeGenVisitor.Jump | src/CodeGen.cpp:189-203 | leaves the state `Divert` gives |
| CodeGen.CodeGenVisitor.VisitGoto | src/CodeGen.cpp:179-231 | leaves the state `LowerGoto` gives |
| CodeGen.CodeGenVisitor.CloseBlock | src/CodeGen.cpp:246-252 | leaves the state `CloseArm` gives |
| CodeGen.CodeGenVisitor.VisitNested | src/CodeGen.cpp:244-252 | leaves the state `Nested` gives |
| CodeGen.CodeGenVisitor.VisitIfElse | src/CodeGen.cpp:233-278 | leaves the state `LowerIfElse` gives |
| CodeGen.CodeGenVisitor.VisitArms | src/CodeGen.cpp:239-276 | leaves the state `IfBranches` gives |
| CodeGen.CodeGenVisitor.VisitElse | src/CodeGen.cpp:254-276 | leaves the state `JoinArms` gives |
| CodeGen.CodeGenVisitor.VisitLoopBody | src/CodeGen.cpp:339-351 | leaves the state `LoopBody` gives |
| CodeGen.CodeGenVisitor.VisitWhile | src/CodeGen.cpp:356-390 | leaves the state `LowerWhile` gives |
| CodeGen.CodeGenVisitor.WhileHead | src/CodeGen.cpp:362-373 | leaves the state `WhileHeader` gives |
| CodeGen.CodeGenVisitor.VisitFor | src/CodeGen.cpp:314-354 | leaves the state `LowerFor` gives |
| CodeGen.CodeGenVisitor.ForHead | src/CodeGen.cpp:318-337 | leaves the state `ForHeader` gives |
| CodeGen.CodeGenVisitor.LoopTest | src/CodeGen.cpp:333-337 | leaves the state `ForEntry` gives |
| CodeGen.CodeGenVisitor.VisitStatement | src/CodeGen.cpp:498-501 | leaves the state `LowerStatement` gives with I/O labels ignored, as the source has it |
| CodeGen.CodeGenVisitor.VisitCodeBlock | src/CodeGen.cpp:496-503 | leaves the state `LowerCodeBlock` gives with I/O labels ignored, as the source has it |
| CodeGen.CodeGenVisitor.VisitVariable | src/CodeGen.cpp:505-540 | leaves the state `DeclareVariable` gives |
| CodeGen.CodeGenVisitor.VisitDeclStatement | src/CodeGen.cpp:551-558 | leaves the state `DeclareLine` gives |
| CodeGen.CodeGenVisitor.VisitDeclBlock | src/CodeGen.cpp:560-567 | leaves the state `DeclareBlock` gives |
| CodeGen.CodeGenVisitor.VisitProgram | src/CodeGen.cpp:569-582 | leaves the state `LowerProgram` gives with I/O labels ignored, as the source has it |
| CodeGen.CodeGenVisitor.GenerateCode | src/CodeGen.cpp:61-97 | returns exactly the module `Generate` specifies with I/O labels ignored, as the source has it |

## Left out

- LLVM itself is not modelled.
  - Types, constants, the global string constants and their address computation are
    left out.
  - Instruction names are left out.
  - `verifyModule` and the printing of the IR are left out.
  - Blocks, instructions and globals are abstract values.
- The generated program is never run.
  - The model says nothing about 64-bit wrap-around at run time.
  - It says nothing about what `printf` and `scanf` do.
- The parser and the symbol-table pass are not part of this model.
  - The symbol table is a parameter of the generator.
  - The one fact used about it is that it lists every declared name (`DeclaredIn`).
- Error messages written to `cerr` are left out; each counted error is an increment of
  the counter.
- `exit(1)` in `generateCode` becomes the result `None`.
- `visit(ASTVariableSet)` (src/CodeGen.cpp:542-549) is not modelled.
  - The walk from `visit(ASTProgram)` never reaches it, because a declaration line holds
    its variables directly.
  - Its loop is the same as that of `visit(ASTDeclStatement)`.
- Two visits mutate the tree.
  - `visit(ASTForLoop)` appends the increment to the loop's own statement list.
  - `visit(ASTIOBlock)` appends to the statement's text.
  - The model lowers the list and the format the single visit of `generateCode` uses
    (`ForBody`, `IOFormat`). A second visit of the same node, which the compiler never
    makes, would see the additions accumulate.
- `variables[name]` for a `for` iterator without storage inserts a null entry into the
  map. The model loads from `Null` and leaves the storage unchanged. An error has
  already been counted for the initial assignment, so no module is produced either way.
- Null `Value*` operands are the value `Null`.
  - The model does not say what LLVM would do with them.
  - It proves that they appear only when an error was counted.
- The checks `if(Scan)` and `if(Print)` are taken as true, since `generateCode` inserts
  both functions before the walk.
- The accept/visit double dispatch is a `match` on the statement kind.
- The body of the one-operand constructor `ASTMathExpr(ASTNode*, Operation)`
  (src/ASTDefinition.h:91) is not part of this model's sources. The model takes the
  parenthesised operand to be the right child with no left child, which is what
  `case noop: return rval;` in `visit(ASTMathExpr)` reads (`WellBuiltMath`).
- The value nodes' constructors are datatype constructors.
- `IntLit.value` is an unbounded integer, while `ASTInteger::lexval` is a 32-bit C `int`
  (src/ASTDefinition.h:99). The parser stores values of that width, and the model
  neither narrows them nor relies on any bound.
- `Ast.Variable.constructor`: the two-argument form leaves `length` uninitialised in the
  source, so the contract says nothing about it.
- The model does not prove that every branch names an existing block. That is true of
  the branches the statement visits add, but it is not claimed for the whole function.
- The properties of `LowerExpr.LowerMath`, `LowerExpr.LowerTarget`,
  `LowerExpr.AssignmentCode` and the statement functions of `LowerStmt` are stated in
  the lemmas beside them, not in their own `ensures`: the code an expression node emits
  in `ArithRules`, `Combine` and `TargetVarRules`, and its numbering, errors and null
  operands in the `*Numbered`, `*ErrorFree` and `*NullOnlyOnError` lemmas; the
  statement visits in the `*Keeps` and `Rules` lemmas.

## Findings

| source | as written | input that shows it | evidently intended | confidence | as-written member | corrected member |
|---|---|---|---|---|---|---|
| src/CodeGen.cpp:106-177 | `visit(ASTIOBlock)` never calls `checkLabel`, unlike every other statement visit, so a labelled `print`/`read` is emitted into whatever block is current, and its label's block never receives it | `goto done; print "skipped"; done: print "here"` with `done` in the symbol table: the goto branches to an empty block "done", and both prints land in the unreachable "noJumpBlock" | a labelled I/O statement branches to its label's block and is emitted there, like any other labelled statement | not executed | LowerStmt.LowerIOAsWritten, used by LowerStmt.LowerStatement under `Ignored` and by CodeGen.CodeGenVisitor.VisitIO (Rules.IOLabelIgnored, Rules.SkipSecondAsWritten, Rules.SkipAsWritten) | LowerStmt.LowerIO, used by LowerStmt.LowerStatement under `Spliced` (Rules.IOLabelHonoured, Rules.SkipSecondPrint, Rules.SkipCorrected) |
