/**
 * The rules the code generator follows, stated about the lowering functions: which
 * errors are counted, when a block gets a branch, which block lowering continues in,
 * how `for` is desugared, and what `generateCode` produces.
 */
module Rules {
  import opened Wrappers
  import opened Ast
  import opened IR
  import opened LowerExpr
  import opened LowerStmt
  import opened ProgramLowering
  import opened Invariants

  /** The block `b` holds `old`'s code followed by `code`, and no other block changed. */
  predicate AppendedOnly(s: seq<Block>, r: seq<Block>, b: nat, code: seq<Instr>)
    requires b < |s| <= |r|
  {
    && r[b] == Block(s[b].name, s[b].instrs + code)
    && forall k | 0 <= k < |s| && k != b :: r[k] == s[k]
  }

  /** The last instruction of block `b`, when it is a terminator. */
  function Ends(bs: seq<Block>, b: nat): Option<Instr> {
    if b < |bs| then Terminator(bs[b]) else None
  }

  // ---------------------------------------------------------------------------
  // checkLabel.
  // ---------------------------------------------------------------------------

  /** An unlabelled statement changes nothing. A labelled one branches from the current
      block to the label's block, which replaces the top of the stack; that block is
      created (empty, named after the label) only if the label has none yet. */
  lemma SpliceRules(s: Snap, name: string)
    requires Sound(s) && |s.stack| > 0
    ensures name == "" ==> Splice(s, name) == s
    ensures name != "" ==>
      var r := Splice(s, name);
      && name in r.labels && Top(r) == r.labels[name]
      && r.stack[..|r.stack| - 1] == s.stack[..|s.stack| - 1]
      && (name in s.labels ==> r.labels == s.labels && |r.blocks| == |s.blocks|)
      && (name !in s.labels ==>
            && r.labels == s.labels[name := |s.blocks|]
            && |r.blocks| == |s.blocks| + 1 && r.blocks[|s.blocks|] == Block(name, []))
      && AppendedOnly(s.blocks, r.blocks, Top(s), [Br(r.labels[name])])
  {
  }

  /** Splicing the same label in twice creates its block only once. */
  lemma SpliceCreatesOnce(s: Snap, name: string)
    requires Sound(s) && |s.stack| > 0
    ensures var r := Splice(s, name);
      |Splice(r, name).blocks| == |r.blocks| && Splice(r, name).labels == r.labels
  {
    if name != "" {
      var s1 := WithLabel(s, name);
      WithLabelKeeps(s, name);
      var r := SetTop(EmitAt(s1, Top(s1), [Br(s1.labels[name])]), s1.labels[name]);
      assert r.labels == s1.labels;
      assert WithLabel(r, name) == r;
    }
  }

  // ---------------------------------------------------------------------------
  // Assignments.
  // ---------------------------------------------------------------------------

  /** An assignment to a name without storage counts one error and does nothing else,
      not even the label splice. Otherwise the label is spliced in and the assignment's
      code is appended to the current block; with no error counted, that code ends in a
      store of the right-hand side to the target's address, and with a null target
      address it counts an error and stores nothing. */
  lemma AssignmentRules(s: Snap, labelName: string, a: Assignment, symbols: map<string, SymbolEntry>)
    requires Ready(s, symbols) && Sound(s) && WellBuiltAssignment(a)
    ensures a.target.name !in s.variables ==>
      LowerAssignment(s, labelName, a, symbols) == s.(errors := s.errors + 1)
    ensures a.target.name in s.variables ==>
      var s1 := Splice(s, labelName);
      var sc := ScopeOf(s1, symbols);
      var c := AssignmentCode(a, sc, s1.nextReg);
      var r := LowerAssignment(s, labelName, a, symbols);
      && Top(r) == Top(s1) && r.errors == s.errors + c.errors
      && AppendedOnly(s1.blocks, r.blocks, Top(s1), c.code)
      && (c.errors == 0 ==>
            && NullFreeCode(c.code) && |c.code| > 0
            && c.code[|c.code| - 1] == Store(LowerMath(a.rhs, sc, LowerTarget(a.target, sc, s1.nextReg).nextReg).value,
                                             LowerTarget(a.target, sc, s1.nextReg).value))
      && (LowerTarget(a.target, sc, s1.nextReg).value == Null ==> c.errors > 0 && StoreFree(c.code))
  {
    if a.target.name in s.variables {
      var s1 := Splice(s, labelName);
      SpliceKeeps(s, labelName);
      AssignmentCodeNullOnlyOnError(a, ScopeOf(s1, symbols), s1.nextReg);
      AssignmentStoreRules(a, ScopeOf(s1, symbols), s1.nextReg);
    }
  }

  // ---------------------------------------------------------------------------
  // Closing a nested code block.
  // ---------------------------------------------------------------------------

  /** The block a nested code block ended in gets a branch to `target` exactly when it
      has no terminator yet; either way it ends in a terminator afterwards, and the
      stack is popped. */
  lemma CloseArmRules(s: Snap, target: nat)
    requires Sound(s) && |s.stack| > 0
    ensures var r := CloseArm(s, target);
      && r.stack == s.stack[..|s.stack| - 1]
      && (HasTerminator(s.blocks, Top(s)) ==> r.blocks == s.blocks)
      && (!HasTerminator(s.blocks, Top(s)) ==> AppendedOnly(s.blocks, r.blocks, Top(s), [Br(target)]))
      && Ends(r.blocks, Top(s)).Some?
  {
  }

  // ---------------------------------------------------------------------------
  // If/else.
  // ---------------------------------------------------------------------------

  /** visit(ASTIfElse): after the label, the condition and its `!= 0` test go to the entry
      block, which finally ends in a conditional branch to "ifBlock" and to "elseBlock",
      or to "mergeBlock" when there is no else-arm; lowering continues in "mergeBlock"
      with the rest of the stack unchanged. */
  lemma IfElseRules(s: Snap, st: Stmt, symbols: map<string, SymbolEntry>, io: IOLabel)
    requires st.IfElse? && Ready(s, symbols) && Sound(s)
    ensures
      var s1 := Splice(s, st.labelName);
      var entry := Top(s1);
      var c := LowerCond(st.cond, ScopeOf(s1, symbols), s1.nextReg);
      var r := LowerIfElse(s, st, symbols, io);
      && |r.stack| == |s.stack| && r.stack[..|r.stack| - 1] == s.stack[..|s.stack| - 1]
      && entry < |r.blocks|
      && s1.blocks[entry].instrs + c.code + [ICmp(c.nextReg, NE, c.value, ConstInt(0))] <= r.blocks[entry].instrs
      && IfShape(r, entry, Reg(c.nextReg), |s1.blocks|, st.elseBody)
      && r.errors >= s.errors + c.errors
  {
    var s1 := Splice(s, st.labelName);
    SpliceKeeps(s, st.labelName);
    var t := Guard(s1, st.cond, symbols);
    var s2 := EmitCode(s1, t);
    EmitCodeKeeps(s1, t);
    IfElseSteps(s, st, symbols, io);
    var r := IfBranches(s2, t.value, st, symbols, io);
    IfBranchesRules(s2, t.value, st, symbols, io);
    KeepsTrans(s, s2, r);
    var entry := Top(s1);
    GuardAppends(s1, st.cond, symbols);
    GrowsAt(s2, r, entry);
  }

  /** The condition and its test are appended to the current block. */
  lemma GuardAppends(s: Snap, cond: CondExpr, symbols: map<string, SymbolEntry>)
    requires Ready(s, symbols) && Top(s) < |s.blocks|
    ensures var c := LowerCond(cond, ScopeOf(s, symbols), s.nextReg);
      EmitCode(s, Guard(s, cond, symbols)).blocks[Top(s)].instrs
        == s.blocks[Top(s)].instrs + c.code + [ICmp(c.nextReg, NE, c.value, ConstInt(0))]
  {
    var c := LowerCond(cond, ScopeOf(s, symbols), s.nextReg);
    assert s.blocks[Top(s)].instrs + c.code + [ICmp(c.nextReg, NE, c.value, ConstInt(0))]
        == s.blocks[Top(s)].instrs + (c.code + [ICmp(c.nextReg, NE, c.value, ConstInt(0))]);
  }

  lemma IfElseSteps(s: Snap, st: Stmt, symbols: map<string, SymbolEntry>, io: IOLabel)
    requires st.IfElse? && Ready(s, symbols)
    ensures var s1 := Splice(s, st.labelName);
      var t := Guard(s1, st.cond, symbols);
      LowerIfElse(s, st, symbols, io) == IfBranches(EmitCode(s1, t), t.value, st, symbols, io)
  {
  }

  /** What an if statement leaves behind: "ifBlock" and "mergeBlock" follow each other,
      lowering continues in "mergeBlock", and the entry block ends in a branch on `cond`
      to "ifBlock" and to a later "elseBlock", or to "mergeBlock" without an else-arm. */
  predicate IfShape(r: Snap, entry: nat, cond: Val, ifBlock: nat, arm: ElseArm) {
    && ifBlock + 1 < |r.blocks| && r.blocks[ifBlock].name == "ifBlock" && r.blocks[ifBlock + 1].name == "mergeBlock"
    && ArmsShape(r, entry, cond, ifBlock, arm)
  }

  /** Lowering continues in `ifBlock + 1`, and the entry block ends in a branch on `cond`
      to `ifBlock` and to `ifBlock + 1`, or to a later "elseBlock" when there is an
      else-arm. */
  predicate ArmsShape(r: Snap, entry: nat, cond: Val, ifBlock: nat, arm: ElseArm) {
    && |r.stack| > 0 && Top(r) == ifBlock + 1
    && Ends(r.blocks, entry).Some? && Ends(r.blocks, entry).value.CondBr?
    && Ends(r.blocks, entry).value.cond == cond && Ends(r.blocks, entry).value.ifTrue == ifBlock
    && (arm.NoElse? ==> Ends(r.blocks, entry).value.ifFalse == ifBlock + 1)
    && (arm.Else? ==>
          var f := Ends(r.blocks, entry).value.ifFalse;
          ifBlock + 1 < f < |r.blocks| && r.blocks[f].name == "elseBlock")
  }

  /** The arms of an if statement, from its entry block. */
  lemma IfBranchesRules(s: Snap, cond: Val, st: Stmt, symbols: map<string, SymbolEntry>, io: IOLabel)
    requires st.IfElse? && Ready(s, symbols) && Sound(s)
    ensures var r := IfBranches(s, cond, st, symbols, io);
      Keeps(s, r) && IfShape(r, Top(s), cond, |s.blocks|, st.elseBody)
  {
    var ifBlock := |s.blocks|;
    var s3 := AddBlock(AddBlock(s, "ifBlock"), "mergeBlock");
    IfBlocksKeeps(s);
    var s4 := Nested(s3, ifBlock, st.thenBody, ifBlock + 1, symbols, io);
    NestedKeeps(s3, ifBlock, st.thenBody, ifBlock + 1, symbols, io);
    KeepsTrans(s, s3, s4);
    ArmsRules(s4, Top(s), cond, ifBlock, st.elseBody, symbols, io);
    IfBranchesKeeps(s, cond, st, symbols, io);
  }

  /** JoinArms: the entry block's last instruction is the conditional branch. */
  lemma ArmsRules(s: Snap, entry: nat, cond: Val, ifBlock: nat, arm: ElseArm, symbols: map<string, SymbolEntry>, io: IOLabel)
    requires Ready(s, symbols) && Sound(s) && ifBlock + 1 < |s.blocks| && entry < |s.blocks|
    ensures var r := JoinArms(s, entry, cond, ifBlock, arm, symbols, io);
      Keeps(s, r) && ArmsShape(r, entry, cond, ifBlock, arm)
  {
    JoinArmsKeeps(s, entry, cond, ifBlock, arm, symbols, io);
    if arm.Else? {
      ElseArmRules(s, entry, cond, ifBlock, arm, symbols, io);
    } else {
      BranchRules(s, entry, cond, ifBlock, ifBlock + 1, entry);
    }
  }

  /** With an else-arm, the entry block's false target is the new "elseBlock". */
  lemma ElseArmRules(s: Snap, entry: nat, cond: Val, ifBlock: nat, arm: ElseArm, symbols: map<string, SymbolEntry>, io: IOLabel)
    requires Ready(s, symbols) && Sound(s) && ifBlock + 1 < |s.blocks| && entry < |s.blocks| && arm.Else?
    ensures ArmsShape(JoinArms(s, entry, cond, ifBlock, arm, symbols, io), entry, cond, ifBlock, arm)
  {
    var elseBlock := |s.blocks|;
    var s0 := AddBlock(s, "elseBlock");
    AddBlockKeeps(s, "elseBlock");
    var s1 := Nested(s0, elseBlock, arm.stmts, ifBlock + 1, symbols, io);
    NestedKeeps(s0, elseBlock, arm.stmts, ifBlock + 1, symbols, io);
    assert s1.blocks[elseBlock].name == "elseBlock";
    JoinElse(s, entry, cond, ifBlock, arm, symbols, io);
    BranchRules(s1, entry, cond, ifBlock, elseBlock, elseBlock);
  }

  lemma JoinElse(s: Snap, entry: nat, cond: Val, ifBlock: nat, arm: ElseArm, symbols: map<string, SymbolEntry>, io: IOLabel)
    requires Ready(s, symbols) && arm.Else?
    ensures var s1 := Nested(AddBlock(s, "elseBlock"), |s.blocks|, arm.stmts, ifBlock + 1, symbols, io);
      JoinArms(s, entry, cond, ifBlock, arm, symbols, io) == SetTop(EmitAt(s1, entry, [CondBr(cond, ifBlock, |s.blocks|)]), ifBlock + 1)
  {
  }

  /** The entry block's conditional branch, after which lowering moves to "mergeBlock";
      no block is renamed. */
  lemma BranchRules(s: Snap, entry: nat, cond: Val, ifBlock: nat, orElse: nat, other: nat)
    requires |s.stack| > 0 && entry < |s.blocks| && other < |s.blocks|
    ensures var r := SetTop(EmitAt(s, entry, [CondBr(cond, ifBlock, orElse)]), ifBlock + 1);
      && Ends(r.blocks, entry) == Some(CondBr(cond, ifBlock, orElse))
      && |r.blocks| == |s.blocks| && r.blocks[other].name == s.blocks[other].name
      && |r.stack| > 0 && Top(r) == ifBlock + 1
  {
  }

  // ---------------------------------------------------------------------------
  // Loops.
  // ---------------------------------------------------------------------------

  /** The loop blocks, in order: "loop_header", "loop_body", "after_loop". */
  predicate LoopBlocks(bs: seq<Block>, header: nat) {
    header + 2 < |bs|
    && bs[header].name == "loop_header" && bs[header + 1].name == "loop_body" && bs[header + 2].name == "after_loop"
  }

  /** visit(ASTWhileLoop) up to the body: the loop blocks are created; the header holds
      exactly the condition, its `!= 0` test and a branch to the body or past the loop;
      the entry block gains only a branch to the header; the stack is as before. */
  lemma WhileHeaderRules(s: Snap, c: CondExpr, symbols: map<string, SymbolEntry>)
    requires Ready(s, symbols) && Sound(s)
    ensures
      var header := |s.blocks|;
      var t := Guard(Push(AddLoopBlocks(s), header), c, symbols);
      var r := WhileHeader(s, c, symbols);
      && |r.blocks| == header + 3 && LoopBlocks(r.blocks, header)
      && r.blocks[header].instrs == t.code + [CondBr(t.value, header + 1, header + 2)]
      && r.blocks[header + 1].instrs == [] && r.blocks[header + 2].instrs == []
      && AppendedOnly(s.blocks, r.blocks, Top(s), [Br(header)])
      && r.stack == s.stack && r.labels == s.labels
      && var c := LowerCond(c, ScopeOf(s, symbols), s.nextReg);
         r.errors == s.errors + c.errors && r.nextReg == c.nextReg + 1
  {
  }

  /** visit(ASTWhileLoop): lowering continues in "after_loop" with the rest of the stack
      unchanged, and the loop blocks keep their names. */
  lemma WhileRules(s: Snap, st: Stmt, symbols: map<string, SymbolEntry>, io: IOLabel)
    requires st.WhileLoop? && Ready(s, symbols) && Sound(s)
    ensures
      var header := |Splice(s, st.labelName).blocks|;
      var r := LowerWhile(s, st, symbols, io);
      && LoopBlocks(r.blocks, header) && Top(r) == header + 2
      && |r.stack| == |s.stack| && r.stack[..|r.stack| - 1] == s.stack[..|s.stack| - 1]
  {
    var s1 := Splice(s, st.labelName);
    SpliceKeeps(s, st.labelName);
    var s2 := WhileHeader(s1, st.cond, symbols);
    WhileHeaderKeeps(s1, st.cond, symbols);
    WhileHeaderRules(s1, st.cond, symbols);
    LoopBodyKeeps(s2, |s1.blocks|, st.body, symbols, io);
  }

  /** The body a for loop lowers: its statements followed by exactly one `i = i + 1`. */
  lemma ForBodyRules(st: Stmt)
    requires st.ForLoop?
    ensures var name := st.init.target.name;
      && |ForBody(st)| == |st.body| + 1 && ForBody(st)[..|st.body|] == st.body
      && ForBody(st)[|st.body|].Assign? && ForBody(st)[|st.body|].labelName == ""
      && ForBody(st)[|st.body|].assignment.target == TargetVar(name, None, Noop, true)
      && ForBody(st)[|st.body|].assignment.rhs == Arith(Add, Some(Var(TargetVar(name, None, Noop, false))), Some(IntLit(1)))
  {
  }

  /** visit(ASTForLoop) up to the body: the loop blocks are created; the initial
      assignment and then the bound are lowered once, in the entry block, which then
      branches to the header; the header loads the iterator, compares it, signed, with
      the bound, and branches to the body or past the loop. The stack is as before. */
  lemma ForHeaderRules(s: Snap, st: Stmt, symbols: map<string, SymbolEntry>)
    requires st.ForLoop? && Ready(s, symbols) && Sound(s)
    ensures
      var header := |s.blocks|;
      var s1 := LowerAssignment(AddLoopBlocks(s), "", st.init, symbols);
      var bound := LowerMath(st.bound, ScopeOf(s1, symbols), s1.nextReg);
      var d := bound.nextReg;
      var name := st.init.target.name;
      var r := ForHeader(s, st, symbols);
      && |r.blocks| == header + 3 && LoopBlocks(r.blocks, header)
      && r.blocks[Top(s)].instrs == s1.blocks[Top(s)].instrs + bound.code + [Br(header)]
      && r.blocks[header].instrs ==
           [Load(d, if name in s.variables then Global(name) else Null),
            ICmp(d + 1, SLT, Reg(d), bound.value),
            CondBr(Reg(d + 1), header + 1, header + 2)]
      && r.blocks[header + 1].instrs == [] && r.blocks[header + 2].instrs == []
      && r.stack == s.stack && r.nextReg == d + 2
      && r.errors == s1.errors + bound.errors
  {
    var s0 := AddLoopBlocks(s);
    AddLoopBlocksKeeps(s);
    AssignmentKeeps(s0, "", st.init, symbols);
  }

  /** visit(ASTForLoop): lowering continues in "after_loop" with the rest of the stack
      unchanged, and the loop blocks keep their names. */
  lemma ForRules(s: Snap, st: Stmt, symbols: map<string, SymbolEntry>, io: IOLabel)
    requires st.ForLoop? && Ready(s, symbols) && Sound(s)
    ensures
      var header := |Splice(s, st.labelName).blocks|;
      var r := LowerFor(s, st, symbols, io);
      && LoopBlocks(r.blocks, header) && Top(r) == header + 2
      && |r.stack| == |s.stack| && r.stack[..|r.stack| - 1] == s.stack[..|s.stack| - 1]
  {
    var s1 := Splice(s, st.labelName);
    SpliceKeeps(s, st.labelName);
    var s2 := ForHeader(s1, st, symbols);
    ForHeaderKeeps(s1, st, symbols);
    ForHeaderRules(s1, st, symbols);
    SizeOfAppend(st.body, Increment(st.init.target.name));
    LoopBodyKeeps(s2, |s1.blocks|, ForBody(st), symbols, io);
  }

  // ---------------------------------------------------------------------------
  // Goto.
  // ---------------------------------------------------------------------------

  /** visit(ASTGotoBlock) to a name that is not in the symbol table: no branch is added;
      a condition is still lowered and tested in the current block. */
  lemma GotoUnknownRules(s: Snap, st: Stmt, symbols: map<string, SymbolEntry>)
    requires st.Goto? && Ready(s, symbols) && Sound(s) && st.targetLabel !in symbols
    ensures var s1 := Splice(s, st.labelName);
      var r := LowerGoto(s, st, symbols);
      && (st.guard.None? ==> r == s1)
      && (st.guard.Some? ==> r == EmitCode(s1, Guard(s1, st.guard.value, symbols)))
  {
  }

  /** visit(ASTGotoBlock) with a condition and a known target: after the label, the
      condition and its `!= 0` test go to the current block, which then branches on it to
      the label's block (created if needed) or to a new "noJumpBlock", where lowering
      continues. */
  lemma GotoConditionalRules(s: Snap, st: Stmt, symbols: map<string, SymbolEntry>)
    requires st.Goto? && Ready(s, symbols) && Sound(s) && st.targetLabel in symbols && st.guard.Some?
    ensures var s1 := Splice(s, st.labelName);
      var c := LowerCond(st.guard.value, ScopeOf(s1, symbols), s1.nextReg);
      var target := st.targetLabel;
      var r := LowerGoto(s, st, symbols);
      && Top(s1) < |s1.blocks| <= |r.blocks|
      && target in r.labels && r.labels[target] < |r.blocks|
      && (target in s1.labels ==> r.labels == s1.labels)
      && Top(r) == |r.blocks| - 1 && r.blocks[Top(r)] == Block("noJumpBlock", [])
      && Ends(r.blocks, Top(s1)) == Some(CondBr(Reg(c.nextReg), r.labels[target], Top(r)))
      && s1.blocks[Top(s1)].instrs + c.code + [ICmp(c.nextReg, NE, c.value, ConstInt(0))] <= r.blocks[Top(s1)].instrs
      && |r.stack| == |s.stack| && r.stack[..|r.stack| - 1] == s.stack[..|s.stack| - 1]
      && r.errors == s.errors + c.errors && r.nextReg == c.nextReg + 1
  {
    var s1 := Splice(s, st.labelName);
    SpliceKeeps(s, st.labelName);
    var t := Guard(s1, st.guard.value, symbols);
    var s2 := EmitCode(s1, t);
    EmitCodeKeeps(s1, t);
    GuardAppends(s1, st.guard.value, symbols);
    DivertRules(s2, st.targetLabel, Some(t.value));
  }

  /** visit(ASTGotoBlock) without a condition, to a known target: a label that already
      has a block gets a branch there and lowering stays in the same block; a label
      without one gets its block created and branched to, and lowering continues in a
      new "noJumpBlock". */
  lemma GotoUnconditionalRules(s: Snap, st: Stmt, symbols: map<string, SymbolEntry>)
    requires st.Goto? && Ready(s, symbols) && Sound(s) && st.targetLabel in symbols && st.guard.None?
    ensures var s1 := Splice(s, st.labelName);
      var target := st.targetLabel;
      var r := LowerGoto(s, st, symbols);
      && Top(s1) < |s1.blocks| <= |r.blocks|
      && (target in s1.labels ==>
            && Top(r) == Top(s1) && r.labels == s1.labels && r.stack == s1.stack
            && AppendedOnly(s1.blocks, r.blocks, Top(s1), [Br(s1.labels[target])]))
      && (target !in s1.labels ==>
            && r.labels == s1.labels[target := |s1.blocks|]
            && |r.blocks| == |s1.blocks| + 2 && r.blocks[|s1.blocks|] == Block(target, [])
            && Top(r) == |s1.blocks| + 1 && r.blocks[Top(r)] == Block("noJumpBlock", [])
            && AppendedOnly(s1.blocks, r.blocks, Top(s1), [Br(|s1.blocks|)]))
      && |r.stack| == |s.stack| && r.stack[..|r.stack| - 1] == s.stack[..|s.stack| - 1]
      && r.errors == s.errors && r.nextReg == s.nextReg
  {
    var s1 := Splice(s, st.labelName);
    SpliceKeeps(s, st.labelName);
    if st.targetLabel !in s1.labels {
      DivertRules(s1, st.targetLabel, None);
    }
  }

  /** A goto that leaves the current block: the label's block is created unless it
      exists, a new "noJumpBlock" becomes current, and the old current block gains only
      the branch. */
  lemma DivertRules(s: Snap, target: string, guard: Option<Val>)
    requires Sound(s) && |s.stack| > 0
    ensures var r := Divert(s, target, guard);
      var known := target in s.labels;
      var dest := if known then s.labels[target] else |s.blocks|;
      var noJump := if known then |s.blocks| else |s.blocks| + 1;
      && (known ==> r.labels == s.labels) && (!known ==> r.labels == s.labels[target := dest])
      && target in r.labels && r.labels[target] == dest
      && |r.blocks| == noJump + 1 && (!known ==> r.blocks[dest] == Block(target, []))
      && Top(r) == noJump && r.blocks[noJump] == Block("noJumpBlock", [])
      && AppendedOnly(s.blocks, r.blocks, Top(s), [if guard.Some? then CondBr(guard.value, dest, noJump) else Br(dest)])
      && |r.stack| == |s.stack| && r.stack[..|r.stack| - 1] == s.stack[..|s.stack| - 1]
  {
    var s1 := WithLabel(s, target);
    WithLabelKeeps(s, target);
    var s2 := AddBlock(s1, "noJumpBlock");
    assert Top(s2) == Top(s);
  }

  // ---------------------------------------------------------------------------
  // I/O statements and the label they carry.
  // ---------------------------------------------------------------------------

  /** visit(ASTIOBlock) as written consults neither the label map nor the stack: a
      labelled I/O statement's code goes to whatever block is current. */
  lemma IOLabelIgnored(s: Snap, st: Stmt, symbols: map<string, SymbolEntry>)
    requires st.IO? && Ready(s, symbols) && Sound(s)
    ensures var r := LowerIOAsWritten(s, st, symbols);
      var c := IOCode(st.kind, st.text, st.operand, ScopeOf(s, symbols), s.nextReg);
      && r.labels == s.labels && r.stack == s.stack && |r.blocks| == |s.blocks|
      && AppendedOnly(s.blocks, r.blocks, Top(s), c.code)
      && r.errors == s.errors + c.errors && r.nextReg == c.nextReg
  {
  }

  /** With the label spliced in, a labelled I/O statement's code goes to its label's
      block, which lowering continues in. */
  lemma IOLabelHonoured(s: Snap, st: Stmt, symbols: map<string, SymbolEntry>)
    requires st.IO? && Ready(s, symbols) && Sound(s) && st.labelName != ""
    ensures var s1 := Splice(s, st.labelName);
      var r := LowerIO(s, st, symbols);
      && st.labelName in r.labels && Top(r) == r.labels[st.labelName]
      && AppendedOnly(s1.blocks, r.blocks, r.labels[st.labelName],
                      IOCode(st.kind, st.text, st.operand, ScopeOf(s1, symbols), s1.nextReg).code)
      && r.errors == s.errors + IOCode(st.kind, st.text, st.operand, ScopeOf(s1, symbols), s1.nextReg).errors
  {
    SpliceKeeps(s, st.labelName);
  }

  /** The three statements of `goto done; print "skipped"; done: print "here"`. */
  function SkipProgram(): seq<Stmt> {
    [Goto("", "done", None), IO("", Print, "skipped", None), IO("done", Print, "here", None)]
  }

  /** The symbol table the declaration pass builds for it: only the label. */
  function SkipSymbols(): map<string, SymbolEntry> {
    map["done" := SymbolEntry(false)]
  }

  /** The state after the goto: "done" is created and branched to from "entry", and
      lowering continues in "noJumpBlock". */
  function SkipAfterGoto(): Snap {
    Snap([Block("entry", [Br(1)]), Block("done", []), Block("noJumpBlock", [])], [2], map["done" := 1], map[], 0, 0)
  }

  lemma SkipGoto(s0: Snap, st: Stmt, sy: map<string, SymbolEntry>)
    requires s0 == Initial() && st == SkipProgram()[0] && sy == SkipSymbols()
    ensures LowerGoto(s0, st, sy) == SkipAfterGoto()
  {
    var w := WithLabel(s0, "done");
    var s2 := AddBlock(w, "noJumpBlock");
    assert s2.blocks == [Block("entry", []), Block("done", []), Block("noJumpBlock", [])];
    assert s2.blocks[0].instrs + [Br(1)] == [Br(1)];
    assert EmitAt(s2, 0, [Br(1)]).blocks == SkipAfterGoto().blocks;
  }

  /** The state after the first print, which goes to "noJumpBlock". */
  function SkipAfterPrint(): Snap {
    Snap([Block("entry", [Br(1)]), Block("done", []), Block("noJumpBlock", [Call(Printf, "skipped", [])])],
         [2], map["done" := 1], map[], 0, 0)
  }

  /** A print of text alone: one printf call with the text as its format. */
  lemma PrintText(text: string, s: Scope, reg: nat)
    requires ScopeOk(s) && text != []
    ensures IOCode(Print, text, None, s, reg) == ExprCode([Call(Printf, text, [])], Null, 0, reg)
  {
    assert (text + "") + "" == text;
  }

  /** The unlabelled print goes to "noJumpBlock", with or without the splice. */
  lemma SkipFirstPrint(s1: Snap, st: Stmt, sy: map<string, SymbolEntry>)
    requires s1 == SkipAfterGoto() && st == SkipProgram()[1] && sy == SkipSymbols()
    ensures LowerIO(s1, st, sy) == SkipAfterPrint()
    ensures LowerIOAsWritten(s1, st, sy) == SkipAfterPrint()
  {
    PrintText("skipped", ScopeOf(s1, sy), 0);
    assert s1.blocks[2].instrs + [Call(Printf, "skipped", [])] == [Call(Printf, "skipped", [])];
  }

  /** As written, the labelled print joins the first one in "noJumpBlock". */
  lemma SkipSecondAsWritten(s2: Snap, st: Stmt, sy: map<string, SymbolEntry>)
    requires s2 == SkipAfterPrint() && st == SkipProgram()[2] && sy == SkipSymbols()
    ensures var r := LowerIOAsWritten(s2, st, sy);
      && |r.blocks| == 3 && r.blocks[0] == Block("entry", [Br(1)])
      && r.blocks[1] == Block("done", []) && Ends(r.blocks, 1).None?
      && r.blocks[2] == Block("noJumpBlock", [Call(Printf, "skipped", []), Call(Printf, "here", [])])
  {
    PrintText("here", ScopeOf(s2, sy), 0);
    var c := ExprCode([Call(Printf, "here", [])], Null, 0, 0);
    assert LowerIOAsWritten(s2, st, sy) == EmitCode(s2, c);
    assert s2.blocks[2].instrs + c.code == [Call(Printf, "skipped", []), Call(Printf, "here", [])];
  }

  /** Splicing "done" in after the first print: "noJumpBlock" branches to "done", which
      becomes current. */
  function SkipSpliced(): Snap {
    Snap([Block("entry", [Br(1)]), Block("done", []), Block("noJumpBlock", [Call(Printf, "skipped", []), Br(1)])],
         [1], map["done" := 1], map[], 0, 0)
  }

  lemma SkipSplice(s2: Snap)
    requires s2 == SkipAfterPrint()
    ensures Splice(s2, "done") == SkipSpliced()
  {
    assert s2.blocks[2].instrs + [Br(1)] == [Call(Printf, "skipped", []), Br(1)];
    assert AppendTo(s2.blocks, 2, [Br(1)]) == SkipSpliced().blocks;
  }

  /** With the splice, the labelled print branches to "done", which becomes current and
      gets the call. */
  lemma SkipSecondPrint(s2: Snap, st: Stmt, sy: map<string, SymbolEntry>)
    requires s2 == SkipAfterPrint() && st == SkipProgram()[2] && sy == SkipSymbols()
    ensures var r := LowerIO(s2, st, sy);
      && |r.blocks| == 3 && Top(r) == 1 && r.errors == 0
      && r.blocks[1] == Block("done", [Call(Printf, "here", [])])
      && r.blocks[2] == Block("noJumpBlock", [Call(Printf, "skipped", []), Br(1)])
  {
    SkipSplice(s2);
    SkipEmitHere(Splice(s2, "done"), sy);
  }

  lemma SkipEmitHere(s3: Snap, sy: map<string, SymbolEntry>)
    requires s3 == SkipSpliced() && sy == SkipSymbols()
    ensures var r := EmitCode(s3, IOCode(Print, "here", None, ScopeOf(s3, sy), 0));
      && |r.blocks| == 3 && Top(r) == 1 && r.errors == 0
      && r.blocks[1] == Block("done", [Call(Printf, "here", [])])
      && r.blocks[2] == Block("noJumpBlock", [Call(Printf, "skipped", []), Br(1)])
  {
    PrintText("here", ScopeOf(s3, sy), 0);
    assert s3.blocks[1].instrs + [Call(Printf, "here", [])] == [Call(Printf, "here", [])];
  }

  /** As written, the whole statement list leaves "done" empty and without a terminator
      and puts both prints in "noJumpBlock". */
  lemma SkipAsWritten(p: seq<Stmt>, sy: map<string, SymbolEntry>)
    requires p == SkipProgram() && sy == SkipSymbols()
    ensures
      var r := LowerCodeBlock(Initial(), p, sy, Ignored);
      && |r.blocks| == 3 && r.blocks[1] == Block("done", []) && Ends(r.blocks, 1).None?
      && r.blocks[2] == Block("noJumpBlock", [Call(Printf, "skipped", []), Call(Printf, "here", [])])
  {
    var s0 := Initial();
    assert [] + [p[0]] == [p[0]] && [p[0]] + [p[1]] + [p[2]] == p;
    CodeBlockSnoc(s0, [], p[0], sy, Ignored);
    var a := LowerCodeBlock(s0, [p[0]], sy, Ignored);
    SkipStatement1(s0, p, sy, Ignored);
    CodeBlockSnoc(s0, [p[0]], p[1], sy, Ignored);
    var b := LowerCodeBlock(s0, [p[0]] + [p[1]], sy, Ignored);
    SkipStatement2AsWritten(a, p, sy);
    CodeBlockSnoc(s0, [p[0]] + [p[1]], p[2], sy, Ignored);
    SkipStatement3AsWritten(b, p, sy);
  }

  /** With the label spliced in, "done" receives the labelled print and lowering ends in
      it; the program lowered as a whole counts no error. */
  lemma SkipCorrected(p: seq<Stmt>, sy: map<string, SymbolEntry>)
    requires p == SkipProgram() && sy == SkipSymbols()
    ensures
      var r := LowerCodeBlock(Initial(), p, sy, Spliced);
      && |r.blocks| == 3 && Top(r) == 1 && r.errors == 0
      && r.blocks[1] == Block("done", [Call(Printf, "here", [])])
      && r.blocks[2] == Block("noJumpBlock", [Call(Printf, "skipped", []), Br(1)])
  {
    var s0 := Initial();
    assert [] + [p[0]] == [p[0]] && [p[0]] + [p[1]] + [p[2]] == p;
    CodeBlockSnoc(s0, [], p[0], sy, Spliced);
    var a := LowerCodeBlock(s0, [p[0]], sy, Spliced);
    SkipStatement1(s0, p, sy, Spliced);
    CodeBlockSnoc(s0, [p[0]], p[1], sy, Spliced);
    var b := LowerCodeBlock(s0, [p[0]] + [p[1]], sy, Spliced);
    SkipStatement2Spliced(a, p, sy);
    CodeBlockSnoc(s0, [p[0]] + [p[1]], p[2], sy, Spliced);
    SkipStatement3Spliced(b, p, sy);
  }

  lemma SkipStatement1(s: Snap, p: seq<Stmt>, sy: map<string, SymbolEntry>, io: IOLabel)
    requires s == Initial() && p == SkipProgram() && sy == SkipSymbols()
    ensures LowerStatement(s, p[0], sy, io) == SkipAfterGoto()
  {
    StatementIsGoto(s, p[0], sy, io);
    SkipGoto(s, p[0], sy);
  }

  lemma SkipStatement2AsWritten(s: Snap, p: seq<Stmt>, sy: map<string, SymbolEntry>)
    requires s == SkipAfterGoto() && p == SkipProgram() && sy == SkipSymbols()
    ensures LowerStatement(s, p[1], sy, Ignored) == SkipAfterPrint()
  {
    StatementIsIO(s, p[1], sy, Ignored);
    SkipFirstPrint(s, p[1], sy);
  }

  lemma SkipStatement2Spliced(s: Snap, p: seq<Stmt>, sy: map<string, SymbolEntry>)
    requires s == SkipAfterGoto() && p == SkipProgram() && sy == SkipSymbols()
    ensures LowerStatement(s, p[1], sy, Spliced) == SkipAfterPrint()
  {
    StatementIsIO(s, p[1], sy, Spliced);
    SkipFirstPrint(s, p[1], sy);
  }

  lemma SkipStatement3AsWritten(s: Snap, p: seq<Stmt>, sy: map<string, SymbolEntry>)
    requires s == SkipAfterPrint() && p == SkipProgram() && sy == SkipSymbols()
    ensures var r := LowerStatement(s, p[2], sy, Ignored);
      && |r.blocks| == 3 && r.blocks[1] == Block("done", []) && Ends(r.blocks, 1).None?
      && r.blocks[2] == Block("noJumpBlock", [Call(Printf, "skipped", []), Call(Printf, "here", [])])
  {
    StatementIsIO(s, p[2], sy, Ignored);
    SkipSecondAsWritten(s, p[2], sy);
  }

  lemma SkipStatement3Spliced(s: Snap, p: seq<Stmt>, sy: map<string, SymbolEntry>)
    requires s == SkipAfterPrint() && p == SkipProgram() && sy == SkipSymbols()
    ensures var r := LowerStatement(s, p[2], sy, Spliced);
      && |r.blocks| == 3 && Top(r) == 1 && r.errors == 0
      && r.blocks[1] == Block("done", [Call(Printf, "here", [])])
      && r.blocks[2] == Block("noJumpBlock", [Call(Printf, "skipped", []), Br(1)])
  {
    StatementIsIO(s, p[2], sy, Spliced);
    SkipSecondPrint(s, p[2], sy);
  }

  /** A goto statement is lowered by its own visit. */
  lemma StatementIsGoto(s: Snap, st: Stmt, sy: map<string, SymbolEntry>, io: IOLabel)
    requires st.Goto? && Ready(s, sy)
    ensures LowerStatement(s, st, sy, io) == LowerGoto(s, st, sy)
  {
  }

  /** An I/O statement is lowered by the visit as written, or by the one that splices
      its label in. */
  lemma StatementIsIO(s: Snap, st: Stmt, sy: map<string, SymbolEntry>, io: IOLabel)
    requires st.IO? && Ready(s, sy)
    ensures io == Ignored ==> LowerStatement(s, st, sy, io) == LowerIOAsWritten(s, st, sy)
    ensures io == Spliced ==> LowerStatement(s, st, sy, io) == LowerIO(s, st, sy)
  {
  }

  /** A code block with one more statement at its end. */
  lemma CodeBlockSnoc(s: Snap, ss: seq<Stmt>, st: Stmt, symbols: map<string, SymbolEntry>, io: IOLabel)
    requires Ready(s, symbols)
    ensures LowerCodeBlock(s, ss + [st], symbols, io) == LowerStatement(LowerCodeBlock(s, ss, symbols, io), st, symbols, io)
  {
    assert (ss + [st])[..|ss|] == ss;
  }

  // ---------------------------------------------------------------------------
  // Declarations.
  // ---------------------------------------------------------------------------

  /** visit(ASTVariable): a repeated name, or an array of fewer than one cell, counts one
      error and declares nothing; otherwise the name is bound to its zeroed storage. */
  lemma DeclareVariableRules(s: Snap, v: VarDecl)
    ensures !Accepted(s.variables, v) ==> DeclareVariable(s, v) == s.(errors := s.errors + 1)
    ensures Accepted(s.variables, v) ==>
      DeclareVariable(s, v) == s.(variables := s.variables[v.name := Storage(v)])
  {
  }

  /** The names a line declares, each against the names before it. */
  predicate LineAccepted(variables: map<string, GlobalCell>, vs: seq<VarDecl>)
  {
    forall i | 0 <= i < |vs| ::
      Accepted(variables, vs[i]) && forall j | 0 <= j < i :: vs[j].name != vs[i].name
  }

  /** A declaration line counts no error exactly when every name in it is new (to the
      storage so far and to the line) and no array is empty; then every name has its
      storage. */
  lemma {:induction false} DeclareLineRules(s: Snap, vs: seq<VarDecl>)
    ensures DeclareLine(s, vs).errors == s.errors <==> LineAccepted(s.variables, vs)
    ensures LineAccepted(s.variables, vs) ==>
      forall i | 0 <= i < |vs| ::
        vs[i].name in DeclareLine(s, vs).variables && DeclareLine(s, vs).variables[vs[i].name] == Storage(vs[i])
  {
    if vs != [] {
      var n := |vs| - 1;
      DeclareLineRules(s, vs[..n]);
      if LineAccepted(s.variables, vs[..n]) {
        assert vs == vs[..n] + [vs[n]];
        DeclareLineStep(s, vs[..n], vs[n]);
      } else {
        assert !LineAccepted(s.variables, vs) by {
          if LineAccepted(s.variables, vs) {
            assert LineAccepted(s.variables, vs[..n]);
          }
        }
      }
    }
  }

  /** One more variable on a line whose earlier names were all accepted. */
  lemma DeclareLineStep(s: Snap, pre: seq<VarDecl>, v: VarDecl)
    requires LineAccepted(s.variables, pre) && DeclareLine(s, pre).errors == s.errors
    requires forall i | 0 <= i < |pre| ::
      pre[i].name in DeclareLine(s, pre).variables && DeclareLine(s, pre).variables[pre[i].name] == Storage(pre[i])
    ensures DeclareLine(s, pre + [v]).errors == s.errors <==> LineAccepted(s.variables, pre + [v])
    ensures LineAccepted(s.variables, pre + [v]) ==>
      forall i | 0 <= i < |pre + [v]| ::
        (pre + [v])[i].name in DeclareLine(s, pre + [v]).variables
        && DeclareLine(s, pre + [v]).variables[(pre + [v])[i].name] == Storage((pre + [v])[i])
  {
    var vs := pre + [v];
    var s1 := DeclareLine(s, pre);
    assert vs[..|pre|] == pre;
    assert DeclareLine(s, vs) == DeclareVariable(s1, v);
    if Accepted(s1.variables, v) {
      assert LineAccepted(s.variables, vs);
    } else if LineAccepted(s.variables, vs) {
      LineNames(s, pre, v.name);
      assert false;
    }
  }

  lemma {:induction false} LineNames(s: Snap, vs: seq<VarDecl>, name: string)
    requires LineAccepted(s.variables, vs) && name in DeclareLine(s, vs).variables
    ensures name in s.variables || exists j | 0 <= j < |vs| :: vs[j].name == name
  {
    if vs != [] {
      var n := |vs| - 1;
      assert LineAccepted(s.variables, vs[..n]);
      if name != vs[n].name {
        LineNames(s, vs[..n], name);
        if !(name in s.variables) {
          var j :| 0 <= j < n && vs[..n][j].name == name;
          assert vs[j].name == name;
        }
      }
    }
  }

  // ---------------------------------------------------------------------------
  // generateCode.
  // ---------------------------------------------------------------------------

  /** generateCode: a counted error means no module; otherwise the globals are the
      declared storage, `main` keeps the "entry" block first, and the block lowering
      ended in (the only one left on the stack) ends in `ret`. */
  lemma GenerateRules(p: Program, symbols: map<string, SymbolEntry>, io: IOLabel)
    requires DeclaredIn(p, symbols)
    ensures var r := LowerProgram(Initial(), p, symbols, io);
      && (Generate(p, symbols, io).None? <==> r.errors > 0)
      && |r.stack| == 1
      && (Generate(p, symbols, io).Some? ==>
            var m := Generate(p, symbols, io).value;
            && m.globals == (if p.declBlock.Some? then DeclareBlock(Initial(), p.declBlock.value) else Initial()).variables
            && 0 < |m.blocks| == |r.blocks| && m.blocks[0].name == "entry"
            && Ends(m.blocks, Top(r)) == Some(Ret))
  {
    var s0 := Initial();
    var s1 := if p.declBlock.Some? then DeclareBlock(s0, p.declBlock.value) else s0;
    assert Ready(s1, symbols) && Sound(s1) by {
      if p.declBlock.Some? { DeclaredKeys(s0, p.declBlock.value, symbols); }
    }
    if p.codeBlock.Some? {
      CodeBlockKeeps(s1, p.codeBlock.value, symbols, io);
    }
  }
}
