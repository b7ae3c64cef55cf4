/**
 * What every statement visit preserves.
 *
 * The lowering functions are total: a branch appended to a block that does not exist
 * is dropped, and only an existing block can have a terminator. On the states the code
 * generator actually reaches these guards never fire, because every block on the
 * stack or in the label map exists (`Sound`), and lowering a statement keeps it so.
 * Lowering also only ever appends: blocks are added, never removed or renamed, and
 * code already in a block is never changed. The error counter never goes down, and
 * only the top of the block stack is replaced.
 */
module Invariants {
  import opened Wrappers
  import opened Ast
  import opened IR
  import opened LowerExpr
  import opened LowerStmt

  /** `r` extends `s`'s function: at least as many blocks, the old ones keep their names
      and their code as a prefix. */
  predicate Grows(s: Snap, r: Snap) {
    && |s.blocks| <= |r.blocks|
    && forall b | 0 <= b < |s.blocks| ::
         r.blocks[b].name == s.blocks[b].name && s.blocks[b].instrs <= r.blocks[b].instrs
  }

  /** A block that grew keeps its old code as a prefix. */
  lemma GrowsAt(s: Snap, r: Snap, b: nat)
    requires Grows(s, r) && b < |s.blocks|
    ensures b < |r.blocks| && s.blocks[b].instrs <= r.blocks[b].instrs
  {
  }

  /** Lowering from `s` to `r` keeps the state sound, only appends, never uncounts an
      error, and leaves the stack below its top as it was. */
  predicate Keeps(s: Snap, r: Snap) {
    && Sound(r) && Grows(s, r) && s.errors <= r.errors
    && |s.stack| > 0 && |r.stack| == |s.stack|
    && r.stack[..|s.stack| - 1] == s.stack[..|s.stack| - 1]
  }

  lemma GrowsTrans(a: Snap, b: Snap, c: Snap)
    requires Grows(a, b) && Grows(b, c)
    ensures Grows(a, c)
  {
    forall i | 0 <= i < |a.blocks| ensures c.blocks[i].name == a.blocks[i].name && a.blocks[i].instrs <= c.blocks[i].instrs {
      assert b.blocks[i].instrs <= c.blocks[i].instrs;
    }
  }

  lemma KeepsTrans(a: Snap, b: Snap, c: Snap)
    requires Keeps(a, b) && Keeps(b, c)
    ensures Keeps(a, c)
  {
    GrowsTrans(a, b, c);
    var n := |a.stack| - 1;
    assert c.stack[..n] == c.stack[..|b.stack| - 1];
  }

  // ---------------------------------------------------------------------------
  // Single steps.
  // ---------------------------------------------------------------------------

  lemma EmitAtKeeps(s: Snap, b: nat, code: seq<Instr>)
    requires Sound(s) && |s.stack| > 0
    ensures Keeps(s, EmitAt(s, b, code))
  {
  }

  lemma AddBlockKeeps(s: Snap, name: string)
    requires Sound(s) && |s.stack| > 0
    ensures Keeps(s, AddBlock(s, name))
  {
  }

  /** Replacing the top of the stack by an existing block. */
  lemma SetTopKeeps(s: Snap, b: nat)
    requires Sound(s) && |s.stack| > 0 && b < |s.blocks|
    ensures Keeps(s, SetTop(s, b))
  {
    assert SetTop(s, b).stack[..|s.stack| - 1] == s.stack[..|s.stack| - 1];
  }

  lemma WithLabelKeeps(s: Snap, name: string)
    requires Sound(s) && |s.stack| > 0
    ensures Keeps(s, WithLabel(s, name)) && name in WithLabel(s, name).labels
  {
    if name !in s.labels {
      AddBlockKeeps(s, name);
    }
  }

  lemma SpliceKeeps(s: Snap, name: string)
    requires Sound(s) && |s.stack| > 0
    ensures Keeps(s, Splice(s, name))
  {
    if name != "" {
      var s1 := WithLabel(s, name);
      WithLabelKeeps(s, name);
      var s2 := EmitAt(s1, Top(s1), [Br(s1.labels[name])]);
      EmitAtKeeps(s1, Top(s1), [Br(s1.labels[name])]);
      KeepsTrans(s, s1, s2);
      SetTopKeeps(s2, s1.labels[name]);
      KeepsTrans(s, s2, Splice(s, name));
    }
  }

  lemma EmitCodeKeeps(s: Snap, c: ExprCode)
    requires Sound(s) && |s.stack| > 0
    ensures Keeps(s, EmitCode(s, c))
  {
  }

  lemma DivertKeeps(s: Snap, target: string, guard: Option<Val>)
    requires Sound(s) && |s.stack| > 0
    ensures Keeps(s, Divert(s, target, guard))
  {
    var s1 := WithLabel(s, target);
    WithLabelKeeps(s, target);
    var s2 := AddBlock(s1, "noJumpBlock");
    AddBlockKeeps(s1, "noJumpBlock");
    KeepsTrans(s, s1, s2);
    var branch := if guard.Some? then CondBr(guard.value, s1.labels[target], |s1.blocks|) else Br(s1.labels[target]);
    var s3 := EmitAt(s2, Top(s2), [branch]);
    EmitAtKeeps(s2, Top(s2), [branch]);
    KeepsTrans(s, s2, s3);
    SetTopKeeps(s3, |s1.blocks|);
    assert Divert(s, target, guard) == SetTop(s3, |s1.blocks|);
    KeepsTrans(s, s3, Divert(s, target, guard));
  }

  lemma CloseArmKeeps(s: Snap, target: nat)
    requires Sound(s) && |s.stack| > 0
    ensures var r := CloseArm(s, target); Sound(r) && Grows(s, r) && r.errors == s.errors
  {
  }

  lemma AddLoopBlocksKeeps(s: Snap)
    requires Sound(s) && |s.stack| > 0
    ensures Keeps(s, AddLoopBlocks(s))
  {
    var s1 := AddBlock(s, "loop_header");
    var s2 := AddBlock(s1, "loop_body");
    AddBlockKeeps(s, "loop_header");
    AddBlockKeeps(s1, "loop_body");
    KeepsTrans(s, s1, s2);
    AddBlockKeeps(s2, "after_loop");
    KeepsTrans(s, s2, AddLoopBlocks(s));
  }

  // ---------------------------------------------------------------------------
  // Statements without nested code.
  // ---------------------------------------------------------------------------

  lemma AssignmentKeeps(s: Snap, labelName: string, a: Assignment, symbols: map<string, SymbolEntry>)
    requires Ready(s, symbols) && Sound(s)
    ensures Keeps(s, LowerAssignment(s, labelName, a, symbols))
  {
    if a.target.name in s.variables {
      var s1 := Splice(s, labelName);
      SpliceKeeps(s, labelName);
      EmitCodeKeeps(s1, AssignmentCode(a, ScopeOf(s1, symbols), s1.nextReg));
      KeepsTrans(s, s1, LowerAssignment(s, labelName, a, symbols));
    }
  }

  lemma IOKeeps(s: Snap, st: Stmt, symbols: map<string, SymbolEntry>)
    requires st.IO? && Ready(s, symbols) && Sound(s)
    ensures Keeps(s, LowerIO(s, st, symbols))
  {
    var s1 := Splice(s, st.labelName);
    SpliceKeeps(s, st.labelName);
    EmitCodeKeeps(s1, IOCode(st.kind, st.text, st.operand, ScopeOf(s1, symbols), s1.nextReg));
    KeepsTrans(s, s1, LowerIO(s, st, symbols));
  }

  lemma GotoKeeps(s: Snap, st: Stmt, symbols: map<string, SymbolEntry>)
    requires st.Goto? && Ready(s, symbols) && Sound(s)
    ensures Keeps(s, LowerGoto(s, st, symbols))
  {
    var s1 := Splice(s, st.labelName);
    SpliceKeeps(s, st.labelName);
    var r := LowerGoto(s, st, symbols);
    var target := st.targetLabel;
    if st.guard.Some? {
      var t := Guard(s1, st.guard.value, symbols);
      var s2 := EmitCode(s1, t);
      EmitCodeKeeps(s1, t);
      KeepsTrans(s, s1, s2);
      if target in symbols {
        DivertKeeps(s2, target, Some(t.value));
        KeepsTrans(s, s2, r);
      }
    } else if target in symbols {
      if target in s1.labels {
        EmitAtKeeps(s1, Top(s1), [Br(s1.labels[target])]);
      } else {
        DivertKeeps(s1, target, None);
      }
      KeepsTrans(s, s1, r);
    }
  }

  lemma WhileHeaderKeeps(s: Snap, c: CondExpr, symbols: map<string, SymbolEntry>)
    requires Ready(s, symbols) && Sound(s)
    ensures Keeps(s, WhileHeader(s, c, symbols))
  {
    var header := |s.blocks|;
    var s0 := AddLoopBlocks(s);
    AddLoopBlocksKeeps(s);
    var s1 := Push(s0, header);
    var t := Guard(s1, c, symbols);
    var s2 := Pop(EmitCode(s1, t));
    assert Keeps(s0, s2) by {
      assert s2.stack == s0.stack;
    }
    KeepsTrans(s, s0, s2);
    var s3 := EmitAt(s2, header, [CondBr(t.value, header + 1, header + 2)]);
    EmitAtKeeps(s2, header, [CondBr(t.value, header + 1, header + 2)]);
    KeepsTrans(s, s2, s3);
    EmitAtKeeps(s3, Top(s), [Br(header)]);
    KeepsTrans(s, s3, WhileHeader(s, c, symbols));
  }

  lemma ForEntryKeeps(s: Snap, entry: nat, header: nat, name: string, bound: Val)
    requires Sound(s) && |s.stack| > 0
    ensures Keeps(s, ForEntry(s, entry, header, name, bound))
  {
    var counter := if name in s.variables then Global(name) else Null;
    var s1 := s.(nextReg := s.nextReg + 2);
    var s2 := EmitAt(s1, header, ForTest(counter, bound, s.nextReg, header));
    EmitAtKeeps(s1, header, ForTest(counter, bound, s.nextReg, header));
    EmitAtKeeps(s2, entry, [Br(header)]);
    KeepsTrans(s1, s2, ForEntry(s, entry, header, name, bound));
  }

  lemma ForHeaderKeeps(s: Snap, st: Stmt, symbols: map<string, SymbolEntry>)
    requires st.ForLoop? && Ready(s, symbols) && Sound(s)
    ensures Keeps(s, ForHeader(s, st, symbols))
  {
    var s0 := AddLoopBlocks(s);
    AddLoopBlocksKeeps(s);
    var s1 := LowerAssignment(s0, "", st.init, symbols);
    AssignmentKeeps(s0, "", st.init, symbols);
    KeepsTrans(s, s0, s1);
    var bound := LowerMath(st.bound, ScopeOf(s1, symbols), s1.nextReg);
    var s2 := EmitCode(s1, bound);
    EmitCodeKeeps(s1, bound);
    KeepsTrans(s, s1, s2);
    ForEntryKeeps(s2, Top(s), |s.blocks|, st.init.target.name, bound.value);
    KeepsTrans(s, s2, ForHeader(s, st, symbols));
  }

  // ---------------------------------------------------------------------------
  // Statements and code blocks, by induction on the tree.
  // ---------------------------------------------------------------------------

  lemma {:induction false} CodeBlockKeeps(s: Snap, ss: seq<Stmt>, symbols: map<string, SymbolEntry>, io: IOLabel)
    requires Ready(s, symbols) && Sound(s)
    ensures Keeps(s, LowerCodeBlock(s, ss, symbols, io))
    decreases SizeOfBlock(ss), 5
  {
    if ss == [] {
      assert LowerCodeBlock(s, ss, symbols, io) == s;
    } else {
      SizeOfElement(ss, |ss| - 1);
      var s1 := LowerCodeBlock(s, ss[..|ss| - 1], symbols, io);
      CodeBlockKeeps(s, ss[..|ss| - 1], symbols, io);
      StatementKeeps(s1, ss[|ss| - 1], symbols, io);
      KeepsTrans(s, s1, LowerCodeBlock(s, ss, symbols, io));
    }
  }

  lemma {:induction false} StatementKeeps(s: Snap, st: Stmt, symbols: map<string, SymbolEntry>, io: IOLabel)
    requires Ready(s, symbols) && Sound(s)
    ensures Keeps(s, LowerStatement(s, st, symbols, io))
    decreases Size(st), 4
  {
    match st
    case Assign(labelName, a) => AssignmentKeeps(s, labelName, a, symbols);
    case ForLoop(_, _, _, _, _) => ForKeeps(s, st, symbols, io);
    case WhileLoop(_, _, _) => WhileKeeps(s, st, symbols, io);
    case IfElse(_, _, _, _) => IfElseKeeps(s, st, symbols, io);
    case Goto(_, _, _) => GotoKeeps(s, st, symbols);
    case IO(_, _, _, _) =>
      if io == Spliced {
        IOKeeps(s, st, symbols);
      } else {
        EmitCodeKeeps(s, IOCode(st.kind, st.text, st.operand, ScopeOf(s, symbols), s.nextReg));
      }
  }

  /** A nested code block leaves the stack exactly as it found it. */
  lemma {:induction false} NestedKeeps(s: Snap, b: nat, ss: seq<Stmt>, exit: nat, symbols: map<string, SymbolEntry>, io: IOLabel)
    requires Ready(s, symbols) && Sound(s) && b < |s.blocks|
    ensures var r := Nested(s, b, ss, exit, symbols, io); Keeps(s, r) && r.stack == s.stack
    decreases SizeOfBlock(ss), 6
  {
    var s1 := Push(s, b);
    var s2 := LowerCodeBlock(s1, ss, symbols, io);
    CodeBlockKeeps(s1, ss, symbols, io);
    CloseArmKeeps(s2, exit);
    GrowsTrans(s, s2, Nested(s, b, ss, exit, symbols, io));
    assert s2.stack[..|s1.stack| - 1] == s.stack;
  }

  lemma {:induction false} IfElseKeeps(s: Snap, st: Stmt, symbols: map<string, SymbolEntry>, io: IOLabel)
    requires st.IfElse? && Ready(s, symbols) && Sound(s)
    ensures Keeps(s, LowerIfElse(s, st, symbols, io))
    decreases Size(st), 3
  {
    var s1 := Splice(s, st.labelName);
    SpliceKeeps(s, st.labelName);
    var t := Guard(s1, st.cond, symbols);
    var s2 := EmitCode(s1, t);
    EmitCodeKeeps(s1, t);
    KeepsTrans(s, s1, s2);
    IfBranchesKeeps(s2, t.value, st, symbols, io);
    KeepsTrans(s, s2, LowerIfElse(s, st, symbols, io));
  }

  /** Adding "ifBlock" and "mergeBlock". */
  lemma IfBlocksKeeps(s: Snap)
    requires Sound(s) && |s.stack| > 0
    ensures Keeps(s, AddBlock(AddBlock(s, "ifBlock"), "mergeBlock"))
  {
    AddBlockKeeps(s, "ifBlock");
    AddBlockKeeps(AddBlock(s, "ifBlock"), "mergeBlock");
    KeepsTrans(s, AddBlock(s, "ifBlock"), AddBlock(AddBlock(s, "ifBlock"), "mergeBlock"));
  }

  lemma {:induction false} IfBranchesKeeps(s: Snap, cond: Val, st: Stmt, symbols: map<string, SymbolEntry>, io: IOLabel)
    requires st.IfElse? && Ready(s, symbols) && Sound(s)
    ensures Keeps(s, IfBranches(s, cond, st, symbols, io))
    decreases Size(st), 2
  {
    var ifBlock := |s.blocks|;
    var s0 := AddBlock(AddBlock(s, "ifBlock"), "mergeBlock");
    IfBlocksKeeps(s);
    var s1 := Nested(s0, ifBlock, st.thenBody, ifBlock + 1, symbols, io);
    NestedKeeps(s0, ifBlock, st.thenBody, ifBlock + 1, symbols, io);
    KeepsTrans(s, s0, s1);
    JoinArmsKeeps(s1, Top(s), cond, ifBlock, st.elseBody, symbols, io);
    KeepsTrans(s, s1, IfBranches(s, cond, st, symbols, io));
  }

  lemma {:induction false} JoinArmsKeeps(s: Snap, entry: nat, cond: Val, ifBlock: nat, arm: ElseArm,
                                         symbols: map<string, SymbolEntry>, io: IOLabel)
    requires Ready(s, symbols) && Sound(s) && ifBlock + 1 < |s.blocks|
    ensures Keeps(s, JoinArms(s, entry, cond, ifBlock, arm, symbols, io))
    decreases SizeOfArm(arm), 7
  {
    match arm
    case NoElse =>
      BranchKeeps(s, entry, cond, ifBlock, ifBlock + 1);
    case Else(elseStmts) =>
      var elseBlock := |s.blocks|;
      var s0 := AddBlock(s, "elseBlock");
      AddBlockKeeps(s, "elseBlock");
      var s1 := Nested(s0, elseBlock, elseStmts, ifBlock + 1, symbols, io);
      NestedKeeps(s0, elseBlock, elseStmts, ifBlock + 1, symbols, io);
      KeepsTrans(s, s0, s1);
      BranchKeeps(s1, entry, cond, ifBlock, elseBlock);
      KeepsTrans(s, s1, JoinArms(s, entry, cond, ifBlock, arm, symbols, io));
  }

  /** The entry block's conditional branch, then lowering moves on to "mergeBlock". */
  lemma BranchKeeps(s: Snap, entry: nat, cond: Val, ifBlock: nat, orElse: nat)
    requires Sound(s) && |s.stack| > 0 && ifBlock + 1 < |s.blocks|
    ensures Keeps(s, SetTop(EmitAt(s, entry, [CondBr(cond, ifBlock, orElse)]), ifBlock + 1))
  {
    var s1 := EmitAt(s, entry, [CondBr(cond, ifBlock, orElse)]);
    EmitAtKeeps(s, entry, [CondBr(cond, ifBlock, orElse)]);
    SetTopKeeps(s1, ifBlock + 1);
    KeepsTrans(s, s1, SetTop(s1, ifBlock + 1));
  }

  lemma {:induction false} LoopBodyKeeps(s: Snap, header: nat, body: seq<Stmt>, symbols: map<string, SymbolEntry>, io: IOLabel)
    requires Ready(s, symbols) && Sound(s) && header + 2 < |s.blocks|
    ensures Keeps(s, LoopBody(s, header, body, symbols, io))
    decreases SizeOfBlock(body), 7
  {
    NestedKeeps(s, header + 1, body, header, symbols, io);
  }

  lemma {:induction false} WhileKeeps(s: Snap, st: Stmt, symbols: map<string, SymbolEntry>, io: IOLabel)
    requires st.WhileLoop? && Ready(s, symbols) && Sound(s)
    ensures Keeps(s, LowerWhile(s, st, symbols, io))
    decreases Size(st), 3
  {
    var s1 := Splice(s, st.labelName);
    SpliceKeeps(s, st.labelName);
    var s2 := WhileHeader(s1, st.cond, symbols);
    WhileHeaderKeeps(s1, st.cond, symbols);
    KeepsTrans(s, s1, s2);
    LoopBodyKeeps(s2, |s1.blocks|, st.body, symbols, io);
    KeepsTrans(s, s2, LowerWhile(s, st, symbols, io));
  }

  lemma {:induction false} ForKeeps(s: Snap, st: Stmt, symbols: map<string, SymbolEntry>, io: IOLabel)
    requires st.ForLoop? && Ready(s, symbols) && Sound(s)
    ensures Keeps(s, LowerFor(s, st, symbols, io))
    decreases Size(st), 3
  {
    var s1 := Splice(s, st.labelName);
    SpliceKeeps(s, st.labelName);
    var s2 := ForHeader(s1, st, symbols);
    ForHeaderKeeps(s1, st, symbols);
    KeepsTrans(s, s1, s2);
    SizeOfAppend(st.body, Increment(st.init.target.name));
    LoopBodyKeeps(s2, |s1.blocks|, ForBody(st), symbols, io);
    KeepsTrans(s, s2, LowerFor(s, st, symbols, io));
  }
}
