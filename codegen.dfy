/**
 * CodeGenVisitor: the code generator as the object that walks the tree and updates
 * its state in place.
 *
 * Its fields are the state the visits share: the blocks of `main` built so far, the
 * stack of blocks whose top is the current block, the blocks created for labels, the
 * global storage of declared names, the error counter and the next free register. Each
 * visit is proved to leave the object in exactly the state the corresponding function
 * of modules LowerExpr, LowerStmt and ProgramLowering describes.
 */
module CodeGen {
  import opened Wrappers
  import opened Ast
  import opened IR
  import opened LowerExpr
  import opened LowerStmt
  import opened ProgramLowering

  class CodeGenVisitor {
    var blocks: seq<Block>
    var stack: seq<nat>
    var labels: map<string, nat>
    var variables: map<string, GlobalCell>
    var errors: nat
    var nextReg: nat
    const symboltable: map<string, SymbolEntry>

    function Snapshot(): Snap
      reads this
    {
      Snap(blocks, stack, labels, variables, errors, nextReg)
    }

    /** Inside `main`, with a current block, and every name with storage is in the
        symbol table. */
    predicate Valid()
      reads this
    {
      Ready(Snapshot(), symboltable)
    }

    /** A visitor that has built nothing yet. */
    predicate Fresh()
      reads this
    {
      blocks == [] && stack == [] && labels == map[] && variables == map[] && errors == 0 && nextReg == 0
    }

    constructor (st: map<string, SymbolEntry>)
      ensures Fresh() && symboltable == st
    {
      symboltable := st;
      blocks := [];
      stack := [];
      labels := map[];
      variables := map[];
      errors := 0;
      nextReg := 0;
    }

    // -------------------------------------------------------------------------
    // Blocks and the block stack.
    // -------------------------------------------------------------------------

    /** currentBlock() */
    function CurrentBlock(): nat
      reads this
      requires |stack| > 0
    {
      stack[|stack| - 1]
    }

    method PushBlock(b: nat)
      modifies this
      ensures Snapshot() == Push(old(Snapshot()), b)
    {
      stack := stack + [b];
    }

    method PopBlock()
      requires |stack| > 0
      modifies this
      ensures Snapshot() == Pop(old(Snapshot()))
    {
      stack := stack[..|stack| - 1];
    }

    /** BasicBlock::Create: a new empty block at the end of `main`. */
    method CreateBlock(name: string) returns (b: nat)
      modifies this
      ensures Snapshot() == AddBlock(old(Snapshot()), name) && b == old(|blocks|)
    {
      b := |blocks|;
      blocks := blocks + [Block(name, [])];
    }

    /** The three blocks of a loop, "loop_header" first. */
    method CreateLoopBlocks() returns (header: nat)
      modifies this
      ensures Snapshot() == AddLoopBlocks(old(Snapshot())) && header == old(|blocks|)
    {
      header := CreateBlock("loop_header");
      var body := CreateBlock("loop_body");
      var after := CreateBlock("after_loop");
    }

    /** Instructions created at the end of block `b`. */
    method Append(b: nat, code: seq<Instr>)
      modifies this
      ensures blocks == AppendTo(old(blocks), b, code)
      ensures errors == old(errors) && nextReg == old(nextReg)
      ensures stack == old(stack) && labels == old(labels) && variables == old(variables)
    {
      blocks := AppendTo(blocks, b, code);
    }

    /** Instructions defining the next `defs` registers, created in the current block;
        `v` is the last register they define. */
    method EmitDefs(code: seq<Instr>, defs: nat) returns (v: Val)
      requires |stack| > 0 && defs > 0
      modifies this
      ensures v == Reg(old(nextReg) + defs - 1)
      ensures blocks == AppendTo(old(blocks), old(CurrentBlock()), code) && nextReg == old(nextReg) + defs
      ensures errors == old(errors) && stack == old(stack) && labels == old(labels) && variables == old(variables)
    {
      blocks := AppendTo(blocks, CurrentBlock(), code);
      v := Reg(nextReg + defs - 1);
      nextReg := nextReg + defs;
    }

    /** The block of a label, created on first use. */
    method LabelBlock(name: string) returns (b: nat)
      modifies this
      ensures Snapshot() == WithLabel(old(Snapshot()), name) && name in labels && b == labels[name]
    {
      if name in labels {
        b := labels[name];
      } else {
        b := |blocks|;
        blocks := blocks + [Block(name, [])];
        labels := labels[name := b];
      }
    }

    /** checkLabel */
    method CheckLabel(name: string)
      requires Valid()
      modifies this
      ensures Snapshot() == Splice(old(Snapshot()), name)
    {
      if name != "" {
        var b := LabelBlock(name);
        Append(CurrentBlock(), [Br(b)]);
        PopBlock();
        PushBlock(b);
      }
    }

    // -------------------------------------------------------------------------
    // Expressions.
    // -------------------------------------------------------------------------

    // The expression visits append the code of modules LowerExpr to the current block,
    // count its errors, use its registers and return its value; they change nothing else.

    /** visit(ASTMathExpr) and visit(ASTInteger). */
    method VisitMath(e: MathExpr) returns (v: Val)
      requires Valid()
      modifies this
      ensures var c := LowerMath(e, Scope(old(variables).Keys, symboltable), old(nextReg));
        && blocks == AppendTo(old(blocks), old(CurrentBlock()), c.code) && v == c.value
        && errors == old(errors) + c.errors && nextReg == c.nextReg
        && stack == old(stack) && labels == old(labels) && variables == old(variables)
      decreases e, 1
    {
      ghost var b0 := blocks;
      ghost var sc := Scope(variables.Keys, symboltable);
      match e
      case IntLit(n) =>
        AppendNothing(b0, CurrentBlock());
        v := ConstInt(n);
      case Var(t) =>
        v := VisitTarget(t);
      case Arith(op, l, r) =>
        var lval := VisitOperand(l);
        ghost var lc := LowerOperand(l, sc, old(nextReg));
        var rval := VisitOperand(r);
        ghost var rc := LowerOperand(r, sc, lc.nextReg);
        AppendThen(b0, CurrentBlock(), lc.code, rc.code);
        if op == Noop {
          v := rval;
        } else {
          var lhs := if op == Usub then ConstInt(-1) else lval;
          var instr := BinOp(nextReg, OperationKind(op), lhs, rval);
          v := EmitDefs([instr], 1);
          AppendThen(b0, CurrentBlock(), lc.code + rc.code, [instr]);
        }
    }

    /** An operand that may be absent. */
    method VisitOperand(o: Option<MathExpr>) returns (v: Val)
      requires Valid()
      modifies this
      ensures var c := LowerOperand(o, Scope(old(variables).Keys, symboltable), old(nextReg));
        && blocks == AppendTo(old(blocks), old(CurrentBlock()), c.code) && v == c.value
        && errors == old(errors) + c.errors && nextReg == c.nextReg
        && stack == old(stack) && labels == old(labels) && variables == old(variables)
      decreases o, 2
    {
      if o.Some? {
        v := VisitMath(o.value);
      } else {
        AppendNothing(blocks, CurrentBlock());
        v := Null;
      }
    }

    /** visit(ASTTargetVar). */
    method VisitTarget(t: TargetVar) returns (v: Val)
      requires Valid()
      modifies this
      ensures var c := LowerTarget(t, Scope(old(variables).Keys, symboltable), old(nextReg));
        && blocks == AppendTo(old(blocks), old(CurrentBlock()), c.code) && v == c.value
        && errors == old(errors) + c.errors && nextReg == c.nextReg
        && stack == old(stack) && labels == old(labels) && variables == old(variables)
      decreases t, 0
    {
      ghost var b0 := blocks;
      ghost var sc := Scope(variables.Keys, symboltable);
      AppendNothing(b0, CurrentBlock());
      if t.name !in variables {
        errors := errors + 1;
        return Null;
      }
      var location: Val;
      ghost var code: seq<Instr>;
      if t.index.Some? {
        if !symboltable[t.name].isArray {
          errors := errors + 1;
          return Null;
        }
        location := ElementAddress(t.name, t.index.value);
        ghost var ic := LowerMath(t.index.value, sc, old(nextReg));
        code := ic.code + [ElemAddr(ic.nextReg, Global(t.name), ic.value)];
      } else {
        if symboltable[t.name].isArray {
          errors := errors + 1;
          return Null;
        }
        location := Global(t.name);
        code := [];
      }
      if !t.isTarget {
        var load := Load(nextReg, location);
        v := EmitDefs([load], 1);
        AppendThen(b0, CurrentBlock(), code, [load]);
      } else {
        v := location;
      }
    }

    /** The address of element `index` of array `name`. */
    method ElementAddress(name: string, index: MathExpr) returns (location: Val)
      requires Valid()
      modifies this
      ensures var ic := LowerMath(index, Scope(old(variables).Keys, symboltable), old(nextReg));
        && blocks == AppendTo(old(blocks), old(CurrentBlock()), ic.code + [ElemAddr(ic.nextReg, Global(name), ic.value)])
        && location == Reg(ic.nextReg) && errors == old(errors) + ic.errors && nextReg == ic.nextReg + 1
        && stack == old(stack) && labels == old(labels) && variables == old(variables)
      decreases index, 2
    {
      ghost var b0 := blocks;
      var i := VisitMath(index);
      ghost var ic := LowerMath(index, Scope(old(variables).Keys, symboltable), old(nextReg));
      var addr := ElemAddr(nextReg, Global(name), i);
      location := EmitDefs([addr], 1);
      AppendThen(b0, CurrentBlock(), ic.code, [addr]);
    }

    /** visit(ASTCondExpr). */
    method VisitCond(c: CondExpr) returns (v: Val)
      requires Valid()
      modifies this
      ensures var r := LowerCond(c, Scope(old(variables).Keys, symboltable), old(nextReg));
        && blocks == AppendTo(old(blocks), old(CurrentBlock()), r.code) && v == r.value
        && errors == old(errors) + r.errors && nextReg == r.nextReg
        && stack == old(stack) && labels == old(labels) && variables == old(variables)
    {
      ghost var b0 := blocks;
      ghost var sc := Scope(variables.Keys, symboltable);
      var lval := VisitMath(c.left);
      ghost var lc := LowerMath(c.left, sc, old(nextReg));
      var rval := VisitMath(c.right);
      ghost var rc := LowerMath(c.right, sc, lc.nextReg);
      AppendThen(b0, CurrentBlock(), lc.code, rc.code);
      var tail := [ICmp(nextReg, PredicateOf(c.cmp), lval, rval), ZExt(nextReg + 1, Reg(nextReg))];
      v := EmitDefs(tail, 2);
      AppendThen(b0, CurrentBlock(), lc.code + rc.code, tail);
      LowerCondSteps(c, sc, old(nextReg));
    }

    /** A condition, then `icmp ne` of its value and 0, in the current block. */
    method TestCondition(c: CondExpr) returns (v: Val)
      requires Valid()
      modifies this
      ensures var t := Guard(old(Snapshot()), c, symboltable);
        Snapshot() == EmitCode(old(Snapshot()), t) && v == t.value
    {
      ghost var b0 := blocks;
      var cond := VisitCond(c);
      ghost var cc := LowerCond(c, Scope(old(variables).Keys, symboltable), old(nextReg));
      var cmp := ICmp(nextReg, NE, cond, ConstInt(0));
      v := EmitDefs([cmp], 1);
      AppendThen(b0, CurrentBlock(), cc.code, [cmp]);
    }

    // -------------------------------------------------------------------------
    // Statements.
    // -------------------------------------------------------------------------

    /** visit(ASTAssignment). */
    method VisitAssignment(labelName: string, a: Assignment)
      requires Valid()
      modifies this
      ensures Snapshot() == LowerAssignment(old(Snapshot()), labelName, a, symboltable)
    {
      if a.target.name !in variables {
        errors := errors + 1;
        return;
      }
      CheckLabel(labelName);
      ghost var s1 := Snapshot();
      StoreValue(a);
      EmitCodeFields(s1, AssignmentCode(a, ScopeOf(s1, symboltable), s1.nextReg), Snapshot());
    }

    /** The rest of visit(ASTAssignment): the target's address, the right-hand side and,
        when the address is not null, the store. */
    method StoreValue(a: Assignment)
      requires Valid()
      modifies this
      ensures var c := AssignmentCode(a, Scope(old(variables).Keys, symboltable), old(nextReg));
        && blocks == AppendTo(old(blocks), old(CurrentBlock()), c.code)
        && errors == old(errors) + c.errors && nextReg == c.nextReg
        && stack == old(stack) && labels == old(labels) && variables == old(variables)
    {
      ghost var b0 := blocks;
      ghost var sc := Scope(variables.Keys, symboltable);
      var location := VisitTarget(a.target);
      ghost var tc := LowerTarget(a.target, sc, old(nextReg));
      var expr := VisitMath(a.rhs);
      ghost var rc := LowerMath(a.rhs, sc, tc.nextReg);
      AppendThen(b0, CurrentBlock(), tc.code, rc.code);
      var store := if location == Null then [] else [Store(expr, location)];
      if location != Null {
        Append(CurrentBlock(), store);
      } else {
        AppendNothing(blocks, CurrentBlock());
      }
      AppendThen(b0, CurrentBlock(), tc.code + rc.code, store);
    }

    /** visit(ASTIOBlock): unlike the other statement visits, it does not splice in the
        statement's label (see LowerIOAsWritten). */
    method VisitIO(st: Stmt)
      requires st.IO? && Valid()
      modifies this
      ensures Snapshot() == LowerIOAsWritten(old(Snapshot()), st, symboltable)
    {
      ghost var s1 := Snapshot();
      CallIO(st.kind, st.text, st.operand);
      EmitCodeFields(s1, IOCode(st.kind, st.text, st.operand, ScopeOf(s1, symboltable), s1.nextReg), Snapshot());
    }

    /** The rest of visit(ASTIOBlock): the operand, if any, then the call to scanf or
        printf with the format built from the statement's text. */
    method CallIO(kind: IOKind, text: string, operand: Option<MathExpr>)
      requires Valid()
      modifies this
      ensures var c := IOCode(kind, text, operand, Scope(old(variables).Keys, symboltable), old(nextReg));
        && blocks == AppendTo(old(blocks), old(CurrentBlock()), c.code)
        && errors == old(errors) + c.errors && nextReg == c.nextReg
        && stack == old(stack) && labels == old(labels) && variables == old(variables)
    {
      ghost var b0 := blocks;
      var val := VisitOperand(operand);
      ghost var c := LowerOperand(operand, Scope(old(variables).Keys, symboltable), old(nextReg));
      var format := IOFormat(kind, text, operand.Some?);
      var call := [];
      if format != [] {
        var callee := if kind == Read then Scanf else Printf;
        var args := if operand.Some? then [val] else [];
        call := [Call(callee, format, args)];
        Append(CurrentBlock(), call);
      } else {
        AppendNothing(blocks, CurrentBlock());
      }
      AppendThen(b0, CurrentBlock(), c.code, call);
    }

    /** The jump of a goto that leaves the current block (see Divert). */
    method Jump(target: string, guard: Option<Val>)
      requires Valid()
      modifies this
      ensures Snapshot() == Divert(old(Snapshot()), target, guard)
    {
      var jumpBlock := LabelBlock(target);
      var noJumpBlock := CreateBlock("noJumpBlock");
      var branch := if guard.Some? then CondBr(guard.value, jumpBlock, noJumpBlock) else Br(jumpBlock);
      Append(CurrentBlock(), [branch]);
      PopBlock();
      PushBlock(noJumpBlock);
    }

    /** visit(ASTGotoBlock). */
    method VisitGoto(st: Stmt)
      requires st.Goto? && Valid()
      modifies this
      ensures Snapshot() == LowerGoto(old(Snapshot()), st, symboltable)
    {
      CheckLabel(st.labelName);
      if st.guard.Some? {
        var comparison := TestCondition(st.guard.value);
        if st.targetLabel in symboltable {
          Jump(st.targetLabel, Some(comparison));
        }
      } else if st.targetLabel in symboltable {
        if st.targetLabel in labels {
          Append(CurrentBlock(), [Br(labels[st.targetLabel])]);
        } else {
          Jump(st.targetLabel, None);
        }
      }
    }

    /** Pops the block a nested code block ended in and, unless it already has a
        terminator, branches from it to `target` (see CloseArm). */
    method CloseBlock(target: nat)
      requires |stack| > 0
      modifies this
      ensures Snapshot() == CloseArm(old(Snapshot()), target)
    {
      var returnedBlock := CurrentBlock();
      PopBlock();
      if !HasTerminator(blocks, returnedBlock) {
        Append(returnedBlock, [Br(target)]);
      }
    }

    /** A nested code block lowered in block `b` (see Nested). */
    method VisitNested(b: nat, ss: seq<Stmt>, exit: nat)
      requires variables.Keys <= symboltable.Keys
      modifies this
      ensures Snapshot() == Nested(old(Snapshot()), b, ss, exit, symboltable, Ignored)
      decreases SizeOfBlock(ss), 6
    {
      PushBlock(b);
      VisitCodeBlock(ss);
      CloseBlock(exit);
    }

    /** visit(ASTIfElse). */
    method VisitIfElse(st: Stmt)
      requires st.IfElse? && Valid()
      modifies this
      ensures Snapshot() == LowerIfElse(old(Snapshot()), st, symboltable, Ignored)
      decreases Size(st), 3
    {
      CheckLabel(st.labelName);
      var comparison := TestCondition(st.cond);
      VisitArms(comparison, st);
    }

    /** The arms of an if statement, from its entry block (see IfBranches). */
    method VisitArms(comparison: Val, st: Stmt)
      requires st.IfElse? && Valid()
      modifies this
      ensures Snapshot() == IfBranches(old(Snapshot()), comparison, st, symboltable, Ignored)
      decreases Size(st), 2
    {
      var entryBlock := CurrentBlock();
      var ifBlock := CreateBlock("ifBlock");
      var mergeBlock := CreateBlock("mergeBlock");
      VisitNested(ifBlock, st.thenBody, mergeBlock);
      VisitElse(entryBlock, comparison, ifBlock, st.elseBody);
    }

    /** The else-arm, if any, and the entry block's branch (see JoinArms). */
    method VisitElse(entryBlock: nat, comparison: Val, ifBlock: nat, arm: ElseArm)
      requires Valid()
      modifies this
      ensures Snapshot() == JoinArms(old(Snapshot()), entryBlock, comparison, ifBlock, arm, symboltable, Ignored)
      decreases SizeOfArm(arm), 7
    {
      var mergeBlock := ifBlock + 1;
      if arm.Else? {
        var elseBlock := CreateBlock("elseBlock");
        VisitNested(elseBlock, arm.stmts, mergeBlock);
        Append(entryBlock, [CondBr(comparison, ifBlock, elseBlock)]);
      } else {
        Append(entryBlock, [CondBr(comparison, ifBlock, mergeBlock)]);
      }
      PopBlock();
      PushBlock(mergeBlock);
    }

    /** A loop body lowered in `header + 1`, then lowering continues in `header + 2`
        (see LoopBody). */
    method VisitLoopBody(header: nat, body: seq<Stmt>)
      requires Valid()
      modifies this
      ensures Snapshot() == LoopBody(old(Snapshot()), header, body, symboltable, Ignored)
      decreases SizeOfBlock(body), 7
    {
      VisitNested(header + 1, body, header);
      PopBlock();
      PushBlock(header + 2);
    }

    /** visit(ASTWhileLoop). */
    method VisitWhile(st: Stmt)
      requires st.WhileLoop? && Valid()
      modifies this
      ensures Snapshot() == LowerWhile(old(Snapshot()), st, symboltable, Ignored)
      decreases Size(st), 3
    {
      CheckLabel(st.labelName);
      var headerBlock := |blocks|;
      WhileHead(st.cond);
      VisitLoopBody(headerBlock, st.body);
    }

    /** The loop blocks, the condition in the header and the branches into and out of it
        (see WhileHeader). */
    method WhileHead(c: CondExpr)
      requires Valid()
      modifies this
      ensures Snapshot() == WhileHeader(old(Snapshot()), c, symboltable)
    {
      var entryBlock := CurrentBlock();
      var headerBlock := CreateLoopBlocks();
      PushBlock(headerBlock);
      var comparison := TestCondition(c);
      PopBlock();
      Append(headerBlock, [CondBr(comparison, headerBlock + 1, headerBlock + 2)]);
      Append(entryBlock, [Br(headerBlock)]);
    }

    /** visit(ASTForLoop). */
    method VisitFor(st: Stmt)
      requires st.ForLoop? && Valid()
      modifies this
      ensures Snapshot() == LowerFor(old(Snapshot()), st, symboltable, Ignored)
      decreases Size(st), 3
    {
      CheckLabel(st.labelName);
      var headerBlock := |blocks|;
      ForHead(st);
      var statements := st.body + [Increment(st.init.target.name)];
      SizeOfAppend(st.body, Increment(st.init.target.name));
      VisitLoopBody(headerBlock, statements);
    }

    /** The loop blocks, the initial assignment and the bound in the entry block, and the
        header's test (see ForHeader). */
    method ForHead(st: Stmt)
      requires st.ForLoop? && Valid()
      modifies this
      ensures Snapshot() == ForHeader(old(Snapshot()), st, symboltable)
    {
      var entryBlock := CurrentBlock();
      var headerBlock := CreateLoopBlocks();
      VisitAssignment("", st.init);
      ghost var s3 := Snapshot();
      var endVal := VisitMath(st.bound);
      EmitCodeFields(s3, LowerMath(st.bound, ScopeOf(s3, symboltable), s3.nextReg), Snapshot());
      LoopTest(entryBlock, headerBlock, st.init.target.name, endVal);
    }

    /** The for loop's header tests the iterator against the bound; the entry block
        branches to the header (see ForEntry). */
    method LoopTest(entryBlock: nat, headerBlock: nat, name: string, endVal: Val)
      modifies this
      ensures Snapshot() == ForEntry(old(Snapshot()), entryBlock, headerBlock, name, endVal)
    {
      var counter := if name in variables then Global(name) else Null;
      var d := nextReg;
      nextReg := d + 2;
      Append(headerBlock, [Load(d, counter), ICmp(d + 1, SLT, Reg(d), endVal), CondBr(Reg(d + 1), headerBlock + 1, headerBlock + 2)]);
      Append(entryBlock, [Br(headerBlock)]);
    }

    /** ASTCodeStatement::codegen: the visit for the statement's kind. */
    method VisitStatement(st: Stmt)
      requires Valid()
      modifies this
      ensures Snapshot() == LowerStatement(old(Snapshot()), st, symboltable, Ignored)
      decreases Size(st), 4
    {
      match st
      case Assign(labelName, a) => VisitAssignment(labelName, a);
      case ForLoop(_, _, _, _, _) => VisitFor(st);
      case WhileLoop(_, _, _) => VisitWhile(st);
      case IfElse(_, _, _, _) => VisitIfElse(st);
      case Goto(_, _, _) => VisitGoto(st);
      case IO(_, _, _, _) => VisitIO(st);
    }

    /** visit(ASTCodeBlock). */
    method VisitCodeBlock(ss: seq<Stmt>)
      requires Valid()
      modifies this
      ensures Snapshot() == LowerCodeBlock(old(Snapshot()), ss, symboltable, Ignored)
      decreases SizeOfBlock(ss), 5
    {
      ghost var s0 := Snapshot();
      for i := 0 to |ss|
        invariant Snapshot() == LowerCodeBlock(s0, ss[..i], symboltable, Ignored)
      {
        SizeOfElement(ss, i);
        assert ss[..i + 1][..i] == ss[..i];
        VisitStatement(ss[i]);
      }
      assert ss[..|ss|] == ss;
    }

    // -------------------------------------------------------------------------
    // Declarations and the program.
    // -------------------------------------------------------------------------

    /** visit(ASTVariable). */
    method VisitVariable(v: VarDecl)
      modifies this
      ensures Snapshot() == DeclareVariable(old(Snapshot()), v)
    {
      if v.name in variables {
        errors := errors + 1;
        return;
      }
      if v.isArray {
        if v.length < 1 {
          errors := errors + 1;
          return;
        }
        variables := variables[v.name := ArrayCell(seq(v.length, _ => 0))];
      } else {
        variables := variables[v.name := ScalarCell(0)];
      }
    }

    /** visit(ASTDeclStatement). */
    method VisitDeclStatement(vs: seq<VarDecl>)
      modifies this
      ensures Snapshot() == DeclareLine(old(Snapshot()), vs)
    {
      ghost var s0 := Snapshot();
      for i := 0 to |vs|
        invariant Snapshot() == DeclareLine(s0, vs[..i])
      {
        assert vs[..i + 1][..i] == vs[..i];
        VisitVariable(vs[i]);
      }
      assert vs[..|vs|] == vs;
    }

    /** visit(ASTDeclBlock). */
    method VisitDeclBlock(lines: seq<seq<VarDecl>>)
      modifies this
      ensures Snapshot() == DeclareBlock(old(Snapshot()), lines)
    {
      ghost var s0 := Snapshot();
      for i := 0 to |lines|
        invariant Snapshot() == DeclareBlock(s0, lines[..i])
      {
        assert lines[..i + 1][..i] == lines[..i];
        VisitDeclStatement(lines[i]);
      }
      assert lines[..|lines|] == lines;
    }

    /** visit(ASTProgram). */
    method VisitProgram(p: Program)
      requires Valid() && DeclaredIn(p, symboltable)
      modifies this
      ensures Snapshot() == LowerProgram(old(Snapshot()), p, symboltable, Ignored)
    {
      ghost var s0 := Snapshot();
      if p.declBlock.Some? {
        VisitDeclBlock(p.declBlock.value);
        DeclaredKeys(s0, p.declBlock.value, symboltable);
      }
      if p.codeBlock.Some? {
        VisitCodeBlock(p.codeBlock.value);
      }
    }

    /** generateCode: `None` stands for the exit taken when errors were counted. */
    method GenerateCode(p: Program) returns (m: Option<Module>)
      requires Fresh() && DeclaredIn(p, symboltable)
      modifies this
      ensures m == Generate(p, symboltable, Ignored)
    {
      blocks := [Block("entry", [])];
      PushBlock(0);
      assert Snapshot() == Initial();
      VisitProgram(p);
      if errors > 0 {
        return None;
      }
      var bblock := CurrentBlock();
      PopBlock();
      Append(bblock, [Ret]);
      m := Some(Module(variables, blocks));
    }
  }
}
