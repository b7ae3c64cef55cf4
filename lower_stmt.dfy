/**
 * Lowering of code statements, as a function of the code generator's state.
 *
 * `Snap` is everything CodeGenVisitor updates while it walks the code block: the
 * function's basic blocks, the block stack, the label-to-block map, the storage
 * declared so far, the error counter and the next free register. Each visit becomes a
 * function from the state before the statement to the state after it; the class in
 * module CodeGen performs the same steps in place and is proved to agree.
 */
module LowerStmt {
  import opened Wrappers
  import opened Ast
  import opened IR
  import opened LowerExpr

  datatype Snap = Snap(
    blocks: seq<Block>,
    stack: seq<nat>,
    labels: map<string, nat>,
    variables: map<string, GlobalCell>,
    errors: nat,
    nextReg: nat)

  /** currentBlock(): the block on top of the stack. */
  function Top(s: Snap): (b: nat)
    requires |s.stack| > 0
  {
    s.stack[|s.stack| - 1]
  }

  /** Every block the stack and the label map name exists. */
  predicate Sound(s: Snap) {
    && (forall i | 0 <= i < |s.stack| :: s.stack[i] < |s.blocks|)
    && (forall l | l in s.labels :: s.labels[l] < |s.blocks|)
  }

  /** A state the visitor can continue from: there is a current block, and every name
      with storage is in the symbol table. */
  predicate Ready(s: Snap, symbols: map<string, SymbolEntry>) {
    |s.stack| > 0 && s.variables.Keys <= symbols.Keys
  }

  /** What lowering a statement keeps: the stack depth and the declared storage. */
  predicate Follows(s: Snap, r: Snap) {
    |r.stack| == |s.stack| && r.variables == s.variables
  }

  function ScopeOf(s: Snap, symbols: map<string, SymbolEntry>): (sc: Scope)
    requires Ready(s, symbols)
    ensures ScopeOk(sc)
  {
    Scope(s.variables.Keys, symbols)
  }

  // ---------------------------------------------------------------------------
  // Single steps of the visitor.
  // ---------------------------------------------------------------------------

  function EmitAt(s: Snap, b: nat, code: seq<Instr>): (r: Snap)
  {
    s.(blocks := AppendTo(s.blocks, b, code))
  }

  /** Appends lowered expression code to the current block and accounts for its
      errors and registers. */
  function EmitCode(s: Snap, c: ExprCode): (r: Snap)
    requires |s.stack| > 0
  {
    s.(blocks := AppendTo(s.blocks, Top(s), c.code), errors := s.errors + c.errors, nextReg := c.nextReg)
  }

  /** A state that differs from `s` only by code `c` emitted in the current block. */
  lemma EmitCodeFields(s: Snap, c: ExprCode, r: Snap)
    requires |s.stack| > 0
    requires r.blocks == AppendTo(s.blocks, Top(s), c.code) && r.errors == s.errors + c.errors && r.nextReg == c.nextReg
    requires r.stack == s.stack && r.labels == s.labels && r.variables == s.variables
    ensures r == EmitCode(s, c)
  {
  }

  function AddBlock(s: Snap, name: string): (r: Snap)
  {
    s.(blocks := s.blocks + [Block(name, [])])
  }

  function Push(s: Snap, b: nat): (r: Snap)
  {
    s.(stack := s.stack + [b])
  }

  function Pop(s: Snap): (r: Snap)
    requires |s.stack| > 0
  {
    s.(stack := s.stack[..|s.stack| - 1])
  }

  /** popBlock() followed by pushBlock(b). */
  function SetTop(s: Snap, b: nat): (r: Snap)
    requires |s.stack| > 0
  {
    Push(Pop(s), b)
  }

  /** The label's block, created (empty, named after the label) on first use. */
  function WithLabel(s: Snap, name: string): (r: Snap)
  {
    if name in s.labels then s
    else
      AddBlock(s, name).(labels := s.labels[name := |s.blocks|])
  }

  /** checkLabel: a labelled statement branches from the current block to its label's
      block, which becomes the current block; an unlabelled one changes nothing. */
  function Splice(s: Snap, name: string): (r: Snap)
    requires |s.stack| > 0
    ensures Follows(s, r) && r.errors == s.errors && r.nextReg == s.nextReg
  {
    if name == "" then s
    else
      var s1 := WithLabel(s, name);
      SetTop(EmitAt(s1, Top(s1), [Br(s1.labels[name])]), s1.labels[name])
  }

  /** After a nested code block: pop the block it ended in and, unless that block
      already ends in a terminator, branch from it to `target`. */
  function CloseArm(s: Snap, target: nat): (r: Snap)
    requires |s.stack| > 0
    ensures r.stack == s.stack[..|s.stack| - 1] && |r.blocks| == |s.blocks|
    ensures r.labels == s.labels && r.variables == s.variables && r.errors == s.errors && r.nextReg == s.nextReg
  {
    var last := Top(s);
    if HasTerminator(s.blocks, last) then Pop(s) else EmitAt(Pop(s), last, [Br(target)])
  }

  /** A nested code block lowered in block `b`: push `b`, lower the statements, then
      pop and close the block lowering ended in with a branch to `exit`. */
  function Nested(s: Snap, b: nat, ss: seq<Stmt>, exit: nat, symbols: map<string, SymbolEntry>, io: IOLabel): (r: Snap)
    requires s.variables.Keys <= symbols.Keys
    ensures Follows(s, r)
    decreases SizeOfBlock(ss), 6
  {
    var s1 := Push(s, b);
    CloseArm(LowerCodeBlock(s1, ss, symbols, io), exit)
  }

  /** A goto that leaves the current block: branch (on `guard`, if present) to the
      label's block, created if needed, else to a new "noJumpBlock", where lowering
      continues. */
  function Divert(s: Snap, target: string, guard: Option<Val>): (r: Snap)
    requires |s.stack| > 0
    ensures Follows(s, r) && r.errors == s.errors && r.nextReg == s.nextReg
  {
    var s1 := WithLabel(s, target);
    var noJump := |s1.blocks|;
    var s2 := AddBlock(s1, "noJumpBlock");
    var branch := if guard.Some? then CondBr(guard.value, s1.labels[target], noJump) else Br(s1.labels[target]);
    SetTop(EmitAt(s2, Top(s2), [branch]), noJump)
  }

  /** The statement the for loop appends to its body: `i = i + 1` for its iterator. */
  function Increment(name: string): Stmt {
    Assign("", Assignment(TargetVar(name, None, Noop, true),
                          Arith(Add, Some(Var(TargetVar(name, None, Noop, false))), Some(IntLit(1)))))
  }

  function ForBody(st: Stmt): seq<Stmt>
    requires st.ForLoop?
  {
    st.body + [Increment(st.init.target.name)]
  }

  // ---------------------------------------------------------------------------
  // The visits.
  // ---------------------------------------------------------------------------

  /** visit(ASTAssignment): an undeclared target only counts an error; otherwise the
      label is spliced in and the assignment's code goes to the current block. */
  function LowerAssignment(s: Snap, labelName: string, a: Assignment, symbols: map<string, SymbolEntry>): (r: Snap)
    requires Ready(s, symbols)
    ensures Follows(s, r)
  {
    if a.target.name !in s.variables then s.(errors := s.errors + 1)
    else
      var s1 := Splice(s, labelName);
      EmitCode(s1, AssignmentCode(a, ScopeOf(s1, symbols), s1.nextReg))
  }

  /** visit(ASTIOBlock) as written: the statement's label is not spliced in. */
  function LowerIOAsWritten(s: Snap, st: Stmt, symbols: map<string, SymbolEntry>): (r: Snap)
    requires st.IO? && Ready(s, symbols)
    ensures Follows(s, r)
  {
    EmitCode(s, IOCode(st.kind, st.text, st.operand, ScopeOf(s, symbols), s.nextReg))
  }

  /** visit(ASTIOBlock) with the label spliced in like every other statement. */
  function LowerIO(s: Snap, st: Stmt, symbols: map<string, SymbolEntry>): (r: Snap)
    requires st.IO? && Ready(s, symbols)
    ensures Follows(s, r)
  {
    var s1 := Splice(s, st.labelName);
    EmitCode(s1, IOCode(st.kind, st.text, st.operand, ScopeOf(s1, symbols), s1.nextReg))
  }

  /** How an I/O statement's label is treated: `Ignored` is visit(ASTIOBlock) as the
      generator has it, `Spliced` the visit that splices the label in like every other
      statement does. */
  datatype IOLabel = Ignored | Spliced

  /** visit(ASTIOBlock) under the given treatment of its label. */
  function LowerIOBy(s: Snap, st: Stmt, symbols: map<string, SymbolEntry>, io: IOLabel): (r: Snap)
    requires st.IO? && Ready(s, symbols)
    ensures Follows(s, r)
  {
    if io == Spliced then LowerIO(s, st, symbols) else LowerIOAsWritten(s, st, symbols)
  }

  /** The condition's code followed by `icmp ne cond, 0` into register `c.nextReg`. */
  function Truth(c: ExprCode): ExprCode {
    ExprCode(c.code + [ICmp(c.nextReg, NE, c.value, ConstInt(0))], Reg(c.nextReg), c.errors, c.nextReg + 1)
  }

  /** visit(ASTGotoBlock). */
  function LowerGoto(s: Snap, st: Stmt, symbols: map<string, SymbolEntry>): (r: Snap)
    requires st.Goto? && Ready(s, symbols)
    ensures Follows(s, r)
  {
    var s1 := Splice(s, st.labelName);
    var target := st.targetLabel;
    if st.guard.Some? then
      var t := Guard(s1, st.guard.value, symbols);
      var s2 := EmitCode(s1, t);
      if target in symbols then Divert(s2, target, Some(t.value)) else s2
    else if target in symbols then
      if target in s1.labels then EmitAt(s1, Top(s1), [Br(s1.labels[target])])
      else Divert(s1, target, None)
    else s1
  }

  /** A condition lowered at the end of the current block and compared with 0. */
  function Guard(s: Snap, c: CondExpr, symbols: map<string, SymbolEntry>): (t: ExprCode)
    requires Ready(s, symbols)
    ensures s.nextReg <= t.nextReg
  {
    Truth(LowerCond(c, ScopeOf(s, symbols), s.nextReg))
  }

  /** visit(ASTIfElse): the label, then the condition in the entry block, then the arms. */
  function LowerIfElse(s: Snap, st: Stmt, symbols: map<string, SymbolEntry>, io: IOLabel): (r: Snap)
    requires st.IfElse? && Ready(s, symbols)
    ensures Follows(s, r)
    decreases Size(st), 3
  {
    var s1 := Splice(s, st.labelName);
    var t := Guard(s1, st.cond, symbols);
    IfBranches(EmitCode(s1, t), t.value, st, symbols, io)
  }

  /** The arms of an if statement, lowered from its entry block (the current block):
      "ifBlock" and "mergeBlock" are created, the then-arm is lowered in "ifBlock", the
      else-arm (if any) in a new "elseBlock", and the entry block branches on `cond`. */
  function IfBranches(s: Snap, cond: Val, st: Stmt, symbols: map<string, SymbolEntry>, io: IOLabel): (r: Snap)
    requires st.IfElse? && Ready(s, symbols)
    ensures Follows(s, r)
    decreases Size(st), 2
  {
    var ifBlock := |s.blocks|;
    var s1 := Nested(AddBlock(AddBlock(s, "ifBlock"), "mergeBlock"), ifBlock, st.thenBody, ifBlock + 1, symbols, io);
    JoinArms(s1, Top(s), cond, ifBlock, st.elseBody, symbols, io)
  }

  /** After the then-arm: the else-arm, if any, is lowered in a new "elseBlock"; the entry
      block branches on `cond` to "ifBlock" or to the else or merge block; lowering
      continues in "mergeBlock" (`ifBlock + 1`). */
  function JoinArms(s: Snap, entry: nat, cond: Val, ifBlock: nat, arm: ElseArm,
                    symbols: map<string, SymbolEntry>, io: IOLabel): (r: Snap)
    requires Ready(s, symbols)
    ensures Follows(s, r)
    decreases SizeOfArm(arm), 7
  {
    match arm
    case NoElse => SetTop(EmitAt(s, entry, [CondBr(cond, ifBlock, ifBlock + 1)]), ifBlock + 1)
    case Else(elseStmts) =>
      var elseBlock := |s.blocks|;
      var s1 := Nested(AddBlock(s, "elseBlock"), elseBlock, elseStmts, ifBlock + 1, symbols, io);
      SetTop(EmitAt(s1, entry, [CondBr(cond, ifBlock, elseBlock)]), ifBlock + 1)
  }

  /** The three blocks of a loop, created in this order. */
  function AddLoopBlocks(s: Snap): (r: Snap)
  {
    AddBlock(AddBlock(AddBlock(s, "loop_header"), "loop_body"), "after_loop")
  }

  /** The body of a loop whose header is block `header`: lowered in `header + 1`, closed
      with a branch back to the header; lowering continues in `header + 2`. */
  function LoopBody(s: Snap, header: nat, body: seq<Stmt>, symbols: map<string, SymbolEntry>, io: IOLabel): (r: Snap)
    requires Ready(s, symbols)
    ensures Follows(s, r)
    decreases SizeOfBlock(body), 7
  {
    SetTop(Nested(s, header + 1, body, header, symbols, io), header + 2)
  }

  /** visit(ASTWhileLoop). */
  function LowerWhile(s: Snap, st: Stmt, symbols: map<string, SymbolEntry>, io: IOLabel): (r: Snap)
    requires st.WhileLoop? && Ready(s, symbols)
    ensures Follows(s, r)
    decreases Size(st), 3
  {
    var s1 := Splice(s, st.labelName);
    LoopBody(WhileHeader(s1, st.cond, symbols), |s1.blocks|, st.body, symbols, io)
  }

  /** The loop blocks are created; the condition is lowered into the header (pushed for
      the purpose), which branches to the body or past the loop; the entry block branches
      to the header. */
  function WhileHeader(s: Snap, c: CondExpr, symbols: map<string, SymbolEntry>): (r: Snap)
    requires Ready(s, symbols)
    ensures Follows(s, r) && |r.blocks| == |s.blocks| + 3
  {
    var header := |s.blocks|;
    var s1 := Push(AddLoopBlocks(s), header);
    var t := Guard(s1, c, symbols);
    var s2 := Pop(EmitCode(s1, t));
    EmitAt(EmitAt(s2, header, [CondBr(t.value, header + 1, header + 2)]), Top(s), [Br(header)])
  }

  /** The header of a for loop: load the iterator (null when it has no storage), compare
      it, signed, with the bound, and branch to the body or past the loop. */
  function ForTest(counter: Val, bound: Val, reg: nat, header: nat): seq<Instr> {
    [Load(reg, counter), ICmp(reg + 1, SLT, Reg(reg), bound), CondBr(Reg(reg + 1), header + 1, header + 2)]
  }

  /** visit(ASTForLoop). The step expression is not used. */
  function LowerFor(s: Snap, st: Stmt, symbols: map<string, SymbolEntry>, io: IOLabel): (r: Snap)
    requires st.ForLoop? && Ready(s, symbols)
    ensures Follows(s, r)
    decreases Size(st), 3
  {
    var s1 := Splice(s, st.labelName);
    SizeOfAppend(st.body, Increment(st.init.target.name));
    LoopBody(ForHeader(s1, st, symbols), |s1.blocks|, ForBody(st), symbols, io)
  }

  /** The loop blocks are created; the initial assignment and then the bound are lowered
      once, in the entry block; the header tests the iterator against that bound; the
      entry block branches to the header. */
  function ForHeader(s: Snap, st: Stmt, symbols: map<string, SymbolEntry>): (r: Snap)
    requires st.ForLoop? && Ready(s, symbols)
    ensures Follows(s, r) && |r.blocks| == |s.blocks| + 3
  {
    var s1 := LowerAssignment(AddLoopBlocks(s), "", st.init, symbols);
    var bound := LowerMath(st.bound, ScopeOf(s1, symbols), s1.nextReg);
    ForEntry(EmitCode(s1, bound), Top(s), |s.blocks|, st.init.target.name, bound.value)
  }

  function ForEntry(s: Snap, entry: nat, header: nat, name: string, bound: Val): (r: Snap)
  {
    var counter := if name in s.variables then Global(name) else Null;
    var s1 := s.(nextReg := s.nextReg + 2);
    EmitAt(EmitAt(s1, header, ForTest(counter, bound, s.nextReg, header)), entry, [Br(header)])
  }

  function LowerStatement(s: Snap, st: Stmt, symbols: map<string, SymbolEntry>, io: IOLabel): (r: Snap)
    requires Ready(s, symbols)
    ensures Follows(s, r)
    decreases Size(st), 4
  {
    match st
    case Assign(labelName, a) => LowerAssignment(s, labelName, a, symbols)
    case ForLoop(_, _, _, _, _) => LowerFor(s, st, symbols, io)
    case WhileLoop(_, _, _) => LowerWhile(s, st, symbols, io)
    case IfElse(_, _, _, _) => LowerIfElse(s, st, symbols, io)
    case Goto(_, _, _) => LowerGoto(s, st, symbols)
    case IO(_, _, _, _) => LowerIOBy(s, st, symbols, io)
  }

  /** visit(ASTCodeBlock): the statements in order. */
  function LowerCodeBlock(s: Snap, ss: seq<Stmt>, symbols: map<string, SymbolEntry>, io: IOLabel): (r: Snap)
    requires Ready(s, symbols)
    ensures Follows(s, r)
    decreases SizeOfBlock(ss), 5
  {
    if ss == [] then s
    else
      SizeOfElement(ss, |ss| - 1);
      LowerStatement(LowerCodeBlock(s, ss[..|ss| - 1], symbols, io), ss[|ss| - 1], symbols, io)
  }
}
