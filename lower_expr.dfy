/**
 * Lowering of math expressions, variable references and conditions.
 *
 * The visits for ASTMathExpr, ASTInteger, ASTTargetVar and ASTCondExpr only append
 * instructions to the current block, count errors and hand back a value. They are
 * modelled as functions that return exactly those effects: the code to append, the
 * resulting value, the number of errors counted, and the next free register.
 */
module LowerExpr {
  import opened Wrappers
  import opened Ast
  import opened IR

  /** What the symbol table records about a name (labels appear as keys too). */
  datatype SymbolEntry = SymbolEntry(isArray: bool)

  /** The names the code generator has storage for, and the symbol table it was given. */
  datatype Scope = Scope(declared: set<string>, symbols: map<string, SymbolEntry>)

  /** Every name with storage has a symbol-table entry (the declaration pass put it there). */
  predicate ScopeOk(s: Scope) {
    s.declared <= s.symbols.Keys
  }

  datatype ExprCode = ExprCode(code: seq<Instr>, value: Val, errors: nat, nextReg: nat)

  /** Code `a` followed by code `b`: the value is `b`'s. */
  function Then(a: ExprCode, b: ExprCode): ExprCode {
    ExprCode(a.code + b.code, b.value, a.errors + b.errors, b.nextReg)
  }

  // ---------------------------------------------------------------------------
  // Reference semantics of integer operations, without a word width; used only in
  // specifications, to state what the operator and comparator mappings mean.
  // ---------------------------------------------------------------------------

  /** Division truncating toward zero, as C++ and LLVM's sdiv do. Division by zero is
      undefined in both; it is given the value 0 here. */
  function TruncDiv(a: int, b: int): int {
    if b == 0 then 0 else
    var q := (if a < 0 then -a else a) / (if b < 0 then -b else b);
    if (a < 0) != (b < 0) then -q else q
  }

  /** What a Flat-B binary operator computes. */
  function ApplyOperation(op: Operation, a: int, b: int): int
    requires IsBinary(op)
  {
    match op
    case Add => a + b
    case Sub => a - b
    case Mult => a * b
    case Divd => TruncDiv(a, b)
  }

  /** What an IR arithmetic instruction computes. */
  function EvalBinOp(k: BinOpKind, a: int, b: int): int {
    match k
    case IAdd => a + b
    case ISub => a - b
    case IMul => a * b
    case ISDiv => TruncDiv(a, b)
  }

  /** What a Flat-B comparator means. */
  predicate Holds(c: Condition, a: int, b: int) {
    match c
    case Grt => a > b
    case Geq => a >= b
    case Les => a < b
    case Leq => a <= b
    case Neq => a != b
    case Eqto => a == b
  }

  /** What an IR comparison predicate means on signed integers. */
  predicate EvalPred(p: CmpPred, a: int, b: int) {
    match p
    case SGT => a > b
    case SGE => a >= b
    case SLT => a < b
    case SLE => a <= b
    case NE => a != b
    case EQ => a == b
  }

  // ---------------------------------------------------------------------------
  // Operator and comparator mapping.
  // ---------------------------------------------------------------------------

  /** The instruction an operator becomes: add, sub, mult and divd map to Add, Sub, Mul
      and SDiv; usub also becomes SDiv (with -1 as its left operand). */
  function OperationKind(op: Operation): (k: BinOpKind)
    requires op != Noop
    ensures op == Add ==> k == IAdd
    ensures op == Sub ==> k == ISub
    ensures op == Mult ==> k == IMul
    ensures op == Divd || op == Usub ==> k == ISDiv
  {
    match op
    case Add => IAdd
    case Sub => ISub
    case Mult => IMul
    case Divd => ISDiv
    case Usub => ISDiv
  }

  /** Each binary operator becomes the instruction that computes the same value. */
  lemma OperationKindMeaning(op: Operation, a: int, b: int)
    requires IsBinary(op)
    ensures EvalBinOp(OperationKind(op), a, b) == ApplyOperation(op, a, b)
  {
  }

  /** The comparison predicate for a comparator: the signed predicate with the same meaning. */
  function PredicateOf(c: Condition): CmpPred {
    match c
    case Grt => SGT
    case Geq => SGE
    case Les => SLT
    case Leq => SLE
    case Neq => NE
    case Eqto => EQ
  }

  /** Each comparator becomes the signed predicate that holds of the same operands. */
  lemma PredicateOfMeaning(c: Condition, a: int, b: int)
    ensures EvalPred(PredicateOf(c), a, b) == Holds(c, a, b)
  {
  }

  /** A `usub` node ends in a signed division of -1 by its operand, and that division
      negates its operand only when the operand is -1, 0 or 1. */
  lemma UsubDividesMinusOne(lc: ExprCode, rc: ExprCode)
    ensures var r := Combine(Usub, lc, rc);
      r.value == Reg(rc.nextReg) && r.code[|r.code| - 1] == BinOp(rc.nextReg, ISDiv, ConstInt(-1), rc.value)
    ensures forall x :: EvalBinOp(OperationKind(Usub), -1, x) == -x <==> -1 <= x <= 1
  {
    forall x
      ensures EvalBinOp(OperationKind(Usub), -1, x) == -x <==> -1 <= x <= 1
    {
      MinusOneDivided(x);
    }
  }

  /** -1 divided by x, truncating: -1 for x = 1, 1 for x = -1, 0 otherwise. */
  lemma MinusOneDivided(x: int)
    ensures TruncDiv(-1, x) == (if x == 1 then -1 else if x == -1 then 1 else 0)
  {
    if x < -1 || 1 < x {
      var d := if x < 0 then -x else x;
      assert 1 / d == 0;
    }
  }

  // ---------------------------------------------------------------------------
  // Expression lowering.
  // ---------------------------------------------------------------------------

  /** The value of a reference: its address when it is a target, else a load of it. */
  function FinishReference(t: TargetVar, code: seq<Instr>, location: Val, errors: nat, reg: nat): ExprCode {
    if t.isTarget then ExprCode(code, location, errors, reg)
    else ExprCode(code + [Load(reg, location)], Reg(reg), errors, reg + 1)
  }

  /** visit(ASTMathExpr), visit(ASTInteger) and visit(ASTTargetVar), starting at register `reg`. */
  function LowerMath(e: MathExpr, s: Scope, reg: nat): (r: ExprCode)
    requires ScopeOk(s)
    ensures reg <= r.nextReg
    decreases e, 1
  {
    match e
    case IntLit(n) => ExprCode([], ConstInt(n), 0, reg)
    case Var(t) => LowerTarget(t, s, reg)
    case Arith(op, l, rt) =>
      var lc := LowerOperand(l, s, reg);
      var rc := LowerOperand(rt, s, lc.nextReg);
      Combine(op, lc, rc)
  }

  /** An operand that may be absent: a missing one yields null and no code. */
  function LowerOperand(o: Option<MathExpr>, s: Scope, reg: nat): (r: ExprCode)
    requires ScopeOk(s)
    ensures reg <= r.nextReg
    ensures o.None? ==> r == ExprCode([], Null, 0, reg)
    decreases o, 2
  {
    if o.Some? then LowerMath(o.value, s, reg) else ExprCode([], Null, 0, reg)
  }

  /** The operator node once both operands are lowered: `noop` hands on the right value,
      `usub` divides -1 by it, the others apply their instruction. */
  function Combine(op: Operation, lc: ExprCode, rc: ExprCode): (r: ExprCode)
    ensures r.nextReg == (if op == Noop then rc.nextReg else rc.nextReg + 1)
    ensures r.errors == lc.errors + rc.errors
    ensures op == Noop ==> r.value == rc.value && r.code == lc.code + rc.code
    ensures op != Noop ==> r.value == Reg(rc.nextReg)
    ensures op != Noop ==>
      r.code == lc.code + rc.code + [BinOp(rc.nextReg, OperationKind(op), if op == Usub then ConstInt(-1) else lc.value, rc.value)]
  {
    var code := lc.code + rc.code;
    if op == Noop then ExprCode(code, rc.value, lc.errors + rc.errors, rc.nextReg)
    else
      var lhs := if op == Usub then ConstInt(-1) else lc.value;
      ExprCode(code + [BinOp(rc.nextReg, OperationKind(op), lhs, rc.value)], Reg(rc.nextReg),
               lc.errors + rc.errors, rc.nextReg + 1)
  }

  /** visit(ASTMathExpr) on an operator node: the left operand's code, then the right
      operand's, then (unless the operator is `noop`) one instruction into the next free
      register combining the two values, with -1 standing in for the left value under
      `usub`; `noop` yields the right operand's value. */
  lemma ArithRules(op: Operation, l: Option<MathExpr>, rt: Option<MathExpr>, s: Scope, reg: nat)
    requires ScopeOk(s)
    ensures var r := LowerMath(Arith(op, l, rt), s, reg);
      var lc := LowerOperand(l, s, reg);
      var rc := LowerOperand(rt, s, lc.nextReg);
      && r.errors == lc.errors + rc.errors
      && (op == Noop ==> r.value == rc.value && r.code == lc.code + rc.code && r.nextReg == rc.nextReg)
      && (op != Noop ==>
            && r.value == Reg(rc.nextReg) && r.nextReg == rc.nextReg + 1
            && r.code == lc.code + rc.code
                         + [BinOp(rc.nextReg, OperationKind(op), if op == Usub then ConstInt(-1) else lc.value, rc.value)])
  {
  }

  /** visit(ASTTargetVar): resolves the name, checks its kind and computes its location. */
  function LowerTarget(t: TargetVar, s: Scope, reg: nat): (r: ExprCode)
    requires ScopeOk(s)
    ensures reg <= r.nextReg
    decreases t, 0
  {
    if t.name !in s.declared then ExprCode([], Null, 1, reg)
    else if t.index.Some? then
      if !s.symbols[t.name].isArray then ExprCode([], Null, 1, reg)
      else
        var ic := LowerMath(t.index.value, s, reg);
        FinishReference(t, ic.code + [ElemAddr(ic.nextReg, Global(t.name), ic.value)], Reg(ic.nextReg),
                        ic.errors, ic.nextReg + 1)
    else if s.symbols[t.name].isArray then ExprCode([], Null, 1, reg)
    else FinishReference(t, [], Global(t.name), 0, reg)
  }

  /** visit(ASTCondExpr): both sides, then a signed comparison zero-extended to 0/1.
      The negation flag is not consulted. */
  function LowerCond(c: CondExpr, s: Scope, reg: nat): (r: ExprCode)
    requires ScopeOk(s)
    ensures reg + 2 <= r.nextReg
    ensures r.value == Reg(r.nextReg - 1)
    ensures |r.code| >= 2 && r.code[|r.code| - 1] == ZExt(r.nextReg - 1, Reg(r.nextReg - 2))
    ensures r.code[|r.code| - 2].ICmp? && r.code[|r.code| - 2].dst == r.nextReg - 2
    ensures r.code[|r.code| - 2].pred == PredicateOf(c.cmp)
    ensures var lc := LowerMath(c.left, s, reg);
      r.code[|r.code| - 2].lhs == lc.value && r.code[|r.code| - 2].rhs == LowerMath(c.right, s, lc.nextReg).value
  {
    var lc := LowerMath(c.left, s, reg);
    var rc := LowerMath(c.right, s, lc.nextReg);
    Compare(PredicateOf(c.cmp), lc, rc)
  }

  /** A condition is its left side, then its right side, then two instructions. */
  lemma LowerCondSteps(c: CondExpr, s: Scope, reg: nat)
    requires ScopeOk(s)
    ensures var lc := LowerMath(c.left, s, reg);
            var rc := LowerMath(c.right, s, lc.nextReg);
            var d := rc.nextReg;
            LowerCond(c, s, reg) ==
              Then(Then(lc, rc), ExprCode([ICmp(d, PredicateOf(c.cmp), lc.value, rc.value), ZExt(d + 1, Reg(d))], Reg(d + 1), 0, d + 2))
  {
    var lc := LowerMath(c.left, s, reg);
    var rc := LowerMath(c.right, s, lc.nextReg);
    var d := rc.nextReg;
    assert lc.code + rc.code + [ICmp(d, PredicateOf(c.cmp), lc.value, rc.value), ZExt(d + 1, Reg(d))]
        == (lc.code + rc.code) + [ICmp(d, PredicateOf(c.cmp), lc.value, rc.value), ZExt(d + 1, Reg(d))];
  }

  /** Both sides lowered, then the comparison and its zero extension. */
  function Compare(p: CmpPred, lc: ExprCode, rc: ExprCode): ExprCode {
    ExprCode(lc.code + rc.code + [ICmp(rc.nextReg, p, lc.value, rc.value), ZExt(rc.nextReg + 1, Reg(rc.nextReg))],
             Reg(rc.nextReg + 1), lc.errors + rc.errors, rc.nextReg + 2)
  }

  // ---------------------------------------------------------------------------
  // Register numbering: lowered code defines the registers it was handed, in order,
  // each once, and never branches.
  // ---------------------------------------------------------------------------

  /** The code defines exactly reg, ..., r.nextReg - 1 in order, holds no branch, and a
      register value is one of those. */
  predicate WellNumbered(r: ExprCode, reg: nat) {
    Numbered(r.code, reg, r.nextReg) && (r.value.Reg? ==> reg <= r.value.id < r.nextReg)
  }

  lemma {:induction false} LowerMathNumbered(e: MathExpr, s: Scope, reg: nat)
    requires ScopeOk(s)
    ensures WellNumbered(LowerMath(e, s, reg), reg)
    decreases e, 1
  {
    match e
    case IntLit(n) => assert Numbered([], reg, reg);
    case Var(t) => LowerTargetNumbered(t, s, reg);
    case Arith(op, l, rt) =>
      var lc := LowerOperand(l, s, reg);
      if l.Some? { LowerMathNumbered(l.value, s, reg); } else { assert Numbered([], reg, reg); }
      var rc := LowerOperand(rt, s, lc.nextReg);
      if rt.Some? { LowerMathNumbered(rt.value, s, lc.nextReg); } else { assert Numbered([], lc.nextReg, lc.nextReg); }
      assert LowerMath(e, s, reg) == Combine(op, lc, rc);
      CombineNumbered(op, lc, rc, reg);
  }

  lemma CombineNumbered(op: Operation, lc: ExprCode, rc: ExprCode, reg: nat)
    requires WellNumbered(lc, reg) && WellNumbered(rc, lc.nextReg)
    ensures WellNumbered(Combine(op, lc, rc), reg)
  {
    var code := lc.code + rc.code;
    NumberedJoin(lc.code, rc.code, reg, lc.nextReg, rc.nextReg);
    if op == Noop {
      assert Combine(op, lc, rc) == ExprCode(code, rc.value, lc.errors + rc.errors, rc.nextReg);
    } else {
      var instr := BinOp(rc.nextReg, OperationKind(op), if op == Usub then ConstInt(-1) else lc.value, rc.value);
      assert Combine(op, lc, rc) == ExprCode(code + [instr], Reg(rc.nextReg), lc.errors + rc.errors, rc.nextReg + 1);
      OperatorNumbered(code, instr, reg, rc.nextReg);
    }
  }

  lemma OperatorNumbered(code: seq<Instr>, instr: Instr, reg: nat, n: nat)
    requires Numbered(code, reg, n) && instr.BinOp? && instr.dst == n
    ensures Numbered(code + [instr], reg, n + 1)
  {
    NumberedOne(instr, n);
    NumberedJoin(code, [instr], reg, n, n + 1);
  }

  lemma {:induction false} LowerTargetNumbered(t: TargetVar, s: Scope, reg: nat)
    requires ScopeOk(s)
    ensures WellNumbered(LowerTarget(t, s, reg), reg)
    decreases t, 0
  {
    if t.name !in s.declared || t.index.Some? != s.symbols[t.name].isArray {
      assert Numbered([], reg, reg);
    } else if t.index.Some? {
      var ic := LowerMath(t.index.value, s, reg);
      LowerMathNumbered(t.index.value, s, reg);
      var addr := ElemAddr(ic.nextReg, Global(t.name), ic.value);
      NumberedOne(addr, ic.nextReg);
      NumberedJoin(ic.code, [addr], reg, ic.nextReg, ic.nextReg + 1);
      FinishNumbered(t, ic.code + [addr], Reg(ic.nextReg), ic.errors, reg, ic.nextReg + 1);
    } else {
      assert Numbered([], reg, reg);
      FinishNumbered(t, [], Global(t.name), 0, reg, reg);
    }
  }

  lemma FinishNumbered(t: TargetVar, code: seq<Instr>, location: Val, errors: nat, lo: nat, reg: nat)
    requires Numbered(code, lo, reg) && (location.Reg? ==> lo <= location.id < reg)
    ensures WellNumbered(FinishReference(t, code, location, errors, reg), lo)
  {
    if !t.isTarget {
      var ld := Load(reg, location);
      NumberedOne(ld, reg);
      NumberedJoin(code, [ld], lo, reg, reg + 1);
    }
  }

  lemma LowerCondNumbered(c: CondExpr, s: Scope, reg: nat)
    requires ScopeOk(s)
    ensures WellNumbered(LowerCond(c, s, reg), reg)
  {
    var lc := LowerMath(c.left, s, reg);
    var rc := LowerMath(c.right, s, lc.nextReg);
    LowerMathNumbered(c.left, s, reg);
    LowerMathNumbered(c.right, s, lc.nextReg);
    CompareNumbered(PredicateOf(c.cmp), lc, rc, reg);
  }

  lemma CompareNumbered(p: CmpPred, lc: ExprCode, rc: ExprCode, reg: nat)
    requires WellNumbered(lc, reg) && WellNumbered(rc, lc.nextReg)
    ensures WellNumbered(Compare(p, lc, rc), reg)
  {
    var n := rc.nextReg;
    var cmp := ICmp(n, p, lc.value, rc.value);
    var zext := ZExt(n + 1, Reg(n));
    NumberedJoin(lc.code, rc.code, reg, lc.nextReg, n);
    NumberedOne(cmp, n);
    NumberedOne(zext, n + 1);
    NumberedJoin([cmp], [zext], n, n + 1, n + 2);
    assert [cmp] + [zext] == [cmp, zext];
    NumberedJoin(lc.code + rc.code, [cmp, zext], reg, n, n + 2);
  }

  /** The negation flag set by `!cond` does not change the lowered code. */
  lemma LowerCondIgnoresNegation(c: CondExpr, s: Scope, reg: nat)
    requires ScopeOk(s)
    ensures LowerCond(FlipNot(c), s, reg) == LowerCond(c, s, reg)
  {
  }

  // ---------------------------------------------------------------------------
  // What expression lowering guarantees.
  // ---------------------------------------------------------------------------

  /** Every variable reference names storage of the right kind: declared, indexed exactly
      when it is an array. */
  predicate RefsResolve(e: MathExpr, s: Scope)
    decreases e, 1
  {
    match e
    case Arith(_, l, r) => (l.Some? ==> RefsResolve(l.value, s)) && (r.Some? ==> RefsResolve(r.value, s))
    case IntLit(_) => true
    case Var(t) => TargetResolves(t, s)
  }

  predicate TargetResolves(t: TargetVar, s: Scope)
    decreases t, 0
  {
    && t.name in s.declared && t.name in s.symbols
    && s.symbols[t.name].isArray == t.index.Some?
    && (t.index.Some? ==> RefsResolve(t.index.value, s))
  }

  /** Lowering an expression counts no error exactly when all its references resolve. */
  lemma {:induction false} LowerMathErrorFree(e: MathExpr, s: Scope, reg: nat)
    requires ScopeOk(s)
    ensures LowerMath(e, s, reg).errors == 0 <==> RefsResolve(e, s)
    decreases e, 1
  {
    match e
    case IntLit(_) =>
    case Var(t) => LowerTargetErrorFree(t, s, reg);
    case Arith(op, l, rt) =>
      var lc := LowerOperand(l, s, reg);
      if l.Some? { LowerMathErrorFree(l.value, s, reg); }
      if rt.Some? { LowerMathErrorFree(rt.value, s, lc.nextReg); }
  }

  lemma {:induction false} LowerTargetErrorFree(t: TargetVar, s: Scope, reg: nat)
    requires ScopeOk(s)
    ensures LowerTarget(t, s, reg).errors == 0 <==> TargetResolves(t, s)
    decreases t, 0
  {
    if t.name in s.declared && t.index.Some? && s.symbols[t.name].isArray {
      LowerMathErrorFree(t.index.value, s, reg);
    }
  }

  /** On a tree the parser built, a null value or a null operand only ever appears
      together with a counted error. */
  lemma {:induction false} LowerMathNullOnlyOnError(e: MathExpr, s: Scope, reg: nat)
    requires ScopeOk(s) && WellBuiltMath(e)
    ensures var r := LowerMath(e, s, reg); r.errors == 0 ==> NullFreeCode(r.code) && r.value != Null
    decreases e, 1
  {
    match e
    case IntLit(_) =>
    case Var(t) => LowerTargetNullOnlyOnError(t, s, reg);
    case Arith(op, l, rt) =>
      var lc := LowerOperand(l, s, reg);
      var rc := LowerMath(rt.value, s, lc.nextReg);
      if l.Some? { LowerMathNullOnlyOnError(l.value, s, reg); }
      LowerMathNullOnlyOnError(rt.value, s, lc.nextReg);
      assert LowerMath(e, s, reg) == Combine(op, lc, rc);
      if lc.errors + rc.errors == 0 {
        CombineNullFree(op, lc, rc);
      }
  }

  lemma CombineNullFree(op: Operation, lc: ExprCode, rc: ExprCode)
    requires NullFreeCode(lc.code) && NullFreeCode(rc.code) && rc.value != Null
    requires IsBinary(op) ==> lc.value != Null
    ensures NullFreeCode(Combine(op, lc, rc).code) && Combine(op, lc, rc).value != Null
  {
    NullFreeAppend(lc.code, rc.code);
    if op != Noop {
      var lhs := if op == Usub then ConstInt(-1) else lc.value;
      var instr := BinOp(rc.nextReg, OperationKind(op), lhs, rc.value);
      assert NullFreeInstr(instr);
      NullFreeAppend(lc.code + rc.code, [instr]);
    }
  }

  /** The same for a reference, whatever its `isTarget` flag. */
  lemma {:induction false} LowerTargetNullOnlyOnError(t: TargetVar, s: Scope, reg: nat)
    requires ScopeOk(s) && (t.index.Some? ==> WellBuiltMath(t.index.value))
    ensures var r := LowerTarget(t, s, reg); r.errors == 0 ==> NullFreeCode(r.code) && r.value != Null
    decreases t, 0
  {
    if t.name in s.declared && t.index.Some? && s.symbols[t.name].isArray {
      var ic := LowerMath(t.index.value, s, reg);
      LowerMathNullOnlyOnError(t.index.value, s, reg);
      var addr := ElemAddr(ic.nextReg, Global(t.name), ic.value);
      var r := FinishReference(t, ic.code + [addr], Reg(ic.nextReg), ic.errors, ic.nextReg + 1);
      assert LowerTarget(t, s, reg) == r;
      if ic.errors == 0 {
        assert NullFreeInstr(addr);
        NullFreeAppend(ic.code, [addr]);
        if !t.isTarget {
          var ld := Load(ic.nextReg + 1, Reg(ic.nextReg));
          assert NullFreeInstr(ld);
          NullFreeAppend(ic.code + [addr], [ld]);
        }
      }
    } else if t.name in s.declared && t.index.None? && !s.symbols[t.name].isArray {
      var r := FinishReference(t, [], Global(t.name), 0, reg);
      assert LowerTarget(t, s, reg) == r;
      if !t.isTarget {
        var ld := Load(reg, Global(t.name));
        assert NullFreeInstr(ld);
        assert [] + [ld] == [ld];
      }
    }
  }

  /** A null operand inside a lowered condition comes with an error. */
  lemma LowerCondNullOnlyOnError(c: CondExpr, s: Scope, reg: nat)
    requires ScopeOk(s) && WellBuiltCond(c)
    ensures var r := LowerCond(c, s, reg); r.errors == 0 ==> NullFreeCode(r.code)
  {
    var lc := LowerMath(c.left, s, reg);
    var rc := LowerMath(c.right, s, lc.nextReg);
    assert LowerCond(c, s, reg) == Compare(PredicateOf(c.cmp), lc, rc);
    LowerMathNullOnlyOnError(c.left, s, reg);
    LowerMathNullOnlyOnError(c.right, s, lc.nextReg);
    if lc.errors + rc.errors == 0 {
      CompareNullFree(PredicateOf(c.cmp), lc, rc);
    }
  }

  lemma CompareNullFree(p: CmpPred, lc: ExprCode, rc: ExprCode)
    requires NullFreeCode(lc.code) && NullFreeCode(rc.code) && lc.value != Null && rc.value != Null
    ensures NullFreeCode(Compare(p, lc, rc).code)
  {
    var tail := [ICmp(rc.nextReg, p, lc.value, rc.value), ZExt(rc.nextReg + 1, Reg(rc.nextReg))];
    assert NullFreeInstr(tail[0]) && NullFreeInstr(tail[1]);
    NullFreeAppend(lc.code, rc.code);
    NullFreeAppend(lc.code + rc.code, tail);
  }

  /** The rules of visit(ASTTargetVar): an undeclared name, an indexed scalar and an
      unindexed array each count one error and yield null with no code; otherwise a
      target yields its address and any other reference a load of that address. */
  lemma TargetVarRules(t: TargetVar, s: Scope, reg: nat)
    requires ScopeOk(s)
    ensures var r := LowerTarget(t, s, reg);
      && (t.name !in s.declared ==> r == ExprCode([], Null, 1, reg))
      && (t.name in s.declared && t.index.Some? != s.symbols[t.name].isArray ==> r == ExprCode([], Null, 1, reg))
      && (t.name in s.declared && t.index.None? && !s.symbols[t.name].isArray && t.isTarget ==>
            r == ExprCode([], Global(t.name), 0, reg))
      && (t.name in s.declared && t.index.None? && !s.symbols[t.name].isArray && !t.isTarget ==>
            r == ExprCode([Load(reg, Global(t.name))], Reg(reg), 0, reg + 1))
      && (t.name in s.declared && t.index.Some? && s.symbols[t.name].isArray ==>
            var ic := LowerMath(t.index.value, s, reg);
            var elem := ic.code + [ElemAddr(ic.nextReg, Global(t.name), ic.value)];
            && r.errors == ic.errors
            && (t.isTarget ==> r == ExprCode(elem, Reg(ic.nextReg), ic.errors, ic.nextReg + 1))
            && (!t.isTarget ==> r == ExprCode(elem + [Load(ic.nextReg + 1, Reg(ic.nextReg))], Reg(ic.nextReg + 1),
                                               ic.errors, ic.nextReg + 2)))
  {
  }

  /** `-ident` is the reference tagged with `usub`, and visit(ASTTargetVar) never reads
      that tag: the negated reference lowers exactly as the plain one does. */
  lemma UsubReferenceIgnored(t: TargetVar, s: Scope, reg: nat)
    requires ScopeOk(s)
    ensures LowerMath(Var(SetUsub(t)), s, reg) == LowerMath(Var(t), s, reg)
  {
  }

  // ---------------------------------------------------------------------------
  // I/O format strings.
  // ---------------------------------------------------------------------------

  /** The format string of an I/O statement: `read` always appends "%d"; print appends
      "%d" when it has an operand, and println then appends a newline. */
  function IOFormat(kind: IOKind, text: string, hasOperand: bool): (f: string)
    ensures text <= f
    ensures kind == Read ==> f == text + "%d"
    ensures kind == Println ==> |f| > 0 && f[|f| - 1] == '\n'
    ensures kind != Read && hasOperand ==> text + "%d" <= f
    ensures f == [] <==> kind == Print && text == [] && !hasOperand
    ensures |f| == |text| + (if kind == Read || hasOperand then 2 else 0) + (if kind == Println then 1 else 0)
  {
    if kind == Read then text + "%d"
    else (text + (if hasOperand then "%d" else "")) + (if kind == Println then "\n" else "")
  }

  /** An I/O statement once its format is known: the operand (if any) is lowered, then
      scanf or printf is called with the format and the operand's value. An empty
      format calls nothing. */
  function IOCode(kind: IOKind, text: string, operand: Option<MathExpr>, s: Scope, reg: nat): (r: ExprCode)
    requires ScopeOk(s)
    ensures reg <= r.nextReg
    ensures r.errors == (if operand.Some? then LowerMath(operand.value, s, reg).errors else 0)
  {
    var c := LowerOperand(operand, s, reg);
    var call := IOCall(kind, IOFormat(kind, text, operand.Some?), if operand.Some? then [c.value] else []);
    ExprCode(c.code + call, Null, c.errors, c.nextReg)
  }

  /** The call an I/O statement makes: none when the format is empty. */
  function IOCall(kind: IOKind, f: string, args: seq<Val>): (r: seq<Instr>)
    ensures Null !in args ==> NullFreeCode(r)
    ensures |r| <= 1
  {
    if f == [] then [] else [Call(if kind == Read then Scanf else Printf, f, args)]
  }

  lemma IOCodeNumbered(kind: IOKind, text: string, operand: Option<MathExpr>, s: Scope, reg: nat)
    requires ScopeOk(s)
    ensures WellNumbered(IOCode(kind, text, operand, s, reg), reg)
  {
    var c := LowerOperand(operand, s, reg);
    if operand.Some? { LowerMathNumbered(operand.value, s, reg); } else { assert Numbered([], reg, reg); }
    var call := IOCall(kind, IOFormat(kind, text, operand.Some?), if operand.Some? then [c.value] else []);
    NumberedNone(call, c.nextReg);
    NumberedJoin(c.code, call, reg, c.nextReg, c.nextReg);
  }

  /** `read` always calls scanf with the text followed by "%d", passing the operand;
      `println` always calls printf with a format ending in a newline; only a `print`
      with neither text nor operand emits nothing beyond its operand's code. */
  lemma IOCallRules(kind: IOKind, text: string, operand: Option<MathExpr>, s: Scope, reg: nat)
    requires ScopeOk(s)
    ensures var r := IOCode(kind, text, operand, s, reg);
      var args := if operand.Some? then [LowerMath(operand.value, s, reg).value] else [];
      && (kind == Read ==> |r.code| > 0 && r.code[|r.code| - 1] == Call(Scanf, text + "%d", args))
      && (kind == Println ==>
            |r.code| > 0
            && r.code[|r.code| - 1] == Call(Printf, text + (if operand.Some? then "%d" else "") + "\n", args))
      && (kind == Print && text == [] && operand.None? ==> r.code == [])
      && (kind == Print && (text != [] || operand.Some?) ==>
            |r.code| > 0 && r.code[|r.code| - 1] == Call(Printf, text + (if operand.Some? then "%d" else ""), args))
  {
  }

  /** With no error counted, every operand of an I/O statement's code is non-null. */
  lemma IOCodeNullOnlyOnError(kind: IOKind, text: string, operand: Option<MathExpr>, s: Scope, reg: nat)
    requires ScopeOk(s)
    requires operand.Some? ==> WellBuiltMath(operand.value) || (operand.value.Var? && WellBuiltTarget(operand.value.target))
    ensures var r := IOCode(kind, text, operand, s, reg); r.errors == 0 ==> NullFreeCode(r.code)
  {
    var c := LowerOperand(operand, s, reg);
    var call := IOCall(kind, IOFormat(kind, text, operand.Some?), if operand.Some? then [c.value] else []);
    assert IOCode(kind, text, operand, s, reg).code == c.code + call;
    if c.errors == 0 {
      if operand.Some? {
        if WellBuiltMath(operand.value) {
          LowerMathNullOnlyOnError(operand.value, s, reg);
        } else {
          LowerTargetNullOnlyOnError(operand.value.target, s, reg);
        }
      }
      NullFreeAppend(c.code, call);
    }
  }

  /** visit(ASTAssignment) once the target is known to have storage: the target's
      address, then the right-hand side, then a store if the address is non-null. */
  function AssignmentCode(a: Assignment, s: Scope, reg: nat): (r: ExprCode)
    requires ScopeOk(s)
    ensures reg <= r.nextReg
  {
    var tc := LowerTarget(a.target, s, reg);
    var rc := LowerMath(a.rhs, s, tc.nextReg);
    var store := if tc.value == Null then [] else [Store(rc.value, tc.value)];
    ExprCode(tc.code + rc.code + store, Null, tc.errors + rc.errors, rc.nextReg)
  }

  lemma AssignmentCodeNumbered(a: Assignment, s: Scope, reg: nat)
    requires ScopeOk(s)
    ensures WellNumbered(AssignmentCode(a, s, reg), reg)
  {
    var tc := LowerTarget(a.target, s, reg);
    var rc := LowerMath(a.rhs, s, tc.nextReg);
    LowerTargetNumbered(a.target, s, reg);
    LowerMathNumbered(a.rhs, s, tc.nextReg);
    var store := if tc.value == Null then [] else [Store(rc.value, tc.value)];
    NumberedJoin(tc.code, rc.code, reg, tc.nextReg, rc.nextReg);
    NumberedNone(store, rc.nextReg);
    NumberedJoin(tc.code + rc.code, store, reg, rc.nextReg, rc.nextReg);
  }

  /** An assignment counts no error exactly when its target and right-hand side resolve. */
  lemma AssignmentCodeErrorFree(a: Assignment, s: Scope, reg: nat)
    requires ScopeOk(s)
    ensures AssignmentCode(a, s, reg).errors == 0 <==> TargetResolves(a.target, s) && RefsResolve(a.rhs, s)
  {
    LowerTargetErrorFree(a.target, s, reg);
    LowerMathErrorFree(a.rhs, s, LowerTarget(a.target, s, reg).nextReg);
  }

  /** With no error counted, the assignment ends in a store of the right-hand side's
      value to the target's non-null address, and no operand is null. */
  lemma AssignmentCodeNullOnlyOnError(a: Assignment, s: Scope, reg: nat)
    requires ScopeOk(s) && WellBuiltAssignment(a)
    ensures var r := AssignmentCode(a, s, reg);
      r.errors == 0 ==>
        && NullFreeCode(r.code)
        && |r.code| > 0 && r.code[|r.code| - 1].Store?
        && r.code[|r.code| - 1].addr == LowerTarget(a.target, s, reg).value
        && r.code[|r.code| - 1].value == LowerMath(a.rhs, s, LowerTarget(a.target, s, reg).nextReg).value
  {
    var tc := LowerTarget(a.target, s, reg);
    var rc := LowerMath(a.rhs, s, tc.nextReg);
    if tc.errors + rc.errors == 0 {
      LowerTargetNullOnlyOnError(a.target, s, reg);
      LowerMathNullOnlyOnError(a.rhs, s, tc.nextReg);
      StoreFacts(tc, rc);
    }
  }

  /** Code that writes no memory. */
  predicate StoreFree(code: seq<Instr>) {
    forall k | 0 <= k < |code| :: !code[k].Store?
  }

  lemma StoreFreeAppend(a: seq<Instr>, b: seq<Instr>)
    requires StoreFree(a) && StoreFree(b)
    ensures StoreFree(a + b)
  {
    forall k | 0 <= k < |a + b|
      ensures !(a + b)[k].Store?
    {
      if k < |a| { assert (a + b)[k] == a[k]; } else { assert (a + b)[k] == b[k - |a|]; }
    }
  }

  /** Expression code only computes: it never stores. */
  lemma {:induction false} LowerMathStoreFree(e: MathExpr, s: Scope, reg: nat)
    requires ScopeOk(s)
    ensures StoreFree(LowerMath(e, s, reg).code)
    decreases e, 1
  {
    match e
    case IntLit(n) =>
    case Var(t) => LowerTargetStoreFree(t, s, reg);
    case Arith(op, l, rt) =>
      var lc := LowerOperand(l, s, reg);
      if l.Some? { LowerMathStoreFree(l.value, s, reg); }
      var rc := LowerOperand(rt, s, lc.nextReg);
      if rt.Some? { LowerMathStoreFree(rt.value, s, lc.nextReg); }
      assert LowerMath(e, s, reg) == Combine(op, lc, rc);
      StoreFreeAppend(lc.code, rc.code);
      if op != Noop {
        var instr := BinOp(rc.nextReg, OperationKind(op), if op == Usub then ConstInt(-1) else lc.value, rc.value);
        StoreFreeAppend(lc.code + rc.code, [instr]);
      }
  }

  lemma {:induction false} LowerTargetStoreFree(t: TargetVar, s: Scope, reg: nat)
    requires ScopeOk(s)
    ensures StoreFree(LowerTarget(t, s, reg).code)
    decreases t, 0
  {
    if t.name in s.declared && t.index.Some? && s.symbols[t.name].isArray {
      var ic := LowerMath(t.index.value, s, reg);
      LowerMathStoreFree(t.index.value, s, reg);
      var addr := ElemAddr(ic.nextReg, Global(t.name), ic.value);
      StoreFreeAppend(ic.code, [addr]);
      StoreFreeAppend(ic.code + [addr], [Load(ic.nextReg + 1, Reg(ic.nextReg))]);
    }
  }

  /** visit(ASTAssignment) stores only through a non-null location: with a null one (which
      comes with an error) the code is the two sides' code and stores nothing; otherwise
      it is that code followed by exactly one store, of the right-hand side's value to the
      target's address. */
  lemma AssignmentStoreRules(a: Assignment, s: Scope, reg: nat)
    requires ScopeOk(s)
    ensures var tc := LowerTarget(a.target, s, reg);
      var rc := LowerMath(a.rhs, s, tc.nextReg);
      var r := AssignmentCode(a, s, reg);
      && (tc.value == Null ==> tc.errors > 0 && r.code == tc.code + rc.code && StoreFree(r.code))
      && (tc.value != Null ==>
            && r.code == tc.code + rc.code + [Store(rc.value, tc.value)]
            && StoreFree(r.code[..|r.code| - 1]))
  {
    var tc := LowerTarget(a.target, s, reg);
    var rc := LowerMath(a.rhs, s, tc.nextReg);
    LowerTargetStoreFree(a.target, s, reg);
    LowerMathStoreFree(a.rhs, s, tc.nextReg);
    StoreFreeAppend(tc.code, rc.code);
    if tc.value != Null {
      assert (tc.code + rc.code + [Store(rc.value, tc.value)])[..|tc.code| + |rc.code|] == tc.code + rc.code;
    }
  }

  /** Both sides' code followed by the store of one value to the other's address. */
  lemma StoreFacts(tc: ExprCode, rc: ExprCode)
    requires NullFreeCode(tc.code) && NullFreeCode(rc.code) && tc.value != Null && rc.value != Null
    ensures var code := tc.code + rc.code + [Store(rc.value, tc.value)];
      NullFreeCode(code) && |code| > 0 && code[|code| - 1] == Store(rc.value, tc.value)
  {
    var store := Store(rc.value, tc.value);
    assert NullFreeInstr(store);
    NullFreeAppend(tc.code, rc.code);
    NullFreeAppend(tc.code + rc.code, [store]);
  }
}
