/**
 * An abstract stand-in for the LLVM objects the code generator builds: basic blocks
 * holding instruction lists, SSA registers, global storage cells and a module.
 *
 * A block's instructions are kept in one list, branches included, exactly as
 * `BranchInst::Create(target, block)` appends to a block whatever it already holds.
 * A block's terminator is its last instruction when that is a branch or a return.
 */
module IR {
  import opened Wrappers

  datatype BinOpKind = IAdd | ISub | IMul | ISDiv

  /** Integer comparison predicates, all signed where order matters. */
  datatype CmpPred = SGT | SGE | SLT | SLE | NE | EQ

  /** `Null` is the null `Value*` a failed lowering step hands on. */
  datatype Val = Null | ConstInt(n: int) | Reg(id: nat) | Global(name: string)

  /** The two external formatted-I/O primitives. */
  datatype Callee = Printf | Scanf

  datatype Instr =
    | BinOp(dst: nat, kind: BinOpKind, lhs: Val, rhs: Val)
    | ICmp(dst: nat, pred: CmpPred, lhs: Val, rhs: Val)
    | ZExt(dst: nat, src: Val)
    | ElemAddr(dst: nat, base: Val, index: Val)
    | Load(dst: nat, addr: Val)
    | Store(value: Val, addr: Val)
    | Call(callee: Callee, format: string, args: seq<Val>)
    | Br(target: nat)
    | CondBr(cond: Val, ifTrue: nat, ifFalse: nat)
    | Ret

  datatype Block = Block(name: string, instrs: seq<Instr>)

  /** Zero-initialised global storage: one cell, or an array of cells. */
  datatype GlobalCell = ScalarCell(init: int) | ArrayCell(cells: seq<int>)

  datatype Module = Module(globals: map<string, GlobalCell>, blocks: seq<Block>)

  predicate IsTerminator(i: Instr) {
    i.Br? || i.CondBr? || i.Ret?
  }

  predicate Terminated(b: Block) {
    |b.instrs| > 0 && IsTerminator(b.instrs[|b.instrs| - 1])
  }

  /** `getTerminator()`: the last instruction, if it ends the block. */
  function Terminator(b: Block): (r: Option<Instr>)
    ensures r.Some? <==> Terminated(b)
    ensures r.Some? ==> IsTerminator(r.value) && b.instrs[|b.instrs| - 1] == r.value
  {
    if Terminated(b) then Some(b.instrs[|b.instrs| - 1]) else None
  }

  predicate NoTerminator(code: seq<Instr>) {
    forall k | 0 <= k < |code| :: !IsTerminator(code[k])
  }

  /** The values an instruction uses. */
  function Operands(i: Instr): seq<Val> {
    match i
    case BinOp(_, _, l, r) => [l, r]
    case ICmp(_, _, l, r) => [l, r]
    case ZExt(_, v) => [v]
    case ElemAddr(_, b, x) => [b, x]
    case Load(_, a) => [a]
    case Store(v, a) => [v, a]
    case Call(_, _, args) => args
    case Br(_) => []
    case CondBr(c, _, _) => [c]
    case Ret => []
  }

  predicate NullFreeInstr(i: Instr) {
    Null !in Operands(i)
  }

  predicate NullFreeCode(code: seq<Instr>) {
    forall k | 0 <= k < |code| :: NullFreeInstr(code[k])
  }

  /** The register an instruction defines, if any. */
  function Def(i: Instr): seq<nat> {
    match i
    case BinOp(d, _, _, _) => [d]
    case ICmp(d, _, _, _) => [d]
    case ZExt(d, _) => [d]
    case ElemAddr(d, _, _) => [d]
    case Load(d, _) => [d]
    case _ => []
  }

  /** The registers a piece of code defines, in order. */
  function Defs(code: seq<Instr>): seq<nat> {
    if code == [] then [] else Defs(code[..|code| - 1]) + Def(code[|code| - 1])
  }

  /** The registers lo, lo + 1, ..., hi - 1. */
  function Range(lo: nat, hi: nat): (r: seq<nat>)
    ensures |r| == if lo <= hi then hi - lo else 0
  {
    if hi <= lo then [] else Range(lo, hi - 1) + [hi - 1]
  }

  lemma {:induction false} DefsAppend(a: seq<Instr>, b: seq<Instr>)
    ensures Defs(a + b) == Defs(a) + Defs(b)
  {
    if b != [] {
      var n := |b| - 1;
      assert (a + b)[..|a + b| - 1] == a + b[..n];
      DefsAppend(a, b[..n]);
    } else {
      assert a + b == a;
    }
  }

  lemma NoTerminatorAppend(a: seq<Instr>, b: seq<Instr>)
    requires NoTerminator(a) && NoTerminator(b)
    ensures NoTerminator(a + b)
  {
    forall k | 0 <= k < |a + b| ensures !IsTerminator((a + b)[k]) {
      if k < |a| { assert (a + b)[k] == a[k]; } else { assert (a + b)[k] == b[k - |a|]; }
    }
  }

  lemma NullFreeAppend(a: seq<Instr>, b: seq<Instr>)
    requires NullFreeCode(a) && NullFreeCode(b)
    ensures NullFreeCode(a + b)
  {
    forall k | 0 <= k < |a + b| ensures NullFreeInstr((a + b)[k]) {
      if k < |a| { assert (a + b)[k] == a[k]; } else { assert (a + b)[k] == b[k - |a|]; }
    }
  }

  lemma DefsOne(i: Instr)
    ensures Defs([i]) == Def(i)
  {
    assert [i][..0] == [];
  }

  lemma {:induction false} RangeAppend(lo: nat, mid: nat, hi: nat)
    requires lo <= mid <= hi
    ensures Range(lo, mid) + Range(mid, hi) == Range(lo, hi)
  {
    if mid < hi {
      RangeAppend(lo, mid, hi - 1);
    }
  }

  /** Code defining the registers lo..mid, then code defining mid..hi, defines lo..hi. */
  lemma DefsJoin(a: seq<Instr>, b: seq<Instr>, lo: nat, mid: nat, hi: nat)
    requires lo <= mid <= hi && Defs(a) == Range(lo, mid) && Defs(b) == Range(mid, hi)
    ensures Defs(a + b) == Range(lo, hi)
  {
    DefsAppend(a, b);
    RangeAppend(lo, mid, hi);
  }

  /** One instruction defining register n. */
  lemma DefsSingle(i: Instr, n: nat)
    requires Def(i) == [n]
    ensures Defs([i]) == Range(n, n + 1)
  {
    DefsOne(i);
    assert Range(n, n + 1) == Range(n, n) + [n];
  }

  /** The function's blocks after appending `code` to block `b`. */
  function AppendTo(bs: seq<Block>, b: nat, code: seq<Instr>): (r: seq<Block>)
  {
    if b < |bs| then bs[b := Block(bs[b].name, bs[b].instrs + code)] else bs
  }

  /** Appending two pieces of code in turn is appending them joined. */
  lemma AppendThen(bs: seq<Block>, b: nat, x: seq<Instr>, y: seq<Instr>)
    ensures AppendTo(AppendTo(bs, b, x), b, y) == AppendTo(bs, b, x + y)
  {
    if b < |bs| {
      assert bs[b].instrs + x + y == bs[b].instrs + (x + y);
    }
  }

  lemma AppendNothing(bs: seq<Block>, b: nat)
    ensures AppendTo(bs, b, []) == bs
  {
    if b < |bs| {
      assert bs[b].instrs + [] == bs[b].instrs;
    }
  }

  /** Block `b` exists and ends in a terminator. */
  predicate HasTerminator(bs: seq<Block>, b: nat) {
    b < |bs| && Terminator(bs[b]).Some?
  }

  /** Code that defines the registers lo, ..., hi - 1, in this order, and holds no branch. */
  predicate Numbered(code: seq<Instr>, lo: nat, hi: nat) {
    lo <= hi && Defs(code) == Range(lo, hi) && NoTerminator(code)
  }

  lemma NumberedJoin(a: seq<Instr>, b: seq<Instr>, lo: nat, mid: nat, hi: nat)
    requires Numbered(a, lo, mid) && Numbered(b, mid, hi)
    ensures Numbered(a + b, lo, hi)
  {
    DefsJoin(a, b, lo, mid, hi);
    NoTerminatorAppend(a, b);
  }

  /** One instruction that is not a branch, defining register n. */
  lemma NumberedOne(i: Instr, n: nat)
    requires Def(i) == [n] && !IsTerminator(i)
    ensures Numbered([i], n, n + 1)
  {
    DefsSingle(i, n);
  }

  /** Code that is not a branch and defines no register. */
  lemma NumberedNone(code: seq<Instr>, n: nat)
    requires |code| <= 1 && (forall k | 0 <= k < |code| :: Def(code[k]) == [] && !IsTerminator(code[k]))
    ensures Numbered(code, n, n)
  {
    if |code| == 1 {
      DefsOne(code[0]);
      assert code == [code[0]];
    }
  }
}
