/**
 * The Flat-B abstract syntax tree.
 *
 * The value nodes (expressions, statements, the program) are datatypes. Their shape
 * follows the code generator that consumes them: the comparator set contains `eqto`,
 * a condition carries a separate negation flag, and statements carry a label (the
 * empty string when unlabelled). The declaration builders, which the parser mutates
 * in place, are classes.
 */
module Ast {
  import opened Wrappers

  /** The C++ `unsigned int` that holds a declared array length. */
  type Unsigned = x: int | 0 <= x < 0x1_0000_0000

  /** Arithmetic operators: a closed set of six. */
  datatype Operation = Add | Sub | Mult | Divd | Usub | Noop

  /** Comparators; negation is a separate flag of the condition. */
  datatype Condition = Grt | Geq | Les | Leq | Neq | Eqto

  /** The operators that take two operands. */
  predicate IsBinary(op: Operation) {
    op == Add || op == Sub || op == Mult || op == Divd
  }

  /**
   * A variable reference; it is itself a math expression. `index` is present exactly
   * when the reference is an array element. `op` is set to `Usub` by the parser for
   * `-ident`. `isTarget` marks a reference used as an address (assignment or read target).
   */
  datatype TargetVar = TargetVar(name: string, index: Option<MathExpr>, op: Operation, isTarget: bool)

  /** Math expressions: an operator node with optional children, an integer literal, or a variable. */
  datatype MathExpr =
    | Arith(op: Operation, left: Option<MathExpr>, right: Option<MathExpr>)
    | IntLit(value: int)
    | Var(target: TargetVar)

  datatype CondExpr = CondExpr(left: MathExpr, cmp: Condition, right: MathExpr, negated: bool)

  /** An assignment holds exactly one target and one right-hand side. */
  datatype Assignment = Assignment(target: TargetVar, rhs: MathExpr)

  datatype IOKind = Print | Println | Read

  /** Code statements; `labelName` is "" when the statement is unlabelled. */
  datatype Stmt =
    | Assign(labelName: string, assignment: Assignment)
    | ForLoop(labelName: string, init: Assignment, bound: MathExpr, step: Option<MathExpr>, body: seq<Stmt>)
    | WhileLoop(labelName: string, cond: CondExpr, body: seq<Stmt>)
    | IfElse(labelName: string, cond: CondExpr, thenBody: seq<Stmt>, elseBody: ElseArm)
    | Goto(labelName: string, targetLabel: string, guard: Option<CondExpr>)
    | IO(labelName: string, kind: IOKind, text: string, operand: Option<MathExpr>)

  /** The optional `else` block of an if statement. */
  datatype ElseArm = NoElse | Else(stmts: seq<Stmt>)

  /** A declared variable as the code generator sees it. */
  datatype VarDecl = VarDecl(name: string, dataType: string, isArray: bool, length: Unsigned)

  /** A program: an optional declaration block (ordered lines of variables) and an optional code block. */
  datatype Program = Program(declBlock: Option<seq<seq<VarDecl>>>, codeBlock: Option<seq<Stmt>>)

  // ---------------------------------------------------------------------------
  // What the parser's semantic actions guarantee about the nodes they build.
  // ---------------------------------------------------------------------------

  /** Binary operators get both children, `noop` (parentheses) only a right child, and
      variables read inside expressions are not targets. */
  predicate WellBuiltMath(e: MathExpr) {
    match e
    case Arith(op, l, r) =>
      && (if IsBinary(op) then l.Some? && r.Some? else l.None? && r.Some?)
      && (l.Some? ==> WellBuiltMath(l.value))
      && (r.Some? ==> WellBuiltMath(r.value))
    case IntLit(_) => true
    case Var(t) => !t.isTarget && (t.index.Some? ==> WellBuiltMath(t.index.value))
  }

  /** Assignment and `read` targets have `isTarget` set. */
  predicate WellBuiltTarget(t: TargetVar) {
    t.isTarget && (t.index.Some? ==> WellBuiltMath(t.index.value))
  }

  predicate WellBuiltCond(c: CondExpr) {
    WellBuiltMath(c.left) && WellBuiltMath(c.right)
  }

  predicate WellBuiltAssignment(a: Assignment) {
    WellBuiltTarget(a.target) && WellBuiltMath(a.rhs)
  }

  predicate WellBuiltStmt(s: Stmt) {
    match s
    case Assign(_, a) => WellBuiltAssignment(a)
    case ForLoop(_, init, bound, step, body) =>
      WellBuiltAssignment(init) && WellBuiltMath(bound)
      && (step.Some? ==> WellBuiltMath(step.value)) && WellBuiltBlock(body)
    case WhileLoop(_, c, body) => WellBuiltCond(c) && WellBuiltBlock(body)
    case IfElse(_, c, t, e) =>
      WellBuiltCond(c) && WellBuiltBlock(t) && (match e case NoElse => true case Else(eb) => WellBuiltBlock(eb))
    case Goto(_, _, c) => c.Some? ==> WellBuiltCond(c.value)
    case IO(_, kind, _, operand) =>
      if kind == Read then operand.Some? && operand.value.Var? && WellBuiltTarget(operand.value.target)
      else operand.Some? ==> WellBuiltMath(operand.value)
  }

  predicate WellBuiltBlock(ss: seq<Stmt>) {
    forall i | 0 <= i < |ss| :: WellBuiltStmt(ss[i])
  }

  /** `-NUMBER` is folded into a negative literal. */
  function NegativeLiteral(n: int): (e: MathExpr)
    ensures e.IntLit? && e.value + n == 0
  {
    IntLit(-n)
  }

  /** `-ident` marks the reference with `usub`; nothing else about it changes. */
  function SetUsub(t: TargetVar): (r: TargetVar)
    ensures r.op == Usub
    ensures r.name == t.name && r.index == t.index && r.isTarget == t.isTarget
  {
    t.(op := Usub)
  }

  /** `!cond` flips the negation flag and keeps the comparison. */
  function FlipNot(c: CondExpr): (r: CondExpr)
    ensures r.negated != c.negated
    ensures r.left == c.left && r.cmp == c.cmp && r.right == c.right
  {
    c.(negated := !c.negated)
  }

  // ---------------------------------------------------------------------------
  // Size of statements, used as the termination measure of the lowering pass.
  // ---------------------------------------------------------------------------

  function Size(s: Stmt): nat {
    match s
    case Assign(_, _) => 1
    case ForLoop(_, _, _, _, body) => 2 + SizeOfBlock(body)
    case WhileLoop(_, _, body) => 1 + SizeOfBlock(body)
    case IfElse(_, _, t, e) => 1 + SizeOfBlock(t) + SizeOfArm(e)
    case Goto(_, _, _) => 1
    case IO(_, _, _, _) => 1
  }

  function SizeOfBlock(ss: seq<Stmt>): nat {
    if ss == [] then 0 else SizeOfBlock(ss[..|ss| - 1]) + Size(ss[|ss| - 1])
  }

  function SizeOfArm(e: ElseArm): nat {
    match e
    case NoElse => 0
    case Else(eb) => SizeOfBlock(eb)
  }

  lemma {:induction false} SizeOfElement(ss: seq<Stmt>, i: nat)
    requires i < |ss|
    ensures Size(ss[i]) <= SizeOfBlock(ss)
  {
    if i < |ss| - 1 {
      SizeOfElement(ss[..|ss| - 1], i);
    }
  }

  lemma SizeOfAppend(ss: seq<Stmt>, st: Stmt)
    ensures SizeOfBlock(ss + [st]) == SizeOfBlock(ss) + Size(st)
  {
    assert (ss + [st])[..|ss|] == ss;
  }

  // ---------------------------------------------------------------------------
  // Declaration builders (ASTDefinition.cpp): objects mutated in place.
  // ---------------------------------------------------------------------------

  class Variable {
    var name: string
    var dataType: string
    var isArray: bool
    var length: Unsigned

    /** The three-argument form: the length is converted to `unsigned int`, i.e. taken modulo 2^32. */
    constructor WithLength(name: string, isArray: bool, length: int)
      ensures this.name == name && this.isArray == isArray && this.dataType == ""
      ensures this.length == length % 0x1_0000_0000
      ensures 0 <= length < 0x1_0000_0000 ==> this.length == length
    {
      this.name := name;
      this.isArray := isArray;
      this.length := length % 0x1_0000_0000;
      this.dataType := "";
    }

    /** The two-argument form sets only the name and the array flag. */
    constructor (name: string, isArray: bool)
      ensures this.name == name && this.isArray == isArray && this.dataType == ""
    {
      this.name := name;
      this.isArray := isArray;
      this.dataType := "";
    }

    method SetDataType(dataType: string)
      modifies this
      ensures this.dataType == dataType
      ensures name == old(name) && isArray == old(isArray) && length == old(length)
    {
      this.dataType := dataType;
    }

    /** The variable as the code generator reads it. */
    function Decl(): (d: VarDecl)
      reads this
      ensures d.name == name && d.dataType == dataType && d.isArray == isArray && d.length == length
    {
      VarDecl(name, dataType, isArray, length)
    }
  }

  class VariableSet {
    var variables: seq<Variable>

    constructor ()
      ensures variables == []
    {
      variables := [];
    }

    method AddVariable(v: Variable)
      modifies this
      ensures variables == old(variables) + [v]
    {
      variables := variables + [v];
    }

    /** Returns the whole list, in insertion order. */
    method GetVariables() returns (vs: seq<Variable>)
      ensures vs == variables
    {
      vs := variables;
    }
  }

  class DeclStatement {
    const variables: seq<Variable>

    /** Takes over the set's list and stamps `dataType` on every variable in it. */
    constructor (dataType: string, variableSet: VariableSet)
      modifies variableSet.variables
      ensures variables == old(variableSet.variables)
      ensures forall i | 0 <= i < |variables| :: variables[i].dataType == dataType
      ensures forall i | 0 <= i < |variables| ::
        variables[i].name == old(variableSet.variables[i].name)
        && variables[i].isArray == old(variableSet.variables[i].isArray)
        && variables[i].length == old(variableSet.variables[i].length)
    {
      var vs := variableSet.GetVariables();
      variables := vs;
      new;
      for i := 0 to |vs|
        invariant forall j | 0 <= j < i :: vs[j].dataType == dataType
        invariant forall j | 0 <= j < |vs| ::
          vs[j].name == old(vs[j].name) && vs[j].isArray == old(vs[j].isArray) && vs[j].length == old(vs[j].length)
      {
        vs[i].SetDataType(dataType);
      }
    }

    /** The line's variables as the code generator reads them. */
    function Decls(): (ds: seq<VarDecl>)
      reads variables
      ensures |ds| == |variables|
      ensures forall i | 0 <= i < |ds| :: ds[i] == variables[i].Decl()
    {
      seq(|variables|, i reads variables requires 0 <= i < |variables| => variables[i].Decl())
    }
  }

  /** The variables a sequence of declaration statements holds. */
  function VariablesOf(sts: seq<DeclStatement>): set<Variable> {
    if sts == [] then {} else (set v | v in sts[0].variables) + VariablesOf(sts[1..])
  }

  /** The lines of a sequence of declaration statements. */
  function LinesOf(sts: seq<DeclStatement>): (ds: seq<seq<VarDecl>>)
    reads VariablesOf(sts)
    ensures |ds| == |sts|
    ensures forall i | 0 <= i < |ds| :: ds[i] == sts[i].Decls()
  {
    if sts == [] then [] else [sts[0].Decls()] + LinesOf(sts[1..])
  }

  class DeclBlock {
    var statements: seq<DeclStatement>

    constructor ()
      ensures statements == []
    {
      statements := [];
    }

    method AddStatement(s: DeclStatement)
      modifies this
      ensures statements == old(statements) + [s]
    {
      statements := statements + [s];
    }
    /** The block's lines as the code generator reads them, one per statement, in order. */
    function Decls(): (ds: seq<seq<VarDecl>>)
      reads this, VariablesOf(statements)
      ensures |ds| == |statements|
      ensures forall i | 0 <= i < |ds| :: ds[i] == statements[i].Decls()
    {
      LinesOf(statements)
    }
  }
}
