/**
 * Declarations, the whole program and `generateCode`, as functions of the code
 * generator's state.
 *
 * Declarations give each name its zero-initialised global storage; the code block is
 * then lowered into `main`, starting in its "entry" block. When any error was counted
 * the generator stops without producing a module; otherwise it closes the block
 * lowering ended in with `ret`.
 */
module ProgramLowering {
  import opened Wrappers
  import opened Ast
  import opened IR
  import opened LowerExpr
  import opened LowerStmt

  /** The storage a declaration receives: one zeroed cell, or `length` zeroed cells. */
  function Storage(v: VarDecl): (g: GlobalCell)
    ensures v.isArray <==> g.ArrayCell?
    ensures g.ArrayCell? ==> |g.cells| == v.length && forall k | 0 <= k < |g.cells| :: g.cells[k] == 0
    ensures g.ScalarCell? ==> g.init == 0
  {
    if v.isArray then ArrayCell(seq(v.length, _ => 0)) else ScalarCell(0)
  }

  /** A declaration the code generator accepts: a new name, and an array of at least one cell. */
  predicate Accepted(variables: map<string, GlobalCell>, v: VarDecl) {
    v.name !in variables && (v.isArray ==> v.length >= 1)
  }

  /** visit(ASTVariable): a repeated name or an empty array counts an error and declares
      nothing; otherwise the name gets its storage. */
  function DeclareVariable(s: Snap, v: VarDecl): (r: Snap)
    ensures r.blocks == s.blocks && r.stack == s.stack && r.labels == s.labels && r.nextReg == s.nextReg
  {
    if v.name in s.variables then s.(errors := s.errors + 1)
    else if v.isArray && v.length < 1 then s.(errors := s.errors + 1)
    else s.(variables := s.variables[v.name := Storage(v)])
  }

  /** visit(ASTDeclStatement): its variables in order. */
  function DeclareLine(s: Snap, vs: seq<VarDecl>): (r: Snap)
    ensures r.blocks == s.blocks && r.stack == s.stack && r.labels == s.labels && r.nextReg == s.nextReg
    ensures s.errors <= r.errors && s.variables.Keys <= r.variables.Keys
  {
    if vs == [] then s else DeclareVariable(DeclareLine(s, vs[..|vs| - 1]), vs[|vs| - 1])
  }

  /** visit(ASTDeclBlock): its lines in order. */
  function DeclareBlock(s: Snap, lines: seq<seq<VarDecl>>): (r: Snap)
    ensures r.blocks == s.blocks && r.stack == s.stack && r.labels == s.labels && r.nextReg == s.nextReg
    ensures s.errors <= r.errors && s.variables.Keys <= r.variables.Keys
  {
    if lines == [] then s else DeclareLine(DeclareBlock(s, lines[..|lines| - 1]), lines[|lines| - 1])
  }

  /** Every name the program declares: the names the declaration pass entered in the
      symbol table. */
  predicate DeclaredIn(p: Program, symbols: map<string, SymbolEntry>) {
    p.declBlock.Some? ==>
      forall i, j | 0 <= i < |p.declBlock.value| && 0 <= j < |p.declBlock.value[i]| ::
        p.declBlock.value[i][j].name in symbols
  }

  /** visit(ASTProgram): the declarations, if any, then the code, if any. */
  function LowerProgram(s: Snap, p: Program, symbols: map<string, SymbolEntry>, io: IOLabel): (r: Snap)
    requires Ready(s, symbols) && DeclaredIn(p, symbols)
    ensures Ready(r, symbols) && |r.stack| == |s.stack|
  {
    var s1 := if p.declBlock.Some? then DeclareBlock(s, p.declBlock.value) else s;
    assert Ready(s1, symbols) by {
      if p.declBlock.Some? { DeclaredKeys(s, p.declBlock.value, symbols); }
    }
    if p.codeBlock.Some? then LowerCodeBlock(s1, p.codeBlock.value, symbols, io) else s1
  }

  /** Declaring only names from the symbol table keeps every name with storage in it. */
  lemma {:induction false} DeclaredKeys(s: Snap, lines: seq<seq<VarDecl>>, symbols: map<string, SymbolEntry>)
    requires s.variables.Keys <= symbols.Keys
    requires forall i, j | 0 <= i < |lines| && 0 <= j < |lines[i]| :: lines[i][j].name in symbols
    ensures DeclareBlock(s, lines).variables.Keys <= symbols.Keys
  {
    if lines != [] {
      var n := |lines| - 1;
      DeclaredKeys(s, lines[..n], symbols);
      LineKeys(DeclareBlock(s, lines[..n]), lines[n], symbols);
    }
  }

  lemma {:induction false} LineKeys(s: Snap, vs: seq<VarDecl>, symbols: map<string, SymbolEntry>)
    requires s.variables.Keys <= symbols.Keys
    requires forall j | 0 <= j < |vs| :: vs[j].name in symbols
    ensures DeclareLine(s, vs).variables.Keys <= symbols.Keys
  {
    if vs != [] {
      LineKeys(s, vs[..|vs| - 1], symbols);
    }
  }

  /** The state `generateCode` starts from: an empty `main` whose "entry" block is pushed. */
  function Initial(): (s: Snap)
    ensures Sound(s) && s.stack == [0] && |s.blocks| == 1 && s.blocks[0].instrs == []
  {
    Snap([Block("entry", [])], [0], map[], map[], 0, 0)
  }

  /** generateCode: no module when an error was counted; otherwise the globals are the
      declared storage and `main` is the lowered code with `ret` appended to the block
      lowering ended in. */
  function Generate(p: Program, symbols: map<string, SymbolEntry>, io: IOLabel): (m: Option<Module>)
    requires DeclaredIn(p, symbols)
  {
    var r := LowerProgram(Initial(), p, symbols, io);
    if r.errors > 0 then None
    else Some(Module(r.variables, AppendTo(r.blocks, Top(r), [Ret])))
  }
}
