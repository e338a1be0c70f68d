/** The second lowering, to LLVM blocks: it stops at the first returning statement of a block and
    erases the merge blocks nobody reaches.

    Of LLVM only blocks, the insertion point, appending and erasing are modelled.
 */
module CodeGen {
  import opened Lang
  import opened Machine
  import opened Lowering
  import opened Growth
  import opened Builder
  import opened ExprGen

  /** What the lowering makes of a program: it does not evaluate a void expression that is returned. */
  function WithoutVoidReturns(s: Stmt): Stmt {
    match s
    case Return(r) => if r.Some? && ResultType(r.value) == Void then Return(None) else s
    case If(c, thn, els) =>
      If(c, AllWithoutVoidReturns(thn), if els.Else? then Else(AllWithoutVoidReturns(els.stmts)) else NoElse)
    case While(c, body) => While(c, AllWithoutVoidReturns(body))
    case Block(ss) => Block(AllWithoutVoidReturns(ss))
    case _ => s
  }

  function AllWithoutVoidReturns(ss: seq<Stmt>): seq<Stmt> {
    if ss == [] then [] else [WithoutVoidReturns(ss[0])] + AllWithoutVoidReturns(ss[1..])
  }

  lemma {:induction false} VoidReturnsShape(s: Stmt)
    ensures Returns(WithoutVoidReturns(s)) == Returns(s)
    decreases s
  {
    match s
    case If(_, thn, els) =>
      AllVoidReturnsShape(thn);
      if els.Else? { AllVoidReturnsShape(els.stmts); }
    case Block(ss) => AllVoidReturnsShape(ss);
    case _ =>
  }

  lemma {:induction false} AllVoidReturnsShape(ss: seq<Stmt>)
    ensures AnyReturns(AllWithoutVoidReturns(ss)) == AnyReturns(ss)
    decreases ss
  {
    if ss != [] {
      VoidReturnsShape(ss[0]);
      AllVoidReturnsShape(ss[1..]);
      assert AllWithoutVoidReturns(ss)[1..] == AllWithoutVoidReturns(ss[1..]);
    }
  }

  /** Code for a statement, and whether it returns. */
  function GenStatement(g: Gen, s: Stmt): (Gen, bool)
    decreases s, 1
  {
    match s
    case Return(r) =>
      if r.None? || ResultType(r.value) == Void then (Emit(g, Ret(None)), true)
      else
        var (g1, o) := ExprCode(Llvm, g, r.value);
        (Emit(g1, Ret(Some(o))), true)
    case Let(d, t, e) =>
      var (g1, o) := ExprCode(Llvm, g, e);
      (AddLocal(Emit(Emit(g1, Alloc(t)), Store(Cell(g1.nextId), o)), d, g1.nextId), false)
    case Assign(x, e) =>
      var (g1, o) := ExprCode(Llvm, g, e);
      var a := AddrOf(g.lay, x);
      (if a.Some? then Emit(g1, Store(a.value, o)) else g1, false)
    case Block(ss) => GenCompound(g, ss)
    case If(c, thn, els) =>
      var (g1, o) := ExprCode(Llvm, g, c);
      GenIfBlocks(g1, o, s)
    case While(c, body) =>
      var g1 := GenWhileHead(g);
      var (g2, o) := ExprCode(Llvm, g1, c);
      var g3 := Emit(g2, CondJump(o, Some(g1.cur + 1), Some(g1.cur + 2)));
      var (g4, _) := GenBranch(Select(g3, g1.cur + 1), body, g1.cur);
      (Select(g4, g1.cur + 2), false)
    case Eval(e) => (ExprCode(Llvm, g, e).0, false)
  }

  /** Statements up to the first one that returns. */
  function GenCompound(g: Gen, ss: seq<Stmt>): (Gen, bool)
    decreases ss, 0
  {
    if ss == [] then (g, false)
    else
      var (g1, isReturn) := GenStatement(g, ss[0]);
      if isReturn then (g1, true) else GenCompound(g1, ss[1..])
  }

  /** Statements and, unless they return, a jump. */
  function GenBranch(g: Gen, ss: seq<Stmt>, to: nat): (Gen, bool)
    decreases ss, 1
  {
    var (g1, isReturn) := GenCompound(g, ss);
    (if isReturn then g1 else Emit(g1, Jump(to)), isReturn)
  }

  /** Two or three empty blocks. */
  function AddBlocks(g: Gen, three: bool): Gen {
    var g2 := AddBlock(AddBlock(g));
    if three then AddBlock(g2) else g2
  }

  /** Blocks of an `if` whose condition is `o`; the then block comes before the merge block, the else block after it. */
  function GenIfBlocks(g: Gen, o: Operand, s: Stmt): (Gen, bool)
    requires s.If?
    decreases s, 0
  {
    var thenBlock, mergeBlock := g.nextBlock, g.nextBlock + 1;
    var (g2, thenReturns) := GenBranch(Select(IfTest(g, s.els.Else?, o), thenBlock), s.thn, mergeBlock);
    if s.els.Else? then
      var (g3, elseReturns) := GenBranch(Select(g2, mergeBlock + 1), s.els.stmts, mergeBlock);
      var g4 := if thenReturns && elseReturns then EraseBlock(g3, mergeBlock) else g3;
      (Select(g4, mergeBlock), thenReturns && elseReturns)
    else (Select(g2, mergeBlock), false)
  }

  /** The blocks, and the jump on `o`. */
  function IfTest(g: Gen, hasElse: bool, o: Operand): Gen {
    Emit(AddBlocks(g, hasElse),
      CondJump(o, Some(g.nextBlock), Some(if hasElse then g.nextBlock + 2 else g.nextBlock + 1)))
  }

  /** Blocks of a loop: check, body and merge block, in this order; the check block is selected. */
  function GenWhileHead(g: Gen): Gen {
    Select(Emit(AddBlocks(g, true), Jump(g.nextBlock)), g.nextBlock)
  }

  /** Store the arguments from the `i`-th on into cells of their own. */
  function GenArgumentCells(g: Gen, params: seq<Type>): Gen
    decreases |params|
  {
    if params == [] then g
    else
      var g1 := Emit(Emit(g, Alloc(params[0])), Store(Cell(g.nextId), ArgValue(|g.lay.params|)));
      GenArgumentCells(g1.(lay := g1.lay.(params := g1.lay.params + [Cell(g.nextId)])), params[1..])
  }

  function GenFunction(fd: FunDecl): Func {
    Func(fd.isExtern, if fd.isExtern then map[] else GenCompound(GenArgumentCells(EMPTY, fd.params), fd.body).0.blocks)
  }

  function GenModule(p: Program): Module {
    Module(seq(|p.funs|, i requires 0 <= i < |p.funs| => GenFunction(p.funs[i])))
  }

  predicate OpenBlock(b: seq<Node>) {
    forall k | 0 <= k < |b| :: !IsTerminator(b[k].ins)
  }

  /** One terminator, in last position. */
  predicate ClosedBlock(b: seq<Node>) {
    b != [] && IsTerminator(b[|b|-1].ins) && OpenBlock(b[..|b|-1])
  }

  /** The program the lowering implements. */
  function Implemented(p: Program): Program {
    p.(funs := seq(|p.funs|, i requires 0 <= i < |p.funs| => p.funs[i].(body := AllWithoutVoidReturns(p.funs[i].body))))
  }
}
