/** Every block the second lowering leaves ends in its only terminator. */
module BlockShape {
  import opened Lang
  import opened Machine
  import opened Lowering
  import opened Growth
  import opened Builder
  import opened ExprGen
  import opened CodeGen
  import opened CodeGenSound

  /** From `g` on, every block that was added or appended to is closed, but for the one the code goes on in,
      which is open; and no block that was erased before has come back. */
  ghost predicate Shaped(g: Gen, g1: Gen, isReturn: bool) {
    forall b {:trigger b in g1.blocks} :: b in g1.blocks ==>
      if b != g.cur && b < g.nextBlock then b in g.blocks
      else if !isReturn && b == g1.cur then OpenBlock(g1.blocks[b])
      else ClosedBlock(g1.blocks[b])
  }

  ghost predicate Opens(g: Gen) {
    g.cur in g.blocks && OpenBlock(g.blocks[g.cur])
  }

  /** Expressions append no terminator. */
  lemma {:induction false} ExprCodeOpen(g: Gen, e: Expr)
    requires g.cur in g.blocks && OpenBlock(g.blocks[g.cur])
    ensures var (g1, _) := ExprCode(Llvm, g, e);
      g1 == g.(blocks := g.blocks[g.cur := Code(g1, g.cur)], nextId := g1.nextId) && OpenBlock(Code(g1, g.cur))
    decreases e
  {
    match e
    case Not(i) => ExprCodeOpen(g, i);
    case Bin(_, l, r, _) =>
      ExprCodeOpen(g, l);
      ExprCodeOpen(ExprCode(Llvm, g, l).0, r);
    case Call(_, args, _) => ArgsCodeOpen(g, args);
    case _ =>
  }

  lemma {:induction false} ArgsCodeOpen(g: Gen, es: seq<Expr>)
    requires g.cur in g.blocks && OpenBlock(g.blocks[g.cur])
    ensures var (g1, _) := ArgsCode(Llvm, g, es);
      g1 == g.(blocks := g.blocks[g.cur := Code(g1, g.cur)], nextId := g1.nextId) && OpenBlock(Code(g1, g.cur))
    decreases es
  {
    if es != [] {
      ExprCodeOpen(g, es[0]);
      ArgsCodeOpen(ExprCode(Llvm, g, es[0]).0, es[1..]);
    }
  }

  lemma {:induction false} ShapeCompound(g: Gen, ss: seq<Stmt>, vis: set<nat>, n: nat)
    requires AcceptsAll(g, ss, vis, n) && Opens(g)
    ensures var (g1, r) := GenCompound(g, ss); Shaped(g, g1, r)
    decreases ss, 0
  {
    hide IdsBelow, LayoutBelow, StmtAt, StmtsAt, ExprAt, DistinctIds, Separate, GenStatement, Grows;
    if ss == [] {
      assert Shaped(g, g, false);
    } else {
      GenStatementAt(g, ss[0], vis, n);
      ShapeStatement(g, ss[0], vis, n);
      var (g1, r) := GenStatement(g, ss[0]);
      if r {
        assert GenCompound(g, ss) == (g1, true);
      } else {
        assert GenCompound(g, ss) == GenCompound(g1, ss[1..]);
        assert g1.cur in g1.blocks && (g1.cur == g.cur || g1.cur >= g.nextBlock);
        GenCompoundAt(g1, ss[1..], vis + Declares(ss[0]), n + Lets(ss[0]));
        ShapeCompound(g1, ss[1..], vis + Declares(ss[0]), n + Lets(ss[0]));
        var g2 := GenCompound(g1, ss[1..]);
        ShapedTrans(g, g1, g2.0, g2.1);
        assert Shaped(g, g2.0, g2.1) && GenCompound(g, ss) == g2;
      }
    }
  }

  lemma ShapedTrans(g: Gen, g1: Gen, g2: Gen, r: bool)
    requires Shaped(g, g1, false) && Shaped(g1, g2, r) && AppendsTo(g1.blocks, g1.cur, g2.blocks) &&
      g.nextBlock <= g1.nextBlock
    requires (g1.cur == g.cur || g1.cur >= g.nextBlock) && (g2.cur == g1.cur || g2.cur >= g1.nextBlock)
    ensures Shaped(g, g2, r)
  {
  }

  lemma {:induction false} ShapeStatement(g: Gen, s: Stmt, vis: set<nat>, n: nat)
    requires Accepts(g, s, vis, n) && Opens(g)
    ensures var (g1, r) := GenStatement(g, s); Shaped(g, g1, r)
    decreases s, 1
  {
    hide IdsBelow, LayoutBelow, Shaped, StmtAt, ExprAt, DistinctIds, Separate, ExprCode;
    match s
    case Block(ss) => ShapeCompound(g, ss, vis, n);
    case If(c, _, _) =>
      ExprCodeOpen(g, c);
      VisibleCodeAt(Llvm, g, c, vis);
      var (g0, o) := ExprCode(Llvm, g, c);
      ShapeIf(g, g0, o, s, vis, n);
    case While(_, _) => ShapeWhileStatement(g, s, vis, n);
    case _ =>
      BlocksBelow(g, s, vis, n);
      ShapeSimple(g, s);
  }

  lemma {:induction false} ShapeWhileStatement(g: Gen, s: Stmt, vis: set<nat>, n: nat)
    requires s.While? && Accepts(g, s, vis, n) && Opens(g)
    ensures var (g1, r) := GenStatement(g, s); Shaped(g, g1, r)
    decreases s, 1, 0
  {
    hide IdsBelow, LayoutBelow, Shaped, StmtAt, ExprAt, DistinctIds, Separate, ExprCode, GenBranch, GenCompound;
    GenWhileHeadAt(g);
    var g1 := GenWhileHead(g);
    VisibleCodeAt(Llvm, g1, s.guard, vis);
    ExprCodeOpen(g1, s.guard);
    var (g2, o) := ExprCode(Llvm, g1, s.guard);
    ShapeWhile(g, g1, g2, o, s, vis, n);
  }

  lemma BlocksBelow(g: Gen, s: Stmt, vis: set<nat>, n: nat)
    requires Accepts(g, s, vis, n)
    ensures forall b :: b in g.blocks ==> b < g.nextBlock
  {
  }

  /** A statement without blocks of its own. */
  lemma {:induction false} ShapeSimple(g: Gen, s: Stmt)
    requires Opens(g) && (s.Return? || s.Let? || s.Assign? || s.Eval?) && forall b :: b in g.blocks ==> b < g.nextBlock
    ensures var (g1, r) := GenStatement(g, s); Shaped(g, g1, r)
  {
    match s
    case Return(r) => if r.Some? { ExprCodeOpen(g, r.value); }
    case Let(_, _, e) => ExprCodeOpen(g, e);
    case Assign(_, e) => ExprCodeOpen(g, e);
    case Eval(e) => ExprCodeOpen(g, e);
  }

  /** A branch leaves only closed blocks. */
  lemma {:induction false} ShapeBranch(h: Gen, ss: seq<Stmt>, to: nat, vis: set<nat>, n: nat)
    requires AcceptsAll(h, ss, vis, n) && h.blocks[h.cur] == []
    ensures var (h1, _) := GenBranch(h, ss, to);
      Shaped(h, h1, true) && AppendsTo(h.blocks, h.cur, h1.blocks) && h.nextBlock <= h1.nextBlock
    decreases ss, 1
  {
    GenCompoundAt(h, ss, vis, n);
    ShapeCompound(h, ss, vis, n);
  }

  lemma {:induction false} ShapeIf(g: Gen, g0: Gen, o: Operand, s: Stmt, vis: set<nat>, n: nat)
    requires s.If? && Accepts(g, s, vis, n) && (g0, o) == ExprCode(Llvm, g, s.cond) && Straight(g, g0) && Opens(g0)
    ensures var (g1, r) := GenIfBlocks(g0, o, s); Shaped(g, g1, r)
    decreases s, 0
  {
    hide IdsBelow, LayoutBelow, LayoutGrows, Grows, ExprAt, StmtAt, StmtsAt, BranchAt, Accepts, AcceptsAll, Covers;
    hide Shaped, SupportedStmt, Declared, GenCompound, GenStatement, GenBranch;
    var m := g0.nextBlock + 1;
    var h := Select(IfTest(g0, s.els.Else?, o), m - 1);
    BranchesAccept(g, g0, o, s, vis, n);
    ShapeBranch(h, s.thn, m, vis, n);
    GenBranchAt(h, s.thn, m, vis, n);
    var (g2, r1) := GenBranch(h, s.thn, m);
    if s.els.Else? {
      var h2 := Select(g2, m + 1);
      ShapeBranch(h2, s.els.stmts, m, vis, n + LetsIn(s.thn));
      GenBranchAt(h2, s.els.stmts, m, vis, n + LetsIn(s.thn));
      ShapeJoin(g, g0, o, g2, GenBranch(h2, s.els.stmts, m).0, true);
    } else {
      ShapeJoin(g, g0, o, g2, g2, false);
    }
  }

  /** Both branches of an `if` start in an empty block the generator can go on in. */
  lemma {:induction false} BranchesAccept(g: Gen, g0: Gen, o: Operand, s: Stmt, vis: set<nat>, n: nat)
    requires s.If? && Accepts(g, s, vis, n) && (g0, o) == ExprCode(Llvm, g, s.cond)
    ensures
      var m := g0.nextBlock + 1;
      var h := Select(IfTest(g0, s.els.Else?, o), m - 1);
      var h2 := Select(GenBranch(h, s.thn, m).0, m + 1);
      AcceptsAll(h, s.thn, vis, n) && h.blocks[h.cur] == [] && g.cur in g.blocks &&
      (s.els.Else? ==> AcceptsAll(h2, s.els.stmts, vis, n + LetsIn(s.thn)) && h2.blocks[h2.cur] == [])
  {
    hide IdsBelow, LayoutBelow, ExprAt, BranchAt, StmtAt, Grows, GenCompound, GenStatement, GenBranch, AcceptsAll, Ok;
    hide Since;
    var m := g0.nextBlock + 1;
    VisibleCodeAt(Llvm, g, s.cond, vis);
    assert Ok(g) && Since(g, g0) by { CondDone(g, g0, s, vis, n); }
    BranchHead(g, g0, s.cond, s.els.Else?, o, m);
    var g1 := IfTest(g0, s.els.Else?, o);
    ThenAccepts(g, g1, s, vis, n, m - 1);
    GenThenAt(g, g1, s, vis, n, m);
    if s.els.Else? {
      ElseAccepts(g, GenBranch(Select(g1, m - 1), s.thn, m).0, s, vis, n, m + 1);
    }
  }

  lemma CondDone(g: Gen, g0: Gen, s: Stmt, vis: set<nat>, n: nat)
    requires s.If? && Accepts(g, s, vis, n) && g0 == ExprCode(Llvm, g, s.cond).0
    ensures Ok(g) && Since(g, g0)
  {
    VisibleCodeAt(Llvm, g, s.cond, vis);
  }

  lemma ThenAccepts(g: Gen, g1: Gen, s: Stmt, vis: set<nat>, n: nat, b: nat)
    requires s.If? && Accepts(g, s, vis, n) && Since(g, g1) && g1.lay == g.lay && b in g1.blocks
    ensures AcceptsAll(Select(g1, b), s.thn, vis, n)
  {
  }

  lemma ElseAccepts(g: Gen, g2: Gen, s: Stmt, vis: set<nat>, n: nat, b: nat)
    requires s.If? && s.els.Else? && Accepts(g, s, vis, n) && Since(g, g2) && Covers(g2.lay, {}, n + LetsIn(s.thn)) &&
      b in g2.blocks
    ensures AcceptsAll(Select(g2, b), s.els.stmts, vis, n + LetsIn(s.thn))
  {
  }

  /** The blocks of an `if`, once both branches are closed. */
  lemma ShapeJoin(g: Gen, g0: Gen, o: Operand, g2: Gen, g3: Gen, hasElse: bool)
    requires g0.cur == g.cur && Opens(g0) && g0.blocks.Keys == g.blocks.Keys && g0.nextBlock == g.nextBlock &&
      (forall b :: b in g.blocks ==> b < g.nextBlock)
    requires var h := Select(IfTest(g0, hasElse, o), g0.nextBlock);
      Shaped(h, g2, true) && AppendsTo(h.blocks, h.cur, g2.blocks) && h.nextBlock <= g2.nextBlock
    requires if hasElse then var h2 := Select(g2, g0.nextBlock + 2);
      Shaped(h2, g3, true) && AppendsTo(h2.blocks, h2.cur, g3.blocks) else g3 == g2
    ensures Shaped(g, Select(g3, g0.nextBlock + 1), false) &&
      Shaped(g, Select(EraseBlock(g3, g0.nextBlock + 1), g0.nextBlock + 1), true)
  {
    var h := IfTest(g0, hasElse, o);
    assert ClosedBlock(h.blocks[g.cur]);
    assert g3.blocks[g0.nextBlock + 1] == [];
  }

  lemma {:induction false} ShapeWhile(g: Gen, g1: Gen, g2: Gen, o: Operand, s: Stmt, vis: set<nat>, n: nat)
    requires s.While? && Accepts(g, s, vis, n) && Opens(g) && g1 == GenWhileHead(g) && Opens(g2) && Straight(g1, g2)
    requires ExprAt(g2.blocks, g2.lay, s.guard, g1.cur, 0, Here(g2).index, o)
    ensures var k := g1.cur;
      Shaped(g, Select(GenBranch(Select(Emit(g2, CondJump(o, Some(k + 1), Some(k + 2))), k + 1), s.body, k).0, k + 2),
        false)
    decreases s, 0
  {
    hide IdsBelow, LayoutBelow, LayoutGrows, Grows, ExprAt, StmtAt, StmtsAt, BranchAt, AcceptsAll, Covers, Shaped;
    hide SupportedStmt, Declared, GenCompound, GenStatement, GenBranch;
    var k := g1.cur;
    var h := Select(Emit(g2, CondJump(o, Some(k + 1), Some(k + 2))), k + 1);
    BodyAccepts(g, g1, g2, o, s, vis, n);
    ShapeBranch(h, s.body, k, vis, n);
    ShapeLoop(g, g1, g2, CondJump(o, Some(k + 1), Some(k + 2)), h, GenBranch(h, s.body, k).0);
  }

  lemma BodyAccepts(g: Gen, g1: Gen, g2: Gen, o: Operand, s: Stmt, vis: set<nat>, n: nat)
    requires s.While? && Accepts(g, s, vis, n) && g1 == GenWhileHead(g) && Straight(g1, g2)
    requires ExprAt(g2.blocks, g2.lay, s.guard, g1.cur, 0, Here(g2).index, o)
    ensures var h := Select(Emit(g2, CondJump(o, Some(g1.cur + 1), Some(g1.cur + 2))), g1.cur + 1);
      AcceptsAll(h, s.body, vis, n) && h.blocks[h.cur] == []
  {
    hide IdsBelow, LayoutBelow;
    GenWhileHeadAt(g);
    LoopHead(g, g1, g2, s.guard, g1.cur, o);
  }

  lemma ShapeLoop(g: Gen, g1: Gen, g2: Gen, test: Instr, h: Gen, g3: Gen)
    requires Opens(g) && (forall b :: b in g.blocks ==> b < g.nextBlock) && g1 == GenWhileHead(g) &&
      g2.cur == g1.cur == g.nextBlock && Opens(g2)
    requires g2.blocks == g1.blocks[g1.cur := g2.blocks[g1.cur]] && g2.nextBlock == g1.nextBlock
    requires test.CondJump? && h == Select(Emit(g2, test), g1.cur + 1)
    requires Shaped(h, g3, true) && AppendsTo(h.blocks, h.cur, g3.blocks) && h.nextBlock <= g3.nextBlock
    ensures Shaped(g, Select(g3, g1.cur + 2), false)
  {
    assert ClosedBlock(g1.blocks[g.cur]);
    assert ClosedBlock(h.blocks[g1.cur]);
    assert g3.blocks[g1.cur + 2] == [];
  }

  /** Every block that is left of a function has exactly one terminator, its last instruction, if and only if the
      body returns on every path. */
  lemma EveryBlockCloses(fd: FunDecl)
    requires !fd.isExtern && AllSupported(fd.body) && AllDeclared(fd.body, |fd.params|, {}, 0)
    ensures (forall b | b in GenFunction(fd).blocks :: ClosedBlock(GenFunction(fd).blocks[b])) <==> AnyReturns(fd.body)
  {
    EntryOk();
    GenArgumentCellsAt(EMPTY, fd.params);
    var g := GenArgumentCells(EMPTY, fd.params);
    GenCompoundAt(g, fd.body, {}, 0);
    ShapeCompound(g, fd.body, {}, 0);
    var (g1, r) := GenCompound(g, fd.body);
    if r {
      assert forall b | b in g1.blocks :: ClosedBlock(g1.blocks[b]);
    } else {
      assert g1.cur in g1.blocks && OpenBlock(g1.blocks[g1.cur]);
      assert !ClosedBlock(GenFunction(fd).blocks[g1.cur]);
    }
  }

  /** The generator can go on inside a loop. */
  lemma WhileReady(g: Gen, s: Stmt, vis: set<nat>, n: nat)
    requires s.While? && Accepts(g, s, vis, n)
    ensures g.cur in g.blocks
    ensures
      var g1 := GenWhileHead(g);
      var (g2, o) := ExprCode(Llvm, g1, s.guard);
      AcceptsAll(Select(Emit(g2, CondJump(o, Some(g1.cur + 1), Some(g1.cur + 2))), g1.cur + 1), s.body, vis, n)
  {
    hide AcceptsAll, IdsBelow, LayoutBelow, Grows, ExprAt, GenCompound, GenStatement, GenBranch;
    var g1 := GenWhileHead(g);
    GenWhileHeadAt(g);
    VisibleCodeAt(Llvm, g1, s.guard, vis);
    var (g2, o) := ExprCode(Llvm, g1, s.guard);
    BodyAccepts(g, g1, g2, o, s, vis, n);
  }
}
