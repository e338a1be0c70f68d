/** The second lowering is a lowering, of the program without its void returns. */
module CodeGenSound {
  import opened Lang
  import opened Machine
  import opened Lowering
  import opened Growth
  import opened Builder
  import opened ExprGen
  import opened CodeGen

  /** What the code of a statement leaves behind. */
  ghost predicate Generated(g: Gen, s: Stmt, n: nat, g1: Gen, isReturn: bool) {
    Since(g, g1) && isReturn == Returns(s) && Continues(g, g1, isReturn) &&
    Covers(g1.lay, if isReturn then {} else Declares(s), n + Lets(s)) &&
    StmtAt(g1.blocks, g1.lay, WithoutVoidReturns(s), Here(g), Here(g1))
  }

  /** Unless the code returned, the insertion point is a block that exists. */
  ghost predicate Continues(g: Gen, g1: Gen, isReturn: bool) {
    (g1.cur == g.cur || g1.cur >= g.nextBlock) && (!isReturn ==> g1.cur in g1.blocks)
  }

  ghost predicate GeneratedAll(g: Gen, ss: seq<Stmt>, n: nat, g1: Gen, isReturn: bool) {
    Since(g, g1) && isReturn == AnyReturns(ss) && Continues(g, g1, isReturn) && Covers(g1.lay, {}, n + LetsIn(ss)) &&
    StmtsAt(g1.blocks, g1.lay, AllWithoutVoidReturns(ss), Here(g), Here(g1))
  }

  lemma {:induction false} GenCompoundAt(g: Gen, ss: seq<Stmt>, vis: set<nat>, n: nat)
    requires AcceptsAll(g, ss, vis, n)
    ensures var (g1, r) := GenCompound(g, ss); GeneratedAll(g, ss, n, g1, r)
    decreases ss, 0
  {
    var ss1 := AllWithoutVoidReturns(ss);
    if ss == [] {
      assert Since(g, g);
    } else {
      GenStatementAt(g, ss[0], vis, n);
      VoidReturnsShape(ss[0]);
      var (g1, r) := GenStatement(g, ss[0]);
      if !r {
        GenCompoundAt(g1, ss[1..], vis + Declares(ss[0]), n + Lets(ss[0]));
        var (g2, r2) := GenCompound(g1, ss[1..]);
        SinceTrans(g, g1, g2);
        StmtAtGrows(g1.blocks, g2.blocks, g1.lay, g2.lay, ss1[0], Here(g), Here(g1));
        assert ss1[1..] == AllWithoutVoidReturns(ss[1..]);
      } else {
        assert StmtAt(g1.blocks, g1.lay, ss1[0], Here(g), Here(g1));
      }
    }
  }

  lemma {:induction false} GenStatementAt(g: Gen, s: Stmt, vis: set<nat>, n: nat)
    requires Accepts(g, s, vis, n)
    ensures var (g1, r) := GenStatement(g, s); Generated(g, s, n, g1, r)
    decreases s
  {
    match s
    case Return(_) => GenReturnAt(g, s, vis, n);
    case Let(_, _, _) => GenLetAt(g, s, vis, n);
    case Assign(_, _) => GenAssignAt(g, s, vis, n);
    case Block(ss) => GenCompoundAt(g, ss, vis, n);
    case If(_, _, _) => GenIfAt(g, s, vis, n);
    case While(_, _) => GenWhileAt(g, s, vis, n);
    case Eval(e) => VisibleCodeAt(Llvm, g, e, vis);
  }

  lemma GenReturnAt(g: Gen, s: Stmt, vis: set<nat>, n: nat)
    requires s.Return? && Accepts(g, s, vis, n)
    ensures var (g1, r) := GenStatement(g, s); Generated(g, s, n, g1, r)
  {
    if s.result.None? || ResultType(s.result.value) == Void {
      EmitOk(g, Ret(None));
    } else {
      var e := s.result.value;
      VisibleCodeAt(Llvm, g, e, vis);
      var (g1, o) := ExprCode(Llvm, g, e);
      var g2 := Emit(g1, Ret(Some(o)));
      EmitOk(g1, Ret(Some(o)));
      StraightTrans(g, g1, g2);
      ExprAtGrows(g1.blocks, g2.blocks, g.lay, g.lay, e, g.cur, Here(g).index, Here(g1).index, o);
    }
  }

  lemma GenAssignAt(g: Gen, s: Stmt, vis: set<nat>, n: nat)
    requires s.Assign? && Accepts(g, s, vis, n)
    ensures var (g1, r) := GenStatement(g, s); Generated(g, s, n, g1, r)
  {
    VisibleCodeAt(Llvm, g, s.value, vis);
    var (g1, o) := ExprCode(Llvm, g, s.value);
    var ins := Store(AddrOf(g.lay, s.target).value, o);
    EmitOk(g1, ins);
    StraightTrans(g, g1, Emit(g1, ins));
    ExprAtGrows(g1.blocks, Emit(g1, ins).blocks, g.lay, g.lay, s.value, g.cur, Here(g).index, Here(g1).index, o);
  }

  lemma GenLetAt(g: Gen, s: Stmt, vis: set<nat>, n: nat)
    requires s.Let? && Accepts(g, s, vis, n)
    ensures var (g1, r) := GenStatement(g, s); Generated(g, s, n, g1, r)
  {
    hide ExprCode, ExprAt, DistinctIds;
    VisibleCodeAt(Llvm, g, s.init, vis);
    var (g1, o) := ExprCode(Llvm, g, s.init);
    EmitOk(g1, Alloc(s.declType));
    EmitOk(Emit(g1, Alloc(s.declType)), Store(Cell(g1.nextId), o));
    StraightTrans(g, g1, Emit(g1, Alloc(s.declType)));
    StraightTrans(g, Emit(g1, Alloc(s.declType)), Emit(Emit(g1, Alloc(s.declType)), Store(Cell(g1.nextId), o)));
    AddLocalSeparate(g.lay, s.d, g1.nextId);
    GrowsTrans(g1.blocks, Emit(g1, Alloc(s.declType)).blocks,
      Emit(Emit(g1, Alloc(s.declType)), Store(Cell(g1.nextId), o)).blocks);
    DeclareClosed(g1, s, Here(g), o);
  }

  /** An allocation and a store behind the initialiser. */
  lemma DeclareClosed(g1: Gen, s: Stmt, p: Pos, o: Operand)
    requires s.Let? && p.block == g1.cur && g1.cur in g1.blocks && s.d !in g1.lay.locals
    requires ExprAt(g1.blocks, g1.lay, s.init, g1.cur, p.index, Here(g1).index, o)
    requires Grows(g1.blocks, Emit(Emit(g1, Alloc(s.declType)), Store(Cell(g1.nextId), o)).blocks)
    ensures var g3 := AddLocal(Emit(Emit(g1, Alloc(s.declType)), Store(Cell(g1.nextId), o)), s.d, g1.nextId);
      StmtAt(g3.blocks, g3.lay, s, p, Here(g3))
  {
    var g3 := AddLocal(Emit(Emit(g1, Alloc(s.declType)), Store(Cell(g1.nextId), o)), s.d, g1.nextId);
    ExprAtGrows(g1.blocks, g3.blocks, g1.lay, g3.lay, s.init, g1.cur, p.index, Here(g1).index, o);
  }

  lemma {:induction false} GenBranchAt(h: Gen, ss: seq<Stmt>, to: nat, vis: set<nat>, n: nat)
    requires AcceptsAll(h, ss, vis, n) && h.blocks[h.cur] == []
    ensures var (h1, r) := GenBranch(h, ss, to);
      Since(h, h1) && r == AnyReturns(ss) && Covers(h1.lay, {}, n + LetsIn(ss)) &&
      BranchAt(h1.blocks, h1.lay, AllWithoutVoidReturns(ss), h.cur, to)
    decreases ss, 1
  {
    GenCompoundAt(h, ss, vis, n);
    AllVoidReturnsShape(ss);
    var ss1 := AllWithoutVoidReturns(ss);
    var (h1, r) := GenCompound(h, ss);
    if !r {
      SinceEmit(h, h1, Jump(to));
      StmtsAtGrows(h1.blocks, Emit(h1, Jump(to)).blocks, h1.lay, h1.lay, ss1, Here(h), Here(h1));
    }
  }

  lemma SinceAddBlocks(g: Gen, h: Gen, three: bool)
    requires Ok(g) && Since(g, h)
    ensures var r := AddBlocks(h, three);
      Since(g, r) && Grows(h.blocks, r.blocks) && r.cur == h.cur && r.nextId == h.nextId && r.lay == h.lay &&
      r.nextBlock == h.nextBlock + (if three then 3 else 2) &&
      (forall b | b in h.blocks :: b in r.blocks && r.blocks[b] == h.blocks[b]) &&
      (forall b | h.nextBlock <= b < r.nextBlock :: b in r.blocks && r.blocks[b] == [])
  {
    SinceAdd(g, h);
    SinceAdd(g, AddBlock(h));
    SinceAdd(g, AddBlock(AddBlock(h)));
  }

  /** The blocks from `m - 1` on are new and empty, and the test that leads to them is in place. */
  ghost predicate HeadDone(g: Gen, g1: Gen, c: Expr, p: Pos, lo: nat, t: nat, f: nat) {
    Since(g, g1) && g1.lay == g.lay && lo >= g.nextBlock && Tests(g1, c, p, t, f) &&
    forall b | lo <= b < g1.nextBlock :: b in g1.blocks && g1.blocks[b] == []
  }

  /** The condition has been emitted in `g1`. */
  lemma BranchHead(g: Gen, g1: Gen, c: Expr, hasElse: bool, o: Operand, m: nat)
    requires Ok(g) && Since(g, g1) && g1.lay == g.lay && g1.cur == g.cur &&
      ExprAt(g1.blocks, g1.lay, c, g.cur, Here(g).index, Here(g1).index, o)
    requires m == g1.nextBlock + 1
    ensures HeadDone(g, IfTest(g1, hasElse, o), c, Here(g), m - 1, m - 1, if hasElse then m + 1 else m)
    ensures IfTest(g1, hasElse, o).nextBlock == if hasElse then m + 2 else m + 1
  {
    hide IdsBelow, LayoutBelow, ExprAt, StmtAt, BranchAt, TestAt, LayoutGrows, Grows;
    SinceAddBlocks(g, g1, hasElse);
    var g2 := AddBlocks(g1, hasElse);
    var ins := CondJump(o, Some(g1.nextBlock), Some(if hasElse then g1.nextBlock + 2 else g1.nextBlock + 1));
    SinceEmit(g, g2, ins);
    TestClosed(g1, g2, c, Here(g), o, ins);
  }

  /** The test from `p` on ends its block, and its jump goes to `t` and `f`. */
  ghost predicate Tests(g: Gen, c: Expr, p: Pos, t: nat, f: nat) {
    p.block in g.blocks && TestAt(g.blocks, g.lay, c, p.block, p.index, |g.blocks[p.block]| - 1) &&
    g.blocks[p.block][|g.blocks[p.block]|-1].ins.whenTrue == Some(t) &&
      g.blocks[p.block][|g.blocks[p.block]|-1].ins.whenFalse == Some(f)
  }

  lemma TestClosed(g1: Gen, g2: Gen, c: Expr, p: Pos, o: Operand, ins: Instr)
    requires ins.CondJump? && ins.whenTrue.Some? && ins.whenFalse.Some? && ins.cond == o
    requires p.block == g1.cur == g2.cur && g1.cur in g1.blocks && g1.cur in g2.blocks &&
      g2.blocks[g1.cur] == g1.blocks[g1.cur]
    requires g1.lay == g2.lay && Grows(g1.blocks, g2.blocks) && Grows(g2.blocks, Emit(g2, ins).blocks)
    requires ExprAt(g1.blocks, g1.lay, c, p.block, p.index, Here(g1).index, o)
    ensures Tests(Emit(g2, ins), c, p, ins.whenTrue.value, ins.whenFalse.value)
  {
    GrowsTrans(g1.blocks, g2.blocks, Emit(g2, ins).blocks);
    ExprAtGrows(g1.blocks, Emit(g2, ins).blocks, g1.lay, g2.lay, c, p.block, p.index, Here(g1).index, o);
  }

  lemma {:induction false} GenIfAt(g: Gen, s: Stmt, vis: set<nat>, n: nat)
    requires s.If? && Accepts(g, s, vis, n)
    ensures var (g1, r) := GenStatement(g, s); Generated(g, s, n, g1, r)
    decreases s, 0
  {
    VisibleCodeAt(Llvm, g, s.cond, vis);
    var (g0, o) := ExprCode(Llvm, g, s.cond);
    GenIfBlocksAt(g, g0, o, s, vis, n);
  }

  lemma IfStart(g: Gen, g0: Gen, s: Stmt, vis: set<nat>, n: nat)
    requires Accepts(g, s, vis, n) && Straight(g, g0)
    ensures Ok(g) && Since(g, g0) && g.cur in g.blocks && g0.cur == g.cur && g0.lay == g.lay &&
      g0.nextBlock == g.nextBlock
  {
  }

  /** The rest of an `if`, whose condition has been emitted in `g0`. */
  lemma {:induction false} GenIfBlocksAt(g: Gen, g0: Gen, o: Operand, s: Stmt, vis: set<nat>, n: nat)
    requires s.If? && Accepts(g, s, vis, n) && Straight(g, g0)
    requires ExprAt(g0.blocks, g0.lay, s.cond, g.cur, Here(g).index, Here(g0).index, o)
    ensures var (g1, r) := GenIfBlocks(g0, o, s); Generated(g, s, n, g1, r)
    decreases s, 0, 1
  {
    hide IdsBelow, LayoutBelow, ExprAt, StmtAt, BranchAt, TestAt, LayoutGrows, Grows, GenCompound, GenStatement;
    hide GenBranch, DistinctIds, Separate, Generated, Tests, Covers, Declared, SupportedStmt, Accepts, Ok, Since;
    hide Straight;
    IfStart(g, g0, s, vis, n);
    var m := g0.nextBlock + 1;
    BranchHead(g, g0, s.cond, s.els.Else?, o, m);
    var g1 := IfTest(g0, s.els.Else?, o);
    GenThenAt(g, g1, s, vis, n, m);
    VoidReturnsShape(s);
    var (g2, r1) := GenBranch(Select(g1, m - 1), s.thn, m);
    if s.els.Else? {
      GenElseAt(g, g1, g2, s, vis, n, m);
    } else {
      GenNoElseAt(g, g1, g2, s, n, m);
    }
  }

  lemma {:induction false} GenThenAt(g: Gen, g1: Gen, s: Stmt, vis: set<nat>, n: nat, m: nat)
    requires s.If? && Accepts(g, s, vis, n) && m > 0 &&
      HeadDone(g, g1, s.cond, Here(g), m - 1, m - 1, if s.els.Else? then m + 1 else m)
    requires g1.nextBlock == if s.els.Else? then m + 2 else m + 1
    ensures var (g2, r1) := GenBranch(Select(g1, m - 1), s.thn, m);
      Since(g, g2) && r1 == AnyReturns(s.thn) && Covers(g2.lay, {}, n + LetsIn(s.thn)) && Grows(g1.blocks, g2.blocks) &&
        LayoutGrows(g1.lay, g2.lay) &&
      BranchAt(g2.blocks, g2.lay, AllWithoutVoidReturns(s.thn), m - 1, m) && g1.nextBlock <= g2.nextBlock &&
      forall b | m <= b < g1.nextBlock :: b in g2.blocks && g2.blocks[b] == []
    decreases s, 0, 0
  {
    hide GenCompound, GenStatement, GenBranch;
    var h := Select(g1, m - 1);
    GenBranchAt(h, s.thn, m, vis, n);
    SinceTrans(g, h, GenBranch(h, s.thn, m).0);
  }

  lemma GenNoElseAt(g: Gen, g1: Gen, g2: Gen, s: Stmt, n: nat, m: nat)
    requires s.If? && s.els.NoElse? && Ok(g) && m >= g.nextBlock && Since(g, g2) && Tests(g1, s.cond, Here(g), m - 1, m)
    requires Grows(g1.blocks, g2.blocks) && LayoutGrows(g1.lay, g2.lay) &&
      BranchAt(g2.blocks, g2.lay, AllWithoutVoidReturns(s.thn), m - 1, m)
    requires m < g2.nextBlock && m in g2.blocks && g2.blocks[m] == [] && Covers(g2.lay, {}, n + Lets(s))
    requires Returns(WithoutVoidReturns(s)) == Returns(s) && m > 0
    ensures Generated(g, s, n, Select(g2, m), false)
  {
    BranchesClosed(g1, g2, g2, g2, s, Here(g), m);
  }

  lemma {:induction false} GenElseAt(g: Gen, g1: Gen, g2: Gen, s: Stmt, vis: set<nat>, n: nat, m: nat)
    requires s.If? && s.els.Else? && Accepts(g, s, vis, n) && Returns(WithoutVoidReturns(s)) == Returns(s)
    requires m > g.nextBlock && Since(g, g2) && m + 1 < g2.nextBlock && m in g2.blocks && g2.blocks[m] == [] &&
      m + 1 in g2.blocks && g2.blocks[m+1] == []
    requires Covers(g2.lay, {}, n + LetsIn(s.thn)) && Grows(g1.blocks, g2.blocks) && LayoutGrows(g1.lay, g2.lay)
    requires Tests(g1, s.cond, Here(g), m - 1, m + 1) &&
      BranchAt(g2.blocks, g2.lay, AllWithoutVoidReturns(s.thn), m - 1, m)
    ensures var (g3, r2) := GenBranch(Select(g2, m + 1), s.els.stmts, m);
      var g4 := if AnyReturns(s.thn) && r2 then EraseBlock(g3, m) else g3;
      r2 == AnyReturns(s.els.stmts) && Generated(g, s, n, Select(g4, m), Returns(s))
    decreases s.els, 2
  {
    hide IdsBelow, LayoutBelow, ExprAt, StmtAt, TestAt, GenCompound, GenStatement, GenBranch;
    var h := Select(g2, m + 1);
    GenBranchAt(h, s.els.stmts, m, vis, n + LetsIn(s.thn));
    var (g3, r2) := GenBranch(h, s.els.stmts, m);
    SinceTrans(g, h, g3);
    assert m in g3.blocks && g3.blocks[m] == [];
    SinceErase(g, g3, m);
    var g4 := if Returns(s) then EraseBlock(g3, m) else g3;
    GrowsTrans(g1.blocks, g2.blocks, g3.blocks);
    GrowsTrans(g1.blocks, g3.blocks, g4.blocks);
    GrowsTrans(g2.blocks, g3.blocks, g4.blocks);
    BranchesClosed(g1, g2, g3, g4, s, Here(g), m);
  }

  /** The test is in `g1`, the branches are in `g2` and `g3`. */
  lemma BranchesClosed(g1: Gen, g2: Gen, g3: Gen, g4: Gen, s: Stmt, p: Pos, m: nat)
    requires s.If? && m > 0 && Grows(g1.blocks, g4.blocks) && Grows(g2.blocks, g4.blocks) && Grows(g3.blocks, g4.blocks)
    requires LayoutGrows(g1.lay, g4.lay) && LayoutGrows(g2.lay, g4.lay) && LayoutGrows(g3.lay, g4.lay)
    requires Tests(g1, s.cond, p, m - 1, if s.els.Else? then m + 1 else m)
    requires BranchAt(g2.blocks, g2.lay, AllWithoutVoidReturns(s.thn), m - 1, m)
    requires s.els.Else? ==> BranchAt(g3.blocks, g3.lay, AllWithoutVoidReturns(s.els.stmts), m + 1, m)
    requires Returns(s) == Returns(WithoutVoidReturns(s)) && (!Returns(s) ==> m in g4.blocks && g4.blocks[m] == [])
    ensures StmtAt(g4.blocks, g4.lay, WithoutVoidReturns(s), p, Here(Select(g4, m)))
  {
    TestAtGrows(g1.blocks, g4.blocks, g1.lay, g4.lay, s.cond, p.block, p.index, |g1.blocks[p.block]| - 1);
    BranchAtGrows(g2.blocks, g4.blocks, g2.lay, g4.lay, AllWithoutVoidReturns(s.thn), m - 1, m);
    if s.els.Else? {
      BranchAtGrows(g3.blocks, g4.blocks, g3.lay, g4.lay, AllWithoutVoidReturns(s.els.stmts), m + 1, m);
    }
  }

  lemma GenWhileHeadAt(g: Gen)
    requires Ok(g) && g.cur in g.blocks
    ensures var g1, k := GenWhileHead(g), g.nextBlock;
      Since(g, g1) && g1.lay == g.lay && g1.cur == k && k + 3 == g1.nextBlock &&
        InstrAt(g1.blocks, g.cur, Here(g).index, Jump(k)) &&
      forall b | k <= b < k + 3 :: b in g1.blocks && g1.blocks[b] == []
  {
    var k := g.nextBlock;
    assert Since(g, g);
    SinceAddBlocks(g, g, true);
    SinceEmit(g, AddBlocks(g, true), Jump(k));
    assert InstrAt(GenWhileHead(g).blocks, g.cur, Here(g).index, Jump(k));
  }

  /** The loop's blocks are there in `g1`, and its condition has been emitted in `g2`. */
  lemma LoopHead(g: Gen, g1: Gen, g2: Gen, c: Expr, k: nat, o: Operand)
    requires Ok(g) && g.cur in g.blocks && Since(g, g1) && g1.lay == g.lay && g1.cur == k == g.nextBlock &&
      k + 3 == g1.nextBlock && Straight(g1, g2)
    requires forall b | k <= b < k + 3 :: b in g1.blocks && g1.blocks[b] == []
    requires ExprAt(g2.blocks, g2.lay, c, k, 0, Here(g2).index, o) && InstrAt(g1.blocks, g.cur, Here(g).index, Jump(k))
    ensures var r := Emit(g2, CondJump(o, Some(k + 1), Some(k + 2)));
      HeadDone(g, r, c, Pos(k, 0), k + 1, k + 1, k + 2) && r.nextBlock == k + 3 &&
        InstrAt(r.blocks, g.cur, Here(g).index, Jump(k))
  {
    SinceTrans(g, g1, g2);
    var ins := CondJump(o, Some(k + 1), Some(k + 2));
    SinceEmit(g, g2, ins);
    TestClosed(g2, g2, c, Pos(k, 0), o, ins);
  }

  lemma WhileStatementIs(g: Gen, s: Stmt)
    requires s.While?
    ensures
      var g1 := GenWhileHead(g);
      var (g2, o) := ExprCode(Llvm, g1, s.guard);
      var g3 := Select(Emit(g2, CondJump(o, Some(g1.cur + 1), Some(g1.cur + 2))), g1.cur + 1);
      GenStatement(g, s) == (Select(GenBranch(g3, s.body, g1.cur).0, g1.cur + 2), false)
  {
  }

  /** The blocks of a loop and its condition. */
  lemma WhileStart(g: Gen, s: Stmt, vis: set<nat>, n: nat)
    requires s.While? && Accepts(g, s, vis, n)
    ensures
      var g1, k := GenWhileHead(g), g.nextBlock;
      var (g2, o) := ExprCode(Llvm, g1, s.guard);
      Ok(g) && g.cur in g.blocks && Since(g, g1) && g1.lay == g.lay && g1.cur == k && k + 3 == g1.nextBlock &&
        Straight(g1, g2) &&
      (forall b | k <= b < k + 3 :: b in g1.blocks && g1.blocks[b] == []) &&
      ExprAt(g2.blocks, g2.lay, s.guard, k, 0, Here(g2).index, o) && InstrAt(g1.blocks, g.cur, Here(g).index, Jump(k))
  {
    hide IdsBelow, LayoutBelow, ExprAt, LayoutGrows, Grows, DistinctIds, Separate, ExprCode;
    GenWhileHeadAt(g);
    VisibleCodeAt(Llvm, GenWhileHead(g), s.guard, vis);
  }

  lemma {:induction false} GenWhileAt(g: Gen, s: Stmt, vis: set<nat>, n: nat)
    requires s.While? && Accepts(g, s, vis, n)
    ensures var (g1, r) := GenStatement(g, s); Generated(g, s, n, g1, r)
    decreases s, 0
  {
    hide Ok, Since, Straight, Accepts, ExprAt, HeadDone, Generated, GenStatement, GenBranch, ExprCode, InstrAt;
    WhileStatementIs(g, s);
    WhileStart(g, s, vis, n);
    var g1 := GenWhileHead(g);
    var (g2, o) := ExprCode(Llvm, g1, s.guard);
    LoopHead(g, g1, g2, s.guard, g1.cur, o);
    GenBodyAt(g, Emit(g2, CondJump(o, Some(g1.cur + 1), Some(g1.cur + 2))), s, vis, n, g1.cur);
  }

  lemma {:induction false} GenBodyAt(g: Gen, g1: Gen, s: Stmt, vis: set<nat>, n: nat, k: nat)
    requires s.While? && Accepts(g, s, vis, n) && HeadDone(g, g1, s.guard, Pos(k, 0), k + 1, k + 1, k + 2) &&
      g1.nextBlock == k + 3
    requires InstrAt(g1.blocks, g.cur, Here(g).index, Jump(k))
    ensures Generated(g, s, n, Select(GenBranch(Select(g1, k + 1), s.body, k).0, k + 2), false)
    decreases s, 0, 0
  {
    hide GenCompound, GenStatement, GenBranch;
    var h := Select(g1, k + 1);
    GenBranchAt(h, s.body, k, vis, n);
    var (g2, _) := GenBranch(h, s.body, k);
    SinceTrans(g, h, g2);
    LoopClosed(g1, g2, s, Here(g), k);
  }

  lemma LoopClosed(g1: Gen, g2: Gen, s: Stmt, p: Pos, k: nat)
    requires s.While? && Grows(g1.blocks, g2.blocks) && LayoutGrows(g1.lay, g2.lay) &&
      InstrAt(g1.blocks, p.block, p.index, Jump(k))
    requires Tests(g1, s.guard, Pos(k, 0), k + 1, k + 2) &&
      BranchAt(g2.blocks, g2.lay, AllWithoutVoidReturns(s.body), k + 1, k)
    ensures StmtAt(g2.blocks, g2.lay, WithoutVoidReturns(s), p, Pos(k + 2, 0))
  {
    TestAtGrows(g1.blocks, g2.blocks, g1.lay, g2.lay, s.guard, k, 0, |g1.blocks[k]| - 1);
    assert Holds(g1.blocks, p.block, p.index);
    assert LoopAt(g2.blocks, g2.lay, s.guard, AllWithoutVoidReturns(s.body), k, Pos(k + 2, 0));
  }

  lemma {:induction false} GenArgumentCellsAt(g: Gen, params: seq<Type>)
    requires Ok(g) && g.cur == ENTRY && ENTRY in g.blocks && Here(g).index == 2 * |g.lay.params| &&
      g.lay.locals == map[]
    requires ArgsSpilled(g.blocks, g.lay, |g.lay.params|) && OpenBlock(g.blocks[ENTRY])
    ensures var g1 := GenArgumentCells(g, params);
      Ok(g1) && g1.cur == ENTRY && ENTRY in g1.blocks && Here(g1).index == 2 * |g1.lay.params| &&
        g1.lay.locals == map[] &&
      |g1.lay.params| == |g.lay.params| + |params| && ArgsSpilled(g1.blocks, g1.lay, |g1.lay.params|) &&
      g1.blocks.Keys == g.blocks.Keys && g1.nextBlock == g.nextBlock && OpenBlock(g1.blocks[ENTRY])
    decreases |params|
  {
    if params != [] {
      EmitOk(g, Alloc(params[0]));
      var g1 := Emit(g, Alloc(params[0]));
      var store := Store(Cell(g.nextId), ArgValue(|g.lay.params|));
      EmitOk(g1, store);
      AddParamSeparate(g.lay, g.nextId);
      var g2 := Emit(g1, store).(lay := g.lay.(params := g.lay.params + [Cell(g.nextId)]));
      forall i: nat | i < |g2.lay.params|
        ensures SpilledAt(g2.blocks, g2.lay, i)
      {
        assert i < |g.lay.params| ==> SpilledAt(g.blocks, g.lay, i);
      }
      GenArgumentCellsAt(g2, params[1..]);
    }
  }

  /** The generator lowers every program the decorator lets through, up to returned void expressions. */
  lemma GenModuleLowers(p: Program)
    requires Lowerable(p)
    ensures Lowers(Implemented(p), GenModule(p))
  {
    forall f | 0 <= f < |p.funs|
      ensures FunctionAt(Implemented(p).funs[f], GenModule(p).funs[f])
    {
      if !p.funs[f].isExtern {
        GenFunctionAt(p.funs[f]);
      }
    }
  }

  lemma GenFunctionAt(fd: FunDecl)
    requires !fd.isExtern && AllSupported(fd.body) && AllDeclared(fd.body, |fd.params|, {}, 0)
    ensures FunctionAt(fd.(body := AllWithoutVoidReturns(fd.body)), GenFunction(fd))
  {
    EntryOk();
    GenArgumentCellsAt(EMPTY, fd.params);
    var g := GenArgumentCells(EMPTY, fd.params);
    GenCompoundAt(g, fd.body, {}, 0);
    var (g1, r) := GenCompound(g, fd.body);
    SpilledGrows(g, g1);
    AllVoidReturnsShape(fd.body);
    assert !r ==> !Holds(g1.blocks, Here(g1).block, Here(g1).index);
    assert WholeAt(g1.blocks, g1.lay, AllWithoutVoidReturns(fd.body), Pos(ENTRY, 2 * |fd.params|));
    assert BodyAt(g1.blocks, g1.lay, |fd.params|, AllWithoutVoidReturns(fd.body));
  }

  lemma EntryOk()
    ensures Ok(EMPTY) && ArgsSpilled(EMPTY.blocks, EMPTY.lay, 0)
  {
    assert SitedAt(EMPTY.blocks, map[]);
    assert OwnedBy(EMPTY.lay, map[]);
  }

  lemma SpilledGrows(g: Gen, g1: Gen)
    requires Since(g, g1) && ArgsSpilled(g.blocks, g.lay, |g.lay.params|)
    ensures ArgsSpilled(g1.blocks, g1.lay, |g1.lay.params|)
  {
    AppendsGrows(g.blocks, g.cur, g1.blocks);
    forall i: nat | i < |g.lay.params|
      ensures SpilledAt(g1.blocks, g1.lay, i)
    {
      assert SpilledAt(g.blocks, g.lay, i);
      assert Holds(g.blocks, ENTRY, 2 * i) && Holds(g.blocks, ENTRY, 2 * i + 1);
    }
  }
}
