/** The IR lowering: the generator walks the tree, and its builder appends instructions to the block
    that is currently selected.
 */
module IRGen {
  import opened Lang
  import opened Machine
  import opened Lowering
  import opened Growth
  import opened Builder
  import opened ExprGen

  /** Code for a statement; the insertion point moves to where the next statement goes. */
  function StmtCode(g: Gen, s: Stmt): Gen
    decreases s
  {
    match s
    case Let(d, t, e) =>
      var (g1, o) := ExprCode(IR, Emit(g, Alloc(t)), e);
      AddLocal(Emit(g1, Store(Cell(g.nextId), o)), d, g.nextId)
    case Assign(x, e) =>
      var (g1, o) := ExprCode(IR, g, e);
      var a := AddrOf(g.lay, x);
      if a.Some? then Emit(g1, Store(a.value, o)) else g1
    case Return(r) =>
      if r.None? then Emit(g, Ret(None))
      else
        var (g1, o) := ExprCode(IR, g, r.value);
        Emit(g1, Ret(Some(o)))
    case If(c, thn, els) =>
      var (g1, jump) := IfHead(g, c);
      var g2 := StmtsCode(g1, thn);
      if els.Else? then IfJoin(g2.cur, StmtsCode(ElseHead(g2, jump), els.stmts))
      else NoElseJoin(g2, jump)
    case While(c, body) =>
      var (g1, o, bbCond) := WhileHead(g, c);
      WhileJoin(g, o, bbCond, g1.cur, StmtsCode(g1, body))
    case Block(ss) => StmtsCode(g, ss)
    case Eval(e) => ExprCode(IR, g, e).0
  }

  function StmtsCode(g: Gen, ss: seq<Stmt>): Gen
    decreases ss
  {
    if ss == [] then g else StmtsCode(StmtCode(g, ss[0]), ss[1..])
  }

  /** Condition, unpatched jump, then block. The result selects the then block. */
  function IfHead(g: Gen, c: Expr): (Gen, Pos) {
    var (g1, o) := ExprCode(IR, Emit(g, Comment), c);
    var jump := Here(g1);
    var g2 := AddBlock(Emit(g1, CondJump(o, None, None)));
    (Patch(Select(g2, g1.nextBlock), jump, Some(g1.nextBlock), None), jump)
  }

  /** Else block, selected. */
  function ElseHead(g: Gen, jump: Pos): Gen {
    Patch(Select(AddBlock(g), g.nextBlock), jump, None, Some(g.nextBlock))
  }

  /** Merge block after both branches, which end in `endOfThen` and where `g` stands. */
  function IfJoin(endOfThen: nat, g: Gen): Gen {
    var bbMerge := g.nextBlock;
    var g1 := Emit(AddBlock(g), Jump(bbMerge));
    Select(Emit(Select(g1, endOfThen), Jump(bbMerge)), bbMerge)
  }

  /** Merge block after a then branch only. */
  function NoElseJoin(g: Gen, jump: Pos): Gen {
    var bbMerge := g.nextBlock;
    Select(Emit(Patch(AddBlock(g), jump, None, Some(bbMerge)), Jump(bbMerge)), bbMerge)
  }

  /** Condition block, then body block, selected. */
  function WhileHead(g: Gen, c: Expr): (Gen, Operand, nat) {
    var bbCond := g.nextBlock;
    var (g1, o) := ExprCode(IR, Emit(Select(AddBlock(g), bbCond), Comment), c);
    (Select(AddBlock(g1), g1.nextBlock), o, bbCond)
  }

  /** The jumps that close a loop that started at `before`, when the body has been emitted up to `g`. */
  function WhileJoin(before: Gen, o: Operand, bbCond: nat, bbBody: nat, g: Gen): Gen {
    var g1 := Emit(g, Jump(bbCond));
    var bbAfter := g1.nextBlock;
    var g2 := Emit(Select(AddBlock(g1), before.cur), Jump(bbCond));
    Select(Emit(Select(g2, bbCond), CondJump(o, Some(bbBody), Some(bbAfter))), bbAfter)
  }

  /** What the code of a statement leaves behind. */
  ghost predicate Emitted(g: Gen, s: Stmt, n: nat, g1: Gen) {
    Extends(g, g1) && g1.cur in g1.blocks && Covers(g1.lay, Declares(s), n + Lets(s)) &&
    StmtAt(g1.blocks, g1.lay, s, Here(g), Here(g1))
  }

  ghost predicate AllEmitted(g: Gen, ss: seq<Stmt>, n: nat, g1: Gen) {
    Extends(g, g1) && g1.cur in g1.blocks && Covers(g1.lay, {}, n + LetsIn(ss)) &&
    StmtsAt(g1.blocks, g1.lay, ss, Here(g), Here(g1))
  }

  lemma {:induction false} StmtsCodeAt(g: Gen, ss: seq<Stmt>, vis: set<nat>, n: nat)
    requires AcceptsAll(g, ss, vis, n)
    ensures AllEmitted(g, ss, n, StmtsCode(g, ss))
    decreases ss
  {
    if ss != [] {
      var g1 := StmtCode(g, ss[0]);
      StmtCodeAt(g, ss[0], vis, n);
      StmtsCodeAt(g1, ss[1..], vis + Declares(ss[0]), n + Lets(ss[0]));
      var g2 := StmtsCode(g1, ss[1..]);
      ExtendsTrans(g, g1, g2);
      ExtendsGrows(g1, g2);
      StmtAtGrows(g1.blocks, g2.blocks, g1.lay, g2.lay, ss[0], Here(g), Here(g1));
    } else {
      assert Extends(g, g);
    }
  }

  lemma {:induction false} StmtCodeAt(g: Gen, s: Stmt, vis: set<nat>, n: nat)
    requires Accepts(g, s, vis, n)
    ensures Emitted(g, s, n, StmtCode(g, s))
    decreases s
  {
    match s
    case Let(_, _, _) => LetCodeAt(g, s, vis, n);
    case Assign(x, e) => StoreCodeAt(g, s, vis, n);
    case Return(r) => ReturnCodeAt(g, s, vis, n);
    case If(_, _, _) => IfCodeAt(g, s, vis, n);
    case While(_, _) => WhileCodeAt(g, s, vis, n);
    case Block(ss) => StmtsCodeAt(g, ss, vis, n);
    case Eval(e) => VisibleCodeAt(IR, g, e, vis);
  }

  lemma LetCodeAt(g: Gen, s: Stmt, vis: set<nat>, n: nat)
    requires s.Let? && Accepts(g, s, vis, n)
    ensures Emitted(g, s, n, StmtCode(g, s))
  {
    var g0 := Emit(g, Alloc(s.declType));
    EmitOk(g, Alloc(s.declType));
    VisibleCodeAt(IR, g0, s.init, vis);
    var (g1, o) := ExprCode(IR, g0, s.init);
    var g2 := Emit(g1, Store(Cell(g.nextId), o));
    EmitOk(g1, Store(Cell(g.nextId), o));
    StraightTrans(g, g0, g1);
    StraightTrans(g, g1, g2);
    AddLocalSeparate(g.lay, s.d, g.nextId);
    var g3 := AddLocal(g2, s.d, g.nextId);
    ExprAtGrows(g1.blocks, g3.blocks, g.lay, g3.lay, s.init, g.cur, Here(g0).index, Here(g1).index, o);
  }

  lemma StoreCodeAt(g: Gen, s: Stmt, vis: set<nat>, n: nat)
    requires s.Assign? && Accepts(g, s, vis, n)
    ensures Emitted(g, s, n, StmtCode(g, s))
  {
    VisibleCodeAt(IR, g, s.value, vis);
    var (g1, o) := ExprCode(IR, g, s.value);
    var ins := Store(AddrOf(g.lay, s.target).value, o);
    EmitOk(g1, ins);
    StraightTrans(g, g1, Emit(g1, ins));
    ExprAtGrows(g1.blocks, Emit(g1, ins).blocks, g.lay, g.lay, s.value, g.cur, Here(g).index, Here(g1).index, o);
  }

  lemma ReturnCodeAt(g: Gen, s: Stmt, vis: set<nat>, n: nat)
    requires s.Return? && Accepts(g, s, vis, n)
    ensures Emitted(g, s, n, StmtCode(g, s))
  {
    if s.result.None? {
      EmitOk(g, Ret(None));
    } else {
      VisibleCodeAt(IR, g, s.result.value, vis);
      var (g1, o) := ExprCode(IR, g, s.result.value);
      EmitOk(g1, Ret(Some(o)));
      StraightTrans(g, g1, Emit(g1, Ret(Some(o))));
      ExprAtGrows(g1.blocks, Emit(g1, Ret(Some(o))).blocks, g.lay, g.lay, s.result.value, g.cur, Here(g).index,
        Here(g1).index, o);
    }
  }

  /** From `p` on, a commented condition is tested by the jump at `jump`, which may still lack targets. */
  ghost predicate Testing(g: Graph, lay: Layout, c: Expr, p: Pos, jump: Pos, whenTrue: Option<nat>,
          whenFalse: Option<nat>)
  {
    jump.block == p.block && InstrAt(g, p.block, p.index, Comment) && Holds(g, jump.block, jump.index) &&
    g[jump.block][jump.index].ins.CondJump? &&
    g[jump.block][jump.index].ins.whenTrue == whenTrue && g[jump.block][jump.index].ins.whenFalse == whenFalse &&
    ExprAt(g, lay, c, p.block, p.index + 1, jump.index, g[jump.block][jump.index].ins.cond)
  }

  /** Patching and appending keep the test; only the targets of its jump may have changed. */
  lemma TestingGrows(g: Graph, g1: Graph, lay: Layout, lay1: Layout, c: Expr, p: Pos, jump: Pos, t: Option<nat>,
          f: Option<nat>)
    requires Testing(g, lay, c, p, jump, t, f) && Grows(g, g1) && LayoutGrows(lay, lay1)
    ensures Testing(g1, lay1, c, p, jump, g1[jump.block][jump.index].ins.whenTrue,
      g1[jump.block][jump.index].ins.whenFalse)
    ensures t.Some? ==> g1[jump.block][jump.index].ins.whenTrue == t
    ensures f.Some? ==> g1[jump.block][jump.index].ins.whenFalse == f
  {
    assert Holds(g, p.block, p.index) && Holds(g, jump.block, jump.index);
    ExprAtGrows(g, g1, lay, lay1, c, p.block, p.index + 1, jump.index, g[jump.block][jump.index].ins.cond);
  }

  lemma IfHeadAt(g: Gen, c: Expr, vis: set<nat>)
    requires Ok(g) && g.cur in g.blocks && Supported(c) && ExprDeclared(c, |g.lay.params|, vis) &&
      vis <= g.lay.locals.Keys
    ensures var (g1, jump) := IfHead(g, c);
      Since(g, g1) && g1.lay == g.lay && g1.cur >= g.nextBlock && g1.cur in g1.blocks && Code(g1, g1.cur) == [] &&
      jump.index >= Here(g).index && Testing(g1.blocks, g.lay, c, Here(g), jump, Some(g1.cur), None)
  {
    var g0 := Emit(g, Comment);
    EmitOk(g, Comment);
    VisibleCodeAt(IR, g0, c, vis);
    var (g1, o) := ExprCode(IR, g0, c);
    StraightTrans(g, g0, g1);
    var jump, ins := Here(g1), CondJump(o, None, None);
    var g2 := Emit(g1, ins);
    SinceEmit(g, g1, ins);
    SinceAdd(g, g2);
    var g3 := Select(AddBlock(g2), g1.nextBlock);
    SincePatch(g, g3, jump, Some(g1.nextBlock), None);
    var g4 := Patch(g3, jump, Some(g1.nextBlock), None);
    GrowsTrans(g1.blocks, g2.blocks, g3.blocks);
    GrowsTrans(g1.blocks, g3.blocks, g4.blocks);
    ExprAtGrows(g1.blocks, g4.blocks, g.lay, g.lay, c, g.cur, Here(g).index + 1, jump.index, o);
    assert g4.blocks[g.cur][Here(g).index] == g0.blocks[g.cur][Here(g).index];
  }

  /** A branch emitted up to `q` that then jumps to `to`. */
  lemma BranchClosed(g: Graph, g1: Graph, lay: Layout, lay1: Layout, ss: seq<Stmt>, b: nat, q: Pos, to: nat)
    requires StmtsAt(g, lay, ss, Pos(b, 0), q) && Grows(g, g1) && LayoutGrows(lay, lay1) &&
      InstrAt(g1, q.block, q.index, Jump(to))
    ensures BranchAt(g1, lay1, ss, b, to)
  {
    StmtsAtGrows(g, g1, lay, lay1, ss, Pos(b, 0), q);
  }

  lemma {:induction false} IfCodeAt(g: Gen, s: Stmt, vis: set<nat>, n: nat)
    requires s.If? && Accepts(g, s, vis, n)
    ensures Emitted(g, s, n, StmtCode(g, s))
    decreases s, 0
  {
    IfHeadAt(g, s.cond, vis);
    var (g1, jump) := IfHead(g, s.cond);
    StmtsCodeAt(g1, s.thn, vis, n);
    var g2 := StmtsCode(g1, s.thn);
    SinceTrans(g, g1, g2);
    TestingGrows(g1.blocks, g2.blocks, g.lay, g2.lay, s.cond, Here(g), jump, Some(g1.cur), None);
    assert g2.blocks[g.cur] == g1.blocks[g.cur];
    if s.els.Else? {
      var g3 := ElseHead(g2, jump);
      ElseHeadAt(g, g2, s.cond, jump, g1.cur);
      StmtsCodeAt(g3, s.els.stmts, vis, n + LetsIn(s.thn));
      var g4 := StmtsCode(g3, s.els.stmts);
      SinceTrans(g, g3, g4);
      IfJoinAt(n, g, g1.cur, g2, g3, g4, s, jump);
    } else {
      NoElseJoinAt(n, g, g1.cur, g2, s, jump);
    }
  }

  lemma ElseHeadAt(g: Gen, g2: Gen, c: Expr, jump: Pos, bbThen: nat)
    requires Ok(g) && g.cur in g.blocks && Since(g, g2) && Free(g, g2, g2.cur) && jump.index >= Here(g).index
    requires Testing(g2.blocks, g2.lay, c, Here(g), jump, Some(bbThen), None)
    ensures var g3 := ElseHead(g2, jump);
      Since(g, g3) && Grows(g2.blocks, g3.blocks) && g3.lay == g2.lay && g3.cur == g2.nextBlock &&
        g3.nextBlock > g3.cur && g3.cur in g3.blocks && Code(g3, g3.cur) == [] &&
      (forall b :: b in g2.blocks && b != g.cur ==> b in g3.blocks && g3.blocks[b] == g2.blocks[b]) &&
      Testing(g3.blocks, g3.lay, c, Here(g), jump, Some(bbThen), Some(g3.cur))
  {
    SinceAdd(g, g2);
    var h := Select(AddBlock(g2), g2.nextBlock);
    SincePatch(g, h, jump, None, Some(g2.nextBlock));
    GrowsTrans(g2.blocks, h.blocks, ElseHead(g2, jump).blocks);
    TestingGrows(g2.blocks, ElseHead(g2, jump).blocks, g2.lay, g2.lay, c, Here(g), jump, Some(bbThen), None);
  }

  /** A new merge block, and jumps to it from where `h` stands and from the end of block `other`. */
  lemma JoinJumps(g: Gen, h: Gen, other: nat)
    requires Ok(g) && Since(g, h) && Free(g, h, h.cur) && Free(g, h, other) && h.cur != other
    ensures var m := h.nextBlock;
      var r := Emit(Select(Emit(AddBlock(h), Jump(m)), other), Jump(m));
      Since(g, r) && Grows(h.blocks, r.blocks) && r.lay == h.lay && m in r.blocks && r.blocks[m] == [] &&
      InstrAt(r.blocks, h.cur, |h.blocks[h.cur]|, Jump(m)) && InstrAt(r.blocks, other, |h.blocks[other]|, Jump(m))
  {
    var m := h.nextBlock;
    SinceAdd(g, h);
    var h1 := AddBlock(h);
    SinceEmit(g, h1, Jump(m));
    var h2 := Select(Emit(h1, Jump(m)), other);
    SinceEmit(g, h2, Jump(m));
    GrowsTrans(h.blocks, h1.blocks, h2.blocks);
    GrowsTrans(h.blocks, h2.blocks, Emit(h2, Jump(m)).blocks);
  }

  lemma IfJoinAt(n: nat, g: Gen, bbThen: nat, g2: Gen, g3: Gen, g4: Gen, s: Stmt, jump: Pos)
    requires s.If? && s.els.Else? && Ok(g) && g.cur in g.blocks && Since(g, g4) && Free(g, g4, g4.cur)
    requires Since(g, g2) && Free(g, g2, g2.cur) && g2.cur != g.cur && g3.cur == g2.nextBlock
    requires Grows(g2.blocks, g3.blocks) && LayoutGrows(g2.lay, g3.lay) && g2.nextBlock < g3.nextBlock
    requires g2.cur in g3.blocks && g3.blocks[g2.cur] == g2.blocks[g2.cur]
    requires AllEmitted(g3, s.els.stmts, n + LetsIn(s.thn), g4) && Code(g3, g3.cur) == []
    requires Testing(g3.blocks, g3.lay, s.cond, Here(g), jump, Some(bbThen), Some(g3.cur))
    requires StmtsAt(g2.blocks, g2.lay, s.thn, Pos(bbThen, 0), Here(g2))
    requires Covers(g4.lay, {}, n + Lets(s))
    ensures Emitted(g, s, n, IfJoin(g2.cur, g4))
  {
    var m := g4.nextBlock;
    assert g4.blocks[g2.cur] == g3.blocks[g2.cur] && g4.cur != g2.cur;
    JoinJumps(g, g4, g2.cur);
    var g7 := Emit(Select(Emit(AddBlock(g4), Jump(m)), g2.cur), Jump(m));
    ExtendsGrows(g3, g4);
    GrowsTrans(g3.blocks, g4.blocks, g7.blocks);
    GrowsTrans(g2.blocks, g3.blocks, g7.blocks);
    IfClosed(g2, g3, g4, g7, s, Here(g), jump, bbThen, m);
  }

  /** The jumps are in place behind the branches, emitted in `g2` and `g4`. */
  lemma IfClosed(g2: Gen, g3: Gen, g4: Gen, g7: Gen, s: Stmt, p: Pos, jump: Pos, bbThen: nat, m: nat)
    requires s.If? && s.els.Else? && Grows(g2.blocks, g7.blocks) && Grows(g3.blocks, g7.blocks) &&
      Grows(g4.blocks, g7.blocks)
    requires LayoutGrows(g2.lay, g7.lay) && LayoutGrows(g3.lay, g7.lay) && LayoutGrows(g4.lay, g7.lay)
    requires Testing(g3.blocks, g3.lay, s.cond, p, jump, Some(bbThen), Some(g3.cur))
    requires StmtsAt(g2.blocks, g2.lay, s.thn, Pos(bbThen, 0), Here(g2)) &&
      InstrAt(g7.blocks, g2.cur, Here(g2).index, Jump(m))
    requires StmtsAt(g4.blocks, g4.lay, s.els.stmts, Pos(g3.cur, 0), Here(g4)) &&
      InstrAt(g7.blocks, g4.cur, Here(g4).index, Jump(m))
    ensures StmtAt(g7.blocks, g7.lay, s, p, Pos(m, 0))
  {
    TestingGrows(g3.blocks, g7.blocks, g3.lay, g7.lay, s.cond, p, jump, Some(bbThen), Some(g3.cur));
    BranchClosed(g2.blocks, g7.blocks, g2.lay, g7.lay, s.thn, bbThen, Here(g2), m);
    BranchClosed(g4.blocks, g7.blocks, g4.lay, g7.lay, s.els.stmts, g3.cur, Here(g4), m);
    assert TestAt(g7.blocks, g7.lay, s.cond, p.block, p.index, jump.index);
  }

  lemma NoElseJoinAt(n: nat, g: Gen, bbThen: nat, g2: Gen, s: Stmt, jump: Pos)
    requires s.If? && s.els.NoElse? && Ok(g) && g.cur in g.blocks && Since(g, g2) && Free(g, g2, g2.cur) &&
      g2.cur != g.cur
    requires jump.index >= Here(g).index && Testing(g2.blocks, g2.lay, s.cond, Here(g), jump, Some(bbThen), None)
    requires StmtsAt(g2.blocks, g2.lay, s.thn, Pos(bbThen, 0), Here(g2))
    requires Covers(g2.lay, {}, n + Lets(s))
    ensures Emitted(g, s, n, NoElseJoin(g2, jump))
  {
    var m := g2.nextBlock;
    SinceAdd(g, g2);
    var g3 := AddBlock(g2);
    SincePatch(g, g3, jump, None, Some(m));
    var g4 := Patch(g3, jump, None, Some(m));
    SinceEmit(g, g4, Jump(m));
    var g5 := Emit(g4, Jump(m));
    GrowsTrans(g2.blocks, g3.blocks, g4.blocks);
    GrowsTrans(g2.blocks, g4.blocks, g5.blocks);
    TestingGrows(g2.blocks, g5.blocks, g2.lay, g5.lay, s.cond, Here(g), jump, Some(bbThen), None);
    BranchClosed(g2.blocks, g5.blocks, g2.lay, g5.lay, s.thn, bbThen, Here(g2), m);
    assert TestAt(g5.blocks, g5.lay, s.cond, g.cur, Here(g).index, jump.index);
  }

  lemma WhileHeadAt(g: Gen, c: Expr, vis: set<nat>)
    requires Ok(g) && g.cur in g.blocks && Supported(c) && ExprDeclared(c, |g.lay.params|, vis) &&
      vis <= g.lay.locals.Keys
    ensures var (g1, o, bbCond) := WhileHead(g, c);
      Since(g, g1) && g1.lay == g.lay && bbCond >= g.nextBlock && bbCond in g1.blocks && g1.cur > bbCond &&
        g1.cur in g1.blocks &&
      Code(g1, g1.cur) == [] && g1.blocks[g.cur] == g.blocks[g.cur] && InstrAt(g1.blocks, bbCond, 0, Comment) &&
      ExprAt(g1.blocks, g.lay, c, bbCond, 1, |g1.blocks[bbCond]|, o)
  {
    var bbCond := g.nextBlock;
    assert Since(g, g);
    SinceAdd(g, g);
    var h := Select(AddBlock(g), bbCond);
    SinceEmit(g, h, Comment);
    var h1 := Emit(h, Comment);
    VisibleCodeAt(IR, h1, c, vis);
    var (h2, o) := ExprCode(IR, h1, c);
    SinceTrans(g, h1, h2);
    SinceAdd(g, h2);
    var g1 := Select(AddBlock(h2), h2.nextBlock);
    ExprAtGrows(h2.blocks, g1.blocks, g.lay, g.lay, c, bbCond, 1, |h2.blocks[bbCond]|, o);
    assert h1.blocks[bbCond] <= h2.blocks[bbCond] && h1.blocks[bbCond][0].ins == Comment;
  }

  lemma {:induction false} WhileCodeAt(g: Gen, s: Stmt, vis: set<nat>, n: nat)
    requires s.While? && Accepts(g, s, vis, n)
    ensures Emitted(g, s, n, StmtCode(g, s))
    decreases s, 0
  {
    WhileHeadAt(g, s.guard, vis);
    var (g1, o, bbCond) := WhileHead(g, s.guard);
    StmtsCodeAt(g1, s.body, vis, n);
    var g2 := StmtsCode(g1, s.body);
    SinceTrans(g, g1, g2);
    WhileJoinAt(n, g, g1, g2, s, o, bbCond);
  }

  /** The jump back from where `h` stands, the new block behind the loop, the jump into the loop, and the test. */
  lemma LoopJumps(g: Gen, h: Gen, bbCond: nat, test: Instr)
    requires Ok(g) && Since(g, h) && Free(g, h, h.cur) && bbCond in h.blocks && bbCond >= g.nextBlock &&
      h.cur != bbCond && h.cur != g.cur
    ensures
      var h1 := Select(AddBlock(Emit(h, Jump(bbCond))), g.cur);
      var r := Emit(Select(Emit(h1, Jump(bbCond)), bbCond), test);
      Since(g, r) && Grows(h.blocks, r.blocks) && r.lay == h.lay && h.nextBlock in r.blocks &&
        r.blocks[h.nextBlock] == [] &&
      InstrAt(r.blocks, h.cur, |h.blocks[h.cur]|, Jump(bbCond)) &&
        InstrAt(r.blocks, g.cur, |h.blocks[g.cur]|, Jump(bbCond)) &&
      InstrAt(r.blocks, bbCond, |h.blocks[bbCond]|, test)
  {
    assert g.cur in g.blocks && g.cur < g.nextBlock;
    SinceEmit(g, h, Jump(bbCond));
    var h0 := Emit(h, Jump(bbCond));
    SinceAdd(g, h0);
    var h1 := Select(AddBlock(h0), g.cur);
    SinceEmit(g, h1, Jump(bbCond));
    var h2 := Select(Emit(h1, Jump(bbCond)), bbCond);
    SinceEmit(g, h2, test);
    GrowsTrans(h.blocks, h0.blocks, h1.blocks);
    GrowsTrans(h.blocks, h1.blocks, h2.blocks);
    GrowsTrans(h.blocks, h2.blocks, Emit(h2, test).blocks);
  }

  lemma WhileJoinAt(n: nat, g: Gen, g1: Gen, g2: Gen, s: Stmt, o: Operand, bbCond: nat)
    requires s.While? && Ok(g) && g.cur in g.blocks && Since(g, g1) && Since(g, g2) && Free(g, g2, g2.cur)
    requires bbCond in g1.blocks && g.nextBlock <= bbCond < g1.cur && AllEmitted(g1, s.body, n, g2) &&
      Code(g1, g1.cur) == []
    requires g1.blocks[g.cur] == g.blocks[g.cur]
    requires InstrAt(g1.blocks, bbCond, 0, Comment) &&
      ExprAt(g1.blocks, g1.lay, s.guard, bbCond, 1, |g1.blocks[bbCond]|, o)
    requires Covers(g2.lay, {}, n + Lets(s))
    ensures Emitted(g, s, n, WhileJoin(g, o, bbCond, g1.cur, g2))
  {
    assert g2.blocks[bbCond] == g1.blocks[bbCond] && g2.blocks[g.cur] == g.blocks[g.cur];
    var after := g2.nextBlock;
    var test := CondJump(o, Some(g1.cur), Some(after));
    LoopJumps(g, g2, bbCond, test);
    var g6 := WhileJoin(g, o, bbCond, g1.cur, g2);
    ExtendsGrows(g1, g2);
    GrowsTrans(g1.blocks, g2.blocks, g6.blocks);
    LoopClosed(g1, g2, g6, s, o, bbCond, Here(g), after);
  }

  /** The jumps are in place around the condition, emitted in `g1`, and the body, emitted in `g2`. */
  lemma LoopClosed(g1: Gen, g2: Gen, g6: Gen, s: Stmt, o: Operand, bbCond: nat, p: Pos, after: nat)
    requires s.While? && bbCond in g1.blocks && Grows(g1.blocks, g6.blocks) && Grows(g2.blocks, g6.blocks)
    requires LayoutGrows(g1.lay, g6.lay) && LayoutGrows(g2.lay, g6.lay)
    requires InstrAt(g1.blocks, bbCond, 0, Comment) &&
      ExprAt(g1.blocks, g1.lay, s.guard, bbCond, 1, |g1.blocks[bbCond]|, o)
    requires StmtsAt(g2.blocks, g2.lay, s.body, Pos(g1.cur, 0), Here(g2)) &&
      InstrAt(g6.blocks, g2.cur, Here(g2).index, Jump(bbCond))
    requires InstrAt(g6.blocks, p.block, p.index, Jump(bbCond))
    requires InstrAt(g6.blocks, bbCond, |g1.blocks[bbCond]|, CondJump(o, Some(g1.cur), Some(after)))
    ensures StmtAt(g6.blocks, g6.lay, s, p, Pos(after, 0))
  {
    var k := |g1.blocks[bbCond]|;
    assert Holds(g1.blocks, bbCond, 0);
    ExprAtGrows(g1.blocks, g6.blocks, g1.lay, g6.lay, s.guard, bbCond, 1, k, o);
    BranchClosed(g2.blocks, g6.blocks, g2.lay, g6.lay, s.body, g1.cur, Here(g2), bbCond);
    assert TestAt(g6.blocks, g6.lay, s.guard, bbCond, 0, k);
    assert LoopAt(g6.blocks, g6.lay, s.guard, s.body, bbCond, Pos(after, 0));
  }

  function ArgLayout(n: nat): Layout {
    Layout(seq(n, i requires 0 <= i < n => ArgCell(i)), map[])
  }

  /** The entry block and the layout of a function before its body is visited: an argument is its own cell. */
  function FunctionStart(fd: FunDecl): Gen {
    EMPTY.(lay := ArgLayout(|fd.params|))
  }

  function FunctionCode(fd: FunDecl): Func {
    Func(fd.isExtern, if fd.isExtern then EMPTY.blocks else StmtsCode(FunctionStart(fd), fd.body).blocks)
  }

  function ModuleCode(p: Program): Module {
    Module(seq(|p.funs|, i requires 0 <= i < |p.funs| => FunctionCode(p.funs[i])))
  }

  lemma FunctionStartOk(fd: FunDecl)
    ensures Ok(FunctionStart(fd))
  {
    var g := FunctionStart(fd);
    assert SitedAt(g.blocks, map[]);
    assert OwnedBy(g.lay, map i | 0 <= i < |fd.params| :: ArgCell(i) := Param(i));
  }

  /** The generator lowers every program the decorator lets through. */
  lemma ModuleCodeLowers(p: Program)
    requires Lowerable(p)
    ensures Lowers(p, ModuleCode(p))
  {
    forall f | 0 <= f < |p.funs|
      ensures FunctionAt(p.funs[f], ModuleCode(p).funs[f])
    {
      var fd := p.funs[f];
      if !fd.isExtern {
        var g := FunctionStart(fd);
        FunctionStartOk(fd);
        StmtsCodeAt(g, fd.body, {}, 0);
        var g1 := StmtsCode(g, fd.body);
        assert !Holds(g1.blocks, Here(g1).block, Here(g1).index);
        assert WholeAt(g1.blocks, g1.lay, fd.body, Pos(ENTRY, 0));
        assert BodyAt(g1.blocks, g1.lay, |fd.params|, fd.body);
      }
    }
  }
}
