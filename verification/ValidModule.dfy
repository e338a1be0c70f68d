/** What LLVM asks of a module beyond its types: blocks that end, and no variable of type void. */
module ValidModule {
  import opened Lang
  import opened Machine
  import opened Lowering
  import opened Growth
  import opened Builder
  import opened ExprGen
  import opened CodeGen
  import opened CodeGenSound
  import opened Typing
  import BlockShape

  /** No declaration the lowering gets to is of type void; it does not get to those behind a return. */
  predicate NoVoidLet(s: Stmt)
    decreases s
  {
    match s
    case Let(_, t, _) => t != Void
    case If(_, thn, els) => NoVoidLets(thn) && (els.Else? ==> NoVoidLets(els.stmts))
    case While(_, body) => NoVoidLets(body)
    case Block(ss) => NoVoidLets(ss)
    case _ => true
  }

  predicate NoVoidLets(ss: seq<Stmt>)
    decreases ss
  {
    ss != [] ==> NoVoidLet(ss[0]) && (!Returns(ss[0]) ==> NoVoidLets(ss[1..]))
  }

  predicate NoVoidIn(fd: FunDecl) {
    Void !in fd.params && (!fd.isExtern ==> NoVoidLets(fd.body))
  }

  /** No parameter and no local variable is of type void. */
  predicate NoVoidVariables(p: Program) {
    forall f | 0 <= f < |p.funs| :: NoVoidIn(p.funs[f])
  }

  predicate NoVoidAlloc(b: seq<Node>) {
    forall k | 0 <= k < |b| :: b[k].ins != Alloc(Void)
  }

  ghost predicate NoVoidAllocs(g: Graph) {
    forall b | b in g :: NoVoidAlloc(g[b])
  }

  ghost predicate ValidFunction(fd: FunDecl) {
    Void !in fd.params &&
    (!fd.isExtern ==> NoVoidAllocs(GenFunction(fd).blocks) && forall b | b in GenFunction(fd).blocks ::
      ClosedBlock(GenFunction(fd).blocks[b]))
  }

  /** The signatures of `p` and the blocks made for it are ones LLVM takes. */
  ghost predicate ValidLlvm(p: Program) {
    forall f | 0 <= f < |p.funs| :: ValidFunction(p.funs[f])
  }

  // Without void variables nothing of type void is allocated.

  lemma EmitKeeps(g: Gen, ins: Instr)
    requires NoVoidAllocs(g.blocks) && ins != Alloc(Void)
    ensures NoVoidAllocs(Emit(g, ins).blocks)
  {
    assert NoVoidAlloc(Code(g, g.cur));
  }

  lemma {:induction false} ExprKeeps(g: Gen, e: Expr)
    requires NoVoidAllocs(g.blocks)
    ensures NoVoidAllocs(ExprCode(Llvm, g, e).0.blocks)
    decreases e
  {
    hide NoVoidAllocs;
    match e
    case Lit(_) =>
    case Var(x, _) => if AddrOf(g.lay, x).Some? { EmitKeeps(g, Load(AddrOf(g.lay, x).value)); }
    case Not(i) =>
      ExprKeeps(g, i);
      var (g1, o) := ExprCode(Llvm, g, i);
      EmitKeeps(g1, Negate(o));
    case Bin(op, lhs, rhs, t) =>
      ExprKeeps(g, lhs);
      var (g1, l) := ExprCode(Llvm, g, lhs);
      ExprKeeps(g1, rhs);
      var (g2, r) := ExprCode(Llvm, g1, rhs);
      var iop := LlvmOp(ResultType(lhs), t, op);
      if iop.Some? { EmitKeeps(g2, Compute(iop.value, l, r)); }
    case Call(f, args, _) =>
      ArgsKeep(g, args);
      var (g1, os) := ArgsCode(Llvm, g, args);
      EmitKeeps(g1, CallFn(f, os));
  }

  lemma {:induction false} ArgsKeep(g: Gen, es: seq<Expr>)
    requires NoVoidAllocs(g.blocks)
    ensures NoVoidAllocs(ArgsCode(Llvm, g, es).0.blocks)
    decreases es
  {
    hide NoVoidAllocs;
    if es != [] {
      ExprKeeps(g, es[0]);
      ArgsKeep(ExprCode(Llvm, g, es[0]).0, es[1..]);
    }
  }

  lemma {:induction false} CompoundKeeps(g: Gen, ss: seq<Stmt>)
    requires NoVoidAllocs(g.blocks) && NoVoidLets(ss)
    ensures GenCompound(g, ss).1 == AnyReturns(ss) && NoVoidAllocs(GenCompound(g, ss).0.blocks)
    decreases ss, 0
  {
    hide NoVoidAllocs, NoVoidLet;
    if ss != [] {
      StatementKeeps(g, ss[0]);
      if !Returns(ss[0]) {
        CompoundKeeps(GenStatement(g, ss[0]).0, ss[1..]);
      }
    }
  }

  lemma {:induction false} StatementKeeps(g: Gen, s: Stmt)
    requires NoVoidAllocs(g.blocks) && NoVoidLet(s)
    ensures GenStatement(g, s).1 == Returns(s) && NoVoidAllocs(GenStatement(g, s).0.blocks)
    decreases s, 1
  {
    hide NoVoidAllocs, ExprCode, NoVoidLets;
    match s
    case Return(r) =>
      if r.None? || ResultType(r.value) == Void {
        EmitKeeps(g, Ret(None));
      } else {
        ExprKeeps(g, r.value);
        var (g1, o) := ExprCode(Llvm, g, r.value);
        EmitKeeps(g1, Ret(Some(o)));
      }
    case Let(_, t, e) =>
      ExprKeeps(g, e);
      var (g1, o) := ExprCode(Llvm, g, e);
      EmitKeeps(g1, Alloc(t));
      EmitKeeps(Emit(g1, Alloc(t)), Store(Cell(g1.nextId), o));
    case Assign(x, e) =>
      ExprKeeps(g, e);
      var (g1, o) := ExprCode(Llvm, g, e);
      var a := AddrOf(g.lay, x);
      if a.Some? { EmitKeeps(g1, Store(a.value, o)); }
    case Block(ss) => CompoundKeeps(g, ss);
    case If(c, _, _) =>
      ExprKeeps(g, c);
      var (g1, o) := ExprCode(Llvm, g, c);
      IfKeeps(g1, o, s);
    case While(c, _) => WhileKeeps(g, s);
    case Eval(e) => ExprKeeps(g, e);
  }

  lemma BlocksKeep(g: Gen, three: bool)
    requires NoVoidAllocs(g.blocks)
    ensures NoVoidAllocs(AddBlocks(g, three).blocks)
  {
  }

  lemma EraseKeeps(g: Gen, b: nat)
    requires NoVoidAllocs(g.blocks)
    ensures NoVoidAllocs(EraseBlock(g, b).blocks)
  {
  }

  lemma {:induction false} BranchKeeps(g: Gen, ss: seq<Stmt>, to: nat)
    requires NoVoidAllocs(g.blocks) && NoVoidLets(ss)
    ensures GenBranch(g, ss, to).1 == AnyReturns(ss) && NoVoidAllocs(GenBranch(g, ss, to).0.blocks)
    decreases ss, 1
  {
    hide NoVoidAllocs;
    CompoundKeeps(g, ss);
    EmitKeeps(GenCompound(g, ss).0, Jump(to));
  }

  lemma {:induction false} IfKeeps(g: Gen, o: Operand, s: Stmt)
    requires s.If? && NoVoidAllocs(g.blocks) && NoVoidLet(s)
    ensures GenIfBlocks(g, o, s).1 == Returns(s) && NoVoidAllocs(GenIfBlocks(g, o, s).0.blocks)
    decreases s, 0
  {
    hide NoVoidAllocs, GenBranch;
    var m := g.nextBlock + 1;
    BlocksKeep(g, s.els.Else?);
    EmitKeeps(AddBlocks(g, s.els.Else?), CondJump(o, Some(m - 1), Some(if s.els.Else? then m + 1 else m)));
    var h := Select(IfTest(g, s.els.Else?, o), m - 1);
    BranchKeeps(h, s.thn, m);
    if s.els.Else? {
      var h2 := Select(GenBranch(h, s.thn, m).0, m + 1);
      BranchKeeps(h2, s.els.stmts, m);
      EraseKeeps(GenBranch(h2, s.els.stmts, m).0, m);
    }
  }

  lemma {:induction false} WhileKeeps(g: Gen, s: Stmt)
    requires s.While? && NoVoidAllocs(g.blocks) && NoVoidLet(s)
    ensures NoVoidAllocs(GenStatement(g, s).0.blocks)
    decreases s, 0
  {
    hide NoVoidAllocs, GenBranch, ExprCode;
    BlocksKeep(g, true);
    EmitKeeps(AddBlocks(g, true), Jump(g.nextBlock));
    var g1 := GenWhileHead(g);
    ExprKeeps(g1, s.guard);
    var (g2, o) := ExprCode(Llvm, g1, s.guard);
    var test := CondJump(o, Some(g1.cur + 1), Some(g1.cur + 2));
    EmitKeeps(g2, test);
    BranchKeeps(Select(Emit(g2, test), g1.cur + 1), s.body, g1.cur);
  }

  lemma {:induction false} CellsKeep(g: Gen, params: seq<Type>)
    requires NoVoidAllocs(g.blocks) && Void !in params
    ensures NoVoidAllocs(GenArgumentCells(g, params).blocks)
    decreases |params|
  {
    hide NoVoidAllocs;
    if params != [] {
      EmitKeeps(g, Alloc(params[0]));
      var g1 := Emit(g, Alloc(params[0]));
      EmitKeeps(g1, Store(Cell(g.nextId), ArgValue(|g.lay.params|)));
      CellsKeep(Emit(g1, Store(Cell(g.nextId), ArgValue(|g.lay.params|))).(lay :=
        g.lay.(params := g.lay.params + [Cell(g.nextId)])), params[1..]);
    }
  }

  // A void variable is allocated.

  lemma VoidHeld(g: Graph, b: nat, k: int)
    requires InstrAt(g, b, k, Alloc(Void))
    ensures !NoVoidAllocs(g)
  {
    assert !NoVoidAlloc(g[b]);
  }

  lemma {:induction false} StmtsHold(g: Graph, lay: Layout, ss: seq<Stmt>, p: Pos, q: Pos)
    requires StmtsAt(g, lay, AllWithoutVoidReturns(ss), p, q) && !NoVoidLets(ss)
    ensures !NoVoidAllocs(g)
    decreases ss, 1
  {
    hide StmtAt, NoVoidAllocs, NoVoidLet;
    var ts := AllWithoutVoidReturns(ss);
    var r: Pos :| StmtAt(g, lay, ts[0], p, r) && (!Returns(ts[0]) ==> StmtsAt(g, lay, ts[1..], r, q));
    VoidReturnsShape(ss[0]);
    if !NoVoidLet(ss[0]) {
      StmtHolds(g, lay, ss[0], p, r);
    } else {
      assert ts[1..] == AllWithoutVoidReturns(ss[1..]);
      StmtsHold(g, lay, ss[1..], r, q);
    }
  }

  lemma {:induction false} BranchHolds(g: Graph, lay: Layout, ss: seq<Stmt>, b: nat, to: nat)
    requires BranchAt(g, lay, AllWithoutVoidReturns(ss), b, to) && !NoVoidLets(ss)
    ensures !NoVoidAllocs(g)
    decreases ss, 2
  {
    hide StmtsAt, NoVoidAllocs, NoVoidLets;
    var ts := AllWithoutVoidReturns(ss);
    var q: Pos :| StmtsAt(g, lay, ts, Pos(b, 0), q) && (!AnyReturns(ts) ==> InstrAt(g, q.block, q.index, Jump(to)));
    StmtsHold(g, lay, ss, Pos(b, 0), q);
  }

  lemma {:induction false} StmtHolds(g: Graph, lay: Layout, s: Stmt, p: Pos, q: Pos)
    requires StmtAt(g, lay, WithoutVoidReturns(s), p, q) && !NoVoidLet(s)
    ensures !NoVoidAllocs(g)
    decreases s
  {
    hide ExprAt, TestAt, StmtsAt, NoVoidAllocs, NoVoidLets;
    match s
    case Let(_, t, _) =>
      if InstrAt(g, p.block, p.index, Alloc(t)) {
        VoidHeld(g, p.block, p.index);
      } else {
        VoidHeld(g, p.block, q.index - 2);
      }
    case If(_, _, _) => IfHolds(g, lay, s, p, q);
    case While(_, _) => WhileHolds(g, lay, s, p, q);
    case Block(ss) => StmtsHold(g, lay, ss, p, q);
  }

  lemma {:induction false} IfHolds(g: Graph, lay: Layout, s: Stmt, p: Pos, q: Pos)
    requires s.If? && StmtAt(g, lay, WithoutVoidReturns(s), p, q) && !NoVoidLet(s)
    ensures !NoVoidAllocs(g)
    decreases s, 0
  {
    hide ExprAt, BranchAt, NoVoidAllocs, NoVoidLets;
    var t := WithoutVoidReturns(s);
    var k: int :| TestAt(g, lay, t.cond, p.block, p.index, k) &&
      BranchAt(g, lay, t.thn, g[p.block][k].ins.whenTrue.value, q.block) && (!Returns(t) ==> q.index == 0) &&
      (if t.els.NoElse? then g[p.block][k].ins.whenFalse.value == q.block
       else BranchAt(g, lay, t.els.stmts, g[p.block][k].ins.whenFalse.value, q.block));
    if !NoVoidLets(s.thn) {
      BranchHolds(g, lay, s.thn, g[p.block][k].ins.whenTrue.value, q.block);
    } else {
      BranchHolds(g, lay, s.els.stmts, g[p.block][k].ins.whenFalse.value, q.block);
    }
  }

  lemma {:induction false} WhileHolds(g: Graph, lay: Layout, s: Stmt, p: Pos, q: Pos)
    requires s.While? && StmtAt(g, lay, WithoutVoidReturns(s), p, q) && !NoVoidLet(s)
    ensures !NoVoidAllocs(g)
    decreases s, 0
  {
    hide ExprAt, BranchAt, NoVoidAllocs, NoVoidLets;
    var t := WithoutVoidReturns(s);
    var head := g[p.block][p.index].ins.to;
    var k: int :| TestAt(g, lay, t.guard, head, 0, k) &&
      BranchAt(g, lay, t.body, g[head][k].ins.whenTrue.value, head) && q == Pos(g[head][k].ins.whenFalse.value, 0);
    BranchHolds(g, lay, s.body, g[head][k].ins.whenTrue.value, head);
  }

  /** A parameter of type void is allocated on entry. */
  lemma {:induction false} CellsHold(g: Gen, params: seq<Type>)
    requires ENTRY in g.blocks && g.cur == ENTRY && (Void in params || !NoVoidAlloc(g.blocks[ENTRY]))
    ensures var g1 := GenArgumentCells(g, params); ENTRY in g1.blocks && !NoVoidAlloc(g1.blocks[ENTRY])
    decreases |params|
  {
    if params != [] {
      var g1 := Emit(Emit(g, Alloc(params[0])), Store(Cell(g.nextId), ArgValue(|g.lay.params|)));
      var n := |g.blocks[ENTRY]|;
      assert g1.blocks[ENTRY][n].ins == Alloc(params[0]);
      assert forall k | 0 <= k < n :: g1.blocks[ENTRY][k] == g.blocks[ENTRY][k];
      CellsHold(g1.(lay := g1.lay.(params := g1.lay.params + [Cell(g.nextId)])), params[1..]);
    }
  }

  lemma NoVoidExactly(fd: FunDecl)
    requires !fd.isExtern && AllSupported(fd.body) && AllDeclared(fd.body, |fd.params|, {}, 0)
    ensures NoVoidAllocs(GenFunction(fd).blocks) <==> NoVoidIn(fd)
  {
    hide GenCompound, GenArgumentCells, StmtsAt, NoVoidLets, Ok;
    var g := GenArgumentCells(EMPTY, fd.params);
    var (g1, r) := GenCompound(g, fd.body);
    EntryOk();
    GenArgumentCellsAt(EMPTY, fd.params);
    GenCompoundAt(g, fd.body, {}, 0);
    if NoVoidIn(fd) {
      CellsKeep(EMPTY, fd.params);
      CompoundKeeps(g, fd.body);
    } else if Void in fd.params {
      CellsHold(EMPTY, fd.params);
      var k :| 0 <= k < |g.blocks[ENTRY]| && g.blocks[ENTRY][k].ins == Alloc(Void);
      VoidHeld(g1.blocks, ENTRY, k);
    } else {
      StmtsHold(g1.blocks, g1.lay, fd.body, Here(g), Here(g1));
    }
  }

  /** LLVM takes the module exactly when all bodies return on every path and no variable is of type void. */
  lemma ValidExactly(p: Program)
    requires Lowerable(p)
    ensures ValidLlvm(p) <==> BodiesReturn(p) && NoVoidVariables(p)
  {
    hide GenFunction, NoVoidAllocs, AllSupported, AllDeclared, AnyReturns, NoVoidLets, ClosedBlock;
    forall f | 0 <= f < |p.funs|
      ensures ValidFunction(p.funs[f]) <==> (!p.funs[f].isExtern ==> AnyReturns(p.funs[f].body)) && NoVoidIn(p.funs[f])
    {
      if !p.funs[f].isExtern {
        NoVoidExactly(p.funs[f]);
        BlockShape.EveryBlockCloses(p.funs[f]);
      }
    }
  }
}
