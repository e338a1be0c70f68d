/** Code that is in place stays in place while a generator goes on appending instructions, adding
    blocks and patching jump targets.
 */
module Growth {
  import opened Lang
  import opened Machine
  import opened Lowering

  predicate Patched(a: Option<nat>, b: Option<nat>) {
    a.None? || a == b
  }

  /** `b` is `a`, or `a` with jump targets filled in. */
  predicate Refines(a: Node, b: Node) {
    a == b ||
    (a.id == b.id && a.ins.CondJump? && b.ins.CondJump? && a.ins.cond == b.ins.cond &&
     Patched(a.ins.whenTrue, b.ins.whenTrue) && Patched(a.ins.whenFalse, b.ins.whenFalse))
  }

  ghost predicate Grows(g: Graph, g1: Graph) {
    forall b, k {:trigger Holds(g, b, k)} :: Holds(g, b, k) ==> Holds(g1, b, k) && Refines(g[b][k], g1[b][k])
  }

  predicate LayoutGrows(lay: Layout, lay1: Layout) {
    lay.params == lay1.params && forall d :: d in lay.locals ==> d in lay1.locals && lay1.locals[d] == lay.locals[d]
  }

  lemma GrowsTrans(g: Graph, g1: Graph, g2: Graph)
    requires Grows(g, g1) && Grows(g1, g2)
    ensures Grows(g, g2)
  {
    forall b, k | Holds(g, b, k)
      ensures Holds(g2, b, k) && Refines(g[b][k], g2[b][k])
    {
      assert Holds(g1, b, k);
    }
  }

  /** Appending to block `cur` and adding blocks; the other blocks stay as they are. */
  ghost predicate AppendsTo(g: Graph, cur: nat, g1: Graph) {
    cur in g && g.Keys <= g1.Keys && g[cur] <= g1[cur] && forall b :: b in g && b != cur ==> g1[b] == g[b]
  }

  lemma AppendsGrows(g: Graph, cur: nat, g1: Graph)
    requires AppendsTo(g, cur, g1)
    ensures Grows(g, g1)
  {
  }

  lemma {:induction false} ExprAtGrows(g: Graph, g1: Graph, lay: Layout, lay1: Layout, e: Expr, b: nat, i: int, j: int,
          o: Operand)
    requires Grows(g, g1) && LayoutGrows(lay, lay1) && ExprAt(g, lay, e, b, i, j, o)
    ensures ExprAt(g1, lay1, e, b, i, j, o)
    decreases e, 1
  {
    match e
    case Lit(_) =>
      assert i < j ==> Holds(g, b, i);
    case Var(_, _) =>
      assert Holds(g, b, i);
    case Not(e1) =>
      ExprAtGrows(g, g1, lay, lay1, e1, b, i, j - 1, g[b][j-1].ins.x);
    case Bin(op, e1, e2, _) =>
      OperandsAtGrows(g, g1, lay, lay1, e, b, i, j - 1, g[b][j-1].ins.l, g[b][j-1].ins.r);
    case Call(f, es, _) =>
      ArgsAtGrows(g, g1, lay, lay1, es, b, i, j - 1, g[b][j-1].ins.args);
  }

  lemma {:induction false} OperandsAtGrows(g: Graph, g1: Graph, lay: Layout, lay1: Layout, e: Expr, b: nat, i: int,
          j: int, l: Operand, r: Operand)
    requires Grows(g, g1) && LayoutGrows(lay, lay1) && e.Bin? && OperandsAt(g, lay, e, b, i, j, l, r)
    ensures OperandsAt(g1, lay1, e, b, i, j, l, r)
    decreases e, 0
  {
    var k: int :| ExprAt(g, lay, e.lhs, b, i, k, l) && ExprAt(g, lay, e.rhs, b, k, j, r);
    ExprAtGrows(g, g1, lay, lay1, e.lhs, b, i, k, l);
    ExprAtGrows(g, g1, lay, lay1, e.rhs, b, k, j, r);
  }

  lemma {:induction false} ArgsAtGrows(g: Graph, g1: Graph, lay: Layout, lay1: Layout, es: seq<Expr>, b: nat, i: int,
          j: int, os: seq<Operand>)
    requires Grows(g, g1) && LayoutGrows(lay, lay1) && ArgsAt(g, lay, es, b, i, j, os)
    ensures ArgsAt(g1, lay1, es, b, i, j, os)
    decreases es
  {
    if es != [] {
      var k: int :| ExprAt(g, lay, es[0], b, i, k, os[0]) && ArgsAt(g, lay, es[1..], b, k, j, os[1..]);
      ExprAtGrows(g, g1, lay, lay1, es[0], b, i, k, os[0]);
      ArgsAtGrows(g, g1, lay, lay1, es[1..], b, k, j, os[1..]);
    }
  }

  lemma TestAtGrows(g: Graph, g1: Graph, lay: Layout, lay1: Layout, c: Expr, b: nat, i: int, k: int)
    requires Grows(g, g1) && LayoutGrows(lay, lay1) && TestAt(g, lay, c, b, i, k)
    ensures TestAt(g1, lay1, c, b, i, k)
    ensures g1[b][k].ins == g[b][k].ins
  {
    var o := g[b][k].ins.cond;
    if ExprAt(g, lay, c, b, i, k, o) {
      ExprAtGrows(g, g1, lay, lay1, c, b, i, k, o);
    } else {
      assert Holds(g, b, i);
      ExprAtGrows(g, g1, lay, lay1, c, b, i + 1, k, o);
    }
  }

  lemma {:induction false} BranchAtGrows(g: Graph, g1: Graph, lay: Layout, lay1: Layout, ss: seq<Stmt>, b: nat, to: nat)
    requires Grows(g, g1) && LayoutGrows(lay, lay1) && BranchAt(g, lay, ss, b, to)
    ensures BranchAt(g1, lay1, ss, b, to)
    decreases ss, 1
  {
    var q: Pos :| StmtsAt(g, lay, ss, Pos(b, 0), q) && (!AnyReturns(ss) ==> InstrAt(g, q.block, q.index, Jump(to)));
    StmtsAtGrows(g, g1, lay, lay1, ss, Pos(b, 0), q);
    assert !AnyReturns(ss) ==> Holds(g, q.block, q.index);
  }

  lemma {:induction false} StmtsAtGrows(g: Graph, g1: Graph, lay: Layout, lay1: Layout, ss: seq<Stmt>, p: Pos, q: Pos)
    requires Grows(g, g1) && LayoutGrows(lay, lay1) && StmtsAt(g, lay, ss, p, q)
    ensures StmtsAt(g1, lay1, ss, p, q)
    decreases ss, 0
  {
    if ss != [] {
      var r: Pos :| StmtAt(g, lay, ss[0], p, r) && (!Returns(ss[0]) ==> StmtsAt(g, lay, ss[1..], r, q));
      StmtAtGrows(g, g1, lay, lay1, ss[0], p, r);
      if !Returns(ss[0]) {
        StmtsAtGrows(g, g1, lay, lay1, ss[1..], r, q);
      }
    }
  }

  lemma {:induction false} LoopAtGrows(g: Graph, g1: Graph, lay: Layout, lay1: Layout, c: Expr, body: seq<Stmt>,
          head: nat, q: Pos)
    requires Grows(g, g1) && LayoutGrows(lay, lay1) && LoopAt(g, lay, c, body, head, q)
    ensures LoopAt(g1, lay1, c, body, head, q)
    decreases body, 2
  {
    var k: int :| TestAt(g, lay, c, head, 0, k) &&
      BranchAt(g, lay, body, g[head][k].ins.whenTrue.value, head) && q == Pos(g[head][k].ins.whenFalse.value, 0);
    TestAtGrows(g, g1, lay, lay1, c, head, 0, k);
    BranchAtGrows(g, g1, lay, lay1, body, g[head][k].ins.whenTrue.value, head);
  }

  lemma {:induction false} StmtAtGrows(g: Graph, g1: Graph, lay: Layout, lay1: Layout, s: Stmt, p: Pos, q: Pos)
    requires Grows(g, g1) && LayoutGrows(lay, lay1) && StmtAt(g, lay, s, p, q)
    ensures StmtAt(g1, lay1, s, p, q)
    decreases s
  {
    match s
    case Let(d, t, e) =>
      LetAtGrows(g, g1, lay, lay1, s, p, q);
    case Assign(x, e) =>
      ExprAtGrows(g, g1, lay, lay1, e, p.block, p.index, q.index - 1, g[p.block][q.index-1].ins.x);
    case Return(r) =>
      if r.Some? {
        var k: int, o :| ExprAt(g, lay, r.value, p.block, p.index, k, o) && InstrAt(g, p.block, k, Ret(Some(o)));
        ExprAtGrows(g, g1, lay, lay1, r.value, p.block, p.index, k, o);
      }
    case If(c, thn, els) =>
      IfAtGrows(g, g1, lay, lay1, s, p, q);
    case While(c, body) =>
      LoopAtGrows(g, g1, lay, lay1, c, body, g[p.block][p.index].ins.to, q);
    case Block(ss) =>
      StmtsAtGrows(g, g1, lay, lay1, ss, p, q);
    case Eval(e) =>
      var o :| ExprAt(g, lay, e, p.block, p.index, q.index, o);
      ExprAtGrows(g, g1, lay, lay1, e, p.block, p.index, q.index, o);
  }

  lemma LetAtGrows(g: Graph, g1: Graph, lay: Layout, lay1: Layout, s: Stmt, p: Pos, q: Pos)
    requires s.Let? && Grows(g, g1) && LayoutGrows(lay, lay1) && StmtAt(g, lay, s, p, q)
    ensures StmtAt(g1, lay1, s, p, q)
  {
    var o := g[p.block][q.index-1].ins.x;
    if InstrAt(g, p.block, p.index, Alloc(s.declType)) && lay.locals[s.d] == Cell(g[p.block][p.index].id) &&
       ExprAt(g, lay, s.init, p.block, p.index + 1, q.index - 1, o) {
      ExprAtGrows(g, g1, lay, lay1, s.init, p.block, p.index + 1, q.index - 1, o);
    } else {
      assert Holds(g, p.block, q.index - 2);
      ExprAtGrows(g, g1, lay, lay1, s.init, p.block, p.index, q.index - 2, o);
    }
  }

  lemma {:induction false} IfAtGrows(g: Graph, g1: Graph, lay: Layout, lay1: Layout, s: Stmt, p: Pos, q: Pos)
    requires s.If? && Grows(g, g1) && LayoutGrows(lay, lay1) && StmtAt(g, lay, s, p, q)
    ensures StmtAt(g1, lay1, s, p, q)
    decreases s, 0
  {
    var k: int :| TestAt(g, lay, s.cond, p.block, p.index, k) &&
      BranchAt(g, lay, s.thn, g[p.block][k].ins.whenTrue.value, q.block) && (!Returns(s) ==> q.index == 0) &&
      (if s.els.NoElse? then g[p.block][k].ins.whenFalse.value == q.block
       else BranchAt(g, lay, s.els.stmts, g[p.block][k].ins.whenFalse.value, q.block));
    TestAtGrows(g, g1, lay, lay1, s.cond, p.block, p.index, k);
    BranchAtGrows(g, g1, lay, lay1, s.thn, g[p.block][k].ins.whenTrue.value, q.block);
    if s.els.Else? {
      BranchAtGrows(g, g1, lay, lay1, s.els.stmts, g[p.block][k].ins.whenFalse.value, q.block);
    }
  }

  /** Every instruction identity is below `n`, and no two instructions share one. */
  ghost predicate IdsBelow(g: Graph, n: nat) {
    DistinctIds(g) && forall b, k {:trigger Holds(g, b, k)} :: Holds(g, b, k) ==> g[b][k].id < n
  }

  lemma AppendKeepsIds(g: Graph, cur: nat, n: nat, ins: Instr)
    requires IdsBelow(g, n) && cur in g
    ensures IdsBelow(g[cur := g[cur] + [Node(n, ins)]], n + 1)
  {
    var g1 := g[cur := g[cur] + [Node(n, ins)]];
    var site :| SitedAt(g, site);
    var site1 := site[n := Pos(cur, |g[cur]|)];
    forall b, k | Holds(g1, b, k)
      ensures g1[b][k].id in site1 && site1[g1[b][k].id] == Pos(b, k) && g1[b][k].id < n + 1
    {
      assert Holds(g, b, k) || (b == cur && k == |g[cur]|);
    }
    assert SitedAt(g1, site1);
  }

  /** Blocks and identities that `g1` does not have in `g` cannot hurt it: dropping an empty block, adding
      one, and patching keep identities distinct. */
  lemma SameIds(g: Graph, g1: Graph, n: nat)
    requires IdsBelow(g, n)
    requires forall b, k {:trigger Holds(g1, b, k)} :: Holds(g1, b, k) ==> Holds(g, b, k) && g1[b][k].id == g[b][k].id
    ensures IdsBelow(g1, n)
  {
    var site :| SitedAt(g, site);
    assert SitedAt(g1, site);
  }

  /** Every cell of the layout belongs to an allocation with an identity below `n`. */
  ghost predicate LayoutBelow(lay: Layout, n: nat) {
    Separate(lay) &&
    (forall i | 0 <= i < |lay.params| :: lay.params[i].Cell? ==> lay.params[i].id < n) &&
    (forall d | d in lay.locals :: lay.locals[d].Cell? && lay.locals[d].id < n)
  }

  lemma AddLocalSeparate(lay: Layout, d: nat, n: nat)
    requires LayoutBelow(lay, n)
    ensures LayoutBelow(lay.(locals := lay.locals[d := Cell(n)]), n + 1)
  {
    var lay1 := lay.(locals := lay.locals[d := Cell(n)]);
    var owner :| OwnedBy(lay, owner);
    var owner1 := owner[Cell(n) := Local(d)];
    forall x: VarRef | AddrOf(lay1, x).Some? && !x.Global?
      ensures !AddrOf(lay1, x).value.GlobalCell? && AddrOf(lay1, x).value in owner1 &&
        owner1[AddrOf(lay1, x).value] == x
    {
      assert x == Local(d) || AddrOf(lay, x) == AddrOf(lay1, x);
    }
    assert OwnedBy(lay1, owner1);
  }

  lemma AddParamSeparate(lay: Layout, n: nat)
    requires LayoutBelow(lay, n)
    ensures LayoutBelow(lay.(params := lay.params + [Cell(n)]), n + 1)
  {
    var lay1 := lay.(params := lay.params + [Cell(n)]);
    var owner :| OwnedBy(lay, owner);
    var owner1 := owner[Cell(n) := Param(|lay.params|)];
    forall x: VarRef | AddrOf(lay1, x).Some? && !x.Global?
      ensures !AddrOf(lay1, x).value.GlobalCell? && AddrOf(lay1, x).value in owner1 &&
        owner1[AddrOf(lay1, x).value] == x
    {
      assert x == Param(|lay.params|) || AddrOf(lay, x) == AddrOf(lay1, x);
    }
    assert OwnedBy(lay1, owner1);
  }
}
