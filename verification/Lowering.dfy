/** What it means for a graph to hold the code of a piece of the program.

    The relation is loose enough for both lowerings: a literal is an instruction or a constant
    operand, an allocation comes before or after its initialiser, a condition may be preceded by a
    comment, and what follows a returning statement is unconstrained.
 */
module Lowering {
  import opened Lang
  import opened Source
  import opened Machine

  /** Where the parameters and locals of a function live. */
  datatype Layout = Layout(params: seq<Ptr>, locals: map<nat, Ptr>)

  function AddrOf(lay: Layout, x: VarRef): Option<Ptr> {
    match x
    case Global(g) => Some(GlobalCell(g))
    case Param(i) => if i < |lay.params| then Some(lay.params[i]) else None
    case Local(d) => if d in lay.locals then Some(lay.locals[d]) else None
  }

  /** `owner` names the one variable that lives at an address: no two share a cell. */
  ghost predicate OwnedBy(lay: Layout, owner: map<Ptr, VarRef>) {
    forall x: VarRef {:trigger AddrOf(lay, x)} ::
      AddrOf(lay, x).Some? && !x.Global? ==>
        !AddrOf(lay, x).value.GlobalCell? && AddrOf(lay, x).value in owner && owner[AddrOf(lay, x).value] == x
  }

  ghost predicate Separate(lay: Layout) {
    exists owner :: OwnedBy(lay, owner)
  }

  datatype Pos = Pos(block: nat, index: nat)

  predicate Holds(g: Graph, b: nat, k: int) {
    b in g && 0 <= k < |g[b]|
  }

  predicate InstrAt(g: Graph, b: nat, k: int, ins: Instr) {
    Holds(g, b, k) && g[b][k].ins == ins
  }

  /** `site` is where the one instruction with a given identity stands. */
  ghost predicate SitedAt(g: Graph, site: map<nat, Pos>) {
    forall b, k {:trigger Holds(g, b, k)} :: Holds(g, b, k) ==> g[b][k].id in site && site[g[b][k].id] == Pos(b, k)
  }

  ghost predicate DistinctIds(g: Graph) {
    exists site :: SitedAt(g, site)
  }

  /** Operator of the target instruction for a source operator. */
  function OpFor(op: BinOp): Op {
    match op
    case Plus => Calc(Add)
    case Minus => Calc(Subtract)
    case Multiply => Calc(Mul)
    case Divide => Calc(Div)
    case Equals => Compare(Eq)
    case NotEquals => Compare(Ne)
    case GreaterThen => Compare(Gt)
    case GreaterEqualsThen => Compare(Ge)
    case LessThen => Compare(Lt)
    case LessEqualsThen => Compare(Le)
    case LogicAnd => Logic(And)
    case LogicOr => Logic(Or)
  }

  /** Block `b` evaluates `e` between instructions `i` and `j`, leaving its value in `o`. */
  ghost predicate ExprAt(g: Graph, lay: Layout, e: Expr, b: nat, i: int, j: int, o: Operand)
    decreases e, 1
  {
    i <= j &&
    match e
    case Lit(v) => (i == j && o == Const(v)) || (j == i + 1 && InstrAt(g, b, i, Literal(v)) && o == Reg(g[b][i].id))
    case Var(x, _) => j == i + 1 && AddrOf(lay, x).Some? && InstrAt(g, b, i, Load(AddrOf(lay, x).value)) &&
      o == Reg(g[b][i].id)
    case Not(e1) =>
      Holds(g, b, j - 1) && o == Reg(g[b][j-1].id) && g[b][j-1].ins.Negate? &&
        ExprAt(g, lay, e1, b, i, j - 1, g[b][j-1].ins.x)
    case Bin(op, e1, e2, _) =>
      Holds(g, b, j - 1) && o == Reg(g[b][j-1].id) && g[b][j-1].ins.Compute? && g[b][j-1].ins.op == OpFor(op) &&
      OperandsAt(g, lay, e, b, i, j - 1, g[b][j-1].ins.l, g[b][j-1].ins.r)
    case Call(f, es, _) =>
      Holds(g, b, j - 1) && o == Reg(g[b][j-1].id) && g[b][j-1].ins.CallFn? && g[b][j-1].ins.fn == f &&
      ArgsAt(g, lay, es, b, i, j - 1, g[b][j-1].ins.args)
  }

  ghost predicate OperandsAt(g: Graph, lay: Layout, e: Expr, b: nat, i: int, j: int, l: Operand, r: Operand)
    requires e.Bin?
    decreases e, 0
  {
    exists k: int :: ExprAt(g, lay, e.lhs, b, i, k, l) && ExprAt(g, lay, e.rhs, b, k, j, r)
  }

  ghost predicate ArgsAt(g: Graph, lay: Layout, es: seq<Expr>, b: nat, i: int, j: int, os: seq<Operand>)
    decreases es
  {
    i <= j && |os| == |es| &&
    if es == [] then i == j
    else exists k: int :: ExprAt(g, lay, es[0], b, i, k, os[0]) && ArgsAt(g, lay, es[1..], b, k, j, os[1..])
  }

  /** From instruction `i` on, block `b` tests `c` and jumps at instruction `k`. */
  ghost predicate TestAt(g: Graph, lay: Layout, c: Expr, b: nat, i: int, k: int) {
    Holds(g, b, k) && g[b][k].ins.CondJump? && g[b][k].ins.whenTrue.Some? && g[b][k].ins.whenFalse.Some? &&
    (ExprAt(g, lay, c, b, i, k, g[b][k].ins.cond) ||
      (InstrAt(g, b, i, Comment) && ExprAt(g, lay, c, b, i + 1, k, g[b][k].ins.cond)))
  }

  /** The branch that starts block `b` runs `ss` and, unless it returns, jumps to block `to`. */
  ghost predicate BranchAt(g: Graph, lay: Layout, ss: seq<Stmt>, b: nat, to: nat)
    decreases ss, 1
  {
    exists q: Pos :: StmtsAt(g, lay, ss, Pos(b, 0), q) && (!AnyReturns(ss) ==> InstrAt(g, q.block, q.index, Jump(to)))
  }

  /** Control that reaches `p` runs `s` and continues at `q`, which matters only if `s` does not return. */
  ghost predicate StmtAt(g: Graph, lay: Layout, s: Stmt, p: Pos, q: Pos)
    decreases s
  {
    match s
    case Let(d, t, e) =>
      q.block == p.block && d in lay.locals && Holds(g, p.block, q.index - 1) && g[p.block][q.index-1].ins.Store? &&
      g[p.block][q.index-1].ins.dst == lay.locals[d] &&
      ( (InstrAt(g, p.block, p.index, Alloc(t)) && lay.locals[d] == Cell(g[p.block][p.index].id) &&
         ExprAt(g, lay, e, p.block, p.index + 1, q.index - 1, g[p.block][q.index-1].ins.x))
     || (InstrAt(g, p.block, q.index - 2, Alloc(t)) && lay.locals[d] == Cell(g[p.block][q.index-2].id) &&
         ExprAt(g, lay, e, p.block, p.index, q.index - 2, g[p.block][q.index-1].ins.x)))
    case Assign(x, e) =>
      q.block == p.block && AddrOf(lay, x).Some? && Holds(g, p.block, q.index - 1) &&
        g[p.block][q.index-1].ins.Store? &&
      g[p.block][q.index-1].ins.dst == AddrOf(lay, x).value &&
      ExprAt(g, lay, e, p.block, p.index, q.index - 1, g[p.block][q.index-1].ins.x)
    case Return(r) =>
      if r.None? then InstrAt(g, p.block, p.index, Ret(None))
      else exists k: int, o :: ExprAt(g, lay, r.value, p.block, p.index, k, o) && InstrAt(g, p.block, k, Ret(Some(o)))
    case If(c, thn, els) =>
      exists k: int :: TestAt(g, lay, c, p.block, p.index, k) &&
        BranchAt(g, lay, thn, g[p.block][k].ins.whenTrue.value, q.block) && (!Returns(s) ==> q.index == 0) &&
        (if els.NoElse? then g[p.block][k].ins.whenFalse.value == q.block
         else BranchAt(g, lay, els.stmts, g[p.block][k].ins.whenFalse.value, q.block))
    case While(c, body) =>
      Holds(g, p.block, p.index) && g[p.block][p.index].ins.Jump? &&
        LoopAt(g, lay, c, body, g[p.block][p.index].ins.to, q)
    case Block(ss) => StmtsAt(g, lay, ss, p, q)
    case Eval(e) => q.block == p.block && exists o :: ExprAt(g, lay, e, p.block, p.index, q.index, o)
  }

  /** Block `head` tests `c`, runs `body` and comes back, or leaves to `q`. */
  ghost predicate LoopAt(g: Graph, lay: Layout, c: Expr, body: seq<Stmt>, head: nat, q: Pos)
    decreases body, 2
  {
    exists k: int :: TestAt(g, lay, c, head, 0, k) &&
      BranchAt(g, lay, body, g[head][k].ins.whenTrue.value, head) && q == Pos(g[head][k].ins.whenFalse.value, 0)
  }

  ghost predicate StmtsAt(g: Graph, lay: Layout, ss: seq<Stmt>, p: Pos, q: Pos)
    decreases ss, 0
  {
    if ss == [] then p == q
    else exists r: Pos :: StmtAt(g, lay, ss[0], p, r) && (!Returns(ss[0]) ==> StmtsAt(g, lay, ss[1..], r, q))
  }

  /** Each argument stays in its own cell: nothing to do on entry. */
  predicate ArgsInPlace(lay: Layout) {
    forall i | 0 <= i < |lay.params| :: lay.params[i] == ArgCell(i)
  }

  /** Instructions `2 * i` and `2 * i + 1` of the entry block store argument `i` into a cell of its own. */
  predicate SpilledAt(g: Graph, lay: Layout, i: nat) {
    i < |lay.params| && Holds(g, ENTRY, 2 * i) && g[ENTRY][2 * i].ins.Alloc? &&
      lay.params[i] == Cell(g[ENTRY][2 * i].id) &&
    InstrAt(g, ENTRY, 2 * i + 1, Store(lay.params[i], ArgValue(i)))
  }

  /** The entry block starts by storing each of the first `n` arguments. */
  ghost predicate ArgsSpilled(g: Graph, lay: Layout, n: nat) {
    n <= |lay.params| && forall i: nat | i < n :: SpilledAt(g, lay, i)
  }

  /** From `p` on the graph holds a whole body: if it can end without a return, nothing follows its code. */
  ghost predicate WholeAt(g: Graph, lay: Layout, body: seq<Stmt>, p: Pos) {
    exists q: Pos :: StmtsAt(g, lay, body, p, q) && (!AnyReturns(body) ==> !Holds(g, q.block, q.index))
  }

  ghost predicate BodyAt(g: Graph, lay: Layout, np: nat, body: seq<Stmt>) {
    DistinctIds(g) && Separate(lay) && |lay.params| == np &&
    ((ArgsInPlace(lay) && WholeAt(g, lay, body, Pos(ENTRY, 0)))
     || (ArgsSpilled(g, lay, np) && WholeAt(g, lay, body, Pos(ENTRY, 2 * np))))
  }

  ghost predicate FunctionAt(fd: FunDecl, fn: Func) {
    fn.isExtern == fd.isExtern &&
    (!fd.isExtern ==> exists lay :: BodyAt(fn.blocks, lay, |fd.params|, fd.body))
  }

  /** `m` is a lowering of `p`. */
  ghost predicate Lowers(p: Program, m: Module) {
    |m.funs| == |p.funs| && forall f {:trigger m.funs[f]} | 0 <= f < |p.funs| :: FunctionAt(p.funs[f], m.funs[f])
  }
}
