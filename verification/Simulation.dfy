/** Every lowering of a program does what the program does: a run of the source is matched, outcome
    for outcome, by a run of the machine.
 */
module Simulation {
  import opened Lang
  import opened Source
  import opened Machine
  import opened Lowering

  /** A program, a lowering of it, and the host both run on. */
  datatype Context = Context(p: Program, m: Module, h: Host)

  ghost predicate Ready(x: Context) {
    Lowers(x.p, x.m)
  }

  /** The activation runs a graph whose instructions have distinct identities. */
  ghost predicate Hosted(x: Context, fr: Frame, lay: Layout) {
    fr.fn < |x.m.funs| && DistinctIds(x.m.funs[fr.fn].blocks) && Separate(lay)
  }

  function GraphOf(x: Context, fr: Frame): Graph
    requires fr.fn < |x.m.funs|
  {
    x.m.funs[fr.fn].blocks
  }

  function Go(x: Context, fr: Frame, below: Stack, w: World, n: nat): Config {
    Run(x.m, x.h, Running(fr, below, w), n)
  }

  /** The cells hold the values of the source variables. */
  ghost predicate Agrees(lay: Layout, env: Env, cells: map<Ptr, Value>) {
    forall v: VarRef :: v in env ==>
      !v.Global? && AddrOf(lay, v).Some? && !AddrOf(lay, v).value.GlobalCell? && AddrOf(lay, v).value in cells &&
        cells[AddrOf(lay, v).value] == env[v]
  }

  /** Registers of block `b` below instruction `i` are still what they were. */
  ghost predicate Keeps(g: Graph, b: nat, i: int, before: map<nat, Value>, after: map<nat, Value>) {
    forall k :: Holds(g, b, k) && k < i && g[b][k].id in before ==>
      g[b][k].id in after && after[g[b][k].id] == before[g[b][k].id]
  }

  /** The operand is a constant or was computed in block `b` below instruction `j`. */
  ghost predicate Settled(g: Graph, b: nat, j: int, o: Operand) {
    o.Const? || (o.Reg? && exists k :: Holds(g, b, k) && k < j && g[b][k].id == o.id)
  }

  lemma OpForMeans(h: Host, op: BinOp, a: Value, b: Value)
    ensures ApplyOp(h, OpFor(op), a, b) == Apply(h, op, a, b)
  {
  }

  /** A run that goes on from where another one got to. */
  lemma Chain(x: Context, fr: Frame, below: Stack, w: World, n: nat, fr1: Frame, w1: World, n1: nat)
    requires Go(x, fr, below, w, n) == Running(fr1, below, w1)
    ensures Go(x, fr, below, w, n + n1) == Go(x, fr1, below, w1, n1)
    ensures Go(x, fr1, below, w1, 1) == Step(x.m, x.h, Running(fr1, below, w1))
  {
    RunAdd(x.m, x.h, Running(fr, below, w), n, n1);
    assert Run(x.m, x.h, Step(x.m, x.h, Running(fr1, below, w1)), 0) == Step(x.m, x.h, Running(fr1, below, w1));
  }

  lemma KeepsOn(g: Graph, b: nat, i: int, j: int, r0: map<nat, Value>, r1: map<nat, Value>, r2: map<nat, Value>)
    requires i <= j && Keeps(g, b, i, r0, r1) && Keeps(g, b, j, r1, r2)
    ensures Keeps(g, b, i, r0, r2)
  {
  }

  /** What is settled survives code that keeps the registers below it. */
  lemma SettledKept(g: Graph, b: nat, i: int, o: Operand, fr: Frame, regs: map<nat, Value>)
    requires Settled(g, b, i, o) && Keeps(g, b, i, fr.regs, regs) && OperandValue(o, fr).Some?
    ensures OperandValue(o, fr.(regs := regs)) == OperandValue(o, fr)
  {
  }

  /** Writing the result of instruction `j - 1` keeps what is settled below it, and settles the result. */
  lemma WriteKeeps(g: Graph, b: nat, i: int, j: int, before: map<nat, Value>, mid: map<nat, Value>, v: Value)
    requires DistinctIds(g) && Holds(g, b, j - 1) && i < j && Keeps(g, b, i, before, mid)
    ensures Keeps(g, b, i, before, mid[g[b][j-1].id := v]) && Settled(g, b, j, Reg(g[b][j-1].id))
  {
  }

  /** Outcome of running the code of an expression. */
  ghost predicate ExprDone(x: Context, r: Res<Value>, fr: Frame, below: Stack, w: World, fuel: nat, j: int, o: Operand,
          n: nat, regs: map<nat, Value>)
    requires fr.fn < |x.m.funs|
  {
    var g, c := GraphOf(x, fr), Go(x, fr, below, w, n);
    match r
    case Ok(v, w1) =>
      j >= 0 && c == Running(fr.(pc := j, regs := regs), below, w1) && Keeps(g, fr.block, fr.pc, fr.regs, regs) &&
      Settled(g, fr.block, j, o) && OperandValue(o, fr.(pc := j, regs := regs)) == Some(v)
    case Fault(w1) => c == Faulted(w1)
    case OutOfFuel => n >= fuel && c.Running?
    case FellOff => c == Wrong
    case Stuck => true
  }

  ghost predicate ArgsDone(x: Context, r: Res<seq<Value>>, fr: Frame, below: Stack, w: World, fuel: nat, j: int,
          os: seq<Operand>, n: nat, regs: map<nat, Value>)
    requires fr.fn < |x.m.funs|
  {
    var g, c := GraphOf(x, fr), Go(x, fr, below, w, n);
    match r
    case Ok(vs, w1) =>
      j >= 0 && c == Running(fr.(pc := j, regs := regs), below, w1) && Keeps(g, fr.block, fr.pc, fr.regs, regs) &&
      OperandValues(os, fr.(pc := j, regs := regs)) == Some(vs)
    case Fault(w1) => c == Faulted(w1)
    case OutOfFuel => n >= fuel && c.Running?
    case FellOff => c == Wrong
    case Stuck => true
  }

  lemma {:induction false} SimExpr(x: Context, lay: Layout, e: Expr, env: Env, fr: Frame, below: Stack, w: World,
          fuel: nat, j: int, o: Operand)
      returns (n: nat, regs: map<nat, Value>)
    requires Ready(x) && Hosted(x, fr, lay) && Agrees(lay, env, fr.cells)
    requires ExprAt(GraphOf(x, fr), lay, e, fr.block, fr.pc, j, o)
    ensures ExprDone(x, EvalExpr(x.p, x.h, e, env, w, fuel), fr, below, w, fuel, j, o, n, regs)
    decreases fuel, 1, e, 2
  {
    hide Lowers, BodyAt, DistinctIds, Separate, OwnedBy;
    match e
    case Lit(_) => n, regs := SimAtom(x, lay, e, env, fr, below, w, fuel, j, o);
    case Var(_, _) => n, regs := SimAtom(x, lay, e, env, fr, below, w, fuel, j, o);
    case Not(_) => n, regs := SimNot(x, lay, e, env, fr, below, w, fuel, j, o);
    case Bin(_, _, _, _) => n, regs := SimBin(x, lay, e, env, fr, below, w, fuel, j, o);
    case Call(_, _, _) => n, regs := SimCall(x, lay, e, env, fr, below, w, fuel, j, o);
  }

  lemma SimAtom(x: Context, lay: Layout, e: Expr, env: Env, fr: Frame, below: Stack, w: World, fuel: nat, j: int,
          o: Operand)
      returns (n: nat, regs: map<nat, Value>)
    requires (e.Lit? || e.Var?) && Hosted(x, fr, lay) && Agrees(lay, env, fr.cells)
    requires ExprAt(GraphOf(x, fr), lay, e, fr.block, fr.pc, j, o)
    ensures ExprDone(x, EvalExpr(x.p, x.h, e, env, w, fuel), fr, below, w, fuel, j, o, n, regs)
  {
    hide Lowers, BodyAt, DistinctIds, Separate, OwnedBy;
    var g: Graph := GraphOf(x, fr);
    n, regs := 0, fr.regs;
    var v := EvalExpr(x.p, x.h, e, env, w, fuel);
    if j > fr.pc && v.Ok? {
      n, regs := 1, fr.regs[g[fr.block][fr.pc].id := v.value];
      Chain(x, fr, below, w, 0, fr, w, 1);
      WriteKeeps(g, fr.block, fr.pc, j, fr.regs, fr.regs, v.value);
    }
  }

  lemma {:induction false} SimNot(x: Context, lay: Layout, e: Expr, env: Env, fr: Frame, below: Stack, w: World,
          fuel: nat, j: int, o: Operand)
      returns (n: nat, regs: map<nat, Value>)
    requires e.Not? && Ready(x) && Hosted(x, fr, lay) && Agrees(lay, env, fr.cells)
    requires ExprAt(GraphOf(x, fr), lay, e, fr.block, fr.pc, j, o)
    ensures ExprDone(x, EvalExpr(x.p, x.h, e, env, w, fuel), fr, below, w, fuel, j, o, n, regs)
    decreases fuel, 1, e, 1
  {
    hide Lowers, BodyAt, DistinctIds, Separate, OwnedBy;
    var g: Graph := GraphOf(x, fr);
    n, regs := SimExpr(x, lay, e.inner, env, fr, below, w, fuel, j - 1, g[fr.block][j-1].ins.x);
    var r := EvalExpr(x.p, x.h, e.inner, env, w, fuel);
    if r.Ok? && r.value.VBool? {
      n, regs := LastStep(x, fr, below, w, j, n, regs, r.world, VBool(!r.value.b));
    }
  }

  /** The operands have run; the machine now computes `v` at instruction `j - 1`. */
  lemma LastStep(x: Context, fr: Frame, below: Stack, w: World, j: int, n: nat, regs: map<nat, Value>, w1: World,
          v: Value)
      returns (n1: nat, regs1: map<nat, Value>)
    requires fr.fn < |x.m.funs| && DistinctIds(GraphOf(x, fr)) && Holds(GraphOf(x, fr), fr.block, j - 1) && fr.pc < j
    requires Go(x, fr, below, w, n) == Running(fr.(pc := j - 1, regs := regs), below, w1)
    requires Keeps(GraphOf(x, fr), fr.block, fr.pc, fr.regs, regs)
    ensures n1 == n + 1 && Go(x, fr, below, w, n1) == Step(x.m, x.h, Running(fr.(pc := j - 1, regs := regs), below, w1))
    ensures regs1 == regs[GraphOf(x, fr)[fr.block][j-1].id := v] &&
      Keeps(GraphOf(x, fr), fr.block, fr.pc, fr.regs, regs1)
    ensures Settled(GraphOf(x, fr), fr.block, j, Reg(GraphOf(x, fr)[fr.block][j-1].id))
  {
    var g: Graph := GraphOf(x, fr);
    n1, regs1 := n + 1, regs[g[fr.block][j-1].id := v];
    Chain(x, fr, below, w, n, fr.(pc := j - 1, regs := regs), w1, 1);
    WriteKeeps(g, fr.block, fr.pc, j, fr.regs, regs, v);
  }

  lemma ComputeStep(x: Context, fr: Frame, below: Stack, w: World, op: BinOp, a: Value, b: Value)
    requires HasNode(x.m, fr) && NodeAt(x.m, fr).ins.Compute? && NodeAt(x.m, fr).ins.op == OpFor(op)
    requires OperandValue(NodeAt(x.m, fr).ins.l, fr) == Some(a) && OperandValue(NodeAt(x.m, fr).ins.r, fr) == Some(b)
    ensures
      match Apply(x.h, op, a, b)
      case Yields(v) => Step(x.m, x.h, Running(fr, below, w)) == Running(Advance(fr, NodeAt(x.m, fr).id, v), below, w)
      case DivisionFault => Step(x.m, x.h, Running(fr, below, w)) == Faulted(w)
      case Mismatch => true
  {
    OpForMeans(x.h, op, a, b);
  }

  /** Both operands, left then right. */
  lemma {:induction false} SimOperands(x: Context, lay: Layout, e: Expr, env: Env, fr: Frame, below: Stack, w: World,
          fuel: nat, j: nat, l: Operand, r: Operand)
      returns (n: nat, regs: map<nat, Value>)
    requires e.Bin? && Ready(x) && Hosted(x, fr, lay) && Agrees(lay, env, fr.cells)
    requires OperandsAt(GraphOf(x, fr), lay, e, fr.block, fr.pc, j, l, r)
    ensures
      var c := Go(x, fr, below, w, n);
      match EvalExpr(x.p, x.h, e.lhs, env, w, fuel)
      case Ok(a, w1) =>
        (match EvalExpr(x.p, x.h, e.rhs, env, w1, fuel)
         case Ok(b, w2) =>
           c == Running(fr.(pc := j, regs := regs), below, w2) &&
             Keeps(GraphOf(x, fr), fr.block, fr.pc, fr.regs, regs) &&
           OperandValue(l, fr.(pc := j, regs := regs)) == Some(a) &&
             OperandValue(r, fr.(pc := j, regs := regs)) == Some(b)
         case Fault(w2) => c == Faulted(w2)
         case OutOfFuel => n >= fuel && c.Running?
         case FellOff => c == Wrong
         case Stuck => true)
      case Fault(w1) => c == Faulted(w1)
      case OutOfFuel => n >= fuel && c.Running?
      case FellOff => c == Wrong
      case Stuck => true
    ensures fr.pc <= j
    decreases fuel, 1, e, 0
  {
    hide Lowers, BodyAt, DistinctIds, Separate, OwnedBy, EvalExpr, StepNode, AddrOf;
    var g: Graph := GraphOf(x, fr);
    var k: int :| ExprAt(g, lay, e.lhs, fr.block, fr.pc, k, l) && ExprAt(g, lay, e.rhs, fr.block, k, j, r);
    n, regs := SimExpr(x, lay, e.lhs, env, fr, below, w, fuel, k, l);
    var a := EvalExpr(x.p, x.h, e.lhs, env, w, fuel);
    if a.Ok? {
      var fr1 := fr.(pc := k, regs := regs);
      var n2, regs2 := SimExpr(x, lay, e.rhs, env, fr1, below, a.world, fuel, j, r);
      Chain(x, fr, below, w, n, fr1, a.world, n2);
      if EvalExpr(x.p, x.h, e.rhs, env, a.world, fuel).Ok? {
        SettledKept(g, fr.block, k, l, fr1, regs2);
        KeepsOn(g, fr.block, fr.pc, k, fr.regs, regs, regs2);
      }
      n, regs := n + n2, regs2;
    }
  }

  lemma {:induction false} SimBin(x: Context, lay: Layout, e: Expr, env: Env, fr: Frame, below: Stack, w: World,
          fuel: nat, j: int, o: Operand)
      returns (n: nat, regs: map<nat, Value>)
    requires e.Bin? && Ready(x) && Hosted(x, fr, lay) && Agrees(lay, env, fr.cells)
    requires ExprAt(GraphOf(x, fr), lay, e, fr.block, fr.pc, j, o)
    ensures ExprDone(x, EvalExpr(x.p, x.h, e, env, w, fuel), fr, below, w, fuel, j, o, n, regs)
    decreases fuel, 1, e, 1
  {
    hide Lowers, BodyAt, DistinctIds, Separate, OwnedBy;
    var g: Graph := GraphOf(x, fr);
    n, regs := SimOperands(x, lay, e, env, fr, below, w, fuel, j - 1, g[fr.block][j-1].ins.l, g[fr.block][j-1].ins.r);
    var a := EvalExpr(x.p, x.h, e.lhs, env, w, fuel);
    if a.Ok? {
      var b := EvalExpr(x.p, x.h, e.rhs, env, a.world, fuel);
      if b.Ok? {
        var res := Apply(x.h, e.op, a.value, b.value);
        ComputeStep(x, fr.(pc := j - 1, regs := regs), below, b.world, e.op, a.value, b.value);
        n, regs := LastStep(x, fr, below, w, j, n, regs, b.world, if res.Yields? then res.v else VVoid);
      }
    }
  }

  lemma {:induction false} SimCall(x: Context, lay: Layout, e: Expr, env: Env, fr: Frame, below: Stack, w: World,
          fuel: nat, j: int, o: Operand)
      returns (n: nat, regs: map<nat, Value>)
    requires e.Call? && Ready(x) && Hosted(x, fr, lay) && Agrees(lay, env, fr.cells)
    requires ExprAt(GraphOf(x, fr), lay, e, fr.block, fr.pc, j, o)
    ensures ExprDone(x, EvalExpr(x.p, x.h, e, env, w, fuel), fr, below, w, fuel, j, o, n, regs)
    decreases fuel, 1, e, 0
  {
    hide Lowers, BodyAt, DistinctIds, Separate, OwnedBy;
    var g: Graph, start := GraphOf(x, fr), Running(fr, below, w);
    n, regs := SimArgs(x, lay, e.args, env, fr, below, w, fuel, j - 1, g[fr.block][j-1].ins.args);
    var vs := EvalArgs(x.p, x.h, e.args, env, w, fuel);
    if vs.Ok? {
      var fr1 := fr.(pc := j - 1, regs := regs);
      var n2 := SimInvoke(x, e.fn, vs.value, fr1, below, vs.world, fuel);
      Chain(x, fr, below, w, n, fr1, vs.world, n2);
      n := n + n2;
      var r := Invoke(x.p, x.h, e.fn, vs.value, vs.world, fuel);
      if r.Ok? {
        WriteKeeps(g, fr.block, fr.pc, j, fr.regs, regs, r.value);
        regs := regs[g[fr.block][j-1].id := r.value];
      }
    }
  }

  lemma {:induction false} SimArgs(x: Context, lay: Layout, es: seq<Expr>, env: Env, fr: Frame, below: Stack, w: World,
          fuel: nat, j: int, os: seq<Operand>)
      returns (n: nat, regs: map<nat, Value>)
    requires Ready(x) && Hosted(x, fr, lay) && Agrees(lay, env, fr.cells)
    requires ArgsAt(GraphOf(x, fr), lay, es, fr.block, fr.pc, j, os)
    ensures ArgsDone(x, EvalArgs(x.p, x.h, es, env, w, fuel), fr, below, w, fuel, j, os, n, regs)
    decreases fuel, 1, es, 1
  {
    hide StepNode, OwnedBy, DistinctIds, Separate, AddrOf, EvalExpr, Invoke, Lowers, BodyAt;
    var g: Graph := GraphOf(x, fr);
    n, regs := 0, fr.regs;
    if es != [] {
      var k: int :| ExprAt(g, lay, es[0], fr.block, fr.pc, k, os[0]) &&
        ArgsAt(g, lay, es[1..], fr.block, k, j, os[1..]);
      n, regs := SimExpr(x, lay, es[0], env, fr, below, w, fuel, k, os[0]);
      var a := EvalExpr(x.p, x.h, es[0], env, w, fuel);
      if a.Ok? {
        var fr1 := fr.(pc := k, regs := regs);
        var n2, regs2 := SimArgs(x, lay, es[1..], env, fr1, below, a.world, fuel, j, os[1..]);
        Chain(x, fr, below, w, n, fr1, a.world, n2);
        var rest := EvalArgs(x.p, x.h, es[1..], env, a.world, fuel);
        if rest.Ok? {
          KeepsOn(g, fr.block, fr.pc, k, fr.regs, regs, regs2);
          SettledKept(g, fr.block, k, os[0], fr1, regs2);
        }
        n, regs := n + n2, regs2;
      }
    }
  }

  /** A call: from the call instruction to the one after it. */
  lemma {:induction false} SimInvoke(x: Context, f: nat, vs: seq<Value>, fr: Frame, below: Stack, w: World, fuel: nat)
      returns (n: nat)
    requires Ready(x) && HasNode(x.m, fr) && NodeAt(x.m, fr).ins.CallFn? && NodeAt(x.m, fr).ins.fn == f
    requires OperandValues(NodeAt(x.m, fr).ins.args, fr) == Some(vs)
    ensures
      match Invoke(x.p, x.h, f, vs, w, fuel)
      case Ok(v, w1) => Go(x, fr, below, w, n) == Running(Advance(fr, NodeAt(x.m, fr).id, v), below, w1)
      case Fault(w1) => Go(x, fr, below, w, n) == Faulted(w1)
      case OutOfFuel => n >= fuel && Go(x, fr, below, w, n).Running?
      case FellOff => Go(x, fr, below, w, n) == Wrong
      case Stuck => true
    decreases fuel, 0
  {
    n := 0;
    if f < |x.p.funs| && |vs| == |x.p.funs[f].params| {
      assert FunctionAt(x.p.funs[f], x.m.funs[f]);
      if x.p.funs[f].isExtern {
        n := 1;
      } else if fuel > 0 {
        n := SimBody(x, f, vs, Push(fr, below), w, fuel - 1);
        n := n + 1;
      }
    }
  }

  /** Outcome of running the code of a statement. */
  ghost predicate StmtDone(x: Context, lay: Layout, r: Res<Flow>, fr: Frame, below: Stack, w: World, fuel: nat, q: Pos,
          n: nat, fr1: Frame)
  {
    var c := Go(x, fr, below, w, n);
    match r
    case Ok(Next(env1), w1) =>
      c == Running(fr1, below, w1) && Agrees(lay, env1, fr1.cells) && fr1.fn == fr.fn && fr1.args == fr.args &&
      Pos(fr1.block, fr1.pc) == q
    case Ok(Returned(v), w1) => c == ReturnTo(x.m, below, v, w1)
    case Fault(w1) => c == Faulted(w1)
    case OutOfFuel => n >= fuel && c.Running?
    case FellOff => c == Wrong
    case Stuck => true
  }

  lemma {:induction false} SimStmts(x: Context, lay: Layout, ss: seq<Stmt>, env: Env, fr: Frame, below: Stack, w: World,
          fuel: nat, q: Pos)
      returns (n: nat, fr1: Frame)
    requires Ready(x) && Hosted(x, fr, lay) && Agrees(lay, env, fr.cells)
    requires StmtsAt(GraphOf(x, fr), lay, ss, Pos(fr.block, fr.pc), q)
    ensures StmtDone(x, lay, ExecAll(x.p, x.h, ss, env, w, fuel), fr, below, w, fuel, q, n, fr1)
    decreases fuel, 2, ss, 1
  {
    hide Lowers, BodyAt, DistinctIds, Separate, OwnedBy, StmtAt, ExprAt, EvalExpr, Exec, Agrees, Step;
    var g: Graph, start := GraphOf(x, fr), Running(fr, below, w);
    n, fr1 := 0, fr;
    if ss != [] {
      var r: Pos :| StmtAt(g, lay, ss[0], Pos(fr.block, fr.pc), r) &&
        (!Returns(ss[0]) ==> StmtsAt(g, lay, ss[1..], r, q));
      n, fr1 := SimStmt(x, lay, ss[0], env, fr, below, w, fuel, r);
      var a := Exec(x.p, x.h, ss[0], env, w, fuel);
      if a.Ok? && a.value.Next? {
        if Returns(ss[0]) {
          ReturnsIsSound(x.p, x.h, ss[0], env, w, fuel);
        }
        var n2, fr2 := SimStmts(x, lay, ss[1..], a.value.env, fr1, below, a.world, fuel, q);
        Chain(x, fr, below, w, n, fr1, a.world, n2);
        n, fr1 := n + n2, fr2;
      }
    }
  }

  lemma {:induction false} SimStmt(x: Context, lay: Layout, s: Stmt, env: Env, fr: Frame, below: Stack, w: World,
          fuel: nat, q: Pos)
      returns (n: nat, fr1: Frame)
    requires Ready(x) && Hosted(x, fr, lay) && Agrees(lay, env, fr.cells)
    requires StmtAt(GraphOf(x, fr), lay, s, Pos(fr.block, fr.pc), q)
    ensures StmtDone(x, lay, Exec(x.p, x.h, s, env, w, fuel), fr, below, w, fuel, q, n, fr1)
    decreases fuel, 2, s, 1
  {
    hide Lowers, BodyAt, DistinctIds, Separate, OwnedBy, ExprAt, AddrOf;
    var g: Graph := GraphOf(x, fr);
    match s
    case Let(d, _, e) =>
      n, fr1 := SimLet(x, lay, s, env, fr, below, w, fuel, q);
    case Assign(y, e) =>
      n, fr1 := SimStore(x, lay, y, e, env, fr, below, w, fuel, q);
    case Return(r) =>
      n, fr1 := SimReturn(x, lay, r, env, fr, below, w, fuel, q);
    case If(c, thn, els) =>
      n, fr1 := SimIf(x, lay, s, env, fr, below, w, fuel, q);
    case While(c, body) =>
      n, fr1 := SimLoop(x, lay, s, env, Goto(fr, g[fr.block][fr.pc].ins.to), below, w, fuel, q);
      n := n + 1;
    case Block(ss) =>
      n, fr1 := SimStmts(x, lay, ss, env, fr, below, w, fuel, q);
    case Eval(e) =>
      var o :| ExprAt(g, lay, e, fr.block, fr.pc, q.index, o);
      var regs;
      n, regs := SimExpr(x, lay, e, env, fr, below, w, fuel, q.index, o);
      fr1 := fr.(pc := q.index, regs := regs);
  }

  /** Evaluate and store, at the end of a declaration or an assignment. */
  lemma {:induction false} SimStore(x: Context, lay: Layout, y: VarRef, e: Expr, env: Env, fr: Frame, below: Stack,
          w: World, fuel: nat, q: Pos)
      returns (n: nat, fr1: Frame)
    requires Ready(x) && Hosted(x, fr, lay) && Agrees(lay, env, fr.cells)
    requires StmtAt(GraphOf(x, fr), lay, Assign(y, e), Pos(fr.block, fr.pc), q)
    ensures StmtDone(x, lay, Exec(x.p, x.h, Assign(y, e), env, w, fuel), fr, below, w, fuel, q, n, fr1)
    decreases fuel, 1, e, 3
  {
    hide Lowers, BodyAt, EvalExpr, DistinctIds, ExprAt, StmtsAt, BranchAt, LoopAt, TestAt;
    var g: Graph, start := GraphOf(x, fr), Running(fr, below, w);
    var o := g[fr.block][q.index-1].ins.x;
    var regs;
    n, regs := SimExpr(x, lay, e, env, fr, below, w, fuel, q.index - 1, o);
    fr1 := fr.(pc := q.index, regs := regs);
    var v := EvalExpr(x.p, x.h, e, env, w, fuel);
    if v.Ok? {
      Chain(x, fr, below, w, n, fr.(pc := q.index - 1, regs := regs), v.world, 1);
      n := n + 1;
      if !y.Global? {
        fr1 := fr1.(cells := fr.cells[AddrOf(lay, y).value := v.value]);
      }
    }
  }

  /** Storing the value of a fresh declaration. */
  lemma DeclareStep(x: Context, lay: Layout, env: Env, d: nat, v: Value, fr: Frame, below: Stack, w: World)
    requires HasNode(x.m, fr) && NodeAt(x.m, fr).ins.Store? && OperandValue(NodeAt(x.m, fr).ins.x, fr) == Some(v)
    requires d in lay.locals && lay.locals[d].Cell? && NodeAt(x.m, fr).ins.dst == lay.locals[d]
    requires Separate(lay) && Agrees(lay, env, fr.cells)
    ensures Step(x.m, x.h, Running(fr, below, w)) == Running(Skip(fr).(cells := fr.cells[lay.locals[d] := v]), below, w)
    ensures Agrees(lay, env[Local(d) := v], fr.cells[lay.locals[d] := v])
  {
    assert AddrOf(lay, Local(d)) == Some(lay.locals[d]);
  }

  /** The initialiser of a declaration, up to its store. */
  lemma {:induction false} SimInit(x: Context, lay: Layout, s: Stmt, env: Env, fr: Frame, below: Stack, w: World,
          fuel: nat, q: Pos)
      returns (n: nat, regs: map<nat, Value>)
    requires s.Let? && Ready(x) && Hosted(x, fr, lay) && Agrees(lay, env, fr.cells)
    requires StmtAt(GraphOf(x, fr), lay, s, Pos(fr.block, fr.pc), q)
    ensures q.index > 0
    ensures
      match EvalExpr(x.p, x.h, s.init, env, w, fuel)
      case Ok(v, w1) =>
        Go(x, fr, below, w, n) == Running(fr.(pc := q.index - 1, regs := regs), below, w1) &&
        OperandValue(GraphOf(x, fr)[fr.block][q.index-1].ins.x, fr.(pc := q.index - 1, regs := regs)) == Some(v)
      case Fault(w1) => Go(x, fr, below, w, n) == Faulted(w1)
      case OutOfFuel => n >= fuel && Go(x, fr, below, w, n).Running?
      case FellOff => Go(x, fr, below, w, n) == Wrong
      case Stuck => true
    decreases fuel, 1, s.init, 3
  {
    hide Lowers, BodyAt, DistinctIds, Separate, OwnedBy;
    var g: Graph := GraphOf(x, fr);
    var o := g[fr.block][q.index-1].ins.x;
    if InstrAt(g, fr.block, fr.pc, Alloc(s.declType)) && ExprAt(g, lay, s.init, fr.block, fr.pc + 1, q.index - 1, o) {
      n, regs := SimExpr(x, lay, s.init, env, Skip(fr), below, w, fuel, q.index - 1, o);
      n := n + 1;
    } else {
      n, regs := SimExpr(x, lay, s.init, env, fr, below, w, fuel, q.index - 2, o);
      var v := EvalExpr(x.p, x.h, s.init, env, w, fuel);
      if v.Ok? {
        Chain(x, fr, below, w, n, fr.(pc := q.index - 2, regs := regs), v.world, 1);
        n := n + 1;
      }
    }
  }

  lemma {:induction false} SimLet(x: Context, lay: Layout, s: Stmt, env: Env, fr: Frame, below: Stack, w: World,
          fuel: nat, q: Pos)
      returns (n: nat, fr1: Frame)
    requires s.Let? && Ready(x) && Hosted(x, fr, lay) && Agrees(lay, env, fr.cells)
    requires StmtAt(GraphOf(x, fr), lay, s, Pos(fr.block, fr.pc), q)
    ensures StmtDone(x, lay, Exec(x.p, x.h, s, env, w, fuel), fr, below, w, fuel, q, n, fr1)
    decreases fuel, 1, s.init, 4
  {
    hide Lowers, BodyAt, DistinctIds, Separate, OwnedBy;
    var regs;
    n, regs := SimInit(x, lay, s, env, fr, below, w, fuel, q);
    fr1 := fr;
    var v := EvalExpr(x.p, x.h, s.init, env, w, fuel);
    if v.Ok? {
      var mid := fr.(pc := q.index - 1, regs := regs);
      Chain(x, fr, below, w, n, mid, v.world, 1);
      DeclareStep(x, lay, env, s.d, v.value, mid, below, v.world);
      n := n + 1;
      fr1 := Skip(mid).(cells := fr.cells[lay.locals[s.d] := v.value]);
    }
  }

  lemma {:induction false} SimReturn(x: Context, lay: Layout, r: Option<Expr>, env: Env, fr: Frame, below: Stack,
          w: World, fuel: nat, q: Pos)
      returns (n: nat, fr1: Frame)
    requires Ready(x) && Hosted(x, fr, lay) && Agrees(lay, env, fr.cells)
    requires StmtAt(GraphOf(x, fr), lay, Return(r), Pos(fr.block, fr.pc), q)
    ensures StmtDone(x, lay, Exec(x.p, x.h, Return(r), env, w, fuel), fr, below, w, fuel, q, n, fr1)
    decreases fuel, 1, r, 1
  {
    hide ExprAt, DistinctIds, Separate, OwnedBy, Lowers, BodyAt;
    var g: Graph := GraphOf(x, fr);
    n, fr1 := 1, fr;
    if r.Some? {
      var k: int, o :| ExprAt(g, lay, r.value, fr.block, fr.pc, k, o) && InstrAt(g, fr.block, k, Ret(Some(o)));
      var regs;
      n, regs := SimExpr(x, lay, r.value, env, fr, below, w, fuel, k, o);
      var v := EvalExpr(x.p, x.h, r.value, env, w, fuel);
      if v.Ok? {
        Chain(x, fr, below, w, n, fr.(pc := k, regs := regs), v.world, 1);
        n := n + 1;
      }
    }
  }

  /** A condition, possibly behind a comment. */
  lemma {:induction false} SimCondition(x: Context, lay: Layout, c: Expr, env: Env, fr: Frame, below: Stack, w: World,
          fuel: nat, k: int)
      returns (n: nat, regs: map<nat, Value>)
    requires Ready(x) && Hosted(x, fr, lay) && Agrees(lay, env, fr.cells)
    requires TestAt(GraphOf(x, fr), lay, c, fr.block, fr.pc, k)
    ensures
      match EvalExpr(x.p, x.h, c, env, w, fuel)
      case Ok(v, w1) =>
        k >= 0 && Go(x, fr, below, w, n) == Running(fr.(pc := k, regs := regs), below, w1) &&
        OperandValue(GraphOf(x, fr)[fr.block][k].ins.cond, fr.(pc := k, regs := regs)) == Some(v)
      case Fault(w1) => Go(x, fr, below, w, n) == Faulted(w1)
      case OutOfFuel => n >= fuel && Go(x, fr, below, w, n).Running?
      case FellOff => Go(x, fr, below, w, n) == Wrong
      case Stuck => true
    decreases fuel, 1, c, 3
  {
    hide Lowers, BodyAt, DistinctIds, Separate, OwnedBy, EvalExpr, AddrOf, Agrees;
    var g: Graph := GraphOf(x, fr);
    var o := g[fr.block][k].ins.cond;
    if ExprAt(g, lay, c, fr.block, fr.pc, k, o) {
      n, regs := SimExpr(x, lay, c, env, fr, below, w, fuel, k, o);
    } else {
      n, regs := SimExpr(x, lay, c, env, Skip(fr), below, w, fuel, k, o);
      n := n + 1;
    }
  }

  /** Test a condition and jump. */
  lemma {:induction false} SimTest(x: Context, lay: Layout, c: Expr, env: Env, fr: Frame, below: Stack, w: World,
          fuel: nat, k: int)
      returns (n: nat, fr1: Frame)
    requires Ready(x) && Hosted(x, fr, lay) && Agrees(lay, env, fr.cells)
    requires TestAt(GraphOf(x, fr), lay, c, fr.block, fr.pc, k)
    ensures
      match EvalExpr(x.p, x.h, c, env, w, fuel)
      case Ok(v, w1) =>
        v.VBool? ==>
          n > 0 && Go(x, fr, below, w, n) == Running(fr1, below, w1) && fr1.fn == fr.fn && fr1.args == fr.args &&
            fr1.cells == fr.cells &&
          fr1.pc == 0 &&
          fr1.block == if v.b then GraphOf(x, fr)[fr.block][k].ins.whenTrue.value
            else GraphOf(x, fr)[fr.block][k].ins.whenFalse.value
      case Fault(w1) => Go(x, fr, below, w, n) == Faulted(w1)
      case OutOfFuel => n >= fuel && Go(x, fr, below, w, n).Running?
      case FellOff => Go(x, fr, below, w, n) == Wrong
      case Stuck => true
    decreases fuel, 1, c, 4
  {
    hide Lowers, BodyAt, DistinctIds, Separate, OwnedBy, EvalExpr, ExprAt, AddrOf, Agrees;
    var g: Graph := GraphOf(x, fr);
    var regs;
    n, regs := SimCondition(x, lay, c, env, fr, below, w, fuel, k);
    fr1 := fr;
    var v := EvalExpr(x.p, x.h, c, env, w, fuel);
    if v.Ok? && v.value.VBool? {
      Chain(x, fr, below, w, n, fr.(pc := k, regs := regs), v.world, 1);
      n := n + 1;
      var j := g[fr.block][k].ins;
      fr1 := Goto(fr.(regs := regs), if v.value.b then j.whenTrue.value else j.whenFalse.value);
    }
  }

  /** Run a branch from the start of its block and, unless it returns, jump to block `to`. */
  lemma {:induction false} SimBranch(x: Context, lay: Layout, ss: seq<Stmt>, env: Env, fr: Frame, below: Stack,
          w: World, fuel: nat, to: nat)
      returns (n: nat, fr1: Frame)
    requires Ready(x) && Hosted(x, fr, lay) && Agrees(lay, env, fr.cells)
    requires fr.pc == 0 && BranchAt(GraphOf(x, fr), lay, ss, fr.block, to)
    ensures StmtDone(x, lay, ExecAll(x.p, x.h, ss, env, w, fuel), fr, below, w, fuel, Pos(to, 0), n, fr1)
    decreases fuel, 2, ss, 2
  {
    hide Lowers, BodyAt, DistinctIds, Separate, OwnedBy;
    var g: Graph, start := GraphOf(x, fr), Running(fr, below, w);
    var q: Pos :| StmtsAt(g, lay, ss, Pos(fr.block, 0), q) &&
      (!AnyReturns(ss) ==> InstrAt(g, q.block, q.index, Jump(to)));
    n, fr1 := SimStmts(x, lay, ss, env, fr, below, w, fuel, q);
    var r := ExecAll(x.p, x.h, ss, env, w, fuel);
    if r.Ok? && r.value.Next? {
      if AnyReturns(ss) {
        AnyReturnsIsSound(x.p, x.h, ss, env, w, fuel);
      }
      Chain(x, fr, below, w, n, fr1, r.world, 1);
      n, fr1 := n + 1, Goto(fr1, to);
    }
  }

  lemma {:induction false} SimIf(x: Context, lay: Layout, s: Stmt, env: Env, fr: Frame, below: Stack, w: World,
          fuel: nat, q: Pos)
      returns (n: nat, fr1: Frame)
    requires s.If? && Ready(x) && Hosted(x, fr, lay) && Agrees(lay, env, fr.cells)
    requires StmtAt(GraphOf(x, fr), lay, s, Pos(fr.block, fr.pc), q)
    ensures StmtDone(x, lay, Exec(x.p, x.h, s, env, w, fuel), fr, below, w, fuel, q, n, fr1)
    decreases fuel, 2, s, 0
  {
    hide Lowers, BodyAt, DistinctIds, Separate, OwnedBy, EvalExpr, ExprAt, StmtsAt, AddrOf, BranchAt, LoopAt, Agrees;
    var g: Graph, start := GraphOf(x, fr), Running(fr, below, w);
    var k: int :| TestAt(g, lay, s.cond, fr.block, fr.pc, k) &&
      BranchAt(g, lay, s.thn, g[fr.block][k].ins.whenTrue.value, q.block) && (!Returns(s) ==> q.index == 0) &&
      (if s.els.NoElse? then g[fr.block][k].ins.whenFalse.value == q.block
       else BranchAt(g, lay, s.els.stmts, g[fr.block][k].ins.whenFalse.value, q.block));
    n, fr1 := SimTest(x, lay, s.cond, env, fr, below, w, fuel, k);
    var v := EvalExpr(x.p, x.h, s.cond, env, w, fuel);
    if v.Ok? && v.value.VBool? && (v.value.b || s.els.Else?) {
      var ss := if v.value.b then s.thn else s.els.stmts;
      var n2, fr2 := SimBranch(x, lay, ss, env, fr1, below, v.world, fuel, q.block);
      Chain(x, fr, below, w, n, fr1, v.world, n2);
      n, fr1 := n + n2, fr2;
      var r := Exec(x.p, x.h, s, env, w, fuel);
      if r.Ok? && r.value.Next? && Returns(s) {
        ReturnsIsSound(x.p, x.h, s, env, w, fuel);
      }
    }
  }

  /** A loop, from the start of its test block. */
  lemma {:induction false} SimLoop(x: Context, lay: Layout, s: Stmt, env: Env, fr: Frame, below: Stack, w: World,
          fuel: nat, q: Pos)
      returns (n: nat, fr1: Frame)
    requires s.While? && Ready(x) && Hosted(x, fr, lay) && Agrees(lay, env, fr.cells)
    requires fr.pc == 0 && LoopAt(GraphOf(x, fr), lay, s.guard, s.body, fr.block, q)
    ensures StmtDone(x, lay, Exec(x.p, x.h, s, env, w, fuel), fr, below, w, fuel, q, n, fr1)
    decreases fuel, 2, s, 0
  {
    hide BranchAt, ExprAt, DistinctIds, Separate, StepNode, AddrOf, Lowers, BodyAt, OwnedBy;
    var g: Graph := GraphOf(x, fr);
    var k: int :| TestAt(g, lay, s.guard, fr.block, 0, k) &&
      BranchAt(g, lay, s.body, g[fr.block][k].ins.whenTrue.value, fr.block) &&
        q == Pos(g[fr.block][k].ins.whenFalse.value, 0);
    n, fr1 := 0, fr;
    if fuel > 0 {
      n, fr1 := SimTest(x, lay, s.guard, env, fr, below, w, fuel, k);
      var v := EvalExpr(x.p, x.h, s.guard, env, w, fuel);
      if v.Ok? && v.value.VBool? && v.value.b {
        var n2, fr2 := SimBranch(x, lay, s.body, env, fr1, below, v.world, fuel - 1, fr.block);
        Chain(x, fr, below, w, n, fr1, v.world, n2);
        n, fr1 := n + n2, fr2;
        var r := ExecAll(x.p, x.h, s.body, env, v.world, fuel - 1);
        if r.Ok? && r.value.Next? {
          var n3, fr3 := SimLoop(x, lay, s, r.value.env, fr1, below, r.world, fuel - 1, q);
          Chain(x, fr, below, w, n, fr1, r.world, n3);
          n, fr1 := n + n3, fr3;
        }
      }
    }
  }

  /** Storing the arguments on entry. */
  lemma {:induction false} SimSpill(x: Context, lay: Layout, fr: Frame, below: Stack, w: World, k: nat, np: nat)
      returns (cells: map<Ptr, Value>)
    requires Hosted(x, fr, lay) && ArgsSpilled(GraphOf(x, fr), lay, np) && |fr.args| == np && k <= np
    requires fr.block == ENTRY && fr.pc == 2 * k
    requires forall i | 0 <= i < k :: lay.params[i] in fr.cells && fr.cells[lay.params[i]] == fr.args[i]
    ensures Go(x, fr, below, w, 2 * (np - k)) == Running(fr.(pc := 2 * np, cells := cells), below, w)
    ensures forall i | 0 <= i < np :: lay.params[i] in cells && cells[lay.params[i]] == fr.args[i]
    decreases np - k
  {
    cells := fr.cells;
    if k < np {
      var start := Running(fr, below, w);
      var fr1 := fr.(pc := 2 * k + 2, cells := fr.cells[lay.params[k] := fr.args[k]]);
      assert SpilledAt(GraphOf(x, fr), lay, k) && lay.params[k] == AddrOf(lay, Param(k)).value;
      assert Step(x.m, x.h, start) == Running(Skip(fr), below, w);
      assert Step(x.m, x.h, Running(Skip(fr), below, w)) == Running(fr1, below, w);
      assert Run(x.m, x.h, start, 2) == Running(fr1, below, w);
      forall i | 0 <= i < k + 1
        ensures lay.params[i] in fr1.cells && fr1.cells[lay.params[i]] == fr.args[i]
      {
        assert lay.params[i] == AddrOf(lay, Param(i)).value;
      }
      cells := SimSpill(x, lay, fr1, below, w, k + 1, np);
      RunAdd(x.m, x.h, Running(fr, below, w), 2, 2 * (np - (k + 1)));
    }
  }

  /** What running a body from the frame it starts in comes to. */
  ghost predicate BodyDone(x: Context, r: Res<Flow>, fr: Frame, below: Stack, w: World, fuel: nat, n: nat) {
    match r
    case Ok(flow, w1) =>
      Go(x, fr, below, w, n) == if flow.Returned? then ReturnTo(x.m, below, flow.result, w1) else Wrong
    case Fault(w1) => Go(x, fr, below, w, n) == Faulted(w1)
    case OutOfFuel => n >= fuel && Go(x, fr, below, w, n).Running?
    case FellOff => Go(x, fr, below, w, n) == Wrong
    case Stuck => true
  }

  /** A body that has run to the end of its code falls off its block. */
  lemma FallsOff(x: Context, body: seq<Stmt>, env: Env, fr: Frame, below: Stack, w: World, fuel: nat, n: nat,
          fr1: Frame)
    requires fr.fn < |x.m.funs| && fr1.fn == fr.fn
    requires !AnyReturns(body) ==> !Holds(GraphOf(x, fr), fr1.block, fr1.pc)
    requires var r := ExecAll(x.p, x.h, body, env, w, fuel);
      r.Ok? && r.value.Next? && Go(x, fr, below, w, n) == Running(fr1, below, r.world)
    ensures Go(x, fr, below, w, n + 1) == Wrong
  {
    if AnyReturns(body) {
      AnyReturnsIsSound(x.p, x.h, body, env, w, fuel);
    }
    Chain(x, fr, below, w, n, fr1, ExecAll(x.p, x.h, body, env, w, fuel).world, 1);
  }

  /** A body whose arguments stay in place. */
  lemma {:induction false} SimInPlace(x: Context, lay: Layout, f: nat, vs: seq<Value>, below: Stack, w: World,
          fuel: nat, q: Pos)
      returns (n: nat)
    requires Ready(x) && f < |x.p.funs| && f < |x.m.funs| && |vs| == |x.p.funs[f].params| == |lay.params|
    requires Hosted(x, Enter(f, vs), lay) && ArgsInPlace(lay) &&
      StmtsAt(x.m.funs[f].blocks, lay, x.p.funs[f].body, Pos(ENTRY, 0), q)
    requires !AnyReturns(x.p.funs[f].body) ==> !Holds(x.m.funs[f].blocks, q.block, q.index)
    ensures BodyDone(x, ExecAll(x.p, x.h, x.p.funs[f].body, ParamEnv(vs), w, fuel), Enter(f, vs), below, w, fuel, n)
    decreases fuel, 2, x.p.funs[f].body, 9
  {
    hide Lowers, BodyAt, DistinctIds, Separate, OwnedBy, StmtsAt, StmtAt, ExprAt, StepNode, Exec, EvalExpr;
    var fr1;
    n, fr1 := SimStmts(x, lay, x.p.funs[f].body, ParamEnv(vs), Enter(f, vs), below, w, fuel, q);
    var r := ExecAll(x.p, x.h, x.p.funs[f].body, ParamEnv(vs), w, fuel);
    if r.Ok? && r.value.Next? {
      FallsOff(x, x.p.funs[f].body, ParamEnv(vs), Enter(f, vs), below, w, fuel, n, fr1);
      n := n + 1;
    }
  }

  /** A body that first stores its arguments. */
  lemma {:induction false} SimSpilled(x: Context, lay: Layout, f: nat, vs: seq<Value>, below: Stack, w: World,
          fuel: nat, q: Pos)
      returns (n: nat)
    requires Ready(x) && f < |x.p.funs| && f < |x.m.funs| && |vs| == |x.p.funs[f].params| == |lay.params|
    requires Hosted(x, Enter(f, vs), lay) && ArgsSpilled(x.m.funs[f].blocks, lay, |vs|)
    requires StmtsAt(x.m.funs[f].blocks, lay, x.p.funs[f].body, Pos(ENTRY, 2 * |vs|), q)
    requires !AnyReturns(x.p.funs[f].body) ==> !Holds(x.m.funs[f].blocks, q.block, q.index)
    ensures BodyDone(x, ExecAll(x.p, x.h, x.p.funs[f].body, ParamEnv(vs), w, fuel), Enter(f, vs), below, w, fuel, n)
    decreases fuel, 2, x.p.funs[f].body, 9
  {
    hide Lowers, BodyAt, DistinctIds, StmtsAt, StmtAt, ExprAt, StepNode, Exec, EvalExpr;
    var fr, np := Enter(f, vs), |vs|;
    var cells := SimSpill(x, lay, fr, below, w, 0, np);
    var start := fr.(pc := 2 * np, cells := cells);
    assert Agrees(lay, ParamEnv(vs), cells) by { SpilledAgrees(x, lay, f, vs, cells); }
    var fr1;
    n, fr1 := SimStmts(x, lay, x.p.funs[f].body, ParamEnv(vs), start, below, w, fuel, q);
    var r := ExecAll(x.p, x.h, x.p.funs[f].body, ParamEnv(vs), w, fuel);
    if r.Ok? && r.value.Next? {
      FallsOff(x, x.p.funs[f].body, ParamEnv(vs), start, below, w, fuel, n, fr1);
      n := n + 1;
    }
    RunAdd(x.m, x.h, Running(fr, below, w), 2 * np, n);
    n := 2 * np + n;
  }

  lemma SpilledAgrees(x: Context, lay: Layout, f: nat, vs: seq<Value>, cells: map<Ptr, Value>)
    requires f < |x.m.funs| && |lay.params| == |vs| && ArgsSpilled(x.m.funs[f].blocks, lay, |vs|)
    requires forall i | 0 <= i < |vs| :: lay.params[i] in cells && cells[lay.params[i]] == vs[i]
    ensures Agrees(lay, ParamEnv(vs), cells)
  {
    forall v: VarRef | v in ParamEnv(vs)
      ensures AddrOf(lay, v).Some? && !AddrOf(lay, v).value.GlobalCell?
    {
      assert SpilledAt(x.m.funs[f].blocks, lay, v.index);
    }
  }

  /** A whole activation, from its entry block to its caller. */
  lemma {:induction false} SimBody(x: Context, f: nat, vs: seq<Value>, below: Stack, w: World, fuel: nat)
      returns (n: nat)
    requires Ready(x) && f < |x.p.funs| && !x.p.funs[f].isExtern && |vs| == |x.p.funs[f].params|
    ensures BodyDone(x, ExecAll(x.p, x.h, x.p.funs[f].body, ParamEnv(vs), w, fuel), Enter(f, vs), below, w, fuel, n)
    decreases fuel, 3
  {
    hide StmtsAt, StmtAt, ExprAt, DistinctIds, Separate, StepNode, ExecAll, EvalExpr, BodyDone, ArgsInPlace;
    hide ArgsSpilled;
    var fd, g := x.p.funs[f], x.m.funs[f].blocks;
    assert FunctionAt(fd, x.m.funs[f]);
    var lay :| BodyAt(g, lay, |fd.params|, fd.body);
    if ArgsInPlace(lay) && WholeAt(g, lay, fd.body, Pos(ENTRY, 0)) {
      var q: Pos :| StmtsAt(g, lay, fd.body, Pos(ENTRY, 0), q) &&
        (!AnyReturns(fd.body) ==> !Holds(g, q.block, q.index));
      n := SimInPlace(x, lay, f, vs, below, w, fuel, q);
    } else {
      var q: Pos :| StmtsAt(g, lay, fd.body, Pos(ENTRY, 2 * |fd.params|), q) &&
        (!AnyReturns(fd.body) ==> !Holds(g, q.block, q.index));
      n := SimSpilled(x, lay, f, vs, below, w, fuel, q);
    }
  }
}
