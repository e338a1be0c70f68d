/** Which blocks control can enter by following jumps, whether or not a run does, and how they end. */
module Reachability {
  import opened Lang
  import opened Machine
  import opened Lowering
  import opened CodeGen
  import opened Cleanup

  predicate GoesTo(i: Instr, b: nat) {
    (i.Jump? && i.to == b) || (i.CondJump? && (i.whenTrue == Some(b) || i.whenFalse == Some(b)))
  }

  predicate Edge(g: Graph, a: nat, b: nat) {
    a in g && exists k :: 0 <= k < |g[a]| && GoesTo(g[a][k].ins, b)
  }

  /** Blocks, from the entry block on, each with a jump to the next one. */
  predicate Path(g: Graph, path: seq<nat>) {
    path != [] && path[0] == ENTRY && forall i | 0 < i < |path| :: Edge(g, path[i - 1], path[i])
  }

  ghost predicate Reachable(g: Graph, b: nat) {
    exists path :: Path(g, path) && path[|path|-1] == b
  }

  /** Every reachable block exists and has exactly one terminator, as its last instruction. */
  ghost predicate ReachableClosed(g: Graph) {
    forall b {:trigger Reachable(g, b)} | Reachable(g, b) :: b in g && ClosedBlock(g[b])
  }

  lemma ReachableNext(g: Graph, a: nat, b: nat)
    requires Reachable(g, a) && Edge(g, a, b)
    ensures Reachable(g, b)
  {
    var path :| Path(g, path) && path[|path|-1] == a;
    var path1 := path + [b];
    assert Path(g, path1) && path1[|path1|-1] == b;
  }

  lemma EntryReachable(g: Graph)
    ensures Reachable(g, ENTRY)
  {
    assert Path(g, [ENTRY]);
  }

  /** Instruction `k` is the first terminator of block `b`. */
  predicate EndsAt(g: Graph, b: nat, k: int) {
    Holds(g, b, k) && IsTerminator(g[b][k].ins) && OpenUntil(g[b], k)
  }

  /** Nothing ends the block of `p` before `p`. */
  predicate OpenUpTo(g: Graph, p: Pos) {
    p.block in g ==> OpenUntil(g[p.block], p.index)
  }

  /** Block `b` has a terminator, and the first one goes to blocks of `s`. */
  ghost predicate EndsWithin(g: Graph, s: set<nat>, b: nat) {
    exists k: int :: EndsAt(g, b, k) && forall t :: GoesTo(g[b][k].ins, t) ==> t in s
  }

  /** A set of blocks that control which enters at `p` leaves only at `q`, and not at all if it returns. */
  ghost predicate Region(g: Graph, s: set<nat>, p: nat, q: Pos, isReturn: bool) {
    p in s && (!isReturn ==> q.block in s && OpenUpTo(g, q)) &&
    forall b | b in s :: EndsWithin(g, s, b) || (!isReturn && b == q.block)
  }

  lemma WithinMore(g: Graph, s: set<nat>, more: set<nat>, b: nat)
    requires EndsWithin(g, s, b) && s <= more
    ensures EndsWithin(g, more, b)
  {
    var k: int :| EndsAt(g, b, k) && forall t :: GoesTo(g[b][k].ins, t) ==> t in s;
  }

  /** One region behind another one. */
  lemma RegionsJoin(g: Graph, s1: set<nat>, s2: set<nat>, p: nat, r: Pos, q: Pos, isReturn: bool)
    requires Region(g, s1, p, r, false) && Region(g, s2, r.block, q, isReturn)
    ensures Region(g, s1 + s2, p, q, isReturn)
  {
    hide EndsWithin;
    forall b | b in s1 + s2
      ensures EndsWithin(g, s1 + s2, b) || (!isReturn && b == q.block)
    {
      if b in s2 {
        if EndsWithin(g, s2, b) { WithinMore(g, s2, s1 + s2, b); }
      } else {
        WithinMore(g, s1, s1 + s2, b);
      }
    }
  }

  /** The code of an expression ends no block. */
  lemma {:induction false} ExprOpen(g: Graph, lay: Layout, e: Expr, b: nat, i: nat, j: int, o: Operand)
    requires ExprAt(g, lay, e, b, i, j, o) && OpenUpTo(g, Pos(b, i))
    ensures j >= i && OpenUpTo(g, Pos(b, j))
    decreases e, 1
  {
    match e
    case Lit(_) =>
    case Var(_, _) =>
    case Not(i1) => ExprOpen(g, lay, i1, b, i, j - 1, g[b][j-1].ins.x);
    case Bin(_, _, _, _) => OperandsOpen(g, lay, e, b, i, j - 1, g[b][j-1].ins.l, g[b][j-1].ins.r);
    case Call(_, es, _) => ArgsOpen(g, lay, es, b, i, j - 1, g[b][j-1].ins.args);
  }

  lemma {:induction false} OperandsOpen(g: Graph, lay: Layout, e: Expr, b: nat, i: nat, j: int, l: Operand, r: Operand)
    requires e.Bin? && OperandsAt(g, lay, e, b, i, j, l, r) && OpenUpTo(g, Pos(b, i))
    ensures j >= i && OpenUpTo(g, Pos(b, j))
    decreases e, 0
  {
    var k: int :| ExprAt(g, lay, e.lhs, b, i, k, l) && ExprAt(g, lay, e.rhs, b, k, j, r);
    ExprOpen(g, lay, e.lhs, b, i, k, l);
    ExprOpen(g, lay, e.rhs, b, k, j, r);
  }

  lemma {:induction false} ArgsOpen(g: Graph, lay: Layout, es: seq<Expr>, b: nat, i: nat, j: int, os: seq<Operand>)
    requires ArgsAt(g, lay, es, b, i, j, os) && OpenUpTo(g, Pos(b, i))
    ensures j >= i && OpenUpTo(g, Pos(b, j))
    decreases es
  {
    if es != [] {
      var k: int :| ExprAt(g, lay, es[0], b, i, k, os[0]) && ArgsAt(g, lay, es[1..], b, k, j, os[1..]);
      ExprOpen(g, lay, es[0], b, i, k, os[0]);
      ArgsOpen(g, lay, es[1..], b, k, j, os[1..]);
    }
  }

  /** A test ends its block. */
  lemma TestEnds(g: Graph, lay: Layout, c: Expr, b: nat, i: nat, k: int)
    requires TestAt(g, lay, c, b, i, k) && OpenUpTo(g, Pos(b, i))
    ensures EndsAt(g, b, k)
  {
    var o := g[b][k].ins.cond;
    if ExprAt(g, lay, c, b, i, k, o) {
      ExprOpen(g, lay, c, b, i, k, o);
    } else {
      ExprOpen(g, lay, c, b, i + 1, k, o);
    }
  }

  /** A statement without blocks of its own. */
  lemma SimpleOpen(g: Graph, lay: Layout, s: Stmt, p: Pos, q: Pos)
    requires s.Let? || s.Assign? || s.Eval?
    requires StmtAt(g, lay, s, p, q) && OpenUpTo(g, p)
    ensures q.block == p.block && OpenUpTo(g, q)
  {
    match s
    case Let(d, t, e) =>
      var o := g[p.block][q.index-1].ins.x;
      if InstrAt(g, p.block, p.index, Alloc(t)) && ExprAt(g, lay, e, p.block, p.index + 1, q.index - 1, o) {
        ExprOpen(g, lay, e, p.block, p.index + 1, q.index - 1, o);
      } else {
        ExprOpen(g, lay, e, p.block, p.index, q.index - 2, o);
      }
    case Assign(_, e) => ExprOpen(g, lay, e, p.block, p.index, q.index - 1, g[p.block][q.index-1].ins.x);
    case Eval(e) =>
      var o :| ExprAt(g, lay, e, p.block, p.index, q.index, o);
      ExprOpen(g, lay, e, p.block, p.index, q.index, o);
  }

  lemma {:induction false} StmtsRegion(g: Graph, lay: Layout, ss: seq<Stmt>, p: Pos, q: Pos) returns (s: set<nat>)
    requires StmtsAt(g, lay, ss, p, q) && OpenUpTo(g, p)
    ensures Region(g, s, p.block, q, AnyReturns(ss))
    decreases ss, 1
  {
    hide StmtAt, EndsWithin;
    if ss == [] {
      s := {p.block};
    } else {
      var r: Pos :| StmtAt(g, lay, ss[0], p, r) && (!Returns(ss[0]) ==> StmtsAt(g, lay, ss[1..], r, q));
      s := StmtRegion(g, lay, ss[0], p, r);
      if !Returns(ss[0]) {
        var s2 := StmtsRegion(g, lay, ss[1..], r, q);
        RegionsJoin(g, s, s2, p.block, r, q, AnyReturns(ss));
        s := s + s2;
      }
    }
  }

  lemma {:induction false} StmtRegion(g: Graph, lay: Layout, st: Stmt, p: Pos, q: Pos) returns (s: set<nat>)
    requires StmtAt(g, lay, st, p, q) && OpenUpTo(g, p)
    ensures Region(g, s, p.block, q, Returns(st))
    decreases st, 1
  {
    hide ExprAt, StmtsAt, TestAt, BranchAt, OpenUntil;
    match st
    case Return(_) => s := ReturnRegion(g, lay, st, p, q);
    case If(_, _, _) => s := IfRegion(g, lay, st, p, q);
    case While(_, _) => s := WhileRegion(g, lay, st, p, q);
    case Block(ss) => s := StmtsRegion(g, lay, ss, p, q);
    case _ =>
      SimpleOpen(g, lay, st, p, q);
      s := {p.block};
  }

  lemma ReturnRegion(g: Graph, lay: Layout, st: Stmt, p: Pos, q: Pos) returns (s: set<nat>)
    requires st.Return? && StmtAt(g, lay, st, p, q) && OpenUpTo(g, p)
    ensures Region(g, s, p.block, q, true)
  {
    s := {p.block};
    if st.result.Some? {
      var k: int, o :| ExprAt(g, lay, st.result.value, p.block, p.index, k, o) && InstrAt(g, p.block, k, Ret(Some(o)));
      ExprOpen(g, lay, st.result.value, p.block, p.index, k, o);
      assert EndsAt(g, p.block, k);
    } else {
      assert EndsAt(g, p.block, p.index);
    }
  }

  /** A branch goes on to block `to` unless it returns. */
  lemma {:induction false} BranchRegion(g: Graph, lay: Layout, ss: seq<Stmt>, b: nat, to: nat) returns (s: set<nat>)
    requires BranchAt(g, lay, ss, b, to)
    ensures b in s && forall c | c in s :: EndsWithin(g, s + (if AnyReturns(ss) then {} else {to}), c)
    decreases ss, 2
  {
    hide StmtsAt, EndsWithin;
    var q: Pos :| StmtsAt(g, lay, ss, Pos(b, 0), q) && (!AnyReturns(ss) ==> InstrAt(g, q.block, q.index, Jump(to)));
    s := StmtsRegion(g, lay, ss, Pos(b, 0), q);
    if AnyReturns(ss) {
      assert s + {} == s;
    } else {
      JumpEnds(g, s + {to}, q, to);
      forall c | c in s
        ensures EndsWithin(g, s + {to}, c)
      {
        if EndsWithin(g, s, c) { WithinMore(g, s, s + {to}, c); }
      }
    }
  }

  lemma JumpEnds(g: Graph, s: set<nat>, q: Pos, to: nat)
    requires InstrAt(g, q.block, q.index, Jump(to)) && OpenUpTo(g, q) && to in s
    ensures EndsWithin(g, s, q.block)
  {
    assert EndsAt(g, q.block, q.index);
  }

  lemma TestEndsWithin(g: Graph, lay: Layout, c: Expr, b: nat, i: nat, k: int, s: set<nat>)
    requires TestAt(g, lay, c, b, i, k) && OpenUpTo(g, Pos(b, i))
    requires g[b][k].ins.whenTrue.value in s && g[b][k].ins.whenFalse.value in s
    ensures EndsWithin(g, s, b)
  {
    TestEnds(g, lay, c, b, i, k);
  }

  lemma {:induction false} IfRegion(g: Graph, lay: Layout, st: Stmt, p: Pos, q: Pos) returns (s: set<nat>)
    requires st.If? && StmtAt(g, lay, st, p, q) && OpenUpTo(g, p)
    ensures Region(g, s, p.block, q, Returns(st))
    decreases st, 0
  {
    hide BranchAt, EndsWithin, ExprAt;
    var k: int :| TestAt(g, lay, st.cond, p.block, p.index, k) &&
      BranchAt(g, lay, st.thn, g[p.block][k].ins.whenTrue.value, q.block) && (!Returns(st) ==> q.index == 0) &&
      (if st.els.NoElse? then g[p.block][k].ins.whenFalse.value == q.block
       else BranchAt(g, lay, st.els.stmts, g[p.block][k].ins.whenFalse.value, q.block));
    var s1 := BranchRegion(g, lay, st.thn, g[p.block][k].ins.whenTrue.value, q.block);
    var s2: set<nat> := {};
    if st.els.Else? {
      s2 := BranchRegion(g, lay, st.els.stmts, g[p.block][k].ins.whenFalse.value, q.block);
    }
    s := {p.block} + s1 + s2 + if Returns(st) then {} else {q.block};
    TestEndsWithin(g, lay, st.cond, p.block, p.index, k, s);
    forall b | b in s
      ensures EndsWithin(g, s, b) || (!Returns(st) && b == q.block)
    {
      if b in s1 {
        WithinMore(g, s1 + (if AnyReturns(st.thn) then {} else {q.block}), s, b);
      } else if b in s2 {
        WithinMore(g, s2 + (if AnyReturns(st.els.stmts) then {} else {q.block}), s, b);
      }
    }
  }

  lemma {:induction false} WhileRegion(g: Graph, lay: Layout, st: Stmt, p: Pos, q: Pos) returns (s: set<nat>)
    requires st.While? && StmtAt(g, lay, st, p, q) && OpenUpTo(g, p)
    ensures Region(g, s, p.block, q, false)
    decreases st, 0
  {
    hide BranchAt, EndsWithin, ExprAt;
    var head := g[p.block][p.index].ins.to;
    var k: int :| TestAt(g, lay, st.guard, head, 0, k) &&
      BranchAt(g, lay, st.body, g[head][k].ins.whenTrue.value, head) && q == Pos(g[head][k].ins.whenFalse.value, 0);
    var s1 := BranchRegion(g, lay, st.body, g[head][k].ins.whenTrue.value, head);
    s := {p.block, head, q.block} + s1;
    JumpEnds(g, s, p, head);
    TestEndsWithin(g, lay, st.guard, head, 0, k, s);
    forall b | b in s
      ensures EndsWithin(g, s, b) || b == q.block
    {
      if b in s1 {
        WithinMore(g, s1 + (if AnyReturns(st.body) then {} else {head}), s, b);
      }
    }
  }

  // The pass cuts a block behind its first terminator.

  lemma EndCleaned(g: Graph, b: nat, k: int)
    requires EndsAt(g, b, k)
    ensures b in CleanGraph(g) && CleanGraph(g)[b] == g[b][..k + 1] && ClosedBlock(CleanGraph(g)[b])
  {
    TruncatedIs(g[b], k + 1);
  }

  lemma EdgeCleaned(g: Graph, a: nat, k: int, b: nat)
    requires EndsAt(g, a, k)
    ensures Edge(CleanGraph(g), a, b) <==> GoesTo(g[a][k].ins, b)
  {
    EndCleaned(g, a, k);
    assert CleanGraph(g)[a][k] == g[a][k];
  }

  /** Paths stay in a region nothing leaves. */
  lemma {:induction false} PathStays(g: Graph, s: set<nat>, q: Pos, path: seq<nat>)
    requires Region(g, s, ENTRY, q, true) && Path(CleanGraph(g), path)
    ensures path[|path|-1] in s
    decreases |path|
  {
    var n := |path| - 1;
    if n > 0 {
      PathStays(g, s, q, path[..n]);
      var a := path[n - 1];
      assert path[..n][n - 1] == a && Edge(CleanGraph(g), a, path[n]);
      var k: int :| EndsAt(g, a, k) && forall t :: GoesTo(g[a][k].ins, t) ==> t in s;
      EdgeCleaned(g, a, k, path[n]);
    }
  }

  lemma RegionCloses(g: Graph, s: set<nat>, q: Pos)
    requires Region(g, s, ENTRY, q, true)
    ensures ReachableClosed(CleanGraph(g))
  {
    hide Region;
    forall b | Reachable(CleanGraph(g), b)
      ensures b in CleanGraph(g) && ClosedBlock(CleanGraph(g)[b])
    {
      var path :| Path(CleanGraph(g), path) && path[|path|-1] == b;
      PathStays(g, s, q, path);
      RegionBlockCloses(g, s, q, b);
    }
  }

  lemma RegionBlockCloses(g: Graph, s: set<nat>, q: Pos, b: nat)
    requires Region(g, s, ENTRY, q, true) && b in s
    ensures b in CleanGraph(g) && ClosedBlock(CleanGraph(g)[b])
  {
    var k: int :| EndsAt(g, b, k) && forall t :: GoesTo(g[b][k].ins, t) ==> t in s;
    EndCleaned(g, b, k);
  }

  // Code that can end without a return reaches its end.

  lemma EndReaches(g: Graph, a: nat, k: int, b: nat)
    requires Reachable(CleanGraph(g), a) && EndsAt(g, a, k) && GoesTo(g[a][k].ins, b)
    ensures Reachable(CleanGraph(g), b)
  {
    EdgeCleaned(g, a, k, b);
    ReachableNext(CleanGraph(g), a, b);
  }

  lemma {:induction false} StmtsReach(g: Graph, lay: Layout, ss: seq<Stmt>, p: Pos, q: Pos)
    requires StmtsAt(g, lay, ss, p, q) && OpenUpTo(g, p) && Reachable(CleanGraph(g), p.block) && !AnyReturns(ss)
    ensures Reachable(CleanGraph(g), q.block) && OpenUpTo(g, q)
    decreases ss, 1
  {
    hide Reachable, StmtAt, OpenUntil;
    if ss != [] {
      var r: Pos :| StmtAt(g, lay, ss[0], p, r) && (!Returns(ss[0]) ==> StmtsAt(g, lay, ss[1..], r, q));
      StmtReaches(g, lay, ss[0], p, r);
      StmtsReach(g, lay, ss[1..], r, q);
    }
  }

  lemma {:induction false} StmtReaches(g: Graph, lay: Layout, st: Stmt, p: Pos, q: Pos)
    requires StmtAt(g, lay, st, p, q) && OpenUpTo(g, p) && Reachable(CleanGraph(g), p.block) && !Returns(st)
    ensures Reachable(CleanGraph(g), q.block) && OpenUpTo(g, q)
    decreases st, 1
  {
    hide Reachable, OpenUntil, ExprAt, BranchAt, StmtsAt;
    match st
    case If(_, _, _) => IfReaches(g, lay, st, p, q);
    case While(_, _) =>
      var head := g[p.block][p.index].ins.to;
      var k: int :| TestAt(g, lay, st.guard, head, 0, k) &&
        BranchAt(g, lay, st.body, g[head][k].ins.whenTrue.value, head) && q == Pos(g[head][k].ins.whenFalse.value, 0);
      LoopReaches(g, lay, st.guard, p, head, k, q);
    case Block(ss) => StmtsReach(g, lay, ss, p, q);
    case _ => SimpleOpen(g, lay, st, p, q);
  }

  lemma LoopReaches(g: Graph, lay: Layout, c: Expr, p: Pos, head: nat, k: int, q: Pos)
    requires InstrAt(g, p.block, p.index, Jump(head)) && OpenUpTo(g, p) && Reachable(CleanGraph(g), p.block)
    requires TestAt(g, lay, c, head, 0, k) && q == Pos(g[head][k].ins.whenFalse.value, 0)
    ensures Reachable(CleanGraph(g), q.block) && OpenUpTo(g, q)
  {
    hide Reachable;
    assert EndsAt(g, p.block, p.index);
    EndReaches(g, p.block, p.index, head);
    TestEnds(g, lay, c, head, 0, k);
    EndReaches(g, head, k, q.block);
  }

  lemma {:induction false} IfReaches(g: Graph, lay: Layout, st: Stmt, p: Pos, q: Pos)
    requires st.If? && StmtAt(g, lay, st, p, q) && OpenUpTo(g, p) && Reachable(CleanGraph(g), p.block) && !Returns(st)
    ensures Reachable(CleanGraph(g), q.block) && OpenUpTo(g, q)
    decreases st, 0
  {
    hide Reachable, ExprAt, BranchAt;
    var k: int :| TestAt(g, lay, st.cond, p.block, p.index, k) &&
      BranchAt(g, lay, st.thn, g[p.block][k].ins.whenTrue.value, q.block) && (!Returns(st) ==> q.index == 0) &&
      (if st.els.NoElse? then g[p.block][k].ins.whenFalse.value == q.block
       else BranchAt(g, lay, st.els.stmts, g[p.block][k].ins.whenFalse.value, q.block));
    TestEnds(g, lay, st.cond, p.block, p.index, k);
    var t, f := g[p.block][k].ins.whenTrue.value, g[p.block][k].ins.whenFalse.value;
    EndReaches(g, p.block, k, t);
    EndReaches(g, p.block, k, f);
    if st.els.Else? {
      if !AnyReturns(st.thn) {
        BranchReaches(g, lay, st.thn, t, q.block);
      } else {
        BranchReaches(g, lay, st.els.stmts, f, q.block);
      }
    }
  }

  lemma {:induction false} BranchReaches(g: Graph, lay: Layout, ss: seq<Stmt>, b: nat, to: nat)
    requires BranchAt(g, lay, ss, b, to) && Reachable(CleanGraph(g), b) && !AnyReturns(ss)
    ensures Reachable(CleanGraph(g), to)
    decreases ss, 2
  {
    hide Reachable, StmtsAt;
    var q: Pos :| StmtsAt(g, lay, ss, Pos(b, 0), q) && (!AnyReturns(ss) ==> InstrAt(g, q.block, q.index, Jump(to)));
    StmtsReach(g, lay, ss, Pos(b, 0), q);
    assert EndsAt(g, q.block, q.index);
    EndReaches(g, q.block, q.index, to);
  }

  /** The arguments of a function are stored before anything ends its entry block. */
  lemma SpilledOpen(g: Graph, lay: Layout, n: nat)
    requires ArgsSpilled(g, lay, n)
    ensures OpenUpTo(g, Pos(ENTRY, 2 * n))
  {
    forall k | 0 <= k < 2 * n && ENTRY in g && k < |g[ENTRY]|
      ensures !IsTerminator(g[ENTRY][k].ins)
    {
      assert SpilledAt(g, lay, k / 2);
      assert k == 2 * (k / 2) || k == 2 * (k / 2) + 1;
    }
  }

  lemma WholeExactly(g: Graph, lay: Layout, body: seq<Stmt>, p: Pos)
    requires WholeAt(g, lay, body, p) && p.block == ENTRY && OpenUpTo(g, p)
    ensures ReachableClosed(CleanGraph(g)) <==> AnyReturns(body)
  {
    hide StmtsAt, Reachable, Region, OpenUntil;
    var q: Pos :| StmtsAt(g, lay, body, p, q) && (!AnyReturns(body) ==> !Holds(g, q.block, q.index));
    if AnyReturns(body) {
      var s := StmtsRegion(g, lay, body, p, q);
      RegionCloses(g, s, q);
    } else {
      EntryReachable(CleanGraph(g));
      StmtsReach(g, lay, body, p, q);
      StaysOpen(g, q);
    }
  }

  lemma StaysOpen(g: Graph, q: Pos)
    requires OpenUpTo(g, q) && !Holds(g, q.block, q.index)
    ensures q.block in CleanGraph(g) ==> !ClosedBlock(CleanGraph(g)[q.block])
  {
    if q.block in g {
      var r := Truncated(g[q.block]);
      assert forall k | 0 <= k < |r| :: r[k] == g[q.block][k];
    }
  }

  /** After the pass, every block that control can reach in a lowered function has exactly one terminator, its
      last instruction, if and only if the body returns on every path. */
  lemma ReachableExactly(fd: FunDecl, fn: Func)
    requires FunctionAt(fd, fn) && !fd.isExtern
    ensures ReachableClosed(CleanFunc(fn).blocks) <==> AnyReturns(fd.body)
  {
    hide ReachableClosed, WholeAt;
    var lay :| BodyAt(fn.blocks, lay, |fd.params|, fd.body);
    if ArgsInPlace(lay) && WholeAt(fn.blocks, lay, fd.body, Pos(ENTRY, 0)) {
      WholeExactly(fn.blocks, lay, fd.body, Pos(ENTRY, 0));
    } else {
      SpilledOpen(fn.blocks, lay, |fd.params|);
      WholeExactly(fn.blocks, lay, fd.body, Pos(ENTRY, 2 * |fd.params|));
    }
  }
}
