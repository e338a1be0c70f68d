/** The type discipline the decorator establishes, and what it buys: no run gets stuck, and none lets a function
    end without a return if all bodies return on every path.
 */
module Typing {
  import opened Lang
  import opened Source

  /** Types of the variables that are visible. */
  type Context = map<VarRef, Type>

  predicate TypedExpr(p: Program, ctx: Context, e: Expr) {
    match e
    case Lit(v) => HasType(v, TypeOf(v))
    case Var(x, t) => x in ctx && ctx[x] == t
    case Not(i) => TypedExpr(p, ctx, i) && ResultType(i) == Bool
    case Bin(op, l, r, t) =>
      TypedExpr(p, ctx, l) && TypedExpr(p, ctx, r) && ResultType(l) == ResultType(r) &&
      BinaryOperationResultType(ResultType(l), op) == Some(t)
    case Call(f, args, t) =>
      f < |p.funs| && t == p.funs[f].returnType && |args| == |p.funs[f].params| &&
      forall i | 0 <= i < |args| :: TypedExpr(p, ctx, args[i]) && ResultType(args[i]) == p.funs[f].params[i]
  }

  /** The visible variables after a statement. */
  function After(ctx: Context, s: Stmt): Context {
    if s.Let? then ctx[Local(s.d) := s.declType] else ctx
  }

  predicate TypedStmt(p: Program, ctx: Context, ret: Type, s: Stmt)
    decreases s
  {
    match s
    case Let(d, t, e) => Local(d) !in ctx && TypedExpr(p, ctx, e) && ResultType(e) == t
    case Assign(x, e) => x in ctx && TypedExpr(p, ctx, e) && ResultType(e) == ctx[x]
    case Return(r) => if r.None? then ret == Void else TypedExpr(p, ctx, r.value) && ResultType(r.value) == ret
    case If(c, thn, els) =>
      TypedExpr(p, ctx, c) && ResultType(c) == Bool && TypedAll(p, ctx, ret, thn) &&
        (els.Else? ==> TypedAll(p, ctx, ret, els.stmts))
    case While(c, body) => TypedExpr(p, ctx, c) && ResultType(c) == Bool && TypedAll(p, ctx, ret, body)
    case Block(ss) => TypedAll(p, ctx, ret, ss)
    case Eval(e) => TypedExpr(p, ctx, e)
  }

  predicate TypedAll(p: Program, ctx: Context, ret: Type, ss: seq<Stmt>)
    decreases ss
  {
    ss != [] ==> TypedStmt(p, ctx, ret, ss[0]) && TypedAll(p, After(ctx, ss[0]), ret, ss[1..])
  }

  function GlobalContext(p: Program): Context {
    map i: nat | i < |p.globals| :: Global(i) := TypeOf(p.globals[i])
  }

  function FunctionContext(p: Program, fd: FunDecl): Context {
    GlobalContext(p) + map i: nat | i < |fd.params| :: Param(i) := fd.params[i]
  }

  predicate TypedFunction(p: Program, fd: FunDecl) {
    !fd.isExtern ==> TypedAll(p, FunctionContext(p, fd), fd.returnType, fd.body)
  }

  /** Every body returns on every path. */
  predicate BodiesReturn(p: Program) {
    forall f | 0 <= f < |p.funs| :: !p.funs[f].isExtern ==> AnyReturns(p.funs[f].body)
  }

  predicate TypedProgram(p: Program) {
    (forall i | 0 <= i < |p.globals| :: HasType(p.globals[i], TypeOf(p.globals[i]))) &&
    (forall f | 0 <= f < |p.funs| :: TypedFunction(p, p.funs[f]))
  }

  /** Extern functions return values of their declared types. */
  ghost predicate TypedHost(p: Program, h: Host) {
    forall f: nat, args, w :: f < |p.funs| && p.funs[f].isExtern ==> HasType(h.ext(f, args, w), p.funs[f].returnType)
  }

  predicate TypedWorld(p: Program, w: World) {
    |w.globals| == |p.globals| && forall i | 0 <= i < |p.globals| :: HasType(w.globals[i], TypeOf(p.globals[i]))
  }

  predicate TypedValues(vs: seq<Value>, ts: seq<Type>) {
    |vs| == |ts| && forall i | 0 <= i < |vs| :: HasType(vs[i], ts[i])
  }

  /** The values of an activation have the types of its variables. */
  ghost predicate TypedEnv(p: Program, ctx: Context, env: Env) {
    forall x: VarRef {:trigger x in ctx} :: x in ctx ==>
      if x.Global? then x.index < |p.globals| && ctx[x] == TypeOf(p.globals[x.index])
        else x in env && HasType(env[x], ctx[x])
  }

  ghost predicate Sound(p: Program, h: Host) {
    TypedProgram(p) && TypedHost(p, h)
  }

  /** Not stuck, and no function has ended without a return unless some body can. */
  predicate Unstuck<T>(p: Program, r: Res<T>) {
    r != Stuck && (BodiesReturn(p) ==> r != FellOff)
  }

  /** `r` is a value of type `t`, a division fault, out of fuel or the end of a body that need not return. */
  ghost predicate GoodValue(p: Program, r: Res<Value>, t: Type) {
    Unstuck(p, r) && (r.Ok? ==> HasType(r.value, t) && TypedWorld(p, r.world))
  }

  lemma ApplyTyped(h: Host, op: BinOp, a: Value, b: Value, t: Type)
    requires HasType(a, TypeOf(a)) && HasType(b, TypeOf(b)) && TypeOf(a) == TypeOf(b) &&
      BinaryOperationResultType(TypeOf(a), op) == Some(t)
    ensures !Apply(h, op, a, b).Mismatch?
    ensures Apply(h, op, a, b).Yields? ==> HasType(Apply(h, op, a, b).v, t)
  {
    if a.VI32? && op == Divide && b.i != 0 && !(a.i == I32_MIN && b.i == -1) {
      QuotientFits(a.i, b.i);
    }
  }

  lemma {:induction false} ExprSound(p: Program, h: Host, ctx: Context, e: Expr, env: Env, w: World, fuel: nat)
    requires Sound(p, h) && TypedExpr(p, ctx, e) && TypedEnv(p, ctx, env) && TypedWorld(p, w)
    ensures GoodValue(p, EvalExpr(p, h, e, env, w, fuel), ResultType(e))
    decreases fuel, 1, e
  {
    match e
    case Lit(_) =>
    case Var(x, _) =>
    case Not(i) => ExprSound(p, h, ctx, i, env, w, fuel);
    case Bin(op, l, r, t) =>
      ExprSound(p, h, ctx, l, env, w, fuel);
      var a := EvalExpr(p, h, l, env, w, fuel);
      if a.Ok? {
        ExprSound(p, h, ctx, r, env, a.world, fuel);
        var b := EvalExpr(p, h, r, env, a.world, fuel);
        if b.Ok? {
          ApplyTyped(h, op, a.value, b.value, t);
        }
      }
    case Call(f, args, _) =>
      ArgsSound(p, h, ctx, args, p.funs[f].params, env, w, fuel);
      var vs := EvalArgs(p, h, args, env, w, fuel);
      if vs.Ok? {
        InvokeSound(p, h, f, vs.value, vs.world, fuel);
      }
  }

  lemma {:induction false} ArgsSound(p: Program, h: Host, ctx: Context, es: seq<Expr>, ts: seq<Type>, env: Env,
          w: World, fuel: nat)
    requires Sound(p, h) && TypedEnv(p, ctx, env) && TypedWorld(p, w) && |es| == |ts|
    requires forall i | 0 <= i < |es| :: TypedExpr(p, ctx, es[i]) && ResultType(es[i]) == ts[i]
    ensures var r := EvalArgs(p, h, es, env, w, fuel);
      Unstuck(p, r) && (r.Ok? ==> TypedValues(r.value, ts) && TypedWorld(p, r.world))
    decreases fuel, 1, es
  {
    hide BodiesReturn, TypedProgram, TypedHost, EvalExpr, TypedEnv, TypedExpr, Invoke;
    if es != [] {
      ExprSound(p, h, ctx, es[0], env, w, fuel);
      var v := EvalExpr(p, h, es[0], env, w, fuel);
      if v.Ok? {
        ArgsSound(p, h, ctx, es[1..], ts[1..], env, v.world, fuel);
        var vs := EvalArgs(p, h, es[1..], env, v.world, fuel);
        if vs.Ok? {
          assert forall i | 1 <= i < |ts| :: ([v.value] + vs.value)[i] == vs.value[i - 1] && ts[i] == ts[1..][i - 1];
        }
      }
    }
  }

  lemma EntryTyped(p: Program, fd: FunDecl, vs: seq<Value>)
    requires TypedValues(vs, fd.params)
    ensures TypedEnv(p, FunctionContext(p, fd), ParamEnv(vs))
  {
  }

  /** A call with arguments of the declared types. */
  lemma {:induction false} InvokeSound(p: Program, h: Host, f: nat, vs: seq<Value>, w: World, fuel: nat)
    requires Sound(p, h) && f < |p.funs| && TypedValues(vs, p.funs[f].params) && TypedWorld(p, w)
    ensures GoodValue(p, Invoke(p, h, f, vs, w, fuel), p.funs[f].returnType)
    decreases fuel, 0
  {
    var fd := p.funs[f];
    if !fd.isExtern && fuel > 0 {
      hide TypedEnv, FunctionContext;
      var env := ParamEnv(vs);
      EntryTyped(p, fd, vs);
      AllSound(p, h, FunctionContext(p, fd), fd.returnType, fd.body, env, w, fuel - 1);
      var r := ExecAll(p, h, fd.body, env, w, fuel - 1);
      if r.Ok? && AnyReturns(fd.body) {
        AnyReturnsIsSound(p, h, fd.body, env, w, fuel - 1);
      }
    }
  }

  /** Outcome of a statement: never stuck; a returned value has the function's type, and otherwise the
      variables of `ctx` have their types. */
  ghost predicate GoodFlow(p: Program, r: Res<Flow>, ctx: Context, ret: Type) {
    Unstuck(p, r) && (r.Ok? ==>
      TypedWorld(p, r.world) &&
      (if r.value.Returned? then HasType(r.value.result, ret) else TypedEnv(p, ctx, r.value.env)))
  }

  /** Declarations only add to a context. */
  predicate Extends(ctx: Context, more: Context) {
    forall x :: x in ctx ==> x in more && more[x] == ctx[x]
  }

  function AfterAll(ctx: Context, ss: seq<Stmt>): Context
    decreases ss
  {
    if ss == [] then ctx else AfterAll(After(ctx, ss[0]), ss[1..])
  }

  lemma {:induction false} AfterAllExtends(p: Program, ctx: Context, ret: Type, ss: seq<Stmt>)
    requires TypedAll(p, ctx, ret, ss)
    ensures Extends(ctx, AfterAll(ctx, ss))
    decreases ss
  {
    if ss != [] {
      AfterAllExtends(p, After(ctx, ss[0]), ret, ss[1..]);
    }
  }

  lemma {:induction false} AllSound(p: Program, h: Host, ctx: Context, ret: Type, ss: seq<Stmt>, env: Env, w: World,
          fuel: nat)
    requires Sound(p, h) && TypedAll(p, ctx, ret, ss) && TypedEnv(p, ctx, env) && TypedWorld(p, w)
    ensures GoodFlow(p, ExecAll(p, h, ss, env, w, fuel), AfterAll(ctx, ss), ret)
    decreases fuel, 2, ss, 0
  {
    if ss != [] {
      StmtSound(p, h, ctx, ret, ss[0], env, w, fuel);
      var r := Exec(p, h, ss[0], env, w, fuel);
      if r.Ok? && r.value.Next? {
        AllSound(p, h, After(ctx, ss[0]), ret, ss[1..], r.value.env, r.world, fuel);
      }
    }
  }

  /** A nested block: its declarations are gone afterwards. */
  lemma {:induction false} BlockSound(p: Program, h: Host, ctx: Context, ret: Type, ss: seq<Stmt>, env: Env, w: World,
          fuel: nat)
    requires Sound(p, h) && TypedAll(p, ctx, ret, ss) && TypedEnv(p, ctx, env) && TypedWorld(p, w)
    ensures GoodFlow(p, ExecAll(p, h, ss, env, w, fuel), ctx, ret)
    decreases fuel, 2, ss, 1
  {
    AllSound(p, h, ctx, ret, ss, env, w, fuel);
    AfterAllExtends(p, ctx, ret, ss);
  }

  lemma {:induction false} StmtSound(p: Program, h: Host, ctx: Context, ret: Type, s: Stmt, env: Env, w: World,
          fuel: nat)
    requires Sound(p, h) && TypedStmt(p, ctx, ret, s) && TypedEnv(p, ctx, env) && TypedWorld(p, w)
    ensures GoodFlow(p, Exec(p, h, s, env, w, fuel), After(ctx, s), ret)
    decreases fuel, 2, s, 1
  {
    hide BodiesReturn, TypedProgram, TypedHost, EvalExpr, AfterAll;
    match s
    case Let(_, _, e) => ExprSound(p, h, ctx, e, env, w, fuel);
    case Assign(_, e) => ExprSound(p, h, ctx, e, env, w, fuel);
    case Return(r) => if r.Some? { ExprSound(p, h, ctx, r.value, env, w, fuel); }
    case If(c, thn, els) =>
      ExprSound(p, h, ctx, c, env, w, fuel);
      var v := EvalExpr(p, h, c, env, w, fuel);
      if v.Ok? && (v.value.b || els.Else?) {
        BlockSound(p, h, ctx, ret, if v.value.b then thn else els.stmts, env, v.world, fuel);
      }
    case While(_, _) => LoopSound(p, h, ctx, ret, s, env, w, fuel);
    case Block(ss) => BlockSound(p, h, ctx, ret, ss, env, w, fuel);
    case Eval(e) => ExprSound(p, h, ctx, e, env, w, fuel);
  }
  lemma {:induction false} LoopSound(p: Program, h: Host, ctx: Context, ret: Type, s: Stmt, env: Env, w: World,
          fuel: nat)
    requires s.While? && Sound(p, h) && TypedStmt(p, ctx, ret, s) && TypedEnv(p, ctx, env) && TypedWorld(p, w)
    ensures GoodFlow(p, Exec(p, h, s, env, w, fuel), ctx, ret)
    decreases fuel, 2, s, 0
  {
    hide BodiesReturn, TypedProgram, TypedHost, EvalExpr, ExecAll, AfterAll, TypedEnv, TypedExpr;
    if fuel > 0 {
      ExprSound(p, h, ctx, s.guard, env, w, fuel);
      var v := EvalExpr(p, h, s.guard, env, w, fuel);
      if v.Ok? && v.value.b {
        BlockSound(p, h, ctx, ret, s.body, env, v.world, fuel - 1);
        var r := ExecAll(p, h, s.body, env, v.world, fuel - 1);
        if r.Ok? && r.value.Next? {
          LoopSound(p, h, ctx, ret, s, r.value.env, r.world, fuel - 1);
        }
      }
    }
  }
}
