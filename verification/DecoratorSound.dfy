/** What decorating without an error guarantees: names are lexically scoped, every type is right, and a body
    returns on every path exactly when its return flag is right.
 */
module DecoratorSound {
  import opened Lang
  import opened Source
  import opened Syntax
  import opened Scopes
  import opened Checking
  import opened CheckSound
  import opened Elaboration
  import opened Typing
  import opened ReturnFlags

  predicate StrFreeStmt(s: Statement)
    decreases s
  {
    match s
    case ReturnStatement(r) => r.Some? ==> StrFree(r.value)
    case VariableDeclaration(_, _, init) => StrFree(init)
    case Compound(ss) => AllStrFree(ss)
    case IfStatement(c, thn, els) => StrFree(c) && AllStrFree(thn) && (els.ElsePart? ==> AllStrFree(els.statements))
    case WhileStatement(c, body) => StrFree(c) && AllStrFree(body)
    case VariableAssign(x, e) => StrFree(x) && StrFree(e)
    case ExpressionStatement(e) => StrFree(e)
  }

  predicate AllStrFree(ss: seq<Statement>)
    decreases ss
  {
    ss != [] ==> StrFreeStmt(ss[0]) && AllStrFree(ss[1..])
  }

  /** The default values that the calls of a statement use have the types of their parameters. */
  predicate UsesMatchIn(fs: seq<Signature>, s: Statement)
    decreases s
  {
    match s
    case ReturnStatement(r) => r.Some? ==> UsedDefaultsMatch(fs, r.value)
    case VariableDeclaration(_, _, init) => UsedDefaultsMatch(fs, init)
    case Compound(ss) => UsesMatchInAll(fs, ss)
    case IfStatement(c, thn, els) =>
      UsedDefaultsMatch(fs, c) && UsesMatchInAll(fs, thn) && (els.ElsePart? ==> UsesMatchInAll(fs, els.statements))
    case WhileStatement(c, body) => UsedDefaultsMatch(fs, c) && UsesMatchInAll(fs, body)
    case VariableAssign(x, e) => UsedDefaultsMatch(fs, x) && UsedDefaultsMatch(fs, e)
    case ExpressionStatement(e) => UsedDefaultsMatch(fs, e)
  }

  predicate UsesMatchInAll(fs: seq<Signature>, ss: seq<Statement>)
    decreases ss
  {
    ss != [] ==> UsesMatchIn(fs, ss[0]) && UsesMatchInAll(fs, ss[1..])
  }

  /** The decorator's flag depends on the statement alone. The LLVM lowering gives the decorated statement the
      flag it would give the statement. */
  lemma {:induction false} FlagIsHasReturn(fs: seq<Signature>, ret: Type, st: State, s: Statement)
    ensures var (st1, t, r) := DoStatement(fs, ret, st, s);
      r == HasReturn(s) && (t.Some? ==> Returns(t.value) == MustReturn(s))
    decreases s
  {
    match s
    case Compound(ss) => FlagIsSomeReturn(fs, ret, st.(here := {}), ss);
    case IfStatement(c, thn, els) =>
      var st0 := Record(st, CheckAs(ScopeOf(fs, st), c, Bool).errors);
      FlagIsSomeReturn(fs, ret, st0.(here := {}), thn);
      if els.ElsePart? {
        FlagIsSomeReturn(fs, ret, DoBlock(fs, ret, st0, thn).0.(here := {}), els.statements);
      }
    case _ =>
  }

  lemma {:induction false} FlagIsSomeReturn(fs: seq<Signature>, ret: Type, st: State, ss: seq<Statement>)
    ensures var (st1, ts, r) := DoAll(fs, ret, st, ss);
      r == SomeReturn(ss) && (ts.Some? ==> AnyReturns(ts.value) == SomeMustReturn(ss))
    decreases ss
  {
    if ss != [] {
      FlagIsHasReturn(fs, ret, st, ss[0]);
      FlagIsSomeReturn(fs, ret, DoStatement(fs, ret, st, ss[0]).0, ss[1..]);
    }
  }

  /** Where the decorator's flag does not rest on a bare return it is sound: no run of the statement completes without
      returning. */
  lemma FlagIsSound(fs: seq<Signature>, ret: Type, st: State, s: Statement, p: Program, h: Host, env: Env, w: World,
          fuel: nat)
    requires var (_, t, r) := DoStatement(fs, ret, st, s);
      t.Some? && r && !RestsOnBare(s) && Exec(p, h, t.value, env, w, fuel).Ok?
    ensures Exec(p, h, DoStatement(fs, ret, st, s).1.value, env, w, fuel).value.Returned?
  {
    hide DoStatement, Exec, RestsOnBare;
    FlagIsHasReturn(fs, ret, st, s);
    FlagsAgreeExactly(s);
    ReturnsIsSound(p, h, DoStatement(fs, ret, st, s).1.value, env, w, fuel);
  }

  /** The state matches what is known: visible names have their types, and numbers from `next` on are unused. */
  ghost predicate Fits(v: View, fs: seq<Signature>, st: State) {
    v.fs == fs && FunctionsKnown(v) && NamesKnown(v, st.names, st.types) &&
    forall d: nat {:trigger Local(d)} | Local(d) in v.ctx || Local(d) in st.types :: d < st.next
  }

  /** Types that have been given stay as they are. */
  predicate Keeps(types: map<VarRef, Type>, types1: map<VarRef, Type>) {
    forall x | x in types :: x in types1 && types1[x] == types[x]
  }

  ghost predicate GoodStmt(v: View, ret: Type, n: nat, s: Statement, t: Stmt) {
    Declared(t, v.np, v.vis, n) && (TypedStmt(v.p, v.ctx, ret, t) <==> UsesMatchIn(v.fs, s)) &&
      (v.strFree ==> SupportedStmt(t))
  }

  ghost predicate GoodAll(v: View, ret: Type, n: nat, ss: seq<Statement>, ts: seq<Stmt>) {
    AllDeclared(ts, v.np, v.vis, n) && (TypedAll(v.p, v.ctx, ret, ts) <==> UsesMatchInAll(v.fs, ss)) &&
      (v.strFree ==> AllSupported(ts))
  }

  function Entered(v: View, t: Stmt): View {
    v.(ctx := After(v.ctx, t), vis := v.vis + Declares(t))
  }

  /** Without an error a statement is good, and what follows it sees what it declares. */
  ghost predicate StatementDone(v: View, fs: seq<Signature>, ret: Type, st: State, s: Statement, st1: State,
          t: Option<Stmt>)
  {
    st1.errors >= st.errors && st1.next >= st.next &&
    (st1.errors == 0 ==>
       t.Some? && GoodStmt(v, ret, st.next, s, t.value) && st1.next == st.next + Lets(t.value) &&
         Fits(Entered(v, t.value), fs, st1) &&
       Keeps(st.types, st1.types))
  }

  ghost predicate AllDone(v: View, ret: Type, st: State, ss: seq<Statement>, st1: State, ts: Option<seq<Stmt>>) {
    st1.errors >= st.errors && st1.next >= st.next &&
    (st1.errors == 0 ==>
       ts.Some? && GoodAll(v, ret, st.next, ss, ts.value) && st1.next == st.next + LetsIn(ts.value) &&
         Keeps(st.types, st1.types) &&
       forall d: nat {:trigger Local(d)} | Local(d) in st1.types :: d < st1.next)
  }

  lemma {:induction false} CheckAsSound(v: View, fs: seq<Signature>, st: State, e: Expression, t: Type)
    requires Fits(v, fs, st) && (v.strFree ==> StrFree(e))
    ensures var r := CheckAs(ScopeOf(fs, st), e, t);
      r.errors == 0 ==> r.expr.Some? && Good(v, e, r.expr.value) && ResultType(r.expr.value) == t
  {
    CheckIsSound(v, ScopeOf(fs, st), e);
  }

  lemma {:induction false} AllSound(v: View, fs: seq<Signature>, ret: Type, st: State, ss: seq<Statement>)
    requires (st.errors == 0 ==> Fits(v, fs, st)) && (v.strFree ==> AllStrFree(ss))
    ensures AllDone(v, ret, st, ss, DoAll(fs, ret, st, ss).0, DoAll(fs, ret, st, ss).1)
    decreases ss, 0
  {
    hide DoStatement, GoodStmt;
    if ss != [] {
      StatementSound(v, fs, ret, st, ss[0]);
      var (st1, t, _) := DoStatement(fs, ret, st, ss[0]);
      var v1 := if t.Some? then Entered(v, t.value) else v;
      AllSound(v1, fs, ret, st1, ss[1..]);
      var (st2, ts, _) := DoAll(fs, ret, st1, ss[1..]);
      if st2.errors == 0 {
        assert GoodAll(v, ret, st.next, ss, [t.value] + ts.value) by {
          AllGood(v, ret, st.next, ss, t.value, ts.value);
        }
      }
    }
  }

  lemma AllGood(v: View, ret: Type, n: nat, ss: seq<Statement>, t: Stmt, ts: seq<Stmt>)
    requires ss != [] && GoodStmt(v, ret, n, ss[0], t) && GoodAll(Entered(v, t), ret, n + Lets(t), ss[1..], ts)
    ensures GoodAll(v, ret, n, ss, [t] + ts)
  {
    assert ([t] + ts)[1..] == ts;
  }

  /** A block leaves the visible names as they were. */
  lemma {:induction false} BlockSound(v: View, fs: seq<Signature>, ret: Type, st: State, ss: seq<Statement>)
    requires (st.errors == 0 ==> Fits(v, fs, st)) && (v.strFree ==> AllStrFree(ss))
    ensures var (st1, ts, _) := DoBlock(fs, ret, st, ss);
      AllDone(v, ret, st, ss, st1, ts) && st1.names == st.names && st1.here == st.here &&
        (st1.errors == 0 ==> Fits(v, fs, st1))
    decreases ss, 1
  {
    AllSound(v, fs, ret, st.(here := {}), ss);
  }

  lemma {:induction false} StatementSound(v: View, fs: seq<Signature>, ret: Type, st: State, s: Statement)
    requires (st.errors == 0 ==> Fits(v, fs, st)) && (v.strFree ==> StrFreeStmt(s))
    ensures StatementDone(v, fs, ret, st, s, DoStatement(fs, ret, st, s).0, DoStatement(fs, ret, st, s).1)
    decreases s
  {
    hide DoStatement, StatementDone;
    match s
    case ReturnStatement(_) => ReturnSound(v, fs, ret, st, s);
    case VariableDeclaration(_, _, _) => DeclarationSound(v, fs, ret, st, s);
    case Compound(_) => CompoundSound(v, fs, ret, st, s);
    case IfStatement(_, _, _) => IfSound(v, fs, ret, st, s);
    case WhileStatement(_, _) => WhileSound(v, fs, ret, st, s);
    case VariableAssign(_, _) => AssignSound(v, fs, ret, st, s);
    case ExpressionStatement(_) => ExpressionSound(v, fs, ret, st, s);
  }

  lemma {:induction false} ReturnSound(v: View, fs: seq<Signature>, ret: Type, st: State, s: Statement)
    requires s.ReturnStatement? && (st.errors == 0 ==> Fits(v, fs, st)) && (v.strFree ==> StrFreeStmt(s))
    ensures StatementDone(v, fs, ret, st, s, DoStatement(fs, ret, st, s).0, DoStatement(fs, ret, st, s).1)
  {
    hide FunctionsKnown, NamesKnown, UsedDefaultsMatch, TypedExpr, ExprDeclared, Check, Supported, GoodAll;
    if s.result.Some? && st.errors == 0 {
      CheckAsSound(v, fs, st, s.result.value, ret);
    }
    var (st1, t, _) := DoStatement(fs, ret, st, s);
    if st1.errors == 0 {
      NothingEntered(v, fs, st1, t.value);
    }
  }

  lemma {:induction false} ExpressionSound(v: View, fs: seq<Signature>, ret: Type, st: State, s: Statement)
    requires s.ExpressionStatement? && (st.errors == 0 ==> Fits(v, fs, st)) && (v.strFree ==> StrFreeStmt(s))
    ensures StatementDone(v, fs, ret, st, s, DoStatement(fs, ret, st, s).0, DoStatement(fs, ret, st, s).1)
  {
    if st.errors == 0 {
      CheckIsSound(v, ScopeOf(fs, st), s.expression);
    }
  }

  lemma {:induction false} CompoundSound(v: View, fs: seq<Signature>, ret: Type, st: State, s: Statement)
    requires s.Compound? && (st.errors == 0 ==> Fits(v, fs, st)) && (v.strFree ==> StrFreeStmt(s))
    ensures StatementDone(v, fs, ret, st, s, DoStatement(fs, ret, st, s).0, DoStatement(fs, ret, st, s).1)
    decreases s, 0
  {
    BlockSound(v, fs, ret, st, s.statements);
  }

  lemma {:induction false} IfSound(v: View, fs: seq<Signature>, ret: Type, st: State, s: Statement)
    requires s.IfStatement? && (st.errors == 0 ==> Fits(v, fs, st)) && (v.strFree ==> StrFreeStmt(s))
    ensures StatementDone(v, fs, ret, st, s, DoStatement(fs, ret, st, s).0, DoStatement(fs, ret, st, s).1)
    decreases s, 0
  {
    hide DoAll, DoBlock, CheckAs, Fits, Good, GoodAll, Keeps;
    if st.errors == 0 { CheckAsSound(v, fs, st, s.condition, Bool); }
    var c := CheckAs(ScopeOf(fs, st), s.condition, Bool);
    var st0 := Record(st, c.errors);
    assert st0.errors == 0 ==> Fits(v, fs, st0) by { RecordFits(v, fs, st, c.errors); }
    BlockSound(v, fs, ret, st0, s.ifBody);
    var (st1, thn, _) := DoBlock(fs, ret, st0, s.ifBody);
    if s.elseBody.ElsePart? {
      BlockSound(v, fs, ret, st1, s.elseBody.statements);
      var (st2, els, _) := DoBlock(fs, ret, st1, s.elseBody.statements);
      if st2.errors == 0 {
        BranchesGood(v, ret, st.next, s, c.expr.value, thn.value, Else(els.value));
        KeepsTrans(st.types, st1.types, st2.types);
        NothingEntered(v, fs, st2, If(c.expr.value, thn.value, Else(els.value)));
      }
    } else if st1.errors == 0 {
      BranchesGood(v, ret, st.next, s, c.expr.value, thn.value, NoElse);
      NothingEntered(v, fs, st1, If(c.expr.value, thn.value, NoElse));
    }
  }

  lemma {:induction false} WhileSound(v: View, fs: seq<Signature>, ret: Type, st: State, s: Statement)
    requires s.WhileStatement? && (st.errors == 0 ==> Fits(v, fs, st)) && (v.strFree ==> StrFreeStmt(s))
    ensures StatementDone(v, fs, ret, st, s, DoStatement(fs, ret, st, s).0, DoStatement(fs, ret, st, s).1)
    decreases s, 0
  {
    hide DoAll, DoBlock, CheckAs, Fits, Good, GoodAll, Keeps;
    if st.errors == 0 { CheckAsSound(v, fs, st, s.condition, Bool); }
    var c := CheckAs(ScopeOf(fs, st), s.condition, Bool);
    var st0 := Record(st, c.errors);
    assert st0.errors == 0 ==> Fits(v, fs, st0) by { RecordFits(v, fs, st, c.errors); }
    BlockSound(v, fs, ret, st0, s.body);
    var (st1, ts, _) := DoBlock(fs, ret, st0, s.body);
    if st1.errors == 0 {
      LoopGood(v, ret, st.next, s, c.expr.value, ts.value);
      NothingEntered(v, fs, st1, While(c.expr.value, ts.value));
    }
  }

  lemma RecordFits(v: View, fs: seq<Signature>, st: State, errors: nat)
    ensures Fits(v, fs, Record(st, errors)) <==> Fits(v, fs, st)
  {
  }

  lemma KeepsTrans(a: map<VarRef, Type>, b: map<VarRef, Type>, c: map<VarRef, Type>)
    requires Keeps(a, b) && Keeps(b, c)
    ensures Keeps(a, c)
  {
  }

  lemma NothingEntered(v: View, fs: seq<Signature>, st: State, t: Stmt)
    requires !t.Let? && Fits(v, fs, st)
    ensures Fits(Entered(v, t), fs, st)
  {
  }

  lemma BranchesGood(v: View, ret: Type, n: nat, s: Statement, c: Expr, thn: seq<Stmt>, els: Lang.Else)
    requires s.IfStatement? && s.elseBody.ElsePart? == els.Else?
    requires Good(v, s.condition, c) && ResultType(c) == Bool && GoodAll(v, ret, n, s.ifBody, thn)
    requires els.Else? ==> GoodAll(v, ret, n + LetsIn(thn), s.elseBody.statements, els.stmts)
    ensures GoodStmt(v, ret, n, s, If(c, thn, els))
  {
  }

  lemma LoopGood(v: View, ret: Type, n: nat, s: Statement, c: Expr, body: seq<Stmt>)
    requires s.WhileStatement? && Good(v, s.condition, c) && ResultType(c) == Bool && GoodAll(v, ret, n, s.body, body)
    ensures GoodStmt(v, ret, n, s, While(c, body))
  {
  }

  lemma {:induction false} AssignSound(v: View, fs: seq<Signature>, ret: Type, st: State, s: Statement)
    requires s.VariableAssign? && (st.errors == 0 ==> Fits(v, fs, st)) && (v.strFree ==> StrFreeStmt(s))
    ensures StatementDone(v, fs, ret, st, s, DoStatement(fs, ret, st, s).0, DoStatement(fs, ret, st, s).1)
  {
    if st.errors == 0 {
      CheckIsSound(v, ScopeOf(fs, st), s.variable);
      var l := Check(ScopeOf(fs, st), s.variable);
      if l.expr.Some? {
        CheckAsSound(v, fs, st, s.value, ResultType(l.expr.value));
      }
    }
  }

  lemma {:induction false} DeclarationSound(v: View, fs: seq<Signature>, ret: Type, st: State, s: Statement)
    requires s.VariableDeclaration? && (st.errors == 0 ==> Fits(v, fs, st)) && (v.strFree ==> StrFreeStmt(s))
    ensures StatementDone(v, fs, ret, st, s, DoStatement(fs, ret, st, s).0, DoStatement(fs, ret, st, s).1)
  {
    if st.errors == 0 {
      CheckIsSound(v, ScopeOf(fs, st), s.init);
      var (t, r) := CheckDeclaration(ScopeOf(fs, st), s.typeName, s.init);
      if r.errors == 0 {
        assert t == Some(ResultType(r.expr.value));
        assert v.strFree ==> t.value != Str;
        NewLocalFits(v, fs, st, s.name, t.value);
      }
    }
  }

  /** Declaring local `st.next`. */
  lemma NewLocalFits(v: View, fs: seq<Signature>, st: State, name: string, t: Type)
    requires Fits(v, fs, st) && (v.strFree ==> t != Str)
    ensures var st1 := AddLocal(st, name, Some(t));
      var x := Local(st.next);
      x !in v.ctx && Keeps(st.types, st1.types) && Fits(v.(ctx := v.ctx[x := t], vis := v.vis + {st.next}), fs, st1)
  {
  }

  // Functions and programs.

  lemma {:induction false} ImplicitReturn(p: Program, ctx: Typing.Context, np: nat, vis: set<nat>, n: nat,
          ts: seq<Stmt>)
    requires AllDeclared(ts, np, vis, n)
    ensures var rs := ts + [Return(None)];
      AnyReturns(rs) && AllDeclared(rs, np, vis, n) && (AllSupported(rs) <==> AllSupported(ts)) &&
      (TypedAll(p, ctx, Void, rs) <==> TypedAll(p, ctx, Void, ts))
    decreases ts
  {
    var r := Return(None);
    if ts == [] {
      assert ts + [r] == [r];
    } else {
      ImplicitReturn(p, After(ctx, ts[0]), np, vis + Declares(ts[0]), n + Lets(ts[0]), ts[1..]);
      assert ts + [r] == [ts[0]] + (ts[1..] + [r]);
      assert (ts + [r])[1..] == ts[1..] + [r];
    }
  }

  /** The decorator takes a body to return only if it does on every path. */
  predicate FlagHolds(ss: seq<Statement>) {
    SomeReturn(ss) ==> SomeMustReturn(ss)
  }

  /** A body without an error returns on every path, by an implicit return if need be, exactly when its flag holds. */
  lemma {:induction false} BodySound(v: View, fs: seq<Signature>, ret: Type, st: State, ss: seq<Statement>)
    requires (st.errors == 0 ==> Fits(v, fs, st)) && (v.strFree ==> AllStrFree(ss)) && st.next == 0
    ensures var (ts, errors) := DoBody(fs, ret, st, ss);
      errors >= st.errors && (errors == 0 ==>
        ts.Some? && GoodAll(v, ret, 0, ss, ts.value) && (AnyReturns(ts.value) <==> FlagHolds(ss)))
  {
    hide Fits, DoAll, TypedAll, AllDeclared, AllSupported, UsesMatchInAll;
    AllSound(v, fs, ret, st, ss);
    FlagIsSomeReturn(fs, ret, st, ss);
    MustIsSome(ss);
    var (st1, ts, r) := DoAll(fs, ret, st, ss);
    if st1.errors == 0 && !r && ret == Void {
      ImplicitReturn(v.p, v.ctx, v.np, v.vis, 0, ts.value);
    }
  }

  lemma {:induction false} KnownTypesAre(params: seq<Parameter>)
    ensures KnownTypes(params).Some? <==> forall i | 0 <= i < |params| :: params[i].ty.Some?
    ensures var ts := KnownTypes(params);
      ts.Some? ==> |ts.value| == |params| && forall i | 0 <= i < |params| :: params[i].ty == Some(ts.value[i])
    decreases params
  {
    if params != [] {
      KnownTypesAre(params[1..]);
      assert forall i | 1 <= i < |params| :: params[i] == params[1..][i - 1];
    }
  }

  lemma {:induction false} AddParamsFits(v: View, fs: seq<Signature>, st: State, params: seq<Parameter>, i: nat)
    requires Fits(v, fs, st) && forall k: nat | k < |params| :: VarKnown(v, st.types, Param(k))
    ensures var st1 := AddParams(st, params, i); Fits(v, fs, st1) && st1.errors == st.errors && st1.next == st.next
    decreases |params| - i
  {
    if i < |params| {
      AddParamsFits(v, fs, if params[i].name in st.here then st
        else AddHere(st, params[i].name, VarEntry(Param(i))), params, i + 1);
    }
  }

  /** The global scope: every name is a global variable with a type or a function. */
  ghost predicate GlobalsKnown(fs: seq<Signature>, p: Program, names: Names, types: map<VarRef, Type>, strFree: bool) {
    (forall name | name in names ::
       if names[name].VarEntry? then names[name].x.Global? && names[name].x in types
       else names[name].index < |fs| && fs[names[name].index].name == name) &&
    forall x | x in types ::
      x.Global? && x.index < |p.globals| && types[x] == TypeOf(p.globals[x.index]) && (strFree ==> types[x] != Str)
  }

  function FunctionView(fs: seq<Signature>, p: Program, params: seq<Type>, strFree: bool): View {
    View(fs, p, FunctionContext(p, FunDecl(params, Void, false, [])), |params|, {}, strFree)
  }

  lemma StartFits(v: View, fs: seq<Signature>, names: Names, types: map<VarRef, Type>, params: seq<Parameter>,
          ts: seq<Type>)
    requires v.fs == fs && FunctionsKnown(v) && GlobalsKnown(fs, v.p, names, types, v.strFree) &&
      v == FunctionView(v.fs, v.p, ts, v.strFree)
    requires |params| == |ts| &&
      forall i | 0 <= i < |params| :: params[i].ty == Some(ts[i]) && (v.strFree ==> ts[i] != Str)
    ensures var st := BodyStart(names, types, params, 0); Fits(v, fs, st) && st.errors == 0 && st.next == 0
  {
    hide FunctionsKnown, GlobalsKnown, FunctionView;
    StartNames(v, names, types, params, ts);
    StartTypes(v, names, types, params, ts);
    AddParamsFits(v, fs, State(names, {}, types + ParamTypes(params), 0, 0), params, 0);
  }

  lemma StartNames(v: View, names: Names, types: map<VarRef, Type>, params: seq<Parameter>, ts: seq<Type>)
    requires GlobalsKnown(v.fs, v.p, names, types, v.strFree) && v == FunctionView(v.fs, v.p, ts, v.strFree)
    ensures NamesKnown(v, names, types + ParamTypes(params))
  {
  }

  lemma StartTypes(v: View, names: Names, types: map<VarRef, Type>, params: seq<Parameter>, ts: seq<Type>)
    requires GlobalsKnown(v.fs, v.p, names, types, v.strFree) && v == FunctionView(v.fs, v.p, ts, v.strFree)
    requires |params| == |ts| &&
      forall i | 0 <= i < |params| :: params[i].ty == Some(ts[i]) && (v.strFree ==> ts[i] != Str)
    ensures forall k: nat | k < |params| :: VarKnown(v, types + ParamTypes(params), Param(k))
    ensures forall d: nat {:trigger Local(d)} :: Local(d) !in v.ctx && Local(d) !in types + ParamTypes(params)
  {
  }

  lemma {:induction false} AddParamsErrors(st: State, params: seq<Parameter>, i: nat)
    ensures AddParams(st, params, i).errors == st.errors && AddParams(st, params, i).next == st.next
    decreases |params| - i
  {
    if i < |params| {
      AddParamsErrors(if params[i].name in st.here then st
        else AddHere(st, params[i].name, VarEntry(Param(i))), params, i + 1);
    }
  }

  /** What is known of a declared function without an error. */
  ghost predicate FunctionDone(v: View, fd: FunctionDeclaration, sig: Signature, t: FunDecl) {
    Some(t.params) == KnownTypes(sig.params) && Some(t.returnType) == sig.returnType && t.isExtern == fd.body.None? &&
    (fd.body.Some? ==>
      GoodAll(v, t.returnType, 0, fd.body.value, t.body) &&
      (AnyReturns(t.body) <==> FlagHolds(fd.body.value)))
  }

  predicate BodyStrFree(fd: FunctionDeclaration) {
    fd.body.Some? ==> AllStrFree(fd.body.value)
  }

  lemma {:induction false} FunctionSound(v: View, fs: seq<Signature>, names: Names, types: map<VarRef, Type>,
          fd: FunctionDeclaration, sig: Signature, ts: seq<Type>, errors: nat)
    requires v.fs == fs && FunctionsKnown(v) && GlobalsKnown(fs, v.p, names, types, v.strFree) &&
      v == FunctionView(v.fs, v.p, ts, v.strFree)
    requires KnownTypes(sig.params) == Some(ts) && sig.returnType.Some?
    requires v.strFree ==> BodyStrFree(fd) && forall i | 0 <= i < |ts| :: ts[i] != Str
    ensures var (e, isMain, t) := DoFunction(fs, names, types, fd, sig, errors);
      e >= errors && (isMain ==> fd.name == "main" && sig.params == [] && sig.returnType == Some(I32)) &&
      (e == 0 ==> t.Some? && FunctionDone(v, fd, sig, t.value))
  {
    hide GoodAll, Fits, DoBody, FunctionsKnown, GlobalsKnown, FunctionView;
    KnownTypesAre(sig.params);
    if fd.body.Some? {
      var st := BodyStart(names, types, sig.params, errors);
      AddParamsErrors(State(names, {}, types + ParamTypes(sig.params), 0, errors), sig.params, 0);
      if errors == 0 {
        StartFits(v, fs, names, types, sig.params, ts);
      }
      BodySound(v, fs, sig.returnType.value, st, fd.body.value);
    }
  }
}
