/** Decorating keeps the meaning: the decorated program runs as the written one, and every name stands for the
    innermost declaration in front of it.
 */
module MeaningSound {
  import opened Lang
  import opened Source
  import opened Syntax
  import opened Scopes
  import opened Checking
  import opened Elaboration
  import opened DecoratorSound
  import M = Meaning

  // Names: what the decorator links them to.

  /** A name that no declaration of the function binds: a global variable, a function or nothing. */
  ghost predicate Outside(root: Root, names: Names, name: string) {
    var g, f := M.GlobalNamed(root, name), M.FunctionNamed(root, name);
    if g.Some? then name in names && names[name] == VarEntry(Global(g.value))
    else if f.Some? then name in names && names[name] == FunEntry(f.value)
    else name !in names
  }

  /** After the declarations of `ns`, linked to `refs`, every name is linked to the innermost of them that has it. */
  ghost predicate Resolves(root: Root, names: Names, ns: seq<string>, refs: seq<VarRef>) {
    |refs| == |ns| &&
    forall name {:trigger M.Innermost(ns, name)} ::
      var i := M.Innermost(ns, name);
      if i.Some? then name in names && names[name] == VarEntry(refs[i.value]) else Outside(root, names, name)
  }

  /** Declarations are linked to variables of their own; numbers of locals from `next` on are unused. */
  predicate OwnVariables(refs: seq<VarRef>, next: nat) {
    (forall i | 0 <= i < |refs| :: !refs[i].Global? && (refs[i].Local? ==> refs[i].index < next)) &&
    forall i, j | 0 <= i < j < |refs| :: refs[i] != refs[j]
  }

  lemma {:induction false} InnermostOfMore(ns: seq<string>, more: string, name: string)
    ensures M.Innermost(ns + [more], name) == if more == name then Some(|ns|) else M.Innermost(ns, name)
  {
    var all := ns + [more];
    assert all[|all| - 1] == more && all[..|all| - 1] == ns;
  }

  /** A declaration shadows every outer meaning of its name, and no other name. */
  lemma DeclarationResolves(root: Root, st: State, name: string, t: Option<Type>, ns: seq<string>, refs: seq<VarRef>)
    requires Resolves(root, st.names, ns, refs) && AddLocal(st, name, t).errors == st.errors
    ensures Resolves(root, AddLocal(st, name, t).names, ns + [name], refs + [Local(st.next)])
  {
    var st1 := AddLocal(st, name, t);
    assert st1.names == st.names[name := VarEntry(Local(st.next))];
    forall x
      ensures var i := M.Innermost(ns + [name], x);
        if i.Some? then x in st1.names && st1.names[x] == VarEntry((refs + [Local(st.next)])[i.value])
        else Outside(root, st1.names, x)
    {
      InnermostOfMore(ns, name, x);
      assert M.Innermost(ns, x).Some? || Outside(root, st.names, x);
    }
  }

  /** The variables that the declarations of a statement are linked to. */
  function NewRefs(s: Statement, next: nat): seq<VarRef> {
    if s.VariableDeclaration? then [Local(next)] else []
  }

  /** What decorating a statement does to names: what it declares is linked to a new local, and nothing else changes. */
  ghost predicate NamesDone(root: Root, st: State, s: Statement, st1: State, ns: seq<string>, refs: seq<VarRef>) {
    st1.errors >= st.errors && st1.next >= st.next &&
    (st1.errors == st.errors ==>
      Resolves(root, st1.names, ns + M.NewNames(s), refs + NewRefs(s, st.next)) &&
      OwnVariables(refs + NewRefs(s, st.next), st1.next))
  }

  /** Errors and numbers only grow, whatever is decorated. */
  lemma {:induction false} StatementGrows(fs: seq<Signature>, ret: Type, st: State, s: Statement)
    ensures var st1 := DoStatement(fs, ret, st, s).0; st1.errors >= st.errors && st1.next >= st.next
    decreases s
  {
    match s
    case Compound(ss) => AllGrow(fs, ret, st.(here := {}), ss);
    case IfStatement(c, thn, els) =>
      var st0 := Record(st, CheckAs(ScopeOf(fs, st), c, Bool).errors);
      AllGrow(fs, ret, st0.(here := {}), thn);
      if els.ElsePart? {
        AllGrow(fs, ret, DoBlock(fs, ret, st0, thn).0.(here := {}), els.statements);
      }
    case WhileStatement(c, body) =>
      AllGrow(fs, ret, Record(st, CheckAs(ScopeOf(fs, st), c, Bool).errors).(here := {}), body);
    case _ =>
  }

  lemma {:induction false} AllGrow(fs: seq<Signature>, ret: Type, st: State, ss: seq<Statement>)
    ensures var st1 := DoAll(fs, ret, st, ss).0; st1.errors >= st.errors && st1.next >= st.next
    decreases ss
  {
    if ss != [] {
      StatementGrows(fs, ret, st, ss[0]);
      AllGrow(fs, ret, DoStatement(fs, ret, st, ss[0]).0, ss[1..]);
    }
  }

  /** Lexical scoping: a declaration without an error takes its name over, and when a block ends every name means what
      it meant before. */
  lemma {:induction false} StatementResolves(root: Root, fs: seq<Signature>, ret: Type, st: State, s: Statement,
          ns: seq<string>, refs: seq<VarRef>)
    requires Resolves(root, st.names, ns, refs) && OwnVariables(refs, st.next)
    ensures NamesDone(root, st, s, DoStatement(fs, ret, st, s).0, ns, refs)
  {
    hide Resolves, Check, DoAll;
    StatementGrows(fs, ret, st, s);
    if s.VariableDeclaration? {
      var r := CheckDeclaration(ScopeOf(fs, st), s.typeName, s.init);
      var st0 := Record(st, r.1.errors);
      if AddLocal(st0, s.name, r.0).errors == st.errors {
        DeclarationResolves(root, st0, s.name, r.0, ns, refs);
      }
    } else {
      assert ns + [] == ns && refs + [] == refs;
    }
  }

  // Runs.

  /** A written program and its decorated form, with the names and types of the global scope. */
  datatype Linkage = Linkage(root: Root, p: Program, names: Names, types: map<VarRef, Type>)

  ghost predicate FunctionLinked(x: Linkage, f: nat)
    requires f < |x.p.funs| && f < |x.root.functions|
  {
    var fd, t, sig := x.root.functions[f], x.p.funs[f], Signatures(x.root)[f];
    t.isExtern == fd.body.None? && |t.params| == |fd.params| &&
    (fd.body.Some? ==>
      sig.returnType == Some(t.returnType) &&
      DoBody(Signatures(x.root), t.returnType, BodyStart(x.names, x.types, sig.params, 0), fd.body.value) ==
      (Some(t.body), 0))
  }

  ghost predicate Linked(x: Linkage) {
    |x.p.funs| == |x.root.functions| && (forall name :: Outside(x.root, x.names, name)) &&
    forall f {:trigger x.p.funs[f]} | 0 <= f < |x.p.funs| :: FunctionLinked(x, f)
  }

  /** The variables that bindings are linked to hold their values. */
  predicate Holds(bs: M.Bindings, refs: seq<VarRef>, env: Env) {
    |refs| == |bs| && forall i | 0 <= i < |bs| :: refs[i] in env && env[refs[i]] == bs[i].value
  }

  /** What is known of the names and variables where a piece of the program runs. */
  ghost predicate Matches(x: Linkage, names: Names, bs: M.Bindings, refs: seq<VarRef>, env: Env) {
    Resolves(x.root, names, M.NamesOf(bs), refs) && Holds(bs, refs, env)
  }

  lemma ReadMeans(x: Linkage, sc: Scope, e: Expression, bs: M.Bindings, refs: seq<VarRef>, env: Env, w: World)
    requires e.Variable? && Matches(x, sc.names, bs, refs, env) && Check(sc, e).expr.Some?
    requires forall i | 0 <= i < |refs| :: !refs[i].Global?
    ensures Check(sc, e).expr.value.Var?
    ensures var v := Lookup(Check(sc, e).expr.value.x, env, w);
      M.Read(x.root, e.name, bs, w) == if v.Some? then Ok(v.value, w) else Stuck
  {
    var i := M.Innermost(M.NamesOf(bs), e.name);
    assert i.None? ==> Outside(x.root, sc.names, e.name);
  }

  lemma {:induction false} ExpressionMeans(x: Linkage, h: Host, sc: Scope, e: Expression, bs: M.Bindings,
          refs: seq<VarRef>, env: Env, w: World, fuel: nat)
    requires Linked(x) && sc.functions == Signatures(x.root) && Matches(x, sc.names, bs, refs, env)
    requires forall i | 0 <= i < |refs| :: !refs[i].Global?
    requires Check(sc, e).expr.Some?
    ensures M.Evaluate(x.root, h, e, bs, w, fuel) == EvalExpr(x.p, h, Check(sc, e).expr.value, env, w, fuel)
    decreases fuel, 1, e, 3
  {
    hide Linked, Matches;
    match e
    case Constant(_) =>
    case Variable(_) => ReadMeans(x, sc, e, bs, refs, env, w);
    case UnaryNot(inner) => ExpressionMeans(x, h, sc, inner, bs, refs, env, w, fuel);
    case Binary(_, lhs, rhs) =>
      ExpressionMeans(x, h, sc, lhs, bs, refs, env, w, fuel);
      var a := M.Evaluate(x.root, h, lhs, bs, w, fuel);
      if a.Ok? {
        ExpressionMeans(x, h, sc, rhs, bs, refs, env, a.world, fuel);
      }
    case CallTo(_, _, _) => CallMeans(x, h, sc, e, bs, refs, env, w, fuel);
  }

  /** A call that is accepted names a function, which no variable hides. */
  lemma CalleeMeans(x: Linkage, sc: Scope, e: Expression, bs: M.Bindings, refs: seq<VarRef>, env: Env)
    requires e.CallTo? && sc.functions == Signatures(x.root) && Matches(x, sc.names, bs, refs, env)
    requires Check(sc, e).expr.Some?
    ensures e.calledName in sc.names && sc.names[e.calledName].FunEntry?
    ensures var f := sc.names[e.calledName].index;
      f < |x.root.functions| && M.FunctionNamed(x.root, e.calledName) == Some(f) &&
      e.calledName !in M.NamesOf(bs) && M.GlobalNamed(x.root, e.calledName).None? &&
      CheckArguments(sc, e, sc.functions[f].params).ok &&
      Check(sc, e).expr.value == Expr.Call(f, Exprs(CheckArguments(sc, e, sc.functions[f].params).slots),
                                           sc.functions[f].returnType.value)
  {
    hide CheckArguments;
    var i := M.Innermost(M.NamesOf(bs), e.calledName);
    assert i.None? ==> Outside(x.root, sc.names, e.calledName);
  }

  lemma {:induction false} CallMeans(x: Linkage, h: Host, sc: Scope, e: Expression, bs: M.Bindings,
          refs: seq<VarRef>, env: Env, w: World, fuel: nat)
    requires e.CallTo? && Linked(x) && sc.functions == Signatures(x.root) && Matches(x, sc.names, bs, refs, env)
    requires forall i | 0 <= i < |refs| :: !refs[i].Global?
    requires Check(sc, e).expr.Some?
    ensures M.Evaluate(x.root, h, e, bs, w, fuel) == EvalExpr(x.p, h, Check(sc, e).expr.value, env, w, fuel)
    decreases fuel, 1, e, 2
  {
    hide Linked, Matches, CheckArguments, Check;
    CalleeMeans(x, sc, e, bs, refs, env);
    var f := sc.names[e.calledName].index;
    var slots := CheckArguments(sc, e, sc.functions[f].params).slots;
    ArgumentsMean(x, h, sc, e, f, 0, bs, refs, env, w, fuel);
    assert Exprs(slots)[0..] == Exprs(slots);
    var vs := EvalArgs(x.p, h, Exprs(slots), env, w, fuel);
    if vs.Ok? {
      FunctionMeans(x, h, f, vs.value, vs.world, fuel);
    }
  }

  /** The expression a parameter gets: the one the call gives it, or its default value. */
  lemma ArgumentIs(x: Linkage, sc: Scope, e: Expression, f: nat, i: nat)
    requires e.CallTo? && f < |x.root.functions| && sc.functions == Signatures(x.root)
    requires CheckArguments(sc, e, sc.functions[f].params).ok && i < |x.root.functions[f].params|
    ensures
      var params := x.root.functions[f].params;
      var k := M.NamedArgument(params, e.named, i);
      var slot := Exprs(CheckArguments(sc, e, sc.functions[f].params).slots)[i];
      if i < |e.nonNamed| then Check(sc, e.nonNamed[i]).expr == Some(slot)
      else if k.Some? then Check(sc, e.named[k.value].expression).expr == Some(slot)
      else params[i].default.Some? && slot == Lit(ValueOf(params[i].default.value))
  {
    hide CheckArguments, Check;
    var decls, params := x.root.functions[f].params, sc.functions[f].params;
    var k := M.NamedArgument(decls, e.named, i);
    CallExact(sc, e, params);
    assert forall j | 0 <= j < |params| :: params[j].name == decls[j].name && params[j].default == decls[j].default;
    if i < |e.nonNamed| {
      assert PositionalResult(sc, params, e.nonNamed, i).Some?;
    } else if k.Some? {
      NamedIs(decls, params, e.named, i, k.value);
      assert NamedResult(sc, params, e.named, k.value).Some?;
      assert CheckArguments(sc, e, params).slots[Target(params, e.named, k.value)] ==
        Filled(NamedResult(sc, params, e.named, k.value));
    } else {
      NotNamed(decls, params, e.named, i);
      assert CheckArguments(sc, e, params).slots[i] == DefaultSlot(params[i]);
    }
  }

  lemma NamedIs(decls: seq<ParamDeclaration>, params: seq<Parameter>, named: seq<NamedArg>, i: nat, k: nat)
    requires |decls| == |params| && forall j | 0 <= j < |params| :: params[j].name == decls[j].name
    requires i < |params| && M.NamedArgument(decls, named, i) == Some(k)
    ensures k < |named| && Target(params, named, k) == i
  {
    var t, ns := Target(params, named, k), M.ParamNames(decls);
    assert M.FirstOf(ns, decls[i].name) == Some(i);
  }

  lemma NotNamed(decls: seq<ParamDeclaration>, params: seq<Parameter>, named: seq<NamedArg>, i: nat)
    requires |decls| == |params| && forall j | 0 <= j < |params| :: params[j].name == decls[j].name
    requires i < |params| && M.NamedArgument(decls, named, i).None?
    ensures !Targeted(params, named, i)
  {
    var argNames := seq(|named|, k requires 0 <= k < |named| => named[k].name);
    assert forall k | 0 <= k < |named| :: argNames[k] == named[k].name;
    var ns := M.ParamNames(decls);
    var first := M.FirstOf(ns, decls[i].name);
    assert ns[i] == decls[i].name;
  }

  /** One parameter gets the value that its decorated argument has. */
  lemma {:induction false} ArgumentMeans(x: Linkage, h: Host, sc: Scope, e: Expression, f: nat, i: nat, bs: M.Bindings,
          refs: seq<VarRef>, env: Env, w: World, fuel: nat)
    requires e.CallTo? && Linked(x) && sc.functions == Signatures(x.root) && Matches(x, sc.names, bs, refs, env)
    requires forall i | 0 <= i < |refs| :: !refs[i].Global?
    requires f < |x.root.functions| && CheckArguments(sc, e, sc.functions[f].params).ok
    requires i < |x.root.functions[f].params|
    ensures
      M.EvaluateArgument(x.root, h, e, x.root.functions[f].params, i, bs, w, fuel) ==
      EvalExpr(x.p, h, Exprs(CheckArguments(sc, e, sc.functions[f].params).slots)[i], env, w, fuel)
    decreases fuel, 1, e, 0, 0
  {
    hide Linked, Matches, CheckArguments, Check, EvalExpr, M.Evaluate, Exprs;
    var params := x.root.functions[f].params;
    var k := M.NamedArgument(params, e.named, i);
    ArgumentIs(x, sc, e, f, i);
    if i < |e.nonNamed| {
      ExpressionMeans(x, h, sc, e.nonNamed[i], bs, refs, env, w, fuel);
    } else if k.Some? {
      ExpressionMeans(x, h, sc, e.named[k.value].expression, bs, refs, env, w, fuel);
    } else {
      LiteralMeans(x, h, Exprs(CheckArguments(sc, e, sc.functions[f].params).slots)[i], env, w, fuel);
    }
  }

  /** The parameters from the `i`-th on get the values that the decorated arguments have. */
  lemma {:induction false} ArgumentsMean(x: Linkage, h: Host, sc: Scope, e: Expression, f: nat, i: nat, bs: M.Bindings,
          refs: seq<VarRef>, env: Env, w: World, fuel: nat)
    requires e.CallTo? && Linked(x) && sc.functions == Signatures(x.root) && Matches(x, sc.names, bs, refs, env)
    requires forall i | 0 <= i < |refs| :: !refs[i].Global?
    requires f < |x.root.functions| && CheckArguments(sc, e, sc.functions[f].params).ok
    requires i <= |x.root.functions[f].params|
    ensures
      M.EvaluateArguments(x.root, h, e, x.root.functions[f].params, i, bs, w, fuel) ==
      EvalArgs(x.p, h, Exprs(CheckArguments(sc, e, sc.functions[f].params).slots)[i..], env, w, fuel)
    decreases fuel, 1, e, 1, |x.root.functions[f].params| - i
  {
    hide Linked, Matches, CheckArguments, Check, EvalExpr, M.EvaluateArgument, Exprs;
    var params := x.root.functions[f].params;
    var es := Exprs(CheckArguments(sc, e, sc.functions[f].params).slots);
    if i < |params| {
      assert es[i..][0] == es[i] && es[i..][1..] == es[i + 1..];
      ArgumentMeans(x, h, sc, e, f, i, bs, refs, env, w, fuel);
      var v := EvalExpr(x.p, h, es[i], env, w, fuel);
      if v.Ok? {
        ArgumentsMean(x, h, sc, e, f, i + 1, bs, refs, env, v.world, fuel);
      }
    }
  }

  lemma LiteralMeans(x: Linkage, h: Host, e: Expr, env: Env, w: World, fuel: nat)
    requires e.Lit?
    ensures EvalExpr(x.p, h, e, env, w, fuel) == Ok(e.value, w)
  {
  }

  /** Statements end alike: with bindings that the variables hold, with the same result, or in the same failure. */
  ghost predicate EndsAlike(a: Res<M.Completion>, b: Res<Flow>, refs: seq<VarRef>) {
    match a
    case Ok(Onward(bs), w) => b.Ok? && b.world == w && b.value.Next? && Holds(bs, refs, b.value.env)
    case Ok(Leave(v), w) => b == Ok(Returned(v), w)
    case Fault(w) => b == Fault(w)
    case OutOfFuel => b == OutOfFuel
    case FellOff => b == FellOff
    case Stuck => b == Stuck
  }

  /** A statement is decorated without an error where names and variables match. */
  ghost predicate Decorates(x: Linkage, ret: Type, st: State, s: Statement, bs: M.Bindings, refs: seq<VarRef>, env: Env)
  {
    var (st1, t, _) := DoStatement(Signatures(x.root), ret, st, s);
    Linked(x) && Matches(x, st.names, bs, refs, env) && OwnVariables(refs, st.next) && st1.errors == st.errors &&
      t.Some?
  }

  ghost predicate DecoratesAll(x: Linkage, ret: Type, st: State, ss: seq<Statement>, bs: M.Bindings, refs: seq<VarRef>,
          env: Env)
  {
    var (st1, ts, _) := DoAll(Signatures(x.root), ret, st, ss);
    Linked(x) && Matches(x, st.names, bs, refs, env) && OwnVariables(refs, st.next) && st1.errors == st.errors &&
      ts.Some?
  }

  lemma {:induction false} StatementMeans(x: Linkage, h: Host, ret: Type, st: State, s: Statement, bs: M.Bindings,
          refs: seq<VarRef>, env: Env, w: World, fuel: nat)
    requires Decorates(x, ret, st, s, bs, refs, env)
    ensures EndsAlike(M.Execute(x.root, h, s, bs, w, fuel),
                      Exec(x.p, h, DoStatement(Signatures(x.root), ret, st, s).1.value, env, w, fuel),
                      refs + NewRefs(s, st.next))
    decreases fuel, 2, s, 2
  {
    hide EndsAlike, Decorates, DoStatement, M.Execute, Exec, Holds;
    assert !s.VariableDeclaration? ==> refs + NewRefs(s, st.next) == refs;
    match s
    case VariableDeclaration(_, _, _) => DeclarationMeans(x, h, ret, st, s, bs, refs, env, w, fuel);
    case VariableAssign(_, _) => AssignMeans(x, h, ret, st, s, bs, refs, env, w, fuel);
    case ReturnStatement(_) => ReturnMeans(x, h, ret, st, s, bs, refs, env, w, fuel);
    case ExpressionStatement(_) => EvalMeans(x, h, ret, st, s, bs, refs, env, w, fuel);
    case Compound(_) => CompoundMeans(x, h, ret, st, s, bs, refs, env, w, fuel);
    case IfStatement(_, _, _) => IfMeans(x, h, ret, st, s, bs, refs, env, w, fuel);
    case WhileStatement(_, _) => WhileMeans(x, h, ret, st, s, bs, refs, env, w, fuel);
  }

  lemma {:induction false} DeclarationMeans(x: Linkage, h: Host, ret: Type, st: State, s: Statement, bs: M.Bindings,
          refs: seq<VarRef>, env: Env, w: World, fuel: nat)
    requires s.VariableDeclaration? && Decorates(x, ret, st, s, bs, refs, env)
    ensures EndsAlike(M.Execute(x.root, h, s, bs, w, fuel),
                      Exec(x.p, h, DoStatement(Signatures(x.root), ret, st, s).1.value, env, w, fuel),
                      refs + [Local(st.next)])
    decreases fuel, 2, s, 0
  {
    hide Check, M.Evaluate, EvalExpr, Linked, Resolves, AddLocal;
    ExpressionMeans(x, h, ScopeOf(Signatures(x.root), st), s.init, bs, refs, env, w, fuel);
  }

  lemma {:induction false} ReturnMeans(x: Linkage, h: Host, ret: Type, st: State, s: Statement, bs: M.Bindings,
          refs: seq<VarRef>, env: Env, w: World, fuel: nat)
    requires s.ReturnStatement? && Decorates(x, ret, st, s, bs, refs, env)
    ensures EndsAlike(M.Execute(x.root, h, s, bs, w, fuel),
                      Exec(x.p, h, DoStatement(Signatures(x.root), ret, st, s).1.value, env, w, fuel), refs)
    decreases fuel, 2, s, 0
  {
    hide Check, M.Evaluate, EvalExpr, Linked, Resolves;
    if s.result.Some? {
      ExpressionMeans(x, h, ScopeOf(Signatures(x.root), st), s.result.value, bs, refs, env, w, fuel);
    }
  }

  lemma {:induction false} EvalMeans(x: Linkage, h: Host, ret: Type, st: State, s: Statement, bs: M.Bindings,
          refs: seq<VarRef>, env: Env, w: World, fuel: nat)
    requires s.ExpressionStatement? && Decorates(x, ret, st, s, bs, refs, env)
    ensures EndsAlike(M.Execute(x.root, h, s, bs, w, fuel),
                      Exec(x.p, h, DoStatement(Signatures(x.root), ret, st, s).1.value, env, w, fuel), refs)
    decreases fuel, 2, s, 0
  {
    hide Check, M.Evaluate, EvalExpr, Linked, Resolves;
    ExpressionMeans(x, h, ScopeOf(Signatures(x.root), st), s.expression, bs, refs, env, w, fuel);
  }

  /** An assignment changes the innermost variable of the name, and no other. */
  lemma WriteMeans(x: Linkage, sc: Scope, e: VariableExpression, v: Value, bs: M.Bindings, refs: seq<VarRef>, env: Env,
          w: World, next: nat)
    requires e.Variable? && Matches(x, sc.names, bs, refs, env) && OwnVariables(refs, next)
    requires Check(sc, e).expr.Some?
    ensures Check(sc, e).expr.value.Var?
    ensures
      var y := Check(sc, e).expr.value.x;
      EndsAlike(M.Write(x.root, e.name, v, bs, w),
                if Lookup(y, env, w).None? then Stuck
                else if y.Global? then Ok(Next(env), w.(globals := w.globals[y.index := v]))
                else Ok(Next(env[y := v]), w), refs)
  {
    var i := M.Innermost(M.NamesOf(bs), e.name);
    assert i.None? ==> Outside(x.root, sc.names, e.name);
  }

  lemma {:induction false} AssignMeans(x: Linkage, h: Host, ret: Type, st: State, s: Statement, bs: M.Bindings,
          refs: seq<VarRef>, env: Env, w: World, fuel: nat)
    requires s.VariableAssign? && Decorates(x, ret, st, s, bs, refs, env)
    ensures EndsAlike(M.Execute(x.root, h, s, bs, w, fuel),
                      Exec(x.p, h, DoStatement(Signatures(x.root), ret, st, s).1.value, env, w, fuel), refs)
    decreases fuel, 2, s, 0
  {
    hide M.Evaluate, EvalExpr, Linked, Resolves, M.Write, Lookup, Holds;
    var sc := ScopeOf(Signatures(x.root), st);
    OnlyVariablesAssigned(sc, s.variable);
    ExpressionMeans(x, h, sc, s.value, bs, refs, env, w, fuel);
    var v := M.Evaluate(x.root, h, s.value, bs, w, fuel);
    if v.Ok? {
      WriteMeans(x, sc, s.variable, v.value, bs, refs, env, v.world, st.next);
    }
  }

  lemma OnlyVariablesAssigned(sc: Scope, e: VariableExpression)
    ensures e.MemberVariable? ==> Check(sc, e).expr.None?
  {
  }

  /** A block: the bindings that are left are linked to what they were linked to before. */
  lemma {:induction false} BlockMeans(x: Linkage, h: Host, ret: Type, st: State, ss: seq<Statement>, bs: M.Bindings,
          refs: seq<VarRef>, env: Env, w: World, fuel: nat)
    requires DecoratesAll(x, ret, st.(here := {}), ss, bs, refs, env)
    ensures EndsAlike(M.ExecuteBlock(x.root, h, ss, bs, w, fuel),
                      ExecAll(x.p, h, DoBlock(Signatures(x.root), ret, st, ss).1.value, env, w, fuel), refs)
    decreases fuel, 2, ss, 2
  {
    hide M.ExecuteAll, ExecAll, DoAll, Linked, Resolves;
    var more := AllMean(x, h, ret, st.(here := {}), ss, bs, refs, env, w, fuel);
    var a := M.ExecuteAll(x.root, h, ss, bs, w, fuel);
    if a.Ok? && a.value.Onward? {
      assert |refs| == |bs| <= |a.value.bindings|;
      assert forall i | 0 <= i < |refs| :: (refs + more)[i] == refs[i];
    }
  }

  /** Where a statement completes, names and variables match for what follows. */
  lemma MatchesNext(x: Linkage, h: Host, ret: Type, st: State, s: Statement, bs: M.Bindings, refs: seq<VarRef>,
          env: Env, w: World, fuel: nat)
    requires Decorates(x, ret, st, s, bs, refs, env)
    requires var r := M.Execute(x.root, h, s, bs, w, fuel); r.Ok? && r.value.Onward?
    requires EndsAlike(M.Execute(x.root, h, s, bs, w, fuel),
                       Exec(x.p, h, DoStatement(Signatures(x.root), ret, st, s).1.value, env, w, fuel),
                       refs + NewRefs(s, st.next))
    ensures
      var a := M.Execute(x.root, h, s, bs, w, fuel);
      var b := Exec(x.p, h, DoStatement(Signatures(x.root), ret, st, s).1.value, env, w, fuel);
      var (st1, _, _) := DoStatement(Signatures(x.root), ret, st, s);
      var refs1 := refs + NewRefs(s, st.next);
      b.Ok? && b.value.Next? && b.world == a.world && Linked(x) &&
      Matches(x, st1.names, a.value.bindings, refs1, b.value.env) && OwnVariables(refs1, st1.next)
  {
    hide DoStatement, M.Execute, Exec, Linked, Resolves, OwnVariables, Holds;
    StatementResolves(x.root, Signatures(x.root), ret, st, s, M.NamesOf(bs), refs);
  }

  lemma {:induction false} AllMean(x: Linkage, h: Host, ret: Type, st: State, ss: seq<Statement>, bs: M.Bindings,
          refs: seq<VarRef>, env: Env, w: World, fuel: nat)
      returns (more: seq<VarRef>)
    requires DecoratesAll(x, ret, st, ss, bs, refs, env)
    ensures EndsAlike(M.ExecuteAll(x.root, h, ss, bs, w, fuel),
                      ExecAll(x.p, h, DoAll(Signatures(x.root), ret, st, ss).1.value, env, w, fuel), refs + more)
    decreases fuel, 2, ss, 1
  {
    hide DoStatement, M.Execute, Exec, Linked, Resolves, OwnVariables, Holds;
    more := [];
    if ss == [] {
      assert refs + [] == refs;
    } else {
      var fs := Signatures(x.root);
      var (st1, t, _) := DoStatement(fs, ret, st, ss[0]);
      StatementGrows(fs, ret, st, ss[0]);
      AllGrow(fs, ret, st1, ss[1..]);
      StatementMeans(x, h, ret, st, ss[0], bs, refs, env, w, fuel);
      var a := M.Execute(x.root, h, ss[0], bs, w, fuel);
      var ts := DoAll(fs, ret, st1, ss[1..]).1;
      var all := DoAll(fs, ret, st, ss).1.value;
      assert all == [t.value] + ts.value;
      assert all[0] == t.value && all[1..] == ts.value;
      if a.Ok? && a.value.Onward? {
        MatchesNext(x, h, ret, st, ss[0], bs, refs, env, w, fuel);
        var b := Exec(x.p, h, t.value, env, w, fuel);
        var refs1 := refs + NewRefs(ss[0], st.next);
        var rest := AllMean(x, h, ret, st1, ss[1..], a.value.bindings, refs1, b.value.env, a.world, fuel);
        more := NewRefs(ss[0], st.next) + rest;
        assert refs1 + rest == refs + more;
      }
    }
  }

  lemma {:induction false} CompoundMeans(x: Linkage, h: Host, ret: Type, st: State, s: Statement, bs: M.Bindings,
          refs: seq<VarRef>, env: Env, w: World, fuel: nat)
    requires s.Compound? && Decorates(x, ret, st, s, bs, refs, env)
    ensures EndsAlike(M.Execute(x.root, h, s, bs, w, fuel),
                      Exec(x.p, h, DoStatement(Signatures(x.root), ret, st, s).1.value, env, w, fuel), refs)
    decreases fuel, 2, s, 0
  {
    hide M.ExecuteBlock, ExecAll, DoAll, Linked, Resolves, OwnVariables, Holds;
    var (_, ts, _) := DoBlock(Signatures(x.root), ret, st, s.statements);
    BlockMeans(x, h, ret, st, s.statements, bs, refs, env, w, fuel);
  }

  /** The blocks of a branch or a loop are decorated without an error, where names mean what they meant before it. */
  lemma BranchesDecorated(x: Linkage, ret: Type, st: State, s: Statement, bs: M.Bindings, refs: seq<VarRef>, env: Env)
    requires (s.IfStatement? || s.WhileStatement?) && Decorates(x, ret, st, s, bs, refs, env)
    ensures
      var fs := Signatures(x.root);
      var c := CheckAs(ScopeOf(fs, st), s.condition, Bool);
      var st0 := Record(st, c.errors);
      var body := if s.IfStatement? then s.ifBody else s.body;
      var (st1, thn, _) := DoBlock(fs, ret, st0, body);
      var t := DoStatement(fs, ret, st, s).1.value;
      DecoratesAll(x, ret, st0.(here := {}), body, bs, refs, env) && Check(ScopeOf(fs, st), s.condition).expr.Some? &&
      thn.Some? &&
      if s.WhileStatement? then t == While(Check(ScopeOf(fs, st), s.condition).expr.value, thn.value)
      else if s.elseBody.ElsePart? then
        DecoratesAll(x, ret, st1.(here := {}), s.elseBody.statements, bs, refs, env) &&
        DoBlock(fs, ret, st1, s.elseBody.statements).1.Some? &&
        t == If(Check(ScopeOf(fs, st), s.condition).expr.value, thn.value,
                Else(DoBlock(fs, ret, st1, s.elseBody.statements).1.value))
      else t == If(Check(ScopeOf(fs, st), s.condition).expr.value, thn.value, NoElse)
  {
    hide DoAll, Check, Linked, Resolves, Holds;
    var fs := Signatures(x.root);
    var st0 := Record(st, CheckAs(ScopeOf(fs, st), s.condition, Bool).errors);
    var body := if s.IfStatement? then s.ifBody else s.body;
    AllGrow(fs, ret, st0.(here := {}), body);
    var (st1, _, _) := DoBlock(fs, ret, st0, body);
    if s.IfStatement? && s.elseBody.ElsePart? {
      AllGrow(fs, ret, st1.(here := {}), s.elseBody.statements);
      var (_, _, _) := DoBlock(fs, ret, st1, s.elseBody.statements);
    }
  }

  lemma {:induction false} IfMeans(x: Linkage, h: Host, ret: Type, st: State, s: Statement, bs: M.Bindings,
          refs: seq<VarRef>, env: Env, w: World, fuel: nat)
    requires s.IfStatement? && Decorates(x, ret, st, s, bs, refs, env)
    ensures EndsAlike(M.Execute(x.root, h, s, bs, w, fuel),
                      Exec(x.p, h, DoStatement(Signatures(x.root), ret, st, s).1.value, env, w, fuel), refs)
    decreases fuel, 2, s, 0
  {
    hide M.ExecuteBlock, ExecAll, DoBlock, DoStatement, Check, CheckAs, EvalExpr, M.Evaluate, Linked, Resolves, Holds;
    var fs := Signatures(x.root);
    BranchesDecorated(x, ret, st, s, bs, refs, env);
    ExpressionMeans(x, h, ScopeOf(fs, st), s.condition, bs, refs, env, w, fuel);
    var v := M.Evaluate(x.root, h, s.condition, bs, w, fuel);
    if v.Ok? && v.value.VBool? {
      var st0 := Record(st, CheckAs(ScopeOf(fs, st), s.condition, Bool).errors);
      if v.value.b {
        BlockMeans(x, h, ret, st0, s.ifBody, bs, refs, env, v.world, fuel);
      } else if s.elseBody.ElsePart? {
        BlockMeans(x, h, ret, DoBlock(fs, ret, st0, s.ifBody).0, s.elseBody.statements, bs, refs, env, v.world, fuel);
      } else {
        assert Holds(bs, refs, env);
      }
    }
  }

  lemma {:induction false} WhileMeans(x: Linkage, h: Host, ret: Type, st: State, s: Statement, bs: M.Bindings,
          refs: seq<VarRef>, env: Env, w: World, fuel: nat)
    requires s.WhileStatement? && Decorates(x, ret, st, s, bs, refs, env)
    ensures EndsAlike(M.Execute(x.root, h, s, bs, w, fuel),
                      Exec(x.p, h, DoStatement(Signatures(x.root), ret, st, s).1.value, env, w, fuel), refs)
    decreases fuel, 2, s, 0
  {
    hide M.ExecuteBlock, ExecAll, DoBlock, DoStatement, Check, CheckAs, EvalExpr, M.Evaluate, Linked, Resolves, Holds;
    var fs := Signatures(x.root);
    BranchesDecorated(x, ret, st, s, bs, refs, env);
    if fuel > 0 {
      ExpressionMeans(x, h, ScopeOf(fs, st), s.condition, bs, refs, env, w, fuel);
      var v := M.Evaluate(x.root, h, s.condition, bs, w, fuel);
      if v.Ok? && v.value.VBool? {
        if v.value.b {
          var st0 := Record(st, CheckAs(ScopeOf(fs, st), s.condition, Bool).errors);
          BlockMeans(x, h, ret, st0, s.body, bs, refs, env, v.world, fuel - 1);
          var a := M.ExecuteBlock(x.root, h, s.body, bs, v.world, fuel - 1);
          if a.Ok? && a.value.Onward? {
            var b := ExecAll(x.p, h, DoBlock(fs, ret, st0, s.body).1.value, env, v.world, fuel - 1);
            assert M.NamesOf(a.value.bindings) == M.NamesOf(bs) + [] == M.NamesOf(bs);
            assert Decorates(x, ret, st, s, a.value.bindings, refs, b.value.env);
            WhileMeans(x, h, ret, st, s, a.value.bindings, refs, b.value.env, a.world, fuel - 1);
          }
        } else {
          assert Holds(bs, refs, env);
        }
      }
    }
  }

  // Functions.

  /** The names of the first `n` parameters, and the parameters they are linked to: the first of each name. */
  function BoundNames(params: seq<ParamDeclaration>, n: nat): seq<string>
    requires n <= |params|
  {
    if n == 0 then []
    else
      var ns := BoundNames(params, n - 1);
      if params[n - 1].name in ns then ns else ns + [params[n - 1].name]
  }

  function BoundRefs(params: seq<ParamDeclaration>, n: nat): seq<VarRef>
    requires n <= |params|
  {
    if n == 0 then []
    else
      var refs := BoundRefs(params, n - 1);
      if params[n - 1].name in BoundNames(params, n - 1) then refs else refs + [Param(n - 1)]
  }

  /** Variables of their own among the first `n` parameters. */
  predicate BelowParams(refs: seq<VarRef>, n: nat) {
    OwnVariables(refs, 0) && forall i | 0 <= i < |refs| :: refs[i].Param? && refs[i].index < n
  }

  lemma MoreBelow(refs: seq<VarRef>, n: nat)
    requires BelowParams(refs, n)
    ensures BelowParams(refs, n + 1) && BelowParams(refs + [Param(n)], n + 1)
  {
  }

  lemma NothingBelow(params: seq<ParamDeclaration>, vs: seq<Value>)
    requires |params| == |vs|
    ensures M.Parameters(params, vs, 0) == [] && BoundNames(params, 0) == [] && BoundRefs(params, 0) == []
    ensures Holds([], [], ParamEnv(vs)) && BelowParams([], 0)
  {
  }

  lemma ParamAt(vs: seq<Value>, i: nat)
    requires i < |vs|
    ensures Param(i) in ParamEnv(vs) && ParamEnv(vs)[Param(i)] == vs[i]
  {
  }

  /** One more parameter, unless an earlier one has its name. */
  lemma BoundStep(params: seq<ParamDeclaration>, vs: seq<Value>, n: nat)
    requires 0 < n <= |params| == |vs| && M.NamesOf(M.Parameters(params, vs, n - 1)) == BoundNames(params, n - 1)
    ensures
      var bs, ns, refs, name := M.Parameters(params, vs, n - 1), BoundNames(params, n - 1), BoundRefs(params, n - 1),
        params[n - 1].name;
      M.Parameters(params, vs, n) == (if name in ns then bs else bs + [M.Binding(name, vs[n - 1])]) &&
      BoundNames(params, n) == (if name in ns then ns else ns + [name]) &&
      BoundRefs(params, n) == if name in ns then refs else refs + [Param(n - 1)]
  {
  }

  lemma {:induction false} BoundValues(params: seq<ParamDeclaration>, vs: seq<Value>, n: nat)
    requires n <= |params| == |vs|
    ensures var bs := M.Parameters(params, vs, n);
      M.NamesOf(bs) == BoundNames(params, n) && Holds(bs, BoundRefs(params, n), ParamEnv(vs))
    ensures BelowParams(BoundRefs(params, n), n)
    decreases n
  {
    hide M.Parameters, BoundNames, BoundRefs, Holds, BelowParams, ParamEnv;
    if n == 0 {
      NothingBelow(params, vs);
    } else {
      BoundValues(params, vs, n - 1);
      BoundStep(params, vs, n);
      assert Param(n - 1) in ParamEnv(vs) && ParamEnv(vs)[Param(n - 1)] == vs[n - 1] by { ParamAt(vs, n - 1); }
      var refs := BoundRefs(params, n - 1);
      MoreBelow(refs, n - 1);
      OneMoreHolds(M.Parameters(params, vs, n - 1), M.Binding(params[n - 1].name, vs[n - 1]), refs, Param(n - 1),
        ParamEnv(vs));
    }
  }

  lemma OneMoreHolds(bs: M.Bindings, b: M.Binding, refs: seq<VarRef>, y: VarRef, env: Env)
    requires Holds(bs, refs, env) && y in env && env[y] == b.value
    ensures Holds(bs + [b], refs + [y], env) && M.NamesOf(bs + [b]) == M.NamesOf(bs) + [b.name]
  {
  }

  /** The scope of a function links every parameter name to the first parameter that has it. */
  lemma {:induction false} ParametersResolve(root: Root, st: State, params: seq<ParamDeclaration>,
          sigParams: seq<Parameter>, i: nat)
    requires |params| == |sigParams| && forall j | 0 <= j < |params| :: sigParams[j].name == params[j].name
    requires i <= |params| && Resolves(root, st.names, BoundNames(params, i), BoundRefs(params, i))
    requires forall name :: name in st.here <==> name in BoundNames(params, i)
    ensures
      var st1 := AddParams(st, sigParams, i);
      Resolves(root, st1.names, BoundNames(params, |params|), BoundRefs(params, |params|)) &&
      (forall name :: name in st1.here <==> name in BoundNames(params, |params|)) &&
      st1.errors == st.errors && st1.next == st.next && st1.types == st.types
    decreases |params| - i
  {
    if i < |params| {
      var name, ns, refs := params[i].name, BoundNames(params, i), BoundRefs(params, i);
      if name in st.here {
        ParametersResolve(root, st, params, sigParams, i + 1);
      } else {
        var st1 := AddHere(st, name, VarEntry(Param(i)));
        forall x
          ensures var k := M.Innermost(ns + [name], x);
            if k.Some? then x in st1.names && st1.names[x] == VarEntry((refs + [Param(i)])[k.value])
            else Outside(root, st1.names, x)
        {
          InnermostOfMore(ns, name, x);
          assert M.Innermost(ns, x).Some? || Outside(root, st.names, x);
        }
        ParametersResolve(root, st1, params, sigParams, i + 1);
      }
    }
  }

  /** Where a body starts, names and variables match. */
  lemma BodyMatches(x: Linkage, f: nat, vs: seq<Value>)
    requires Linked(x) && f < |x.root.functions| && |vs| == |x.root.functions[f].params|
    ensures
      var params := x.root.functions[f].params;
      var st := BodyStart(x.names, x.types, Signatures(x.root)[f].params, 0);
      var refs := BoundRefs(params, |params|);
      Matches(x, st.names, M.Parameters(params, vs, |vs|), refs, ParamEnv(vs)) && OwnVariables(refs, st.next) &&
      st.errors == 0 && st.next == 0
  {
    hide Resolves, FunctionLinked, Outside;
    var params, sigParams := x.root.functions[f].params, Signatures(x.root)[f].params;
    var st := State(x.names, {}, x.types + ParamTypes(sigParams), 0, 0);
    assert Resolves(x.root, st.names, [], []) by { NothingBound(x); }
    ParametersResolve(x.root, st, params, sigParams, 0);
    BoundValues(params, vs, |params|);
  }

  lemma NothingBound(x: Linkage)
    requires Linked(x)
    ensures Resolves(x.root, x.names, [], [])
  {
    forall name
      ensures M.Innermost([], name).None? && Outside(x.root, x.names, name)
    {
    }
  }

  /** An implicit return at the end. */
  lemma {:induction false} ReturnBehind(p: Program, h: Host, ts: seq<Stmt>, env: Env, w: World, fuel: nat)
    ensures
      var r := ExecAll(p, h, ts, env, w, fuel);
      ExecAll(p, h, ts + [Return(None)], env, w, fuel) ==
      if r.Ok? && r.value.Next? then Ok(Returned(VVoid), r.world) else r
    decreases ts
  {
    var all := ts + [Return(None)];
    if ts == [] {
      assert all == [Return(None)];
      assert Exec(p, h, Return(None), env, w, fuel) == Ok(Returned(VVoid), w);
    } else {
      assert all[0] == ts[0] && all[1..] == ts[1..] + [Return(None)];
      var r := Exec(p, h, ts[0], env, w, fuel);
      if r.Ok? && r.value.Next? {
        ReturnBehind(p, h, ts[1..], r.value.env, r.world, fuel);
      }
    }
  }

  lemma VoidNamed(name: string)
    ensures TypeNamed(name) == Some(Void) <==> name == "void"
  {
    assert |"void"| != |"i32"| && |"void"| != |"f32"|;
  }

  /** A body with or without the implicit return. */
  lemma BodyIs(x: Linkage, f: nat)
    requires Linked(x) && f < |x.root.functions| && x.root.functions[f].body.Some?
    ensures
      var fd, t, fs := x.root.functions[f], x.p.funs[f], Signatures(x.root);
      var st := BodyStart(x.names, x.types, fs[f].params, 0);
      var (st1, ts, r) := DoAll(fs, t.returnType, st, fd.body.value);
      st1.errors == 0 && ts.Some? && t.body == if M.ReturnsAtEnd(fd) then ts.value + [Return(None)] else ts.value
  {
    hide DoAll, BodyStart;
    assert FunctionLinked(x, f);
    var fd, t, fs := x.root.functions[f], x.p.funs[f], Signatures(x.root);
    VoidNamed(fd.typeName);
    assert fs[f].returnType == TypeNamed(fd.typeName);
    var st := BodyStart(x.names, x.types, fs[f].params, 0);
    FlagIsSomeReturn(fs, t.returnType, st, fd.body.value);
    var (st1, ts, r) := DoAll(fs, t.returnType, st, fd.body.value);
    assert DoBody(fs, t.returnType, st, fd.body.value) == (Some(t.body), 0);
    assert r == SomeReturn(fd.body.value);
    assert st1.errors == 0 && ts.Some?;
    assert M.ReturnsAtEnd(fd) <==> t.returnType == Void && !r;
  }

  lemma {:induction false} FunctionMeans(x: Linkage, h: Host, f: nat, vs: seq<Value>, w: World, fuel: nat)
    requires Linked(x)
    ensures M.CallFunction(x.root, h, f, vs, w, fuel) == Invoke(x.p, h, f, vs, w, fuel)
    decreases fuel, 0
  {
    hide M.ExecuteAll, ExecAll, DoAll, Matches, OwnVariables, BodyStart, M.ReturnsAtEnd;
    if f < |x.root.functions| {
      assert FunctionLinked(x, f);
      var fd, t, fs := x.root.functions[f], x.p.funs[f], Signatures(x.root);
      if |vs| == |fd.params| && fd.body.Some? && fuel > 0 {
        var st := BodyStart(x.names, x.types, fs[f].params, 0);
        var bs, refs := M.Parameters(fd.params, vs, |vs|), BoundRefs(fd.params, |fd.params|);
        BodyIs(x, f);
        BodyMatches(x, f, vs);
        var ts := DoAll(fs, t.returnType, st, fd.body.value).1.value;
        var _ := AllMean(x, h, t.returnType, st, fd.body.value, bs, refs, ParamEnv(vs), w, fuel - 1);
        ReturnBehind(x.p, h, ts, ParamEnv(vs), w, fuel - 1);
      }
    }
  }
}
