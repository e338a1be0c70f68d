/** The decorator records no error exactly for well-formed programs: it lets nothing else through, and it complains
    about nothing else.
 */
module RulesExact {
  import opened Lang
  import opened Syntax
  import opened Scopes
  import opened Checking
  import opened CheckSound
  import opened Elaboration
  import opened DecoratorSound
  import opened ProgramSound
  import opened MeaningSound
  import opened ProgramMeaning
  import opened Rules
  import M = Meaning

  lemma TypesCalled(name: string)
    ensures TypeNamed(name) == TypeCalled(name)
  {
  }

  predicate KnownHeaders(root: Root) {
    forall f | 0 <= f < |root.functions| :: KnownHeader(root.functions[f])
  }

  /** The variables that are visible, and the global ones, have been given their types. */
  predicate TypesAgree(root: Root, types: map<VarRef, Type>, env: seq<Typed>, refs: seq<VarRef>) {
    |refs| == |env| && (forall i | 0 <= i < |env| :: refs[i] in types && types[refs[i]] == env[i].ty) &&
    forall g: nat | g < |root.variables| ::
      Global(g) in types && GlobalType(root.variables[g]) == Some(types[Global(g)])
  }

  ghost predicate ScopeAgrees(root: Root, sc: Scope, env: seq<Typed>, refs: seq<VarRef>) {
    sc.functions == Signatures(root) && KnownHeaders(root) && TypesAgree(root, sc.types, env, refs) &&
    Resolves(root, sc.names, VariableNames(env), refs)
  }

  /** No error means a type, and then the decorated expression has it. */
  ghost predicate Exact(t: Option<Type>, r: Checked) {
    (r.errors == 0 <==> t.Some?) && (r.errors == 0 ==> r.expr.Some? && t == Some(ResultType(r.expr.value)))
  }

  // Expressions.

  lemma VariableExact(root: Root, sc: Scope, env: seq<Typed>, refs: seq<VarRef>, e: Expression)
    requires e.Variable? && ScopeAgrees(root, sc, env, refs)
    ensures Exact(TypeIn(root, env, e), Check(sc, e))
  {
    var i := M.Innermost(VariableNames(env), e.name);
    assert i.None? ==> Outside(root, sc.names, e.name);
  }

  /** An expression records no error exactly if it has a type. */
  lemma {:induction false} CheckExact(root: Root, sc: Scope, env: seq<Typed>, refs: seq<VarRef>, e: Expression)
    requires ScopeAgrees(root, sc, env, refs)
    ensures Exact(TypeIn(root, env, e), Check(sc, e))
    decreases e, 1
  {
    hide ScopeAgrees;
    match e
    case Variable(_) => VariableExact(root, sc, env, refs, e);
    case MemberVariable(parent, _) => CheckExact(root, sc, env, refs, parent);
    case UnaryNot(inner) => CheckExact(root, sc, env, refs, inner);
    case Binary(_, lhs, rhs) =>
      CheckExact(root, sc, env, refs, lhs);
      CheckExact(root, sc, env, refs, rhs);
    case CallTo(_, _, _) => CallIsExact(root, sc, env, refs, e);
    case MemberCall(parent, _, _, _) => CheckExact(root, sc, env, refs, parent);
    case _ =>
  }

  /** The called name: it is linked to a function exactly if no variable hides it. */
  lemma CalleeExact(root: Root, sc: Scope, env: seq<Typed>, refs: seq<VarRef>, e: Expression)
    requires e.CallTo? && ScopeAgrees(root, sc, env, refs)
    ensures
      var f := M.FunctionNamed(root, e.calledName);
      if e.calledName in VariableNames(env) || M.GlobalNamed(root, e.calledName).Some? || f.None? then
        Check(sc, e) == Checked(None, 1)
      else
        KnownHeader(root.functions[f.value]) && f.value < |sc.functions| &&
        sc.functions[f.value] == SignatureOf(root.functions[f.value]) &&
        Check(sc, e) == Called(sc, f.value, CheckArguments(sc, e, sc.functions[f.value].params))
  {
    hide CheckArguments;
    var i := M.Innermost(VariableNames(env), e.calledName);
    assert i.None? ==> Outside(root, sc.names, e.calledName);
  }

  /** What is known of the arguments of a call. */
  ghost predicate ArgumentsExact(root: Root, sc: Scope, env: seq<Typed>, e: Expression)
    requires e.CallTo?
  {
    (forall a <- e.nonNamed :: Exact(TypeIn(root, env, a), Check(sc, a))) &&
    forall a <- e.named :: Exact(TypeIn(root, env, a.expression), Check(sc, a.expression))
  }

  predicate ArgumentsClean(sc: Scope, e: Expression)
    requires e.CallTo?
  {
    (forall a <- e.nonNamed :: Check(sc, a).errors == 0) && forall a <- e.named :: Check(sc, a.expression).errors == 0
  }

  lemma {:induction false} PositionalClean(sc: Scope, params: seq<Parameter>, args: seq<Expression>, i: nat, s: Slots)
    requires |s.slots| == |params| && Sane(s) && forall a <- args :: Check(sc, a).errors == 0
    ensures var r := FillPositional(sc, params, args, i, s); r.ok ==> s.ok && r.errors == s.errors
    decreases args
  {
    if args != [] && i < |params| {
      assert args[0] in args;
      PositionalClean(sc, params, args[1..], i + 1, Put(s, i, CheckArgument(sc, args[0], params[i].ty)));
    }
  }

  lemma {:induction false} NamedClean(sc: Scope, params: seq<Parameter>, named: seq<NamedArg>, s: Slots)
    requires |s.slots| == |params| && Sane(s) && forall a <- named :: Check(sc, a.expression).errors == 0
    ensures var r := FillNamed(sc, params, named, s); r.ok ==> s.ok && r.errors == s.errors
    decreases named
  {
    if named != [] {
      var i := IndexOf(params, named[0].name);
      assert named[0] in named;
      NamedClean(sc, params, named[1..], if i >= |params| || s.slots[i].Filled? then Rejected(s)
        else Put(s, i, CheckArgument(sc, named[0].expression, params[i].ty)));
    }
  }

  lemma {:induction false} DefaultsClean(params: seq<Parameter>, s: Slots, i: nat)
    requires |s.slots| == |params| && Sane(s) && i <= |params| && (s.ok ==> AllFilled(s.slots[..i]))
    ensures var r := FillDefaults(params, s, i); r.ok ==> s.ok && r.errors == s.errors
    decreases |params| - i
  {
    if i < |params| {
      var s1 :=
        if s.slots[i].Filled? then s
        else if params[i].default.None? then Rejected(s)
        else Put(s, i, Checked(Some(Lit(ValueOf(params[i].default.value))), 0));
      assert s1.ok ==> AllFilled(s1.slots[..i + 1]) by {
        if s1.ok {
          assert forall k | 0 <= k < i :: s.slots[..i][k].Filled?;
        }
      }
      DefaultsClean(params, s1, i + 1);
    }
  }

  /** The arguments of a call record no error exactly if each of them records none and the call is accepted. */
  lemma {:induction false} NoErrorsExactly(root: Root, sc: Scope, env: seq<Typed>, e: Expression,
          params: seq<Parameter>)
    requires e.CallTo? && ArgumentsExact(root, sc, env, e)
    ensures CheckArguments(sc, e, params).errors == 0 <==> ArgumentsClean(sc, e) && CheckArguments(sc, e, params).ok
  {
    NoErrors(sc, e, params);
    if ArgumentsClean(sc, e) {
      PositionalClean(sc, params, e.nonNamed, 0, Slots(seq(|params|, _ => Unfilled), true, 0));
      NamedClean(sc, params, e.named, Provided(sc, e, params).0);
      DefaultsClean(params, Provided(sc, e, params).1, 0);
    }
  }

  lemma ArgumentExact(root: Root, sc: Scope, env: seq<Typed>, a: Expression, typeName: string)
    requires Exact(TypeIn(root, env, a), Check(sc, a))
    ensures HasTypeCalled(TypeIn(root, env, a), typeName) <==>
      Check(sc, a).errors == 0 && CheckArgument(sc, a, TypeNamed(typeName)).expr.Some?
  {
    hide Check, TypeIn, TypeNamed;
    TypesCalled(typeName);
    var t := TypeIn(root, env, a);
    if t.Some? {
      TypesCalled(NameOf(t.value));
      assert TypeCalled(NameOf(t.value)) == t;
    }
  }

  /** The parameters of a signature, as they are written. */
  predicate Written(decls: seq<ParamDeclaration>, params: seq<Parameter>) {
    |params| == |decls| &&
    forall j | 0 <= j < |params| ::
      params[j].name == decls[j].name && params[j].ty == TypeNamed(decls[j].typeName) &&
      params[j].default == decls[j].default
  }

  lemma TargetIs(decls: seq<ParamDeclaration>, params: seq<Parameter>, name: string)
    requires Written(decls, params)
    ensures var i := IndexOf(params, name);
      ParameterNamed(decls, name) == if i < |params| then Some(i) else None
  {
    hide TypeNamed;
    var ns, i := M.ParamNames(decls), IndexOf(params, name);
    if i < |params| {
      assert ns[i] == name;
    }
  }

  /** Some named argument is for parameter `i`. */
  lemma TargetedIs(decls: seq<ParamDeclaration>, params: seq<Parameter>, named: seq<NamedArg>, i: nat)
    requires Written(decls, params) && i < |params|
    ensures Targeted(params, named, i) <==> M.NamedArgument(decls, named, i).Some?
  {
    hide TypeNamed;
    var k := M.NamedArgument(decls, named, i);
    if k.Some? {
      NamedIs(decls, params, named, i, k.value);
    } else {
      NotNamed(decls, params, named, i);
    }
  }

  lemma PositionalIs(root: Root, sc: Scope, env: seq<Typed>, e: Expression, decls: seq<ParamDeclaration>,
          params: seq<Parameter>, k: nat)
    requires e.CallTo? && ArgumentsExact(root, sc, env, e) && Written(decls, params)
    requires k < |e.nonNamed| && k < |params|
    ensures HasTypeCalled(TypeIn(root, env, e.nonNamed[k]), decls[k].typeName) <==>
      Check(sc, e.nonNamed[k]).errors == 0 && PositionalResult(sc, params, e.nonNamed, k).Some?
  {
    hide TypeNamed, Check, TypeIn, CheckArgument, HasTypeCalled, Exact;
    assert e.nonNamed[k] in e.nonNamed;
    ArgumentExact(root, sc, env, e.nonNamed[k], decls[k].typeName);
  }

  lemma NamedIsExact(root: Root, sc: Scope, env: seq<Typed>, e: Expression, decls: seq<ParamDeclaration>,
          params: seq<Parameter>, k: nat)
    requires e.CallTo? && ArgumentsExact(root, sc, env, e) && Written(decls, params) && k < |e.named|
    ensures var i := Target(params, e.named, k);
      ParameterNamed(decls, e.named[k].name) == (if i < |params| then Some(i) else None) &&
      (i < |params| ==>
         (HasTypeCalled(TypeIn(root, env, e.named[k].expression), decls[i].typeName) <==>
          Check(sc, e.named[k].expression).errors == 0 && NamedResult(sc, params, e.named, k).Some?))
  {
    hide TypeNamed, Check, TypeIn, CheckArgument, HasTypeCalled, Exact, ParameterNamed;
    var i := Target(params, e.named, k);
    assert e.named[k] in e.named;
    TargetIs(decls, params, e.named[k].name);
    if i < |params| {
      ArgumentExact(root, sc, env, e.named[k].expression, decls[i].typeName);
    }
  }

  /** A call fits the written parameters exactly if its arguments are clean, fit and check. */
  lemma {:induction false} CallFitsExactly(root: Root, sc: Scope, env: seq<Typed>, e: Expression,
          decls: seq<ParamDeclaration>, params: seq<Parameter>)
    requires e.CallTo? && ArgumentsExact(root, sc, env, e) && Written(decls, params)
    ensures CallFits(root, env, e, decls) <==>
      ArgumentsClean(sc, e) && ArgumentsFit(params, e.nonNamed, e.named) &&
      ArgumentsCheck(sc, params, e.nonNamed, e.named)
  {
    hide CallFits, ArgumentsClean, ArgumentsFit, ArgumentsCheck, ArgumentsExact;
    if CallFits(root, env, e, decls) {
      CallThatFits(root, sc, env, e, decls, params);
    }
    if ArgumentsClean(sc, e) && ArgumentsFit(params, e.nonNamed, e.named) &&
      ArgumentsCheck(sc, params, e.nonNamed, e.named) {
      CallThatChecks(root, sc, env, e, decls, params);
    }
  }

  lemma {:induction false} CallThatFits(root: Root, sc: Scope, env: seq<Typed>, e: Expression,
          decls: seq<ParamDeclaration>, params: seq<Parameter>)
    requires e.CallTo? && ArgumentsExact(root, sc, env, e) && Written(decls, params) && CallFits(root, env, e, decls)
    ensures ArgumentsClean(sc, e) && ArgumentsFit(params, e.nonNamed, e.named) &&
      ArgumentsCheck(sc, params, e.nonNamed, e.named)
  {
    hide TypeNamed, Check, TypeIn, PositionalResult, NamedResult, HasTypeCalled, M.NamedArgument, ParameterNamed;
    hide Exact, Targeted, Target, ArgumentsExact, ArgumentsFit, ArgumentsCheck;
    forall k | 0 <= k < |e.nonNamed|
      ensures Check(sc, e.nonNamed[k]).errors == 0 && PositionalResult(sc, params, e.nonNamed, k).Some?
    {
      PositionalIs(root, sc, env, e, decls, params, k);
    }
    forall k | 0 <= k < |e.named|
      ensures |e.nonNamed| <= Target(params, e.named, k) < |params| && NamedResult(sc, params, e.named, k).Some?
      ensures Check(sc, e.named[k].expression).errors == 0
    {
      NamedIsExact(root, sc, env, e, decls, params, k);
    }
    forall j, k | 0 <= j < k < |e.named|
      ensures Target(params, e.named, j) != Target(params, e.named, k)
    {
      TargetsDiffer(params, e.named, j, k);
    }
    forall i: nat | |e.nonNamed| <= i < |params|
      ensures Targeted(params, e.named, i) || params[i].default.Some?
    {
      TargetedIs(decls, params, e.named, i);
    }
    assert ArgumentsFit(params, e.nonNamed, e.named) && ArgumentsCheck(sc, params, e.nonNamed, e.named) by {
      FitsAndChecks(sc, params, e);
    }
  }

  lemma FitsAndChecks(sc: Scope, params: seq<Parameter>, e: Expression)
    requires e.CallTo? && |e.nonNamed| <= |params|
    requires forall k | 0 <= k < |e.nonNamed| :: PositionalResult(sc, params, e.nonNamed, k).Some?
    requires forall k | 0 <= k < |e.named| :: |e.nonNamed| <= Target(params, e.named, k) < |params|
    requires forall k | 0 <= k < |e.named| :: NamedResult(sc, params, e.named, k).Some?
    requires forall j, k | 0 <= j < k < |e.named| :: Target(params, e.named, j) != Target(params, e.named, k)
    requires forall i: nat | |e.nonNamed| <= i < |params| :: Targeted(params, e.named, i) || params[i].default.Some?
    ensures ArgumentsFit(params, e.nonNamed, e.named) && ArgumentsCheck(sc, params, e.nonNamed, e.named)
  {
    hide PositionalResult, NamedResult, Target, Targeted;
  }

  /** Arguments are for the same parameter exactly if they have the same name. */
  lemma TargetsDiffer(params: seq<Parameter>, named: seq<NamedArg>, j: nat, k: nat)
    requires j < |named| && k < |named| && Target(params, named, j) < |params|
    ensures Target(params, named, j) == Target(params, named, k) <==> named[j].name == named[k].name
  {
  }

  lemma {:induction false} CallThatChecks(root: Root, sc: Scope, env: seq<Typed>, e: Expression,
          decls: seq<ParamDeclaration>, params: seq<Parameter>)
    requires e.CallTo? && ArgumentsExact(root, sc, env, e) && Written(decls, params)
    requires ArgumentsClean(sc, e) && ArgumentsFit(params, e.nonNamed, e.named) &&
      ArgumentsCheck(sc, params, e.nonNamed, e.named)
    ensures CallFits(root, env, e, decls)
  {
    hide TypeNamed, Check, TypeIn, PositionalResult, NamedResult, HasTypeCalled, M.NamedArgument, ParameterNamed;
    hide Exact, Targeted, Target, ArgumentsExact;
    forall k | 0 <= k < |e.nonNamed|
      ensures HasTypeCalled(TypeIn(root, env, e.nonNamed[k]), decls[k].typeName)
    {
      assert e.nonNamed[k] in e.nonNamed;
      PositionalIs(root, sc, env, e, decls, params, k);
    }
    forall k | 0 <= k < |e.named|
      ensures var i := ParameterNamed(decls, e.named[k].name);
        i.Some? && i.value >= |e.nonNamed| &&
        HasTypeCalled(TypeIn(root, env, e.named[k].expression), decls[i.value].typeName)
    {
      assert e.named[k] in e.named;
      NamedIsExact(root, sc, env, e, decls, params, k);
    }
    forall j, k | 0 <= j < k < |e.named|
      ensures e.named[j].name != e.named[k].name
    {
      TargetsDiffer(params, e.named, j, k);
    }
    forall i: nat | |e.nonNamed| <= i < |params|
      ensures decls[i].default.Some? || M.NamedArgument(decls, e.named, i).Some?
    {
      TargetedIs(decls, params, e.named, i);
    }
  }

  lemma {:induction false} CallIsExact(root: Root, sc: Scope, env: seq<Typed>, refs: seq<VarRef>, e: Expression)
    requires e.CallTo? && ScopeAgrees(root, sc, env, refs)
    ensures Exact(TypeIn(root, env, e), Check(sc, e))
    decreases e, 0
  {
    hide ScopeAgrees, Check, CheckArguments, CallFits, TypeNamed, ArgumentsFit, ArgumentsCheck, ArgumentsClean;
    CalleeExact(root, sc, env, refs, e);
    forall a | a in e.nonNamed
      ensures Exact(TypeIn(root, env, a), Check(sc, a))
    {
      CheckExact(root, sc, env, refs, a);
    }
    forall a | a in e.named
      ensures Exact(TypeIn(root, env, a.expression), Check(sc, a.expression))
    {
      CheckExact(root, sc, env, refs, a.expression);
    }
    var f := M.FunctionNamed(root, e.calledName);
    if e.calledName !in VariableNames(env) && M.GlobalNamed(root, e.calledName).None? && f.Some? {
      var fd, params := root.functions[f.value], sc.functions[f.value].params;
      NoErrorsExactly(root, sc, env, e, params);
      CallExact(sc, e, params);
      CallFitsExactly(root, sc, env, e, fd.params, params);
      TypesCalled(fd.typeName);
    }
  }

  // Statements.

  /** Where a statement stands: what is visible is typed and linked, and `here` holds the names of the innermost
      block, which are those from `inner` on. */
  ghost predicate Agrees(root: Root, st: State, env: seq<Typed>, inner: nat, refs: seq<VarRef>) {
    inner <= |env| && ScopeAgrees(root, ScopeOf(Signatures(root), st), env, refs) && OwnVariables(refs, st.next) &&
    forall name :: name in st.here <==> name in VariableNames(env)[inner..]
  }

  /** Types that were given to variables stay; new ones go to locals from `next` on. */
  predicate TypesKept(types: map<VarRef, Type>, next: nat, types1: map<VarRef, Type>) {
    forall x | x in types && !(x.Local? && x.index >= next) :: x in types1 && types1[x] == types[x]
  }

  lemma {:induction false} StatementKeepsTypes(fs: seq<Signature>, ret: Type, st: State, s: Statement)
    ensures var st1 := DoStatement(fs, ret, st, s).0; TypesKept(st.types, st.next, st1.types) && st1.next >= st.next
    decreases s
  {
    match s
    case Compound(ss) => AllKeepTypes(fs, ret, st.(here := {}), ss);
    case IfStatement(c, thn, els) =>
      var st0 := Record(st, CheckAs(ScopeOf(fs, st), c, Bool).errors);
      AllKeepTypes(fs, ret, st0.(here := {}), thn);
      if els.ElsePart? {
        AllKeepTypes(fs, ret, DoBlock(fs, ret, st0, thn).0.(here := {}), els.statements);
      }
    case WhileStatement(c, body) =>
      AllKeepTypes(fs, ret, Record(st, CheckAs(ScopeOf(fs, st), c, Bool).errors).(here := {}), body);
    case _ =>
  }

  lemma {:induction false} AllKeepTypes(fs: seq<Signature>, ret: Type, st: State, ss: seq<Statement>)
    ensures var st1 := DoAll(fs, ret, st, ss).0; TypesKept(st.types, st.next, st1.types) && st1.next >= st.next
    decreases ss
  {
    if ss != [] {
      StatementKeepsTypes(fs, ret, st, ss[0]);
      AllKeepTypes(fs, ret, DoStatement(fs, ret, st, ss[0]).0, ss[1..]);
    }
  }

  /** What agreed before a block agrees behind it. */
  lemma AgreesBehind(root: Root, st: State, env: seq<Typed>, inner: nat, refs: seq<VarRef>, st1: State)
    requires Agrees(root, st, env, inner, refs) && TypesKept(st.types, st.next, st1.types) && st1.next >= st.next
    requires st1.names == st.names && st1.here == st.here
    ensures Agrees(root, st1, env, inner, refs)
  {
    hide Resolves, KnownHeaders, GlobalType;
  }

  lemma BlockStarts(root: Root, st: State, env: seq<Typed>, inner: nat, refs: seq<VarRef>)
    requires Agrees(root, st, env, inner, refs)
    ensures Agrees(root, st.(here := {}), env, |env|, refs)
  {
    hide Resolves, KnownHeaders, GlobalType;
  }

  lemma {:induction false} CheckAsExact(root: Root, sc: Scope, env: seq<Typed>, refs: seq<VarRef>, e: Expression,
          t: Type)
    requires ScopeAgrees(root, sc, env, refs)
    ensures CheckAs(sc, e, t).errors == 0 <==> TypeIn(root, env, e) == Some(t)
  {
    hide ScopeAgrees, Check, TypeIn;
    CheckExact(root, sc, env, refs, e);
  }

  lemma {:induction false} AssignExact(root: Root, sc: Scope, env: seq<Typed>, refs: seq<VarRef>, x: VariableExpression,
          e: Expression)
    requires ScopeAgrees(root, sc, env, refs)
    ensures CheckAssign(sc, x, e).1 == 0 <==> TypeIn(root, env, x).Some? && TypeIn(root, env, e) == TypeIn(root, env, x)
  {
    hide ScopeAgrees, Check, TypeIn, CheckAs;
    CheckExact(root, sc, env, refs, x);
    if TypeIn(root, env, x).Some? {
      CheckAsExact(root, sc, env, refs, e, TypeIn(root, env, x).value);
    }
  }

  lemma {:induction false} DeclarationExact(root: Root, sc: Scope, env: seq<Typed>, refs: seq<VarRef>, typeName: string,
          init: Expression)
    requires ScopeAgrees(root, sc, env, refs)
    ensures
      var (t, r) := CheckDeclaration(sc, typeName, init);
      var u := TypeIn(root, env, init);
      (r.errors == 0 <==> u.Some? && TypeFits(typeName, u.value)) && (r.errors == 0 ==> t == u)
  {
    hide ScopeAgrees, Check, TypeIn;
    CheckExact(root, sc, env, refs, init);
    TypesCalled(typeName);
    var u := TypeIn(root, env, init);
    if u.Some? {
      assert TypeCalled(NameOf(u.value)) == u;
    }
  }

  /** A statement records no error exactly if it is well-formed, and then what it declares is visible behind it. */
  ghost predicate StatementDone(root: Root, ret: Type, st: State, s: Statement, env: seq<Typed>, inner: nat,
          refs: seq<VarRef>, st1: State)
    requires inner <= |env|
  {
    st1.errors >= st.errors &&
    (st1.errors == st.errors <==> WellFormed(root, ret, env, inner, s)) &&
    (st1.errors == st.errors ==>
       Agrees(root, st1, env + NewVariables(root, env, s), inner, refs + NewRefs(s, st.next)))
  }

  lemma {:induction false} AllExact(root: Root, ret: Type, st: State, ss: seq<Statement>, env: seq<Typed>, inner: nat,
          refs: seq<VarRef>)
    requires Agrees(root, st, env, inner, refs)
    ensures var st1 := DoAll(Signatures(root), ret, st, ss).0;
      st1.errors >= st.errors && (st1.errors == st.errors <==> AllWellFormed(root, ret, env, inner, ss))
    decreases ss, 0
  {
    hide Agrees, DoStatement, WellFormed, NewVariables;
    if ss != [] {
      var fs := Signatures(root);
      var st1 := DoStatement(fs, ret, st, ss[0]).0;
      InnerBelow(root, st, env, inner, refs);
      StatementExact(root, ret, st, ss[0], env, inner, refs);
      AllGrow(fs, ret, st1, ss[1..]);
      if st1.errors == st.errors {
        AllExact(root, ret, st1, ss[1..], env + NewVariables(root, env, ss[0]), inner, refs + NewRefs(ss[0], st.next));
      }
    }
  }

  lemma InnerBelow(root: Root, st: State, env: seq<Typed>, inner: nat, refs: seq<VarRef>)
    requires Agrees(root, st, env, inner, refs)
    ensures inner <= |env| && ScopeAgrees(root, ScopeOf(Signatures(root), st), env, refs)
  {
  }

  lemma {:induction false} BlockExact(root: Root, ret: Type, st: State, ss: seq<Statement>, env: seq<Typed>, inner: nat,
          refs: seq<VarRef>)
    requires Agrees(root, st, env, inner, refs)
    ensures var st1 := DoBlock(Signatures(root), ret, st, ss).0;
      st1.errors >= st.errors && (st1.errors == st.errors <==> AllWellFormed(root, ret, env, |env|, ss)) &&
      Agrees(root, st1, env, inner, refs)
    decreases ss, 1
  {
    hide Agrees, DoAll;
    BlockStarts(root, st, env, inner, refs);
    AllExact(root, ret, st.(here := {}), ss, env, |env|, refs);
    AllKeepTypes(Signatures(root), ret, st.(here := {}), ss);
    AgreesBehind(root, st, env, inner, refs, DoBlock(Signatures(root), ret, st, ss).0);
  }

  lemma RecordAgrees(root: Root, st: State, env: seq<Typed>, inner: nat, refs: seq<VarRef>, errors: nat)
    requires Agrees(root, st, env, inner, refs)
    ensures Agrees(root, Record(st, errors), env, inner, refs)
  {
    hide Resolves, KnownHeaders, TypesAgree;
  }

  lemma {:induction false} StatementExact(root: Root, ret: Type, st: State, s: Statement, env: seq<Typed>, inner: nat,
          refs: seq<VarRef>)
    requires Agrees(root, st, env, inner, refs) && inner <= |env|
    ensures StatementDone(root, ret, st, s, env, inner, refs, DoStatement(Signatures(root), ret, st, s).0)
    decreases s
  {
    hide Agrees, TypeIn, CheckAs, CheckAssign, CheckDeclaration, DoBlock, AllWellFormed, Check;
    assert env + [] == env && refs + [] == refs;
    InnerBelow(root, st, env, inner, refs);
    var fs := Signatures(root);
    var sc := ScopeOf(fs, st);
    match s
    case ReturnStatement(result) =>
      RecordAgrees(root, st, env, inner, refs, DoStatement(fs, ret, st, s).0.errors - st.errors);
      if result.Some? {
        CheckAsExact(root, sc, env, refs, result.value, ret);
      }
    case VariableDeclaration(name, typeName, init) => VariableIsExact(root, ret, st, s, env, inner, refs);
    case Compound(ss) => BlockExact(root, ret, st, ss, env, inner, refs);
    case IfStatement(condition, ifBody, elseBody) => IfExact(root, ret, st, s, env, inner, refs);
    case WhileStatement(condition, body) =>
      CheckAsExact(root, sc, env, refs, condition, Bool);
      var c := CheckAs(sc, condition, Bool);
      RecordAgrees(root, st, env, inner, refs, c.errors);
      BlockExact(root, ret, Record(st, c.errors), body, env, inner, refs);
    case VariableAssign(x, e) =>
      AssignExact(root, sc, env, refs, x, e);
      RecordAgrees(root, st, env, inner, refs, CheckAssign(sc, x, e).1);
    case ExpressionStatement(e) =>
      CheckExact(root, sc, env, refs, e);
      RecordAgrees(root, st, env, inner, refs, Check(sc, e).errors);
  }

  lemma {:induction false} IfExact(root: Root, ret: Type, st: State, s: Statement, env: seq<Typed>, inner: nat,
          refs: seq<VarRef>)
    requires s.IfStatement? && Agrees(root, st, env, inner, refs) && inner <= |env|
    ensures StatementDone(root, ret, st, s, env, inner, refs, DoStatement(Signatures(root), ret, st, s).0)
    decreases s, 0
  {
    hide Agrees, TypeIn, CheckAs, DoBlock, AllWellFormed;
    assert env + [] == env && refs + [] == refs;
    InnerBelow(root, st, env, inner, refs);
    var fs := Signatures(root);
    var c := CheckAs(ScopeOf(fs, st), s.condition, Bool);
    CheckAsExact(root, ScopeOf(fs, st), env, refs, s.condition, Bool);
    RecordAgrees(root, st, env, inner, refs, c.errors);
    BlockExact(root, ret, Record(st, c.errors), s.ifBody, env, inner, refs);
    if s.elseBody.ElsePart? {
      var st1 := DoBlock(fs, ret, Record(st, c.errors), s.ifBody).0;
      BlockExact(root, ret, st1, s.elseBody.statements, env, inner, refs);
    }
  }

  lemma {:induction false} VariableIsExact(root: Root, ret: Type, st: State, s: Statement, env: seq<Typed>, inner: nat,
          refs: seq<VarRef>)
    requires s.VariableDeclaration? && Agrees(root, st, env, inner, refs) && inner <= |env|
    ensures StatementDone(root, ret, st, s, env, inner, refs, DoStatement(Signatures(root), ret, st, s).0)
  {
    hide TypeIn, CheckDeclaration, Check, Resolves, TypesAgree, OwnVariables, KnownHeaders;
    var fs := Signatures(root);
    var (t, r) := CheckDeclaration(ScopeOf(fs, st), s.typeName, s.init);
    DeclarationExact(root, ScopeOf(fs, st), env, refs, s.typeName, s.init);
    var st1 := DoStatement(fs, ret, st, s).0;
    if st1.errors == st.errors {
      DeclarationResolves(root, Record(st, r.errors), s.name, t, VariableNames(env), refs);
      var more := Typed(s.name, t.value);
      MoreNames(env, more, inner);
      MoreTypes(root, st.types, env, refs, more, st.next);
    }
  }

  lemma MoreNames(env: seq<Typed>, more: Typed, inner: nat)
    requires inner <= |env|
    ensures VariableNames(env + [more]) == VariableNames(env) + [more.name]
    ensures VariableNames(env + [more])[inner..] == VariableNames(env)[inner..] + [more.name]
  {
  }

  lemma MoreTypes(root: Root, types: map<VarRef, Type>, env: seq<Typed>, refs: seq<VarRef>, more: Typed, next: nat)
    requires TypesAgree(root, types, env, refs) && OwnVariables(refs, next)
    ensures TypesAgree(root, types[Local(next) := more.ty], env + [more], refs + [Local(next)])
    ensures OwnVariables(refs + [Local(next)], next + 1)
  {
    hide GlobalType;
  }
}
