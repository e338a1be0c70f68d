/** What an expression that checks without an error is: declared, without `str` lowerable, and typed
    if and only if the default values its calls use have the types of their parameters.
 */
module CheckSound {
  import opened Lang
  import opened Syntax
  import opened Scopes
  import opened Checking
  import opened Typing

  predicate StrFree(e: Expression)
    decreases e
  {
    match e
    case Missing => true
    case Constant(c) => !c.StringConst?
    case Variable(_) => true
    case MemberVariable(parent, _) => StrFree(parent)
    case UnaryNot(inner) => StrFree(inner)
    case Binary(_, lhs, rhs) => StrFree(lhs) && StrFree(rhs)
    case CallTo(_, nonNamed, named) => (forall a <- nonNamed :: StrFree(a)) &&
      (forall a <- named :: StrFree(a.expression))
    case MemberCall(parent, _, nonNamed, named) =>
      StrFree(parent) && (forall a <- nonNamed :: StrFree(a)) && (forall a <- named :: StrFree(a.expression))
  }

  /** The default values a call of a function with these parameters uses have the parameters' types. */
  predicate UsesMatch(params: seq<Parameter>, nonNamed: seq<Expression>, named: seq<NamedArg>) {
    forall i: nat | |nonNamed| <= i < |params| && !Targeted(params, named, i) && params[i].default.Some? ::
      params[i].ty == Some(TypeOf(ValueOf(params[i].default.value)))
  }

  /** So it is for every call in an expression. */
  predicate UsedDefaultsMatch(fs: seq<Signature>, e: Expression)
    decreases e
  {
    match e
    case MemberVariable(parent, _) => UsedDefaultsMatch(fs, parent)
    case UnaryNot(inner) => UsedDefaultsMatch(fs, inner)
    case Binary(_, lhs, rhs) => UsedDefaultsMatch(fs, lhs) && UsedDefaultsMatch(fs, rhs)
    case CallTo(name, nonNamed, named) =>
      (forall a <- nonNamed :: UsedDefaultsMatch(fs, a)) &&
        (forall a <- named :: UsedDefaultsMatch(fs, a.expression)) &&
      forall f | 0 <= f < |fs| && fs[f].name == name :: UsesMatch(fs[f].params, nonNamed, named)
    case _ => true
  }

  /** What is known where an expression stands: the signatures, the program, the types and numbers of
      the visible variables, and whether `str` does not occur. */
  datatype View = View(fs: seq<Signature>, p: Program, ctx: Typing.Context, np: nat, vis: set<nat>, strFree: bool)

  ghost predicate Good(v: View, e: Expression, t: Expr) {
    ExprDeclared(t, v.np, v.vis) && (TypedExpr(v.p, v.ctx, t) <==> UsedDefaultsMatch(v.fs, e)) &&
      (v.strFree ==> Supported(t))
  }

  predicate ParameterKnown(v: View, param: Parameter, t: Type) {
    param.ty == Some(t) && (v.strFree && param.default.Some? ==> !param.default.value.StringConst?)
  }

  predicate SignatureKnown(v: View, sig: Signature, fd: FunDecl) {
    sig.returnType == Some(fd.returnType) && (v.strFree ==> fd.returnType != Str) && |sig.params| == |fd.params| &&
    forall i | 0 <= i < |fd.params| :: ParameterKnown(v, sig.params[i], fd.params[i])
  }

  predicate FunctionsKnown(v: View) {
    |v.fs| == |v.p.funs| && (forall f | 0 <= f < |v.fs| :: SignatureKnown(v, v.fs[f], v.p.funs[f])) &&
    forall f, g | 0 <= f < g < |v.fs| :: v.fs[f].name != v.fs[g].name
  }

  predicate VarKnown(v: View, types: map<VarRef, Type>, x: VarRef) {
    x in types && x in v.ctx && v.ctx[x] == types[x] && RefDeclared(x, v.np, v.vis) && (v.strFree ==> types[x] != Str)
  }

  predicate NamesKnown(v: View, names: Names, types: map<VarRef, Type>) {
    forall name | name in names ::
      if names[name].VarEntry? then VarKnown(v, types, names[name].x)
      else names[name].index < |v.fs| && v.fs[names[name].index].name == name
  }

  ghost predicate Knows(v: View, sc: Scope) {
    sc.functions == v.fs && FunctionsKnown(v) && NamesKnown(v, sc.names, sc.types)
  }

  /** Without an error there is an expression, and it is a good one. */
  ghost predicate CleanIsGood(v: View, e: Expression, r: Checked) {
    r.errors == 0 ==> r.expr.Some? && Good(v, e, r.expr.value)
  }

  /** The decorator returns false only after recording an error, and what it accepts is good. */
  lemma {:induction false} CheckIsSound(v: View, sc: Scope, e: Expression)
    requires Knows(v, sc) && (v.strFree ==> StrFree(e))
    ensures CleanIsGood(v, e, Check(sc, e))
    decreases e, 1
  {
    match e
    case MemberVariable(parent, _) => CheckIsSound(v, sc, parent);
    case UnaryNot(inner) =>
      CheckIsSound(v, sc, inner);
    case Binary(_, lhs, rhs) =>
      CheckIsSound(v, sc, lhs);
      CheckIsSound(v, sc, rhs);
    case CallTo(name, _, _) =>
      if name in sc.names && sc.names[name].FunEntry? {
        CallIsSound(v, sc, e, sc.names[name].index);
      }
    case MemberCall(parent, _, _, _) => CheckIsSound(v, sc, parent);
    case _ =>
  }

  lemma {:induction false} CallIsSound(v: View, sc: Scope, e: Expression, f: nat)
    requires e.CallTo? && Knows(v, sc) && f < |v.fs| && v.fs[f].name == e.calledName && (v.strFree ==> StrFree(e))
    ensures CleanIsGood(v, e, Called(sc, f, CheckArguments(sc, e, sc.functions[f].params)))
    decreases e, 0
  {
    hide Knows, CheckArguments, Good;
    assert sc.functions == v.fs by { KnownFunctions(v, sc); }
    var params := v.fs[f].params;
    forall a | a in e.nonNamed
      ensures CleanIsGood(v, a, Check(sc, a))
    {
      CheckIsSound(v, sc, a);
    }
    forall a | a in e.named
      ensures CleanIsGood(v, a.expression, Check(sc, a.expression))
    {
      CheckIsSound(v, sc, a.expression);
    }
    NoErrors(sc, e, params);
    if CheckArguments(sc, e, params).errors == 0 {
      KnownFunctions(v, sc);
      CallIsGood(v, sc, e, f);
    }
  }

  lemma KnownFunctions(v: View, sc: Scope)
    requires Knows(v, sc)
    ensures sc.functions == v.fs && FunctionsKnown(v)
  {
  }

  // A call without errors.

  predicate CleanHasExpr(r: Checked) {
    r.errors == 0 ==> r.expr.Some?
  }

  predicate NoErrorYet(s: Slots) {
    s.errors == 0 ==> s.ok
  }

  lemma {:induction false} PositionalNoErrors(sc: Scope, params: seq<Parameter>, args: seq<Expression>, i: nat,
          s: Slots)
    requires |s.slots| == |params| && Sane(s) && NoErrorYet(s) && forall a <- args :: CleanHasExpr(Check(sc, a))
    ensures var r := FillPositional(sc, params, args, i, s);
      NoErrorYet(r) && r.errors >= s.errors && (r.errors == 0 ==> forall a <- args :: Check(sc, a).errors == 0)
    decreases args
  {
    if args != [] && i < |params| {
      assert CleanHasExpr(Check(sc, args[0])) by { assert args[0] in args; }
      PositionalNoErrors(sc, params, args[1..], i + 1, Put(s, i, CheckArgument(sc, args[0], params[i].ty)));
      assert forall a | a in args :: a == args[0] || a in args[1..];
    }
  }

  lemma {:induction false} NamedNoErrors(sc: Scope, params: seq<Parameter>, named: seq<NamedArg>, s: Slots)
    requires |s.slots| == |params| && Sane(s) && NoErrorYet(s) &&
      forall a <- named :: CleanHasExpr(Check(sc, a.expression))
    ensures var r := FillNamed(sc, params, named, s);
      NoErrorYet(r) && r.errors >= s.errors &&
        (r.errors == 0 ==> forall a <- named :: Check(sc, a.expression).errors == 0)
    decreases named
  {
    if named != [] {
      var i := IndexOf(params, named[0].name);
      var s1 := if i >= |params| ||
        s.slots[i].Filled? then Rejected(s) else Put(s, i, CheckArgument(sc, named[0].expression, params[i].ty));
      NamedNoErrors(sc, params, named[1..], s1);
      assert forall a | a in named :: a == named[0] || a in named[1..];
    }
  }

  lemma {:induction false} DefaultsNoErrors(params: seq<Parameter>, s: Slots, i: nat)
    requires |s.slots| == |params| && Sane(s) && NoErrorYet(s) && i <= |params| && (s.ok ==> AllFilled(s.slots[..i]))
    ensures var r := FillDefaults(params, s, i); NoErrorYet(r) && r.errors >= s.errors
    decreases |params| - i
  {
    if i < |params| {
      var s1 :=
        if s.slots[i].Filled? then s
        else if params[i].default.None? then Rejected(s)
        else Put(s, i, Checked(Some(Lit(ValueOf(params[i].default.value))), 0));
      assert s1.ok ==> AllFilled(s1.slots[..i + 1]) by {
        if s1.ok {
          assert forall k | 0 <= k < i :: s.slots[..i][k].Filled?;
        }
      }
      DefaultsNoErrors(params, s1, i + 1);
    }
  }

  /** A call that records no error is accepted, and so are its arguments. */
  lemma {:induction false} NoErrors(sc: Scope, e: Expression, params: seq<Parameter>)
    requires e.CallTo?
    requires (forall a <- e.nonNamed :: CleanHasExpr(Check(sc, a))) &&
      (forall a <- e.named :: CleanHasExpr(Check(sc, a.expression)))
    ensures var r := CheckArguments(sc, e, params);
      r.errors == 0 ==>
        r.ok && (forall a <- e.nonNamed :: Check(sc, a).errors == 0) &&
        (forall a <- e.named :: Check(sc, a.expression).errors == 0)
  {
    var s0 := Slots(seq(|params|, _ => Unfilled), true, 0);
    PositionalNoErrors(sc, params, e.nonNamed, 0, s0);
    NamedNoErrors(sc, params, e.named, Provided(sc, e, params).0);
    DefaultsNoErrors(params, Provided(sc, e, params).1, 0);
  }

  /** Every provided argument is good. */
  ghost predicate GoodArguments(v: View, sc: Scope, e: Expression)
    requires e.CallTo?
  {
    (forall a <- e.nonNamed :: Check(sc, a).expr.Some? && Good(v, a, Check(sc, a).expr.value)) &&
    (forall a <- e.named ::
      Check(sc, a.expression).expr.Some? && Good(v, a.expression, Check(sc, a.expression).expr.value))
  }

  predicate ArgumentsMatch(v: View, e: Expression)
    requires e.CallTo?
  {
    (forall a <- e.nonNamed :: UsedDefaultsMatch(v.fs, a)) &&
      (forall a <- e.named :: UsedDefaultsMatch(v.fs, a.expression))
  }

  /** Each argument of an accepted call is a provided one or a constant. */
  lemma {:induction false} ArgumentIsGood(v: View, sc: Scope, e: Expression, f: nat, i: nat)
    requires e.CallTo? && f < |v.fs| && GoodArguments(v, sc, e) && CheckArguments(sc, e, v.fs[f].params).ok &&
      i < |v.fs[f].params|
    requires FunctionsKnown(v)
    ensures var x := CheckArguments(sc, e, v.fs[f].params).slots[i].expr.value;
      ExprDeclared(x, v.np, v.vis) && (v.strFree ==> Supported(x)) &&
        (ArgumentsMatch(v, e) ==> TypedExpr(v.p, v.ctx, x))
  {
    hide CheckArguments;
    var params := v.fs[f].params;
    CallExact(sc, e, params);
    var r := CheckArguments(sc, e, params);
    if i < |e.nonNamed| {
      assert r.slots[i] == Filled(PositionalResult(sc, params, e.nonNamed, i));
      assert e.nonNamed[i] in e.nonNamed && Good(v, e.nonNamed[i], r.slots[i].expr.value);
    } else if Targeted(params, e.named, i) {
      var k :| 0 <= k < |e.named| && Target(params, e.named, k) == i;
      assert r.slots[i] == Filled(NamedResult(sc, params, e.named, k));
      assert e.named[k] in e.named && Good(v, e.named[k].expression, r.slots[i].expr.value);
    } else {
      assert r.slots[i] == DefaultSlot(params[i]);
      assert SignatureKnown(v, v.fs[f], v.p.funs[f]) && ParameterKnown(v, params[i], v.p.funs[f].params[i]);
    }
  }

  /** If all arguments of an accepted call are typed, so are the provided ones. */
  lemma {:induction false} ProvidedMatch(v: View, sc: Scope, e: Expression, params: seq<Parameter>)
    requires e.CallTo? && GoodArguments(v, sc, e) && CheckArguments(sc, e, params).ok
    requires forall i | 0 <= i < |params| :: TypedExpr(v.p, v.ctx, CheckArguments(sc, e, params).slots[i].expr.value)
    ensures ArgumentsMatch(v, e)
  {
    hide CheckArguments, TypedExpr, UsedDefaultsMatch;
    CallExact(sc, e, params);
    var r := CheckArguments(sc, e, params);
    forall k | 0 <= k < |e.nonNamed|
      ensures UsedDefaultsMatch(v.fs, e.nonNamed[k])
    {
      assert r.slots[k] == Filled(PositionalResult(sc, params, e.nonNamed, k));
      assert e.nonNamed[k] in e.nonNamed && Good(v, e.nonNamed[k], r.slots[k].expr.value);
    }
    forall k | 0 <= k < |e.named|
      ensures UsedDefaultsMatch(v.fs, e.named[k].expression)
    {
      var i := Target(params, e.named, k);
      assert r.slots[i] == Filled(NamedResult(sc, params, e.named, k));
      assert e.named[k] in e.named && Good(v, e.named[k].expression, r.slots[i].expr.value);
    }
  }

  /** Only function `f` has the called name. */
  lemma OneCallee(v: View, e: Expression, f: nat)
    requires e.CallTo? && FunctionsKnown(v) && f < |v.fs| && v.fs[f].name == e.calledName
    ensures UsedDefaultsMatch(v.fs, e) <==> ArgumentsMatch(v, e) && UsesMatch(v.fs[f].params, e.nonNamed, e.named)
  {
  }

  lemma {:induction false} CallIsGood(v: View, sc: Scope, e: Expression, f: nat)
    requires e.CallTo? && FunctionsKnown(v) && sc.functions == v.fs && f < |v.fs| && v.fs[f].name == e.calledName
    requires GoodArguments(v, sc, e) && CheckArguments(sc, e, v.fs[f].params).ok
    ensures var t := Called(sc, f, CheckArguments(sc, e, v.fs[f].params)).expr; t.Some? && Good(v, e, t.value)
  {
    hide CheckArguments, UsedDefaultsMatch, UsesMatch, GoodArguments, ArgumentsMatch, Targeted, ArgumentsFit;
    var params := v.fs[f].params;
    var r := CheckArguments(sc, e, params);
    assert SignatureKnown(v, v.fs[f], v.p.funs[f]);
    forall i | 0 <= i < |params|
      ensures ExprDeclared(r.slots[i].expr.value, v.np, v.vis) && (v.strFree ==> Supported(r.slots[i].expr.value))
      ensures ArgumentsMatch(v, e) ==> TypedExpr(v.p, v.ctx, r.slots[i].expr.value)
    {
      ArgumentIsGood(v, sc, e, f, i);
    }
    UsesDecideTypes(sc, e, params);
    OneCallee(v, e, f);
    var t := Call(f, Exprs(r.slots), v.p.funs[f].returnType);
    assert forall i | 0 <= i < |params| :: ParameterKnown(v, params[i], v.p.funs[f].params[i]);
    if TypedExpr(v.p, v.ctx, t) {
      ProvidedMatch(v, sc, e, params);
    }
  }

  lemma {:induction false} UsesDecideTypes(sc: Scope, e: Expression, params: seq<Parameter>)
    requires e.CallTo? && CheckArguments(sc, e, params).ok
    ensures UsesMatch(params, e.nonNamed, e.named) <==>
      forall i | 0 <= i < |params| ::
        params[i].ty == Some(ResultType(CheckArguments(sc, e, params).slots[i].expr.value))
  {
    hide CheckArguments, Targeted;
    ArgumentTypes(sc, e, params);
    CallExact(sc, e, params);
  }
}
