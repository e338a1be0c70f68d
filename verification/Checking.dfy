/** Checking of expressions: names, types, and the arguments of calls.

    A function here returns the decorated expression, or None where the decorator returns false, and
    the number of errors it records.
 */
module Checking {
  import opened Lang
  import opened Syntax
  import opened Scopes
  import Typing

  /** A parameter; an unknown type name leaves it without a type. */
  datatype Parameter = Parameter(name: string, ty: Option<Type>, default: Option<Const>)

  datatype Signature = Signature(name: string, params: seq<Parameter>, returnType: Option<Type>)

  /** What an expression is checked against: the functions, the visible names, and the types that
      variable declarations have been given. */
  datatype Scope = Scope(functions: seq<Signature>, names: Names, types: map<VarRef, Type>)

  datatype Checked = Checked(expr: Option<Expr>, errors: nat)

  /** One argument of a call being assembled; `Filled(None)` is an argument that did not check. */
  datatype Slot = Unfilled | Filled(expr: Option<Expr>)

  datatype Slots = Slots(slots: seq<Slot>, ok: bool, errors: nat)

  function Check(sc: Scope, e: Expression): Checked
    decreases e, 1
  {
    match e
    case Missing => Checked(None, 1)
    case Constant(c) => Checked(Some(Lit(ValueOf(c))), 0)
    case Variable(name) =>
      if name !in sc.names || sc.names[name].FunEntry? then Checked(None, 1)
      else
        var x := sc.names[name].x;
        Checked(if x in sc.types then Some(Var(x, sc.types[x])) else None, 0)
    case MemberVariable(parent, _) => NoMember(Check(sc, parent))
    case UnaryNot(inner) => Negated(Check(sc, inner))
    case Binary(op, lhs, rhs) => Combined(op, Check(sc, lhs), Check(sc, rhs))
    case CallTo(name, nonNamed, named) =>
      if name in sc.names && sc.names[name].FunEntry? && sc.names[name].index < |sc.functions|
      then Called(sc, sc.names[name].index, CheckArguments(sc, e, sc.functions[sc.names[name].index].params))
      else Checked(None, 1)
    case MemberCall(parent, _, _, _) => NoMember(Check(sc, parent))
  }

  /** No type has members. */
  function NoMember(parent: Checked): Checked {
    Checked(None, parent.errors + if parent.expr.Some? then 1 else 0)
  }

  function Negated(inner: Checked): Checked {
    if inner.expr.None? then inner
    else Checked(Some(Not(inner.expr.value)), inner.errors + if ResultType(inner.expr.value) == Bool then 0 else 1)
  }

  function Combined(op: BinOp, l: Checked, r: Checked): Checked {
    if l.expr.None? || r.expr.None? then Checked(None, l.errors + r.errors)
    else
      var t := BinaryOperationResultType(ResultType(l.expr.value), op);
      if ResultType(l.expr.value) == ResultType(r.expr.value) && t.Some?
      then Checked(Some(Bin(op, l.expr.value, r.expr.value, t.value)), l.errors + r.errors)
      else Checked(None, l.errors + r.errors + 1)
  }

  /** The arguments of a call: positional ones first, then named ones, then default values. */
  function CheckArguments(sc: Scope, e: Expression, params: seq<Parameter>): (r: Slots)
    requires e.CallTo?
    ensures |r.slots| == |params| && (r.ok ==> AllFilled(r.slots))
    decreases e, 0
  {
    var empty := Slots(seq(|params|, _ => Unfilled), true, 0);
    FillDefaults(params, FillNamed(sc, params, e.named, FillPositional(sc, params, e.nonNamed, 0, empty)), 0)
  }

  /** As long as nothing went wrong every filled slot holds an expression. */
  predicate Sane(s: Slots) {
    s.ok ==> forall i | 0 <= i < |s.slots| :: s.slots[i].Filled? ==> s.slots[i].expr.Some?
  }

  function Put(s: Slots, i: nat, r: Checked): Slots
    requires i < |s.slots|
  {
    Slots(s.slots[i := Filled(r.expr)], s.ok && r.expr.Some?, s.errors + r.errors)
  }

  function Rejected(s: Slots): Slots {
    Slots(s.slots, false, s.errors + 1)
  }

  /** An argument, which needs the type of its parameter. */
  function CheckArgument(sc: Scope, e: Expression, want: Option<Type>): Checked
    decreases e, 2
  {
    var r := Check(sc, e);
    if r.expr.None? || want == Some(ResultType(r.expr.value)) then r else Checked(None, r.errors + 1)
  }

  /** Positional arguments from the `i`-th on; the first that does not fit ends the list. */
  function FillPositional(sc: Scope, params: seq<Parameter>, args: seq<Expression>, i: nat, s: Slots): (r: Slots)
    requires |s.slots| == |params| && Sane(s)
    ensures |r.slots| == |params| && Sane(r)
    decreases args
  {
    if args == [] then s
    else if i >= |params| then Rejected(s)
    else FillPositional(sc, params, args[1..], i + 1, Put(s, i, CheckArgument(sc, args[0], params[i].ty)))
  }

  /** The first parameter with a name, or the number of parameters. */
  function IndexOf(params: seq<Parameter>, name: string): (i: nat)
    ensures i <= |params| && (forall j | 0 <= j < i :: params[j].name != name)
    ensures i < |params| ==> params[i].name == name
    decreases |params|
  {
    if params == [] || params[0].name == name then 0 else IndexOf(params[1..], name) + 1
  }

  function FillNamed(sc: Scope, params: seq<Parameter>, named: seq<NamedArg>, s: Slots): (r: Slots)
    requires |s.slots| == |params| && Sane(s)
    ensures |r.slots| == |params| && Sane(r)
    decreases named
  {
    if named == [] then s
    else
      var i := IndexOf(params, named[0].name);
      FillNamed(sc, params, named[1..],
                if i >= |params| || s.slots[i].Filled? then Rejected(s)
                else Put(s, i, CheckArgument(sc, named[0].expression, params[i].ty)))
  }

  /** Default values for the parameters from the `i`-th on that were not provided. */
  function FillDefaults(params: seq<Parameter>, s: Slots, i: nat): (r: Slots)
    requires |s.slots| == |params| && Sane(s) && i <= |params| && (s.ok ==> AllFilled(s.slots[..i]))
    ensures |r.slots| == |params| && (r.ok ==> AllFilled(r.slots))
    decreases |params| - i
  {
    if i >= |params| then s
    else
      FillDefaults(params,
                   if s.slots[i].Filled? then s
                   else if params[i].default.None? then Rejected(s)
                   else Put(s, i, Checked(Some(Lit(ValueOf(params[i].default.value))), 0)),
                   i + 1)
  }

  function Called(sc: Scope, f: nat, s: Slots): Checked
    requires f < |sc.functions| && (s.ok ==> AllFilled(s.slots))
  {
    Checked(if s.ok && sc.functions[f].returnType.Some?
            then Some(Call(f, Exprs(s.slots), sc.functions[f].returnType.value)) else None,
            s.errors)
  }

  predicate AllFilled(slots: seq<Slot>) {
    forall i | 0 <= i < |slots| :: slots[i].Filled? && slots[i].expr.Some?
  }

  function Exprs(slots: seq<Slot>): (r: seq<Expr>)
    requires AllFilled(slots)
    ensures |r| == |slots| && forall i | 0 <= i < |r| :: r[i] == slots[i].expr.value
  {
    seq(|slots|, i requires 0 <= i < |slots| => slots[i].expr.value)
  }

  // What a call ends up with.

  /** The parameter the `k`-th named argument is for. */
  function Target(params: seq<Parameter>, named: seq<NamedArg>, k: nat): (i: nat)
    requires k < |named|
    ensures i <= |params|
  {
    IndexOf(params, named[k].name)
  }

  function NamedResult(sc: Scope, params: seq<Parameter>, named: seq<NamedArg>, k: nat): Option<Expr>
    requires k < |named| && Target(params, named, k) < |params|
  {
    CheckArgument(sc, named[k].expression, params[Target(params, named, k)].ty).expr
  }

  function PositionalResult(sc: Scope, params: seq<Parameter>, args: seq<Expression>, k: nat): Option<Expr>
    requires k < |args| && k < |params|
  {
    CheckArgument(sc, args[k], params[k].ty).expr
  }

  /** Some named argument is for parameter `i`. */
  predicate Targeted(params: seq<Parameter>, named: seq<NamedArg>, i: nat) {
    exists k :: 0 <= k < |named| && Target(params, named, k) == i
  }

  lemma {:induction false} PositionalExact(sc: Scope, params: seq<Parameter>, args: seq<Expression>, n: nat, s: Slots)
    requires |s.slots| == |params| && Sane(s) && n <= |args| && n <= |params|
    ensures var r := FillPositional(sc, params, args[n..], n, s);
      (r.ok <==> s.ok && |args| <= |params| && forall k | n <= k < |args| ::
        PositionalResult(sc, params, args, k).Some?) &&
      (r.ok ==> forall i | 0 <= i < |params| ::
         r.slots[i] == if n <= i < |args| then Filled(PositionalResult(sc, params, args, i)) else s.slots[i])
    decreases |args| - n
  {
    if n == |args| {
      assert args[n..] == [];
    } else if n < |params| {
      assert args[n..][0] == args[n] && args[n..][1..] == args[n + 1..];
      var s1 := Put(s, n, CheckArgument(sc, args[n], params[n].ty));
      PositionalExact(sc, params, args, n + 1, s1);
      assert s1.ok <==> s.ok && PositionalResult(sc, params, args, n).Some?;
    }
  }

  /** The named arguments from the `n`-th on fit: each names a parameter that is still unfilled. */
  predicate NamedFit(params: seq<Parameter>, named: seq<NamedArg>, n: nat, slots: seq<Slot>)
    requires |slots| == |params|
  {
    (forall k | n <= k < |named| :: Target(params, named, k) < |params| && slots[Target(params, named, k)].Unfilled?) &&
    (forall j, k | n <= j < k < |named| :: Target(params, named, j) != Target(params, named, k))
  }

  lemma NamedFitStep(params: seq<Parameter>, named: seq<NamedArg>, n: nat, s: Slots, s1: Slots)
    requires |s.slots| == |params| && n < |named| && Target(params, named, n) < |params| &&
      s.slots[Target(params, named, n)].Unfilled?
    requires exists e :: s1.slots == s.slots[Target(params, named, n) := Filled(e)]
    ensures NamedFit(params, named, n, s.slots) <==> NamedFit(params, named, n + 1, s1.slots)
  {
  }

  lemma {:induction false} NamedExact(sc: Scope, params: seq<Parameter>, named: seq<NamedArg>, n: nat, s: Slots)
    requires |s.slots| == |params| && Sane(s) && n <= |named|
    ensures var r := FillNamed(sc, params, named[n..], s);
      (r.ok <==> s.ok && NamedFit(params, named, n, s.slots) && forall k | n <= k < |named| ::
        NamedResult(sc, params, named, k).Some?) &&
      (r.ok ==> forall k | n <= k < |named| ::
        r.slots[Target(params, named, k)] == Filled(NamedResult(sc, params, named, k))) &&
      (r.ok ==> forall i | 0 <= i < |params| ::
        (forall k | n <= k < |named| :: Target(params, named, k) != i) ==> r.slots[i] == s.slots[i])
    decreases |named| - n
  {
    if n == |named| {
      assert named[n..] == [];
    } else {
      var i := Target(params, named, n);
      assert named[n..][0] == named[n] && named[n..][1..] == named[n + 1..];
      if i < |params| && s.slots[i].Unfilled? {
        var s1 := Put(s, i, CheckArgument(sc, named[n].expression, params[i].ty));
        NamedExact(sc, params, named, n + 1, s1);
        NamedFitStep(params, named, n, s, s1);
        assert s1.ok <==> s.ok && NamedResult(sc, params, named, n).Some?;
      } else {
        NamedExact(sc, params, named, n + 1, Rejected(s));
      }
    }
  }

  function DefaultSlot(param: Parameter): Slot {
    if param.default.None? then Unfilled else Filled(Some(Lit(ValueOf(param.default.value))))
  }

  lemma {:induction false} DefaultsExact(params: seq<Parameter>, s: Slots, n: nat)
    requires |s.slots| == |params| && Sane(s) && n <= |params| && (s.ok ==> AllFilled(s.slots[..n]))
    ensures var r := FillDefaults(params, s, n);
      (r.ok <==> s.ok && forall i | n <= i < |params| :: s.slots[i].Filled? || params[i].default.Some?) &&
      (r.ok ==> forall i | 0 <= i < |params| ::
        r.slots[i] == if s.slots[i].Filled? then s.slots[i] else DefaultSlot(params[i]))
    decreases |params| - n
  {
    if n < |params| {
      var s1 :=
        if s.slots[n].Filled? then s
        else if params[n].default.None? then Rejected(s)
        else Put(s, n, Checked(Some(Lit(ValueOf(params[n].default.value))), 0));
      assert s1.ok ==> AllFilled(s1.slots[..n + 1]) by {
        if s1.ok {
          assert forall i | 0 <= i < n :: s.slots[..n][i].Filled?;
        }
      }
      DefaultsExact(params, s1, n + 1);
    }
  }

  /** What a caller can check beforehand: the positional arguments fit, each named argument names an
      existing parameter that nothing else provides, and the rest have default values. */
  predicate ArgumentsFit(params: seq<Parameter>, nonNamed: seq<Expression>, named: seq<NamedArg>) {
    |nonNamed| <= |params| &&
    (forall k | 0 <= k < |named| :: |nonNamed| <= Target(params, named, k) < |params|) &&
    (forall j, k | 0 <= j < k < |named| :: Target(params, named, j) != Target(params, named, k)) &&
    (forall i: nat | |nonNamed| <= i < |params| :: Targeted(params, named, i) || params[i].default.Some?)
  }

  /** Every provided argument has the type of its parameter. */
  predicate ArgumentsCheck(sc: Scope, params: seq<Parameter>, nonNamed: seq<Expression>, named: seq<NamedArg>)
    requires ArgumentsFit(params, nonNamed, named)
  {
    (forall k | 0 <= k < |nonNamed| :: PositionalResult(sc, params, nonNamed, k).Some?) &&
    (forall k | 0 <= k < |named| :: NamedResult(sc, params, named, k).Some?)
  }

  /** The slots after the positional arguments, and after the named ones. */
  function Provided(sc: Scope, e: Expression, params: seq<Parameter>): (r: (Slots, Slots))
    requires e.CallTo?
    ensures |r.0.slots| == |r.1.slots| == |params| && Sane(r.0) && Sane(r.1)
    ensures CheckArguments(sc, e, params) == FillDefaults(params, r.1, 0)
  {
    var s1 := FillPositional(sc, params, e.nonNamed, 0, Slots(seq(|params|, _ => Unfilled), true, 0));
    (s1, FillNamed(sc, params, e.named, s1))
  }

  lemma {:induction false} PositionalProvided(sc: Scope, e: Expression, params: seq<Parameter>)
    requires e.CallTo?
    ensures var s1 := Provided(sc, e, params).0;
      (s1.ok <==> |e.nonNamed| <= |params| && forall k | 0 <= k < |e.nonNamed| ::
        PositionalResult(sc, params, e.nonNamed, k).Some?) &&
      (s1.ok ==> forall i | 0 <= i < |params| ::
         s1.slots[i] == if i < |e.nonNamed| then Filled(PositionalResult(sc, params, e.nonNamed, i)) else Unfilled)
  {
    assert e.nonNamed[0..] == e.nonNamed;
    PositionalExact(sc, params, e.nonNamed, 0, Slots(seq(|params|, _ => Unfilled), true, 0));
  }

  lemma {:induction false} NamedProvided(sc: Scope, e: Expression, params: seq<Parameter>)
    requires e.CallTo?
    ensures var (s1, s2) := Provided(sc, e, params);
      (s2.ok <==> s1.ok && NamedFit(params, e.named, 0, s1.slots) && forall k | 0 <= k < |e.named| ::
        NamedResult(sc, params, e.named, k).Some?) &&
      (s2.ok ==> forall k | 0 <= k < |e.named| ::
        s2.slots[Target(params, e.named, k)] == Filled(NamedResult(sc, params, e.named, k))) &&
      (s2.ok ==> forall i: nat | i < |params| && !Targeted(params, e.named, i) :: s2.slots[i] == s1.slots[i])
  {
    assert e.named[0..] == e.named;
    NamedExact(sc, params, e.named, 0, Provided(sc, e, params).0);
  }

  lemma {:induction false} AllProvided(sc: Scope, e: Expression, params: seq<Parameter>)
    requires e.CallTo? && Provided(sc, e, params).1.ok
    ensures forall i: nat | i < |params| ::
      Provided(sc, e, params).1.slots[i].Filled? <==> i < |e.nonNamed| || Targeted(params, e.named, i)
  {
    hide Provided;
    PositionalProvided(sc, e, params);
    NamedProvided(sc, e, params);
    var s2 := Provided(sc, e, params).1;
    forall i: nat | i < |params|
      ensures s2.slots[i].Filled? <==> i < |e.nonNamed| || Targeted(params, e.named, i)
    {
      if Targeted(params, e.named, i) {
        var k :| 0 <= k < |e.named| && Target(params, e.named, k) == i;
        assert s2.slots[Target(params, e.named, k)].Filled?;
      }
    }
  }

  /** A call is accepted exactly when its arguments fit and check. It then has one argument per parameter:
      the positional ones in front, each named one at its parameter, and default values only in the gaps. */
  lemma {:induction false} CallExact(sc: Scope, e: Expression, params: seq<Parameter>)
    requires e.CallTo?
    ensures var r := CheckArguments(sc, e, params);
      (r.ok <==> ArgumentsFit(params, e.nonNamed, e.named) && ArgumentsCheck(sc, params, e.nonNamed, e.named)) &&
      (r.ok ==>
         (forall k | 0 <= k < |e.nonNamed| :: r.slots[k] == Filled(PositionalResult(sc, params, e.nonNamed, k))) &&
         (forall k | 0 <= k < |e.named| ::
           r.slots[Target(params, e.named, k)] == Filled(NamedResult(sc, params, e.named, k))) &&
         (forall i: nat | |e.nonNamed| <= i < |params| &&
           !Targeted(params, e.named, i) :: r.slots[i] == DefaultSlot(params[i])))
  {
    hide Provided, Targeted, CheckArguments;
    PositionalProvided(sc, e, params);
    NamedProvided(sc, e, params);
    var (s1, s2) := Provided(sc, e, params);
    DefaultsExact(params, s2, 0);
    if s2.ok {
      AllProvided(sc, e, params);
    }
    assert s1.ok ==> (NamedFit(params, e.named, 0, s1.slots) <==>
      (forall k | 0 <= k < |e.named| :: |e.nonNamed| <= Target(params, e.named, k) < |params|) &&
      (forall j, k | 0 <= j < k < |e.named| :: Target(params, e.named, j) != Target(params, e.named, k)));
    if CheckArguments(sc, e, params).ok {
      NothingTwice(params, e, s1.slots);
    }
  }

  /** No positional argument is for a parameter that is also named. */
  lemma NothingTwice(params: seq<Parameter>, e: Expression, slots: seq<Slot>)
    requires e.CallTo? && |slots| == |params| && NamedFit(params, e.named, 0, slots)
    requires forall i | 0 <= i < |params| :: slots[i].Filled? <==> i < |e.nonNamed|
    ensures forall i: nat | i < |e.nonNamed| :: !Targeted(params, e.named, i)
  {
  }

  /** Default values are not checked against their parameters: an accepted call has arguments of the
      parameters' types if and only if the default values it uses have them. */
  lemma {:induction false} ArgumentTypes(sc: Scope, e: Expression, params: seq<Parameter>)
    requires e.CallTo? && CheckArguments(sc, e, params).ok
    ensures
      (forall i | 0 <= i < |params| :: params[i].ty == Some(ResultType(Exprs(CheckArguments(sc, e, params).slots)[i])))
      <==>
      (forall i: nat | |e.nonNamed| <= i < |params| && !Targeted(params, e.named, i) ::
         params[i].default.Some? && params[i].ty == Some(TypeOf(ValueOf(params[i].default.value))))
  {
    CallExact(sc, e, params);
    var r := CheckArguments(sc, e, params);
    forall i: nat | i < |params|
      ensures
        if i < |e.nonNamed| || Targeted(params, e.named, i) then params[i].ty == Some(ResultType(r.slots[i].expr.value))
        else params[i].default.Some? && ResultType(r.slots[i].expr.value) == TypeOf(ValueOf(params[i].default.value))
    {
      if i < |e.nonNamed| {
        assert PositionalResult(sc, params, e.nonNamed, i).Some?;
      } else if Targeted(params, e.named, i) {
        var k :| 0 <= k < |e.named| && Target(params, e.named, k) == i;
        assert NamedResult(sc, params, e.named, k).Some?;
      } else {
        assert r.slots[i] == DefaultSlot(params[i]);
      }
    }
  }
}
