/** A decorated call, printed with every argument named, reads back as the same call. */
module CallRoundTrip {
  import opened Lang
  import opened Syntax
  import opened Tokens
  import opened Parsing
  import opened Printing
  import opened RoundTrip
  import C = Checking
  import opened CheckSound

  predicate DistinctNames(params: seq<C.Parameter>) {
    forall i, j | 0 <= i < j < |params| :: params[i].name != params[j].name
  }

  /** Every function is found under its own name only, and its parameters have distinct names. */
  predicate Resolved(sc: C.Scope) {
    (forall name | name in sc.names && sc.names[name].FunEntry? ::
       sc.names[name].index < |sc.functions| && sc.functions[sc.names[name].index].name == name) &&
    (forall f, g | 0 <= f < g < |sc.functions| :: sc.functions[f].name != sc.functions[g].name) &&
    forall f | 0 <= f < |sc.functions| :: DistinctNames(sc.functions[f].params)
  }

  /** The function a call names. */
  function Callee(sc: C.Scope, name: string): Option<nat> {
    if name in sc.names && sc.names[name].FunEntry? && sc.names[name].index < |sc.functions|
      then Some(sc.names[name].index) else None
  }

  /** The named argument that is for parameter `i`. */
  function NamedFor(params: seq<C.Parameter>, named: seq<NamedArg>, i: nat): (k: nat)
    requires C.Targeted(params, named, i)
    ensures k < |named| && C.Target(params, named, k) == i
    decreases |named|
  {
    var n := |named| - 1;
    if C.Target(params, named, n) == i then n
    else
      assert forall k | 0 <= k < n :: C.Target(params, named[..n], k) == C.Target(params, named, k);
      NamedFor(params, named[..n], i)
  }

  /** An expression as the decorator leaves it: every call in it has one argument per parameter, each with its
      declaration. */
  function Normalised(sc: C.Scope, e: Expression): Expression
    decreases e
  {
    match e
    case UnaryNot(inner) => UnaryNot(Normalised(sc, inner))
    case Binary(op, lhs, rhs) => Binary(op, Normalised(sc, lhs), Normalised(sc, rhs))
    case CallTo(name, nonNamed, named) =>
      var f := Callee(sc, name);
      if f.Some? && C.ArgumentsFit(sc.functions[f.value].params, nonNamed, named) then
        var params := sc.functions[f.value].params;
        CallTo(name, [], seq(|params|, i requires 0 <= i < |params| =>
          NamedArg(params[i].name,
                   if i < |nonNamed| then Normalised(sc, nonNamed[i])
                   else if C.Targeted(params, named, i)
                     then Normalised(sc, named[NamedFor(params, named, i)].expression)
                   else Constant(params[i].default.value))))
      else e
    case _ => e
  }

  lemma NamesAreFound(params: seq<C.Parameter>, i: nat)
    requires DistinctNames(params) && i < |params|
    ensures C.IndexOf(params, params[i].name) == i
  {
  }

  /** Arguments named like the parameters fit: each is for its own parameter. */
  lemma AllNamedFit(params: seq<C.Parameter>, named: seq<NamedArg>)
    requires DistinctNames(params) && |named| == |params| &&
      forall i | 0 <= i < |params| :: named[i].name == params[i].name
    ensures C.ArgumentsFit(params, [], named)
    ensures forall k | 0 <= k < |params| :: C.Target(params, named, k) == k
  {
    forall k | 0 <= k < |params|
      ensures C.Target(params, named, k) == k
    {
      NamesAreFound(params, k);
    }
    forall i: nat | i < |params|
      ensures C.Targeted(params, named, i)
    {
      assert C.Target(params, named, i) == i;
    }
  }

  /** Checking `again` gives what checking `e` gave if `matches`, and fails otherwise. */
  ghost predicate ChecksAgain(sc: C.Scope, e: Expression, again: Expression, matches: bool) {
    C.Check(sc, again).expr == if matches then C.Check(sc, e).expr else None
  }

  /** Argument `i` of a call and of the call as it was normalised; `gap` where a default value was filled in. */
  ghost predicate ArgumentAgain(sc: C.Scope, e: Expression, params: seq<C.Parameter>, i: nat, again: Expression)
    requires e.CallTo? && i < |params|
  {
    if i < |e.nonNamed| then ChecksAgain(sc, e.nonNamed[i], again, UsedDefaultsMatch(sc.functions, e.nonNamed[i]))
    else if C.Targeted(params, e.named, i) then
      var k := NamedFor(params, e.named, i);
      ChecksAgain(sc, e.named[k].expression, again, UsedDefaultsMatch(sc.functions, e.named[k].expression))
    else params[i].default.Some? && again == Constant(params[i].default.value)
  }

  /** Argument `i` was provided and its calls match, or it is a default value of the right type. */
  predicate ArgumentMatches(fs: seq<C.Signature>, e: Expression, params: seq<C.Parameter>, i: nat)
    requires e.CallTo? && i < |params|
  {
    if i < |e.nonNamed| then UsedDefaultsMatch(fs, e.nonNamed[i])
    else if C.Targeted(params, e.named, i) then UsedDefaultsMatch(fs, e.named[NamedFor(params, e.named, i)].expression)
    else params[i].default.Some? ==> params[i].ty == Some(TypeOf(ValueOf(params[i].default.value)))
  }

  /** Checking argument `i` of the normalised call: the slot it had before, if it matches. */
  lemma {:induction false} SameArgument(sc: C.Scope, e: Expression, params: seq<C.Parameter>, i: nat, again: Expression)
    requires e.CallTo? && C.CheckArguments(sc, e, params).ok && C.ArgumentsFit(params, e.nonNamed, e.named) &&
      i < |params|
    requires ArgumentAgain(sc, e, params, i, again)
    ensures
      var r := C.CheckArgument(sc, again, params[i].ty).expr;
      (r.Some? <==> ArgumentMatches(sc.functions, e, params, i)) &&
        (r.Some? ==> C.CheckArguments(sc, e, params).slots[i] == C.Filled(r))
  {
    hide C.CheckArguments, UsedDefaultsMatch;
    C.CallExact(sc, e, params);
    if i < |e.nonNamed| {
      assert C.PositionalResult(sc, params, e.nonNamed, i).Some?;
    } else if C.Targeted(params, e.named, i) {
      var k := NamedFor(params, e.named, i);
      assert C.NamedResult(sc, params, e.named, k).Some?;
      assert C.CheckArguments(sc, e, params).slots[C.Target(params, e.named, k)] ==
        C.Filled(C.NamedResult(sc, params, e.named, k));
    } else {
      assert C.CheckArguments(sc, e, params).slots[i] == C.DefaultSlot(params[i]);
    }
  }

  /** A call whose arguments are all named: it is accepted if they all match, with the slots it had before. */
  lemma {:induction false} SameArguments(sc: C.Scope, e: Expression, params: seq<C.Parameter>, d: Expression)
    requires e.CallTo? && C.CheckArguments(sc, e, params).ok && C.ArgumentsFit(params, e.nonNamed, e.named) &&
      DistinctNames(params)
    requires d.CallTo? && d.nonNamed == [] && |d.named| == |params|
    requires forall i: nat | i < |params| ::
      d.named[i].name == params[i].name && ArgumentAgain(sc, e, params, i, d.named[i].expression)
    ensures var again := C.CheckArguments(sc, d, params);
      (again.ok <==> AllMatch(sc.functions, e, params)) &&
      (again.ok ==> again.slots == C.CheckArguments(sc, e, params).slots)
  {
    hide C.CheckArguments, C.CheckArgument, C.Targeted, ArgumentMatches, ArgumentAgain;
    var again := C.CheckArguments(sc, d, params);
    AllNamedFit(params, d.named);
    C.CallExact(sc, d, params);
    forall i: nat | i < |params|
      ensures C.NamedResult(sc, params, d.named, i) == C.CheckArgument(sc, d.named[i].expression, params[i].ty).expr
      ensures C.NamedResult(sc, params, d.named, i).Some? <==> ArgumentMatches(sc.functions, e, params, i)
      ensures C.NamedResult(sc, params, d.named, i).Some? ==>
        C.CheckArguments(sc, e, params).slots[i] == C.Filled(C.NamedResult(sc, params, d.named, i))
    {
      SameArgument(sc, e, params, i, d.named[i].expression);
      assert C.Target(params, d.named, i) == i;
    }
    assert again.ok <==> forall i: nat | i < |params| :: C.NamedResult(sc, params, d.named, i).Some?;
    if again.ok {
      forall i: nat | i < |params|
        ensures again.slots[i] == C.CheckArguments(sc, e, params).slots[i]
      {
        assert again.slots[C.Target(params, d.named, i)] == C.Filled(C.NamedResult(sc, params, d.named, i));
      }
    }
  }

  predicate AllMatch(fs: seq<C.Signature>, e: Expression, params: seq<C.Parameter>)
    requires e.CallTo?
  {
    forall i: nat | i < |params| :: ArgumentMatches(fs, e, params, i)
  }

  lemma {:induction false} MatchesBack(fs: seq<C.Signature>, e: Expression, params: seq<C.Parameter>)
    requires e.CallTo? && C.ArgumentsFit(params, e.nonNamed, e.named) && AllMatch(fs, e, params)
    ensures forall a <- e.nonNamed :: UsedDefaultsMatch(fs, a)
    ensures forall a <- e.named :: UsedDefaultsMatch(fs, a.expression)
    ensures UsesMatch(params, e.nonNamed, e.named)
  {
    hide UsedDefaultsMatch, C.IndexOf;
    forall a | a in e.nonNamed
      ensures UsedDefaultsMatch(fs, a)
    {
      var i :| 0 <= i < |e.nonNamed| && e.nonNamed[i] == a;
      assert ArgumentMatches(fs, e, params, i);
    }
    forall a | a in e.named
      ensures UsedDefaultsMatch(fs, a.expression)
    {
      var k :| 0 <= k < |e.named| && e.named[k] == a;
      assert ArgumentMatches(fs, e, params, C.Target(params, e.named, k));
    }
    forall i: nat | |e.nonNamed| <= i < |params| && !C.Targeted(params, e.named, i) && params[i].default.Some?
      ensures params[i].ty == Some(TypeOf(ValueOf(params[i].default.value)))
    {
      assert ArgumentMatches(fs, e, params, i);
    }
  }

  /** The arguments of a call match one by one exactly when the default values of the call and of the calls in its
      arguments do. */
  lemma {:induction false} MatchesByArgument(sc: C.Scope, e: Expression, f: nat)
    requires Resolved(sc) && e.CallTo? && Callee(sc, e.calledName) == Some(f)
    requires C.ArgumentsFit(sc.functions[f].params, e.nonNamed, e.named)
    ensures UsedDefaultsMatch(sc.functions, e) <==> AllMatch(sc.functions, e, sc.functions[f].params)
  {
    hide C.IndexOf, C.ArgumentsFit;
    if AllMatch(sc.functions, e, sc.functions[f].params) {
      MatchesBack(sc.functions, e, sc.functions[f].params);
    }
  }

  /** Decorating a normalised expression again gives the same decorated expression if the default values its calls
      use have their parameters' types, and fails otherwise. */
  lemma {:induction false} NormaliseAgain(sc: C.Scope, e: Expression)
    requires Resolved(sc) && C.Check(sc, e).expr.Some?
    ensures ChecksAgain(sc, e, Normalised(sc, e), UsedDefaultsMatch(sc.functions, e))
    decreases e, 2
  {
    match e
    case UnaryNot(inner) => NormaliseAgain(sc, inner);
    case Binary(_, lhs, rhs) =>
      NormaliseAgain(sc, lhs);
      NormaliseAgain(sc, rhs);
    case CallTo(_, _, _) => NormaliseCallAgain(sc, e);
    case _ =>
  }

  /** The arguments of the normalised call are those of the call. */
  lemma {:induction false} ArgumentsAgain(sc: C.Scope, e: Expression, f: nat, i: nat)
    requires Resolved(sc) && e.CallTo? && Callee(sc, e.calledName) == Some(f) && i < |sc.functions[f].params|
    requires C.ArgumentsFit(sc.functions[f].params, e.nonNamed, e.named) &&
      C.CheckArguments(sc, e, sc.functions[f].params).ok
    ensures ArgumentAgain(sc, e, sc.functions[f].params, i, Normalised(sc, e).named[i].expression)
    decreases e, 0
  {
    hide C.CheckArguments, UsedDefaultsMatch, ChecksAgain;
    var params := sc.functions[f].params;
    C.CallExact(sc, e, params);
    if i < |e.nonNamed| {
      assert C.PositionalResult(sc, params, e.nonNamed, i).Some?;
      NormaliseAgain(sc, e.nonNamed[i]);
    } else if C.Targeted(params, e.named, i) {
      var k := NamedFor(params, e.named, i);
      assert C.NamedResult(sc, params, e.named, k).Some?;
      NormaliseAgain(sc, e.named[k].expression);
    }
  }

  lemma {:induction false} NormaliseCallAgain(sc: C.Scope, e: Expression)
    requires Resolved(sc) && e.CallTo? && C.Check(sc, e).expr.Some?
    ensures ChecksAgain(sc, e, Normalised(sc, e), UsedDefaultsMatch(sc.functions, e))
    decreases e, 1
  {
    hide C.CheckArguments, UsedDefaultsMatch, ArgumentAgain, ArgumentMatches;
    var f := Callee(sc, e.calledName).value;
    var params := sc.functions[f].params;
    C.CallExact(sc, e, params);
    var d := Normalised(sc, e);
    forall i: nat | i < |params|
      ensures ArgumentAgain(sc, e, params, i, d.named[i].expression)
    {
      ArgumentsAgain(sc, e, f, i);
    }
    SameArguments(sc, e, params, d);
    MatchesByArgument(sc, e, f);
  }

  /** Printing a decorated expression, lexing and parsing the text and decorating the result gives the same decorated
      expression: every call has the same argument vector. */
  lemma {:induction false} PrintedCallReadsBack(sc: C.Scope, e: Expression, ls: seq<Lexeme>,
          stof: string -> Option<Float>)
    requires Resolved(sc) && C.Check(sc, e).expr.Some? && UsedDefaultsMatch(sc.functions, e)
    requires Printable(Normalised(sc, e)) && LexesTo(Print(Normalised(sc, e)), ls)
    ensures var parsed := ParseExpression(Input(ls, stof), 0);
      parsed.Parsed? && parsed.value == Normalised(sc, e) && C.Check(sc, parsed.value).expr == C.Check(sc, e).expr
  {
    hide C.Check, ParseExpression, LexesTo, Print, Printable, UsedDefaultsMatch, Normalised;
    NormaliseAgain(sc, e);
    PrintLexParse(Normalised(sc, e), ls, stof);
  }
}
