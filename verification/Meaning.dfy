/** The meaning of the tree as it is written: names stand for their innermost binding, arguments are bound to the
    parameters they are given for, and default values fill the gaps. Nothing here knows how the tree is decorated.

    Loop iterations and calls consume fuel, as they do for decorated programs.
 */
module Meaning {
  import opened Lang
  import opened Source
  import opened Syntax

  datatype Binding = Binding(name: string, value: Value)

  /** The variables of one activation in the order of their declarations, parameters first. */
  type Bindings = seq<Binding>

  function NamesOf(bs: Bindings): (ns: seq<string>)
    ensures |ns| == |bs| && forall i | 0 <= i < |bs| :: ns[i] == bs[i].name
  {
    seq(|bs|, i requires 0 <= i < |bs| => bs[i].name)
  }

  /** The last position of a name: of the declarations so far, the innermost one. */
  function Innermost(ns: seq<string>, name: string): (r: Option<nat>)
    ensures r.Some? ==> r.value < |ns| && ns[r.value] == name && name !in ns[r.value + 1..]
    ensures r.None? ==> name !in ns
    decreases |ns|
  {
    if ns == [] then None
    else if ns[|ns| - 1] == name then Some(|ns| - 1)
    else
      var r := Innermost(ns[..|ns| - 1], name);
      assert ns == ns[..|ns| - 1] + [ns[|ns| - 1]];
      assert r.Some? ==> ns[r.value + 1..] == ns[..|ns| - 1][r.value + 1..] + [ns[|ns| - 1]];
      r
  }

  /** The first position of a name. */
  function FirstOf(ns: seq<string>, name: string): (r: Option<nat>)
    ensures r.Some? ==> r.value < |ns| && ns[r.value] == name && name !in ns[..r.value]
    ensures r.None? ==> name !in ns
    decreases |ns|
  {
    if ns == [] then None
    else if ns[0] == name then Some(0)
    else
      var r := FirstOf(ns[1..], name);
      assert r.Some? ==> ns[..r.value + 1] == [ns[0]] + ns[1..][..r.value];
      if r.Some? then Some(r.value + 1) else None
  }

  function GlobalNamed(root: Root, name: string): (r: Option<nat>)
    ensures r.Some? ==> r.value < |root.variables| && root.variables[r.value].name == name
    ensures r.None? ==> forall i | 0 <= i < |root.variables| :: root.variables[i].name != name
  {
    var ns := seq(|root.variables|, i requires 0 <= i < |root.variables| => root.variables[i].name);
    assert forall i | 0 <= i < |ns| :: ns[i] == root.variables[i].name;
    FirstOf(ns, name)
  }

  function FunctionNamed(root: Root, name: string): (r: Option<nat>)
    ensures r.Some? ==> r.value < |root.functions| && root.functions[r.value].name == name
    ensures r.None? ==> forall i | 0 <= i < |root.functions| :: root.functions[i].name != name
  {
    var ns := seq(|root.functions|, i requires 0 <= i < |root.functions| => root.functions[i].name);
    assert forall i | 0 <= i < |ns| :: ns[i] == root.functions[i].name;
    FirstOf(ns, name)
  }

  function ParamNames(params: seq<ParamDeclaration>): (ns: seq<string>)
    ensures |ns| == |params| && forall i | 0 <= i < |ns| :: ns[i] == params[i].name
  {
    seq(|params|, i requires 0 <= i < |params| => params[i].name)
  }

  /** The named argument for parameter `i`; only the first parameter of a name can be named. */
  function NamedArgument(params: seq<ParamDeclaration>, named: seq<NamedArg>, i: nat): (r: Option<nat>)
    requires i < |params|
    ensures r.Some? ==> r.value < |named| && named[r.value].name == params[i].name
  {
    if FirstOf(ParamNames(params), params[i].name) == Some(i)
    then FirstOf(seq(|named|, k requires 0 <= k < |named| => named[k].name), params[i].name)
    else None
  }

  function Read(root: Root, name: string, bs: Bindings, w: World): Res<Value> {
    var i, g := Innermost(NamesOf(bs), name), GlobalNamed(root, name);
    if i.Some? then Ok(bs[i.value].value, w)
    else if g.Some? && g.value < |w.globals| then Ok(w.globals[g.value], w)
    else Stuck
  }

  /** How a statement completes: control goes on with these bindings, or the function is left. */
  datatype Completion = Onward(bindings: Bindings) | Leave(result: Value)

  function Write(root: Root, name: string, v: Value, bs: Bindings, w: World): (r: Res<Completion>)
    ensures KeepsNames(bs, [], r)
  {
    var i, g := Innermost(NamesOf(bs), name), GlobalNamed(root, name);
    if i.Some? then Ok(Onward(bs[i.value := Binding(name, v)]), w)
    else if g.Some? && g.value < |w.globals| then Ok(Onward(bs), w.(globals := w.globals[g.value := v]))
    else Stuck
  }

  function Evaluate(root: Root, h: Host, e: Expression, bs: Bindings, w: World, fuel: nat): Res<Value>
    decreases fuel, 1, e, 2, 0
  {
    match e
    case Constant(c) => Ok(ValueOf(c), w)
    case Variable(name) => Read(root, name, bs, w)
    case UnaryNot(inner) =>
      var (v, w1) :- Evaluate(root, h, inner, bs, w, fuel);
      if v.VBool? then Ok(VBool(!v.b), w1) else Stuck
    case Binary(op, lhs, rhs) =>
      var (a, w1) :- Evaluate(root, h, lhs, bs, w, fuel);
      var (b, w2) :- Evaluate(root, h, rhs, bs, w1, fuel);
      (match Apply(h, op, a, b)
       case Yields(v) => Ok(v, w2)
       case DivisionFault => Fault(w2)
       case Mismatch => Stuck)
    case CallTo(name, _, _) =>
      var f := FunctionNamed(root, name);
      if name in NamesOf(bs) || GlobalNamed(root, name).Some? || f.None? then Stuck
      else
        var (vs, w1) :- EvaluateArguments(root, h, e, root.functions[f.value].params, 0, bs, w, fuel);
        CallFunction(root, h, f.value, vs, w1, fuel)
    case _ => Stuck
  }

  /** The value of parameter `i`: of the expression that the call gives it, or its default value. */
  function EvaluateArgument(root: Root, h: Host, e: Expression, params: seq<ParamDeclaration>, i: nat, bs: Bindings,
          w: World, fuel: nat)
    : Res<Value>
    requires e.CallTo? && i < |params|
    decreases fuel, 1, e, 0, 0
  {
    var k := NamedArgument(params, e.named, i);
    if i < |e.nonNamed| then Evaluate(root, h, e.nonNamed[i], bs, w, fuel)
    else if k.Some? then Evaluate(root, h, e.named[k.value].expression, bs, w, fuel)
    else if params[i].default.Some? then Ok(ValueOf(params[i].default.value), w)
    else Stuck
  }

  /** The values of the parameters from the `i`-th on, in the order of the parameters. */
  function EvaluateArguments(root: Root, h: Host, e: Expression, params: seq<ParamDeclaration>, i: nat, bs: Bindings,
          w: World, fuel: nat)
    : Res<seq<Value>>
    requires e.CallTo? && i <= |params|
    decreases fuel, 1, e, 1, |params| - i
  {
    if i == |params| then Ok([], w)
    else
      var (v, w1) :- EvaluateArgument(root, h, e, params, i, bs, w, fuel);
      var (vs, w2) :- EvaluateArguments(root, h, e, params, i + 1, bs, w1, fuel);
      Ok([v] + vs, w2)
  }

  /** The first `n` parameters and their values; a repeated name keeps its first meaning. */
  function Parameters(params: seq<ParamDeclaration>, vs: seq<Value>, n: nat): Bindings
    requires n <= |params| == |vs|
  {
    if n == 0 then []
    else
      var bs := Parameters(params, vs, n - 1);
      if params[n - 1].name in NamesOf(bs) then bs else bs + [Binding(params[n - 1].name, vs[n - 1])]
  }

  /** A void function that is not taken to return does so at its end. */
  predicate ReturnsAtEnd(fd: FunctionDeclaration)
    requires fd.body.Some?
  {
    fd.typeName == "void" && !SomeReturn(fd.body.value)
  }

  function CallFunction(root: Root, h: Host, f: nat, vs: seq<Value>, w: World, fuel: nat): Res<Value>
    decreases fuel, 0
  {
    if f >= |root.functions| || |vs| != |root.functions[f].params| then Stuck
    else if root.functions[f].body.None? then
      var (r, w1) := CallExtern(h, f, vs, w);
      Ok(r, w1)
    else if fuel == 0 then OutOfFuel
    else
      var fd := root.functions[f];
      var (c, w1) :- ExecuteAll(root, h, fd.body.value, Parameters(fd.params, vs, |vs|), w, fuel - 1);
      if c.Leave? then Ok(c.result, w1) else if ReturnsAtEnd(fd) then Ok(VVoid, w1) else FellOff
  }

  /** The names a statement declares for what follows it in its block. */
  function NewNames(s: Statement): seq<string> {
    if s.VariableDeclaration? then [s.name] else []
  }

  function NewNamesOf(ss: seq<Statement>): seq<string> {
    if ss == [] then [] else NewNames(ss[0]) + NewNamesOf(ss[1..])
  }

  /** Bindings are neither lost nor renamed; new ones follow. */
  predicate KeepsNames(bs: Bindings, declared: seq<string>, r: Res<Completion>) {
    r.Ok? && r.value.Onward? ==> NamesOf(r.value.bindings) == NamesOf(bs) + declared
  }

  function Execute(root: Root, h: Host, s: Statement, bs: Bindings, w: World, fuel: nat): (r: Res<Completion>)
    ensures KeepsNames(bs, NewNames(s), r)
    decreases fuel, 2, s, 0
  {
    match s
    case VariableDeclaration(name, _, init) =>
      var (v, w1) :- Evaluate(root, h, init, bs, w, fuel);
      Ok(Onward(bs + [Binding(name, v)]), w1)
    case VariableAssign(x, e) =>
      var (v, w1) :- Evaluate(root, h, e, bs, w, fuel);
      if x.Variable? then Write(root, x.name, v, bs, w1) else Stuck
    case ReturnStatement(result) =>
      if result.None? then Ok(Leave(VVoid), w)
      else
        var (v, w1) :- Evaluate(root, h, result.value, bs, w, fuel);
        Ok(Leave(v), w1)
    case IfStatement(condition, ifBody, elseBody) =>
      var (v, w1) :- Evaluate(root, h, condition, bs, w, fuel);
      if !v.VBool? then Stuck
      else if v.b then ExecuteBlock(root, h, ifBody, bs, w1, fuel)
      else if elseBody.ElsePart? then ExecuteBlock(root, h, elseBody.statements, bs, w1, fuel)
      else Ok(Onward(bs), w1)
    case WhileStatement(condition, body) =>
      if fuel == 0 then OutOfFuel
      else
        var (v, w1) :- Evaluate(root, h, condition, bs, w, fuel);
        if !v.VBool? then Stuck
        else if !v.b then Ok(Onward(bs), w1)
        else
          var (c, w2) :- ExecuteBlock(root, h, body, bs, w1, fuel - 1);
          if c.Leave? then Ok(c, w2) else Execute(root, h, s, c.bindings, w2, fuel - 1)
    case Compound(ss) => ExecuteBlock(root, h, ss, bs, w, fuel)
    case ExpressionStatement(e) =>
      var (_, w1) :- Evaluate(root, h, e, bs, w, fuel);
      Ok(Onward(bs), w1)
  }

  function ExecuteAll(root: Root, h: Host, ss: seq<Statement>, bs: Bindings, w: World, fuel: nat): (r: Res<Completion>)
    ensures KeepsNames(bs, NewNamesOf(ss), r)
    decreases fuel, 2, ss, 0
  {
    if ss == [] then Ok(Onward(bs), w)
    else
      var (c, w1) :- Execute(root, h, ss[0], bs, w, fuel);
      if c.Leave? then Ok(c, w1)
      else
        var r := ExecuteAll(root, h, ss[1..], c.bindings, w1, fuel);
        assert (NamesOf(bs) + NewNames(ss[0])) + NewNamesOf(ss[1..]) == NamesOf(bs) + NewNamesOf(ss);
        r
  }

  /** A block: what it declares is gone when it ends. */
  function ExecuteBlock(root: Root, h: Host, ss: seq<Statement>, bs: Bindings, w: World,
          fuel: nat): (r: Res<Completion>)
    ensures KeepsNames(bs, [], r)
    decreases fuel, 2, ss, 1
  {
    var (c, w1) :- ExecuteAll(root, h, ss, bs, w, fuel);
    if c.Leave? then Ok(c, w1)
    else
      assert |NamesOf(c.bindings)| == |bs| + |NewNamesOf(ss)|;
      Ok(Onward(c.bindings[..|bs|]), w1)
  }
}
