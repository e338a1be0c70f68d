/** The static rules of the language, on the tree as it is written: which expressions have a type, and which
    statements, functions and programs are well-formed. Nothing here knows how the tree is decorated.
 */
module Rules {
  import opened Lang
  import opened Syntax
  import M = Meaning

  /** How a type is written. */
  function NameOf(t: Type): string {
    match t
    case I32 => "i32"
    case F32 => "f32"
    case Bool => "bool"
    case Void => "void"
    case Str => "str"
  }

  function TypeCalled(name: string): (t: Option<Type>)
    ensures t.Some? ==> NameOf(t.value) == name
    ensures t.None? ==> forall u :: NameOf(u) != name
  {
    if name == NameOf(I32) then Some(I32)
    else if name == NameOf(F32) then Some(F32)
    else if name == NameOf(Bool) then Some(Bool)
    else if name == NameOf(Void) then Some(Void)
    else if name == NameOf(Str) then Some(Str)
    else None
  }

  /** A parameter or local variable with its type. */
  datatype Typed = Typed(name: string, ty: Type)

  /** The names of variables, in the order of their declarations. */
  function VariableNames(env: seq<Typed>): (ns: seq<string>)
    ensures |ns| == |env| && forall i | 0 <= i < |env| :: ns[i] == env[i].name
  {
    seq(|env|, i requires 0 <= i < |env| => env[i].name)
  }

  /** A declaration may leave out its type; if it does not, it must have the type of its value. */
  predicate TypeFits(typeName: string, t: Type) { typeName == "" || typeName == NameOf(t) }

  /** The type of a global variable, which needs a constant. */
  function GlobalType(g: GlobalDeclaration): Option<Type> {
    if g.init.Constant? && TypeFits(g.typeName, TypeOf(ValueOf(g.init.c))) then Some(TypeOf(ValueOf(g.init.c)))
      else None
  }

  /** The type of the innermost variable with a name. */
  function VariableType(root: Root, env: seq<Typed>, name: string): Option<Type> {
    var i, g := M.Innermost(VariableNames(env), name), M.GlobalNamed(root, name);
    if i.Some? then Some(env[i.value].ty)
    else if g.Some? then GlobalType(root.variables[g.value])
    else None
  }

  /** The type of an expression; None if it has none. */
  function TypeIn(root: Root, env: seq<Typed>, e: Expression): Option<Type>
    decreases e, 1
  {
    match e
    case Constant(c) => Some(TypeOf(ValueOf(c)))
    case Variable(name) => VariableType(root, env, name)
    case UnaryNot(inner) => if TypeIn(root, env, inner) == Some(Bool) then Some(Bool) else None
    case Binary(op, lhs, rhs) =>
      var t := TypeIn(root, env, lhs);
      if t.Some? && TypeIn(root, env, rhs) == t then BinaryOperationResultType(t.value, op) else None
    case CallTo(name, _, _) =>
      var f := M.FunctionNamed(root, name);
      if name in VariableNames(env) || M.GlobalNamed(root, name).Some? || f.None? then None
      else if CallFits(root, env, e, root.functions[f.value].params)
      then TypeCalled(root.functions[f.value].typeName)
      else None
    case _ => None
  }

  predicate HasTypeCalled(t: Option<Type>, typeName: string) { t.Some? && NameOf(t.value) == typeName }

  /** The parameter a named argument is for: the first one of that name. */
  function ParameterNamed(params: seq<ParamDeclaration>, name: string): (i: Option<nat>)
    ensures i.Some? ==> i.value < |params|
  {
    M.FirstOf(M.ParamNames(params), name)
  }

  /** Every argument is for a parameter of its type, none is given twice, and default values fill the gaps. */
  predicate CallFits(root: Root, env: seq<Typed>, e: Expression, params: seq<ParamDeclaration>)
    requires e.CallTo?
    decreases e, 0
  {
    |e.nonNamed| <= |params| &&
    (forall k | 0 <= k < |e.nonNamed| :: HasTypeCalled(TypeIn(root, env, e.nonNamed[k]), params[k].typeName)) &&
    (forall k | 0 <= k < |e.named| ::
      var i := ParameterNamed(params, e.named[k].name);
      i.Some? && i.value >= |e.nonNamed| &&
        HasTypeCalled(TypeIn(root, env, e.named[k].expression), params[i.value].typeName)) &&
    (forall j, k | 0 <= j < k < |e.named| :: e.named[j].name != e.named[k].name) &&
    forall i | |e.nonNamed| <= i < |params| ::
      params[i].default.Some? || M.NamedArgument(params, e.named, i).Some?
  }

  /** What a statement declares for what follows it in its block. */
  function NewVariables(root: Root, env: seq<Typed>, s: Statement): seq<Typed> {
    if s.VariableDeclaration? && TypeIn(root, env, s.init).Some?
    then [Typed(s.name, TypeIn(root, env, s.init).value)] else []
  }

  /** In a function that returns `ret`. The variables from `inner` on belong to the innermost block, which must not
      declare their names again. */
  predicate WellFormed(root: Root, ret: Type, env: seq<Typed>, inner: nat, s: Statement)
    requires inner <= |env|
    decreases s
  {
    match s
    case ReturnStatement(result) => if result.None? then ret == Void else TypeIn(root, env, result.value) == Some(ret)
    case VariableDeclaration(name, typeName, init) =>
      var t := TypeIn(root, env, init);
      t.Some? && TypeFits(typeName, t.value) && name !in VariableNames(env)[inner..]
    case Compound(ss) => AllWellFormed(root, ret, env, |env|, ss)
    case IfStatement(condition, ifBody, elseBody) =>
      TypeIn(root, env, condition) == Some(Bool) && AllWellFormed(root, ret, env, |env|, ifBody) &&
      (elseBody.ElsePart? ==> AllWellFormed(root, ret, env, |env|, elseBody.statements))
    case WhileStatement(condition, body) =>
      TypeIn(root, env, condition) == Some(Bool) && AllWellFormed(root, ret, env, |env|, body)
    case VariableAssign(x, e) =>
      TypeIn(root, env, x).Some? && TypeIn(root, env, e) == TypeIn(root, env, x)
    case ExpressionStatement(e) => TypeIn(root, env, e).Some?
  }

  predicate AllWellFormed(root: Root, ret: Type, env: seq<Typed>, inner: nat, ss: seq<Statement>)
    requires inner <= |env|
    decreases ss
  {
    ss != [] ==>
      WellFormed(root, ret, env, inner, ss[0]) &&
      AllWellFormed(root, ret, env + NewVariables(root, env, ss[0]), inner, ss[1..])
  }

  /** The first `n` parameters as variables; a repeated name keeps its first meaning. */
  function ParameterEnv(params: seq<ParamDeclaration>, n: nat): seq<Typed>
    requires n <= |params|
  {
    if n == 0 then []
    else
      var env, p := ParameterEnv(params, n - 1), params[n - 1];
      if p.name in VariableNames(env) || TypeCalled(p.typeName).None? then env
      else env + [Typed(p.name, TypeCalled(p.typeName).value)]
  }

  predicate KnownHeader(fd: FunctionDeclaration) {
    TypeCalled(fd.typeName).Some? && forall i | 0 <= i < |fd.params| :: TypeCalled(fd.params[i].typeName).Some?
  }

  predicate IsMain(fd: FunctionDeclaration) {
    fd.name == "main" && fd.params == [] && fd.typeName == "i32"
  }

  /** Parameters and body are one block. Only a void function may do without a return. */
  predicate WellFormedFunction(root: Root, fd: FunctionDeclaration) {
    KnownHeader(fd) && (fd.name == "main" ==> IsMain(fd)) &&
    (fd.body.Some? ==>
      AllWellFormed(root, TypeCalled(fd.typeName).value, ParameterEnv(fd.params, |fd.params|), 0, fd.body.value) &&
      (fd.typeName == "void" || SomeReturn(fd.body.value)))
  }

  /** The names of global variables and functions, which share one scope. */
  function GlobalNames(root: Root): (ns: seq<string>)
    ensures |ns| == |root.variables| + |root.functions|
  {
    seq(|root.variables|, i requires 0 <= i < |root.variables| => root.variables[i].name) +
    seq(|root.functions|, i requires 0 <= i < |root.functions| => root.functions[i].name)
  }

  predicate Distinct(ns: seq<string>) {
    forall i, j | 0 <= i < j < |ns| :: ns[i] != ns[j]
  }

  ghost predicate WellFormedRoot(root: Root) {
    Distinct(GlobalNames(root)) &&
    (forall i | 0 <= i < |root.variables| :: GlobalType(root.variables[i]).Some?) &&
    (forall f | 0 <= f < |root.functions| :: WellFormedFunction(root, root.functions[f])) &&
    exists f :: 0 <= f < |root.functions| && IsMain(root.functions[f])
  }
}
