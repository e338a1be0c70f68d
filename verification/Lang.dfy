/** The decorated program: the tree both lowerings read, and the values it computes with.

    A declaration is identified by what the compiler identifies it by, the node itself: globals,
    functions and parameters by position, and a local by the number of `let` statements that
    precede it in its function.
 */
module Lang {

  datatype Option<+T> = None | Some(value: T)

  /** Built-in types; class types are not part of this model. */
  datatype Type = I32 | F32 | Bool | Void | Str

  predicate IsNumerical(t: Type) { t == I32 || t == F32 }

  datatype BinOp =
    | LogicOr | LogicAnd
    | Equals | NotEquals | GreaterThen | GreaterEqualsThen | LessThen | LessEqualsThen
    | Plus | Minus | Divide | Multiply

  /** Result type of a binary operation whose operands both have type `t`; None is the invalid type. */
  function BinaryOperationResultType(t: Type, op: BinOp): Option<Type> {
    if IsNumerical(t) then
      match op
      case GreaterThen | GreaterEqualsThen | LessThen | LessEqualsThen | Equals | NotEquals => Some(Bool)
      case Plus | Minus | Divide | Multiply => Some(t)
      case LogicOr | LogicAnd => None
    else if t == Bool && (op == LogicOr || op == LogicAnd) then Some(Bool)
    else None
  }

  /** A float is opaque: nothing is known of it but its identity. */
  datatype Float = Float(bits: nat)

  datatype Value = VI32(i: int) | VF32(f: Float) | VBool(b: bool) | VStr(s: string) | VVoid

  const I32_MIN: int := -0x8000_0000
  const I32_MAX: int := 0x7fff_ffff

  predicate IsI32(i: int) { I32_MIN <= i <= I32_MAX }

  function TypeOf(v: Value): Type {
    match v
    case VI32(_) => I32
    case VF32(_) => F32
    case VBool(_) => Bool
    case VStr(_) => Str
    case VVoid => Void
  }

  predicate HasType(v: Value, t: Type) {
    TypeOf(v) == t && (v.VI32? ==> IsI32(v.i))
  }

  datatype VarRef = Global(index: nat) | Param(index: nat) | Local(index: nat)

  datatype Expr =
    | Lit(value: Value)
    | Var(x: VarRef, ty: Type)
    | Not(inner: Expr)
    | Bin(op: BinOp, lhs: Expr, rhs: Expr, resultType: Type)
    | Call(fn: nat, args: seq<Expr>, returnType: Type)

  /** The type the decorator stored on the node. */
  function ResultType(e: Expr): Type {
    match e
    case Lit(v) => TypeOf(v)
    case Var(_, t) => t
    case Not(_) => Bool
    case Bin(_, _, _, t) => t
    case Call(_, _, t) => t
  }

  datatype Stmt =
    | Let(d: nat, declType: Type, init: Expr)
    | Assign(target: VarRef, value: Expr)
    | Return(result: Option<Expr>)
    | If(cond: Expr, thn: seq<Stmt>, els: Else)
    | While(guard: Expr, body: seq<Stmt>)
    | Block(stmts: seq<Stmt>)
    | Eval(expr: Expr)

  datatype Else = NoElse | Else(stmts: seq<Stmt>)

  datatype FunDecl = FunDecl(params: seq<Type>, returnType: Type, isExtern: bool, body: seq<Stmt>)

  datatype Program = Program(globals: seq<Value>, funs: seq<FunDecl>)

  /** The LLVM lowering's return flag: an `if` returns when it has two branches and both do, a `while` never
      counts. */
  predicate Returns(s: Stmt) {
    match s
    case Return(_) => true
    case If(_, thn, els) => els.Else? && AnyReturns(thn) && AnyReturns(els.stmts)
    case Block(ss) => AnyReturns(ss)
    case _ => false
  }

  predicate AnyReturns(ss: seq<Stmt>) {
    ss != [] && (Returns(ss[0]) || AnyReturns(ss[1..]))
  }

  /** Number of `let` statements in a statement. */
  function Lets(s: Stmt): nat {
    match s
    case Let(_, _, _) => 1
    case If(_, thn, els) => LetsIn(thn) + (if els.Else? then LetsIn(els.stmts) else 0)
    case While(_, body) => LetsIn(body)
    case Block(ss) => LetsIn(ss)
    case _ => 0
  }

  function LetsIn(ss: seq<Stmt>): nat {
    if ss == [] then 0 else Lets(ss[0]) + LetsIn(ss[1..])
  }

  /** Every variable of `e` is visible: a parameter below `np`, or a local of `vis`. */
  predicate ExprDeclared(e: Expr, np: nat, vis: set<nat>) {
    match e
    case Lit(_) => true
    case Var(x, _) => RefDeclared(x, np, vis)
    case Not(i) => ExprDeclared(i, np, vis)
    case Bin(_, l, r, _) => ExprDeclared(l, np, vis) && ExprDeclared(r, np, vis)
    case Call(_, args, _) => forall a <- args :: ExprDeclared(a, np, vis)
  }

  predicate RefDeclared(x: VarRef, np: nat, vis: set<nat>) {
    match x
    case Global(_) => true
    case Param(i) => i < np
    case Local(d) => d in vis
  }

  lemma {:induction false} ExprDeclaredMore(e: Expr, np: nat, vis: set<nat>, more: set<nat>)
    requires ExprDeclared(e, np, vis) && vis <= more
    ensures ExprDeclared(e, np, more)
    decreases e
  {
    match e
    case Not(i) => ExprDeclaredMore(i, np, vis, more);
    case Bin(_, l, r, _) =>
      ExprDeclaredMore(l, np, vis, more);
      ExprDeclaredMore(r, np, vis, more);
    case Call(_, args, _) =>
      forall a | a in args
        ensures ExprDeclared(a, np, more)
      {
        ExprDeclaredMore(a, np, vis, more);
      }
    case _ =>
  }

  /** The local a statement adds to its block. */
  function Declares(s: Stmt): set<nat> {
    if s.Let? then {s.d} else {}
  }

  /** The locals of `s` are numbered `n`, `n + 1`, … in the order they are written, and every variable is
      visible where it is used. */
  predicate Declared(s: Stmt, np: nat, vis: set<nat>, n: nat) {
    match s
    case Let(d, _, e) => d == n && ExprDeclared(e, np, vis)
    case Assign(x, e) => RefDeclared(x, np, vis) && ExprDeclared(e, np, vis)
    case Return(r) => r.Some? ==> ExprDeclared(r.value, np, vis)
    case If(c, thn, els) =>
      ExprDeclared(c, np, vis) && AllDeclared(thn, np, vis, n) &&
        (els.Else? ==> AllDeclared(els.stmts, np, vis, n + LetsIn(thn)))
    case While(c, body) => ExprDeclared(c, np, vis) && AllDeclared(body, np, vis, n)
    case Block(ss) => AllDeclared(ss, np, vis, n)
    case Eval(e) => ExprDeclared(e, np, vis)
  }

  predicate AllDeclared(ss: seq<Stmt>, np: nat, vis: set<nat>, n: nat) {
    ss != [] ==> Declared(ss[0], np, vis, n) && AllDeclared(ss[1..], np, vis + Declares(ss[0]), n + Lets(ss[0]))
  }

  /** Free of `str`, and every binary operation has the result type its operands give it: what both
      lowerings accept without raising an error. */
  predicate Supported(e: Expr) {
    ResultType(e) != Str &&
    match e
    case Lit(_) => true
    case Var(_, _) => true
    case Not(i) => Supported(i)
    case Bin(op, l, r, t) => Supported(l) && Supported(r) && BinaryOperationResultType(ResultType(l), op) == Some(t)
    case Call(_, args, _) => forall a <- args :: Supported(a)
  }

  predicate SupportedStmt(s: Stmt) {
    match s
    case Let(_, _, e) => Supported(e)
    case Assign(_, e) => Supported(e)
    case Return(r) => r.Some? ==> Supported(r.value)
    case If(c, thn, els) => Supported(c) && AllSupported(thn) && (els.Else? ==> AllSupported(els.stmts))
    case While(c, body) => Supported(c) && AllSupported(body)
    case Block(ss) => AllSupported(ss)
    case Eval(e) => Supported(e)
  }

  predicate AllSupported(ss: seq<Stmt>) {
    ss != [] ==> SupportedStmt(ss[0]) && AllSupported(ss[1..])
  }

  /** The types of the globals that the lowerings define; they ignore those that are not numbers. */
  function GlobalTypes(globals: seq<Value>): seq<Type>
    decreases globals
  {
    if globals == [] then []
    else (if IsNumerical(TypeOf(globals[0])) then [TypeOf(globals[0])] else []) + GlobalTypes(globals[1..])
  }

  /** A number among the globals is defined behind the numbers before it, with its own type, and nothing else is
      defined. */
  lemma {:induction false} GlobalTypeAt(globals: seq<Value>, i: nat)
    requires i < |globals|
    ensures var k, n := |GlobalTypes(globals[..i])|, |GlobalTypes(globals[..i + 1])|;
      if IsNumerical(TypeOf(globals[i])) then
        n == k + 1 <= |GlobalTypes(globals)| && GlobalTypes(globals)[k] == TypeOf(globals[i])
      else n == k
    decreases i
  {
    if i > 0 {
      GlobalTypeAt(globals[1..], i - 1);
      assert globals[1..][..i - 1] == globals[..i][1..] && globals[1..][..i] == globals[..i + 1][1..];
    } else {
      assert globals[..1][1..] == [] && globals[..0] == [];
    }
  }

  /** All globals of a program that can be lowered are defined, in their order. */
  lemma {:induction false} AllGlobalTypes(globals: seq<Value>)
    requires forall i | 0 <= i < |globals| :: IsNumerical(TypeOf(globals[i]))
    ensures |GlobalTypes(globals)| == |globals|
    ensures forall i | 0 <= i < |globals| :: GlobalTypes(globals)[i] == TypeOf(globals[i])
    decreases globals
  {
    if globals != [] {
      AllGlobalTypes(globals[1..]);
    }
  }

  /** What the decorator leaves behind, as the lowerings need it; both ignore globals that are not numbers. */
  predicate Lowerable(p: Program) {
    (forall i | 0 <= i < |p.globals| :: IsNumerical(TypeOf(p.globals[i]))) &&
    forall f | 0 <= f < |p.funs| ::
      !p.funs[f].isExtern ==> AllSupported(p.funs[f].body) && AllDeclared(p.funs[f].body, |p.funs[f].params|, {}, 0)
  }
}
