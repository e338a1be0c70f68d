/** The tree the parser builds and the decorator checks; classes are not part of this model. */
module Syntax {
  import opened Lang

  /** The value field of an integer literal is 32 bits wide. */
  type Int32 = i: int | IsI32(i)

  datatype Const = IntConst(i: Int32) | FloatConst(f: Float) | BoolConst(b: bool) | StringConst(s: string)

  /** `Missing` is the null pointer the parser returns for an empty pair of parentheses. */
  datatype Expression =
    | Missing
    | Constant(c: Const)
    | Variable(name: string)
    | MemberVariable(parent: Expression, name: string)
    | UnaryNot(inner: Expression)
    | Binary(op: BinOp, lhs: Expression, rhs: Expression)
    | CallTo(calledName: string, nonNamed: seq<Expression>, named: seq<NamedArg>)
    | MemberCall(parent: Expression, calledName: string, nonNamed: seq<Expression>, named: seq<NamedArg>)

  datatype NamedArg = NamedArg(name: string, expression: Expression)

  /** What an assignment assigns to: the parser lets nothing else through. */
  type VariableExpression = e: Expression | e.Variable? || e.MemberVariable? witness Variable("")

  /** An empty type name asks for the type of the initialiser. */
  datatype Statement =
    | VariableDeclaration(name: string, typeName: string, init: Expression)
    | VariableAssign(variable: VariableExpression, value: Expression)
    | ReturnStatement(result: Option<Expression>)
    | IfStatement(condition: Expression, ifBody: seq<Statement>, elseBody: ElsePart)
    | WhileStatement(condition: Expression, body: seq<Statement>)
    | Compound(statements: seq<Statement>)
    | ExpressionStatement(expression: Expression)

  datatype ElsePart = NoElsePart | ElsePart(statements: seq<Statement>)

  datatype GlobalDeclaration = GlobalDeclaration(name: string, typeName: string, init: Expression)

  /** The parser accepts only constants as default values. */
  datatype ParamDeclaration = ParamDeclaration(name: string, typeName: string, default: Option<Const>)

  /** Exactly the extern functions have no body. */
  datatype FunctionDeclaration = FunctionDeclaration(
    name: string, typeName: string, params: seq<ParamDeclaration>, body: Option<seq<Statement>>)

  datatype Root = Root(variables: seq<GlobalDeclaration>, functions: seq<FunctionDeclaration>)

  function ValueOf(c: Const): (v: Value)
    ensures HasType(v, TypeOf(v)) && v != VVoid
  {
    match c
    case IntConst(i) => VI32(i)
    case FloatConst(f) => VF32(f)
    case BoolConst(b) => VBool(b)
    case StringConst(s) => VStr(s)
  }

  /** The decorator's return flag. An `if` without else part has the flag of its body. */
  predicate HasReturn(s: Statement)
    decreases s
  {
    match s
    case ReturnStatement(_) => true
    case IfStatement(_, thn, els) => SomeReturn(thn) && (els.ElsePart? ==> SomeReturn(els.statements))
    case Compound(ss) => SomeReturn(ss)
    case _ => false
  }

  predicate SomeReturn(ss: seq<Statement>)
    decreases ss
  {
    ss != [] && (HasReturn(ss[0]) || SomeReturn(ss[1..]))
  }

  /** The LLVM lowering's return flag. An `if` without else part never returns. */
  predicate MustReturn(s: Statement)
    decreases s
  {
    match s
    case ReturnStatement(_) => true
    case IfStatement(_, thn, els) => els.ElsePart? && SomeMustReturn(thn) && SomeMustReturn(els.statements)
    case Compound(ss) => SomeMustReturn(ss)
    case _ => false
  }

  predicate SomeMustReturn(ss: seq<Statement>)
    decreases ss
  {
    ss != [] && (MustReturn(ss[0]) || SomeMustReturn(ss[1..]))
  }
}
