/** Printing of expressions as source code, with every operation in parentheses. */
module Printing {
  import opened Lang
  import opened Numerals
  import opened Tokens
  import opened Syntax
  import opened Rendering

  function OpText(op: BinOp): string {
    match op
    case LogicOr => "||"
    case LogicAnd => "&&"
    case Equals => "=="
    case NotEquals => "!="
    case GreaterThen => ">"
    case GreaterEqualsThen => ">="
    case LessThen => "<"
    case LessEqualsThen => "<="
    case Plus => "+"
    case Minus => "-"
    case Divide => "/"
    case Multiply => "*"
  }

  function IntText(i: int): string {
    if i < 0 then "-" + Numeral(-i) else Numeral(i)
  }

  predicate IsIdentifierExpression(e: Expression) {
    e.Variable? || e.MemberVariable? || e.CallTo? || e.MemberCall?
  }

  /** What can be printed so that it reads back: integers, names, members, calls with every argument named,
      `!` and the binary operators. A decorated call has this form, each argument with its parameter. */
  predicate Printable(e: Expression)
    decreases e
  {
    match e
    case Missing => false
    case Constant(c) => c.IntConst?
    case Variable(name) => IsName(name)
    case MemberVariable(parent, name) => IsIdentifierExpression(parent) && Printable(parent) && IsName(name)
    case UnaryNot(inner) => Printable(inner)
    case Binary(_, lhs, rhs) => Printable(lhs) && Printable(rhs)
    case CallTo(name, nonNamed, named) => IsName(name) && nonNamed == [] && PrintableArguments(named)
    case MemberCall(parent, name, nonNamed, named) =>
      IsIdentifierExpression(parent) && Printable(parent) && IsName(name) && nonNamed == [] && PrintableArguments(named)
  }

  predicate PrintableArguments(named: seq<NamedArg>)
    decreases named
  {
    named != [] ==> IsName(named[0].name) && Printable(named[0].expression) && PrintableArguments(named[1..])
  }

  function Print(e: Expression): string
    requires Printable(e)
    decreases e
  {
    match e
    case Constant(c) => IntText(c.i)
    case Variable(name) => name
    case MemberVariable(parent, name) => Print(parent) + "." + name
    case UnaryNot(inner) => "(!" + Print(inner) + ")"
    case Binary(op, lhs, rhs) => "(" + Print(lhs) + " " + OpText(op) + " " + Print(rhs) + ")"
    case CallTo(name, _, named) => name + "(" + PrintArguments(named) + ")"
    case MemberCall(parent, name, _, named) => Print(parent) + "." + (name + "(" + PrintArguments(named) + ")")
  }

  function PrintArguments(named: seq<NamedArg>): string
    requires PrintableArguments(named)
    decreases named
  {
    if named == [] then ""
    else
      named[0].name + "=" + Print(named[0].expression) + (if |named| > 1 then ", " else "") +
      PrintArguments(named[1..])
  }

  /** A decorated expression: every argument of a call has its declaration. */
  predicate AllNamed(e: Expression)
    decreases e
  {
    match e
    case MemberVariable(parent, _) => AllNamed(parent)
    case UnaryNot(inner) => AllNamed(inner)
    case Binary(_, lhs, rhs) => AllNamed(lhs) && AllNamed(rhs)
    case CallTo(_, nonNamed, named) => nonNamed == [] && AllArgumentsNamed(named)
    case MemberCall(parent, _, nonNamed, named) => AllNamed(parent) && nonNamed == [] && AllArgumentsNamed(named)
    case _ => true
  }

  predicate AllArgumentsNamed(named: seq<NamedArg>)
    decreases named
  {
    named != [] ==> AllNamed(named[0].expression) && AllArgumentsNamed(named[1..])
  }

  /** What is printed for any decorated expression: nothing for a bool, the bare contend of a string, and for a float
      whatever the stream makes of it. */
  function Code(floatText: Float -> string, e: Expression): string
    requires AllNamed(e)
    decreases e
  {
    match e
    case Missing => ""
    case Constant(c) =>
      (match c
       case IntConst(i) => IntText(i)
       case FloatConst(f) => floatText(f)
       case BoolConst(_) => ""
       case StringConst(s) => s)
    case Variable(name) => name
    case MemberVariable(parent, name) => Code(floatText, parent) + "." + name
    case UnaryNot(inner) => "(!" + Code(floatText, inner) + ")"
    case Binary(op, lhs, rhs) => "(" + Code(floatText, lhs) + " " + OpText(op) + " " + Code(floatText, rhs) + ")"
    case CallTo(name, _, named) => name + "(" + ArgumentsCode(floatText, named) + ")"
    case MemberCall(parent, name, _, named) =>
      Code(floatText, parent) + "." + (name + "(" + ArgumentsCode(floatText, named) + ")")
  }

  function ArgumentsCode(floatText: Float -> string, named: seq<NamedArg>): string
    requires AllArgumentsNamed(named)
    decreases named
  {
    if named == [] then ""
    else
      named[0].name + "=" + Code(floatText, named[0].expression) + (if |named| > 1 then ", " else "") +
        ArgumentsCode(floatText, named[1..])
  }

  /** The code of what reads back has no floats, bools or strings in it. */
  lemma {:induction false} PrintableCode(floatText: Float -> string, e: Expression)
    requires Printable(e)
    ensures AllNamed(e) && Code(floatText, e) == Print(e)
    decreases e
  {
    hide IntText, OpText;
    match e
    case MemberVariable(parent, _) => PrintableCode(floatText, parent);
    case UnaryNot(inner) => PrintableCode(floatText, inner);
    case Binary(_, lhs, rhs) =>
      PrintableCode(floatText, lhs);
      PrintableCode(floatText, rhs);
    case CallTo(_, _, named) => PrintableArgumentsCode(floatText, named);
    case MemberCall(parent, _, _, named) =>
      PrintableCode(floatText, parent);
      PrintableArgumentsCode(floatText, named);
    case _ =>
  }

  lemma {:induction false} PrintableArgumentsCode(floatText: Float -> string, named: seq<NamedArg>)
    requires PrintableArguments(named)
    ensures AllArgumentsNamed(named) && ArgumentsCode(floatText, named) == PrintArguments(named)
    decreases named
  {
    if named != [] {
      PrintableCode(floatText, named[0].expression);
      PrintableArgumentsCode(floatText, named[1..]);
    }
  }

  /** Appends the printed code to a stream. */
  class AstCodePrinter {
    const floatText: Float -> string
    var os: string

    constructor (floatText: Float -> string)
      ensures this.floatText == floatText && os == ""
    {
      this.floatText, os := floatText, "";
    }

    method Write(s: string)
      modifies this
      ensures os == old(os) + s
    {
      os := os + s;
    }

    method Accept(e: Expression)
      requires AllNamed(e)
      modifies this
      ensures os == old(os) + Code(floatText, e)
      decreases e, 1
    {
      hide IntText;
      match e
      case Missing =>
      case Constant(c) => VisitConstant(c);
      case Variable(name) => Write(name);
      case MemberVariable(_, _) => VisitMemberVariableExpression(e);
      case UnaryNot(_) => VisitUnaryExpression(e);
      case Binary(_, _, _) => VisitBinaryExpression(e);
      case CallTo(name, _, named) => VisitCallExpression(name, named);
      case MemberCall(_, _, _, _) => VisitMemberCallExpression(e);
    }

    method VisitConstant(c: Const)
      modifies this
      ensures os == old(os) + Code(floatText, Constant(c))
    {
      match c
      case IntConst(i) => Write(IntText(i));
      case FloatConst(f) => Write(floatText(f));
      case BoolConst(_) =>
      case StringConst(s) => Write(s);
    }

    method VisitMemberVariableExpression(e: Expression)
      requires e.MemberVariable? && AllNamed(e)
      modifies this
      ensures os == old(os) + Code(floatText, e)
      decreases e, 0
    {
      Accept(e.parent);
      Write(".");
      Write(e.name);
      assert os == old(os) + (Code(floatText, e.parent) + "." + e.name);
    }

    method VisitMemberCallExpression(e: Expression)
      requires e.MemberCall? && AllNamed(e)
      modifies this
      ensures os == old(os) + Code(floatText, e)
      decreases e, 0
    {
      hide ArgumentsCode;
      Accept(e.parent);
      Write(".");
      VisitCallExpression(e.calledName, e.named);
      var call := e.calledName + "(" + ArgumentsCode(floatText, e.named) + ")";
      assert os == old(os) + (Code(floatText, e.parent) + "." + call);
    }

    method VisitUnaryExpression(e: Expression)
      requires e.UnaryNot? && AllNamed(e)
      modifies this
      ensures os == old(os) + Code(floatText, e)
      decreases e, 0
    {
      Write("(");
      Write("!");
      Accept(e.inner);
      Write(")");
      assert os == old(os) + ("(!" + Code(floatText, e.inner) + ")");
    }

    method VisitBinaryExpression(e: Expression)
      requires e.Binary? && AllNamed(e)
      modifies this
      ensures os == old(os) + Code(floatText, e)
      decreases e, 0
    {
      hide OpText, IntText;
      Write("(");
      Accept(e.lhs);
      Write(" ");
      Write(OpText(e.op));
      Write(" ");
      Accept(e.rhs);
      Write(")");
      assert os == old(os) + ("(" + Code(floatText, e.lhs) + " " + OpText(e.op) + " " + Code(floatText, e.rhs) + ")");
    }

    method VisitCallExpression(name: string, named: seq<NamedArg>)
      requires AllArgumentsNamed(named)
      modifies this
      ensures os == old(os) + (name + "(" + ArgumentsCode(floatText, named) + ")")
      decreases named, 1
    {
      Write(name);
      Write("(");
      VisitArguments(named);
      Write(")");
      assert os == old(os) + (name + "(" + ArgumentsCode(floatText, named) + ")");
    }

    method VisitArguments(named: seq<NamedArg>)
      requires AllArgumentsNamed(named)
      modifies this
      ensures os == old(os) + ArgumentsCode(floatText, named)
      decreases named, 0
    {
      assert named[0..] == named;
      for i := 0 to |named|
        invariant AllArgumentsNamed(named[i..])
        invariant os + ArgumentsCode(floatText, named[i..]) == old(os) + ArgumentsCode(floatText, named)
      {
        assert named[i..][0] == named[i] && named[i..][1..] == named[i + 1..];
        VisitCallExpressionArgument(named[i], i < |named| - 1, ArgumentsCode(floatText, named[i + 1..]));
      }
    }

    /** An argument, and a comma if more follow; `rest` is what will be printed behind them. */
    method VisitCallExpressionArgument(arg: NamedArg, more: bool, ghost rest: string)
      requires AllNamed(arg.expression)
      modifies this
      ensures os + rest == old(os) +
        (arg.name + "=" + Code(floatText, arg.expression) + (if more then ", " else "") + rest)
      decreases arg
    {
      hide Code;
      Write(arg.name);
      Write("=");
      Accept(arg.expression);
      if more {
        Write(", ");
      }
      assert os + rest == old(os) +
        (arg.name + "=" + Code(floatText, arg.expression) + (if more then ", " else "") + rest);
    }
  }
}
