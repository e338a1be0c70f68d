/** The expression grammar, as functions of the tokens and the position of the next one. */
module Parsing {
  import opened Lang
  import opened Numerals
  import opened Tokens
  import opened Syntax
  import opened Climbing

  /** The tokens, and the conversion of the contend of a float literal, which may fail. */
  datatype Input = Input(tokens: seq<Lexeme>, stof: string -> Option<Float>)

  /** A result and the position behind it; ParseError stands for the exception. */
  datatype Parsed<+T> = Parsed(value: T, next: nat) | ParseError {
    predicate IsFailure() { ParseError? }
    function PropagateFailure<U>(): Parsed<U>
      requires ParseError?
    {
      ParseError
    }
    function Extract(): (T, nat)
      requires Parsed?
    {
      (value, next)
    }
  }

  /** The type of the token at a position; behind the last token it is EndOfFile. */
  function Kind(x: Input, i: nat): TokenType {
    if i < |x.tokens| then x.tokens[i].kind else EndOfFile
  }

  function Consume(x: Input, kind: TokenType, i: nat): (r: Parsed<string>)
    ensures r.Parsed? ==> r.next == i + 1 <= |x.tokens|
  {
    if i < |x.tokens| && x.tokens[i].kind == kind then Parsed(x.tokens[i].contend, i + 1) else ParseError
  }

  function TokenToBinaryOp(kind: TokenType): Option<BinOp> {
    match kind
    case OperatorPlus => Some(Plus)
    case OperatorMinus => Some(Minus)
    case OperatorMultiply => Some(Multiply)
    case OperatorDivide => Some(Divide)
    case OperatorEquals => Some(Equals)
    case OperatorNotEquals => Some(NotEquals)
    case OperatorGreaterThen => Some(GreaterThen)
    case OperatorGreaterEqualThen => Some(GreaterEqualsThen)
    case OperatorLessThen => Some(LessThen)
    case OperatorLessEqualThen => Some(LessEqualsThen)
    case OperatorLogicOr => Some(LogicOr)
    case OperatorLogicAnd => Some(LogicAnd)
    case _ => None
  }

  /** The token of an operator. */
  function KindOf(op: BinOp): TokenType {
    match op
    case LogicOr => OperatorLogicOr
    case LogicAnd => OperatorLogicAnd
    case Equals => OperatorEquals
    case NotEquals => OperatorNotEquals
    case GreaterThen => OperatorGreaterThen
    case GreaterEqualsThen => OperatorGreaterEqualThen
    case LessThen => OperatorLessThen
    case LessEqualsThen => OperatorLessEqualThen
    case Plus => OperatorPlus
    case Minus => OperatorMinus
    case Divide => OperatorDivide
    case Multiply => OperatorMultiply
  }

  /** The number of tokens that are left. */
  function Left(x: Input, i: nat): nat {
    if i <= |x.tokens| then |x.tokens| - i else 0
  }

  predicate Moves<T>(x: Input, i: nat, r: Parsed<T>) {
    r.Parsed? ==> i < r.next <= |x.tokens|
  }

  /** No right-hand side is looked for behind an empty pair of parentheses. */
  function ParseExpression(x: Input, i: nat): (r: Parsed<Expression>)
    ensures Moves(x, i, r)
    decreases Left(x, i), 3
  {
    var (lhs, j) :- ParsePrimary(x, i);
    if lhs.Missing? then Parsed(Missing, j) else ParseBinaryRHS(x, lhs, 0, j)
  }

  function ParsePrimary(x: Input, i: nat): (r: Parsed<Expression>)
    ensures Moves(x, i, r)
    decreases Left(x, i), 2
  {
    match Kind(x, i)
    case Identifier => ParseIdentifier(x, None, i)
    case Number => ParseNumber(x, false, i)
    case OperatorMinus => if Kind(x, i + 1) == Number then ParseNumber(x, true, i + 1) else ParseError
    case KeywordTrue => Parsed(Constant(BoolConst(true)), i + 1)
    case KeywordFalse => Parsed(Constant(BoolConst(false)), i + 1)
    case String => Parsed(Constant(StringConst(x.tokens[i].contend)), i + 1)
    case OperatorUnaryNot =>
      var (inner, j) :- ParsePrimary(x, i + 1);
      Parsed(UnaryNot(inner), j)
    case LeftParen => ParseParen(x, i + 1)
    case _ => ParseError
  }

  /** Behind an opening parenthesis; there may be no expression in it. */
  function ParseParen(x: Input, i: nat): (r: Parsed<Expression>)
    requires i <= |x.tokens|
    ensures Moves(x, i, r)
    decreases Left(x, i), 4
  {
    if Kind(x, i) == RightParen then Parsed(Missing, i + 1)
    else
      var (e, j) :- ParseExpression(x, i);
      var (_, k) :- Consume(x, RightParen, j);
      Parsed(e, k)
  }

  /** A number token at `i`, behind a minus if it is negative. */
  function ParseNumber(x: Input, negative: bool, i: nat): (r: Parsed<Expression>)
    requires Kind(x, i) == Number
    ensures Moves(x, i, r)
  {
    var contend := x.tokens[i].contend;
    if '.' !in contend then
      var n := StringToInt(negative, contend);
      if n.Some? then Parsed(Constant(IntConst(n.value)), i + 1) else ParseError
    else
      var f := x.stof(if negative then "-" + contend else contend);
      if f.Some? then Parsed(Constant(FloatConst(f.value)), i + 1) else ParseError
  }

  /** The value of a digit string, unless it does not fit 32 bits. */
  function StringToInt(negative: bool, digits: string): (r: Option<Int32>) {
    if digits == "" || !AllDigits(digits) then None
    else
      var v: int := NumeralValue(digits);
      var n := if negative then -v else v;
      if IsI32(n) then Some(n) else None
  }

  /** A variable, a call or, behind `previous`, a member; then any members of it. */
  function ParseIdentifier(x: Input, previous: Option<Expression>, i: nat): (r: Parsed<Expression>)
    ensures Moves(x, i, r)
    decreases Left(x, i), 1
  {
    var (e, j) :- ParseOneIdentifier(x, previous, i);
    ParseMembers(x, e, j)
  }

  function ParseMembers(x: Input, e: Expression, i: nat): (r: Parsed<Expression>)
    requires i <= |x.tokens|
    ensures r.Parsed? ==> i <= r.next <= |x.tokens|
    decreases Left(x, i), 5
  {
    if Kind(x, i) == Dot then ParseIdentifier(x, Some(e), i + 1) else Parsed(e, i)
  }

  function ParseOneIdentifier(x: Input, previous: Option<Expression>, i: nat): (r: Parsed<Expression>)
    ensures Moves(x, i, r)
    decreases Left(x, i), 0
  {
    var (name, j) :- Consume(x, Identifier, i);
    if Kind(x, j) == LeftParen then
      var (args, k) :- ParseArguments(x, j + 1, [], []);
      var (_, n) :- Consume(x, RightParen, k);
      Parsed(if previous.Some? then MemberCall(previous.value, name, args.0, args.1)
        else CallTo(name, args.0, args.1), n)
    else Parsed(if previous.Some? then MemberVariable(previous.value, name) else Variable(name), j)
  }

  /** The arguments of a call; a comma may stand behind the last one. */
  function ParseArguments(x: Input, i: nat, nonNamed: seq<Expression>,
          named: seq<NamedArg>): (r: Parsed<(seq<Expression>, seq<NamedArg>)>)
    requires i <= |x.tokens|
    ensures r.Parsed? ==> i <= r.next <= |x.tokens|
    decreases Left(x, i), 6
  {
    if Kind(x, i) == EndOfFile || Kind(x, i) == RightParen then Parsed((nonNamed, named), i)
    else if Kind(x, i) == Identifier && (Kind(x, i + 1) == OperatorAssign || Kind(x, i + 1) == Colon) then
      var (e, j) :- ParseExpression(x, i + 2);
      MoreArguments(x, j, nonNamed, named + [NamedArg(x.tokens[i].contend, e)])
    else if named != [] then ParseError
    else
      var (e, j) :- ParseExpression(x, i);
      MoreArguments(x, j, nonNamed + [e], named)
  }

  function MoreArguments(x: Input, i: nat, nonNamed: seq<Expression>,
          named: seq<NamedArg>): (r: Parsed<(seq<Expression>, seq<NamedArg>)>)
    requires i <= |x.tokens|
    ensures r.Parsed? ==> i <= r.next <= |x.tokens|
    decreases Left(x, i), 7
  {
    if Kind(x, i) == Comma then ParseArguments(x, i + 1, nonNamed, named) else Parsed((nonNamed, named), i)
  }

  /** Operators that bind at least as strong as `precedence`, with their operands. */
  function ParseBinaryRHS(x: Input, lhs: Expression, precedence: nat, i: nat): (r: Parsed<Expression>)
    requires i <= |x.tokens|
    ensures r.Parsed? ==> i <= r.next <= |x.tokens|
    decreases Left(x, i), 1
  {
    var op := TokenToBinaryOp(Kind(x, i));
    if op.None? || Precedence(op.value) < precedence then Parsed(lhs, i)
    else
      var (rhs, j) :- ParseOperand(x, op.value, i + 1);
      ParseBinaryRHS(x, Binary(op.value, lhs, rhs), precedence, j)
  }

  /** The right operand of `op`: stronger operators behind it belong to it. */
  function ParseOperand(x: Input, op: BinOp, i: nat): (r: Parsed<Expression>)
    requires i <= |x.tokens|
    ensures Moves(x, i, r)
    decreases Left(x, i), 3
  {
    var (operand, j) :- ParsePrimary(x, i);
    var next := TokenToBinaryOp(Kind(x, j));
    if next.Some? && Precedence(op) < Precedence(next.value) then ParseBinaryRHS(x, operand, Precedence(op) + 1, j)
    else Parsed(operand, j)
  }

  // What the binary operators come to.

  /** The chain of operators and primary expressions from `i` on, up to a token that is not an operator. */
  function ReadChain(x: Input, i: nat): (r: Parsed<seq<Link>>)
    requires i <= |x.tokens|
    ensures r.Parsed? ==> i <= r.next <= |x.tokens| && TokenToBinaryOp(Kind(x, r.next)).None?
    decreases Left(x, i)
  {
    var op := TokenToBinaryOp(Kind(x, i));
    if op.None? then Parsed([], i)
    else
      var (operand, j) :- ParsePrimary(x, i + 1);
      var (rest, n) :- ReadChain(x, j);
      Parsed([Link(op.value, operand)] + rest, n)
  }

  /** What is left unread at `next` is the chain `rest`. */
  ghost predicate Stopped(x: Input, chain: Parsed<seq<Link>>, r: Parsed<Expression>, t: Tree, rest: seq<Link>)
    requires r.Parsed? ==> r.next <= |x.tokens|
  {
    if chain.Parsed? then
      r.Parsed? && r.value == ToExpression(t) && ReadChain(x, r.next) == Parsed(rest, chain.next)
    else r.Parsed? ==> ReadChain(x, r.next).ParseError?
  }

  /** Parsing operators is climbing their chain; an error in the chain is found unless climbing stops before it. */
  lemma {:induction false} RHSIsClimb(x: Input, lhs: Tree, precedence: nat, i: nat)
    requires i <= |x.tokens|
    ensures
      var chain, r := ReadChain(x, i), ParseBinaryRHS(x, ToExpression(lhs), precedence, i);
      var (t, rest) := if chain.Parsed? then Climb(lhs, precedence, chain.value) else (lhs, []);
      Stopped(x, chain, r, t, rest) &&
      (r.Parsed? ==> TokenToBinaryOp(Kind(x, r.next)).Some? ==>
        Precedence(TokenToBinaryOp(Kind(x, r.next)).value) < precedence)
    decreases Left(x, i), 1
  {
    var op := TokenToBinaryOp(Kind(x, i));
    if op.Some? && Precedence(op.value) >= precedence {
      OperandIsClimb(x, i);
      var r := ParseOperand(x, op.value, i + 1);
      var chain := ReadChain(x, i);
      if r.Parsed? {
        var t := if chain.Parsed? then Operand(chain.value).0 else Leaf(r.value);
        RHSIsClimb(x, Node(op.value, lhs, t), precedence, r.next);
      }
    }
  }

  lemma {:induction false} OperandIsClimb(x: Input, i: nat)
    requires i <= |x.tokens| && TokenToBinaryOp(Kind(x, i)).Some?
    ensures
      var chain, r := ReadChain(x, i), ParseOperand(x, TokenToBinaryOp(Kind(x, i)).value, i + 1);
      var (t, rest) := if chain.Parsed? then Operand(chain.value) else (Leaf(Missing), []);
      Stopped(x, chain, r, t, rest)
    decreases Left(x, i), 0
  {
    hide ParsePrimary, Precedence;
    var p := ParsePrimary(x, i + 1);
    if p.Parsed? {
      var chain := ReadChain(x, p.next);
      if chain.Parsed? {
        assert ([Link(TokenToBinaryOp(Kind(x, i)).value, p.value)] + chain.value)[1..] == chain.value;
      }
      RHSIsClimb(x, Leaf(p.value), Precedence(TokenToBinaryOp(Kind(x, i)).value) + 1, p.next);
    }
  }

  /** An expression that does not start with an empty pair of parentheses parses to the one ordered tree over its
      first operand and its whole chain, and parsing stops at a token that is not an operator. */
  lemma {:induction false} ExpressionIsOrdered(x: Input, i: nat, t: Tree)
    requires ParsePrimary(x, i).Parsed? && !ParsePrimary(x, i).value.Missing?
    ensures
      var first, r := ParsePrimary(x, i), ParseExpression(x, i);
      var chain := ReadChain(x, first.next);
      (r.Parsed? <==> chain.Parsed?) &&
      (r.Parsed? ==>
         r.next == chain.next && TokenToBinaryOp(Kind(x, r.next)).None? &&
         (Ordered(t) && Head(t) == first.value && Links(t) == chain.value ==> r.value == ToExpression(t)) &&
         exists u :: Ordered(u) && Head(u) == first.value && Links(u) == chain.value && r.value == ToExpression(u))
  {
    var first := ParsePrimary(x, i);
    var chain := ReadChain(x, first.next);
    RHSIsClimb(x, Leaf(first.value), 0, first.next);
    if chain.Parsed? {
      var u := Climb(Leaf(first.value), 0, chain.value).0;
      ClimbAll(first.value, chain.value, u);
      ClimbAll(first.value, chain.value, t);
    }
  }
}
