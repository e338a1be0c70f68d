/** The tokens and spaces an expression is printed as, which keep apart when the text is lexed. */
module PrintedTokens {
  import opened Lang
  import opened Numerals
  import opened Tokens
  import opened Scanning
  import opened Syntax
  import opened Climbing
  import opened Parsing
  import opened Rendering
  import opened Printing
  import opened ReadBack

  function Symbol(kind: TokenType): Item { Lex(Lexeme(kind, "")) }

  function Name(name: string): Item { Lex(Lexeme(Identifier, name)) }

  const BLANK := Sep(Space(' '))

  /** A printed integer; a negative one is two tokens. */
  function IntItems(i: int): seq<Item> {
    if i < 0 then [Symbol(OperatorMinus), Lex(Lexeme(Number, Numeral(-i)))] else [Lex(Lexeme(Number, Numeral(i)))]
  }

  /** The tokens and spaces an expression is printed as. */
  function Items(e: Expression): seq<Item>
    requires Printable(e)
    decreases e
  {
    match e
    case Constant(c) => IntItems(c.i)
    case Variable(name) => [Name(name)]
    case MemberVariable(parent, name) => Items(parent) + [Symbol(Dot), Name(name)]
    case UnaryNot(inner) => [Symbol(LeftParen), Symbol(OperatorUnaryNot)] + (Items(inner) + [Symbol(RightParen)])
    case Binary(op, lhs, rhs) =>
      [Symbol(LeftParen)] + (Items(lhs) + ([BLANK, Symbol(KindOf(op)), BLANK] + (Items(rhs) + [Symbol(RightParen)])))
    case CallTo(name, _, named) => [Name(name), Symbol(LeftParen)] + (ArgumentItems(named) + [Symbol(RightParen)])
    case MemberCall(parent, name, _, named) =>
      Items(parent) + ([Symbol(Dot), Name(name), Symbol(LeftParen)] + (ArgumentItems(named) + [Symbol(RightParen)]))
  }

  function ArgumentItems(named: seq<NamedArg>): seq<Item>
    requires PrintableArguments(named)
    decreases named
  {
    if named == [] then []
    else
      [Name(named[0].name), Symbol(OperatorAssign)] +
      (Items(named[0].expression) + ((if |named| > 1 then [Symbol(Comma), BLANK] else []) + ArgumentItems(named[1..])))
  }

  // The items are what is printed.

  lemma RenderOne(a: Item)
    ensures Render([a]) == WrittenItem(a)
  {
    assert [a][1..] == [];
    assert WrittenItem(a) + "" == WrittenItem(a);
  }

  lemma RenderCons(a: Item, rest: seq<Item>)
    ensures Render([a] + rest) == WrittenItem(a) + Render(rest)
  {
    assert ([a] + rest)[1..] == rest;
  }

  lemma {:induction false} ItemsRender(e: Expression)
    requires Printable(e)
    ensures Render(Items(e)) == Print(e)
    decreases e
  {
    hide Render, Items, Print;
    match e
    case Constant(c) => IntRender(e);
    case Variable(_) => VariableRender(e);
    case MemberVariable(_, _) => MemberRender(e);
    case UnaryNot(_) => NotRender(e);
    case Binary(_, _, _) => BinaryRender(e);
    case CallTo(_, _, _) => CallToRender(e);
    case MemberCall(_, _, _, _) => MemberCallRender(e);
  }

  lemma VariableRender(e: Expression)
    requires e.Variable? && Printable(e)
    ensures Render(Items(e)) == Print(e)
  {
    RenderOne(Name(e.name));
  }

  lemma IntRender(e: Expression)
    requires e.Constant? && Printable(e)
    ensures Render(Items(e)) == Print(e)
  {
    hide Render;
    var i: int := e.c.i;
    var number := Lex(Lexeme(Number, Numeral(if i < 0 then -i else i)));
    RenderOne(number);
    RenderCons(Symbol(OperatorMinus), [number]);
    assert [Symbol(OperatorMinus)] + [number] == [Symbol(OperatorMinus), number];
  }

  lemma {:induction false} CallToRender(e: Expression)
    requires e.CallTo? && Printable(e)
    ensures Render(Items(e)) == Print(e)
    decreases e, 0
  {
    hide Render;
    CallRender(e.calledName, e.named);
  }

  lemma {:induction false} MemberRender(e: Expression)
    requires e.MemberVariable? && Printable(e)
    ensures Render(Items(e)) == Print(e)
    decreases e, 0
  {
    hide Render;
    ItemsRender(e.parent);
    RenderAppend(Items(e.parent), [Symbol(Dot), Name(e.name)]);
    RenderCons(Symbol(Dot), [Name(e.name)]);
    RenderOne(Name(e.name));
    assert [Symbol(Dot)] + [Name(e.name)] == [Symbol(Dot), Name(e.name)];
    assert Print(e.parent) + ("." + e.name) == Print(e.parent) + "." + e.name;
  }

  lemma {:induction false} NotRender(e: Expression)
    requires e.UnaryNot? && Printable(e)
    ensures Render(Items(e)) == Print(e)
    decreases e, 0
  {
    hide Render;
    ItemsRender(e.inner);
    RenderAppend(Items(e.inner), [Symbol(RightParen)]);
    RenderOne(Symbol(RightParen));
    var rest := Items(e.inner) + [Symbol(RightParen)];
    RenderCons(Symbol(OperatorUnaryNot), rest);
    RenderCons(Symbol(LeftParen), [Symbol(OperatorUnaryNot)] + rest);
    assert [Symbol(LeftParen)] + ([Symbol(OperatorUnaryNot)] + rest) ==
      [Symbol(LeftParen), Symbol(OperatorUnaryNot)] + rest;
    assert "(" + ("!" + (Print(e.inner) + ")")) == "(!" + Print(e.inner) + ")";
  }

  lemma OpTextIs(op: BinOp)
    ensures OpText(op) == Spelling(KindOf(op)) && TokenToBinaryOp(KindOf(op)) == Some(op)
  {
  }

  lemma {:induction false} BinaryRender(e: Expression)
    requires e.Binary? && Printable(e)
    ensures Render(Items(e)) == Print(e)
    decreases e, 0
  {
    hide Render, OpText, KindOf;
    ItemsRender(e.lhs);
    ItemsRender(e.rhs);
    OpTextIs(e.op);
    var op := Symbol(KindOf(e.op));
    var right := Items(e.rhs) + [Symbol(RightParen)];
    RenderAppend(Items(e.rhs), [Symbol(RightParen)]);
    RenderOne(Symbol(RightParen));
    MiddleRender(op, right);
    RenderAppend(Items(e.lhs), [BLANK, op, BLANK] + right);
    RenderCons(Symbol(LeftParen), Items(e.lhs) + ([BLANK, op, BLANK] + right));
    assert WrittenItem(op) == OpText(e.op);
    BinaryText(Print(e.lhs), OpText(e.op), Print(e.rhs));
  }

  lemma MiddleRender(op: Item, right: seq<Item>)
    ensures Render([BLANK, op, BLANK] + right) == " " + (WrittenItem(op) + (" " + Render(right)))
  {
    hide Render;
    RenderCons(BLANK, right);
    RenderCons(op, [BLANK] + right);
    RenderCons(BLANK, [op] + ([BLANK] + right));
    assert [BLANK] + ([op] + ([BLANK] + right)) == [BLANK, op, BLANK] + right;
  }

  lemma BinaryText(l: string, op: string, r: string)
    ensures "(" + (l + (" " + (op + (" " + (r + ")"))))) == "(" + l + " " + op + " " + r + ")"
  {
    var right := " " + (r + ")");
    assert " " + r + ")" == right;
    assert l + (" " + (op + right)) == ((l + " ") + op) + right;
  }

  lemma {:induction false} CallRender(name: string, named: seq<NamedArg>)
    requires PrintableArguments(named)
    ensures Render([Name(name), Symbol(LeftParen)] + (ArgumentItems(named) + [Symbol(RightParen)])) ==
      name + "(" + PrintArguments(named) + ")"
    decreases named, 1
  {
    hide Render;
    ArgumentsRender(named);
    var args := ArgumentItems(named) + [Symbol(RightParen)];
    RenderAppend(ArgumentItems(named), [Symbol(RightParen)]);
    RenderOne(Symbol(RightParen));
    RenderCons(Symbol(LeftParen), args);
    RenderCons(Name(name), [Symbol(LeftParen)] + args);
    assert [Name(name)] + ([Symbol(LeftParen)] + args) == [Name(name), Symbol(LeftParen)] + args;
    assert name + ("(" + (PrintArguments(named) + ")")) == name + "(" + PrintArguments(named) + ")";
  }

  lemma MemberCallParts(e: Expression)
    requires e.MemberCall? && Printable(e)
    ensures Printable(e.parent) && PrintableArguments(e.named)
    ensures Items(e) == Items(e.parent) +
      ([Symbol(Dot), Name(e.calledName), Symbol(LeftParen)] + (ArgumentItems(e.named) + [Symbol(RightParen)]))
    ensures Print(e) == Print(e.parent) + "." + (e.calledName + "(" + PrintArguments(e.named) + ")")
  {
  }

  lemma {:induction false} MemberCallRender(e: Expression)
    requires e.MemberCall? && Printable(e)
    ensures Render(Items(e)) == Print(e)
    decreases e, 0
  {
    hide Render, ArgumentItems, PrintArguments, Printable, Items, Print;
    MemberCallParts(e);
    ItemsRender(e.parent);
    CallRender(e.calledName, e.named);
    var args := ArgumentItems(e.named) + [Symbol(RightParen)];
    var call := [Name(e.calledName), Symbol(LeftParen)] + args;
    RenderCons(Symbol(Dot), call);
    RenderAppend(Items(e.parent), [Symbol(Dot)] + call);
    assert [Symbol(Dot)] + call == [Symbol(Dot), Name(e.calledName), Symbol(LeftParen)] + args;
    var text := e.calledName + "(" + PrintArguments(e.named) + ")";
    assert Print(e.parent) + ("." + text) == Print(e.parent) + "." + text;
  }

  lemma {:induction false} ArgumentsRender(named: seq<NamedArg>)
    requires PrintableArguments(named)
    ensures Render(ArgumentItems(named)) == PrintArguments(named)
    decreases named, 0
  {
    if named != [] {
      hide Render, Items, Print, Printable;
      ItemsRender(named[0].expression);
      ArgumentsRender(named[1..]);
      var comma := if |named| > 1 then [Symbol(Comma), BLANK] else [];
      ArgumentRender(named[0].name, Items(named[0].expression), comma, ArgumentItems(named[1..]), |named| > 1);
    } else {
      assert Render([]) == "";
    }
  }

  lemma ArgumentRender(name: string, value: seq<Item>, comma: seq<Item>, rest: seq<Item>, more: bool)
    requires comma == if more then [Symbol(Comma), BLANK] else []
    ensures Render([Name(name), Symbol(OperatorAssign)] + (value + (comma + rest))) ==
      name + "=" + Render(value) + (if more then ", " else "") + Render(rest)
  {
    hide Render;
    CommaRender(comma, rest, more);
    RenderAppend(value, comma + rest);
    var all := value + (comma + rest);
    RenderCons(Symbol(OperatorAssign), all);
    RenderCons(Name(name), [Symbol(OperatorAssign)] + all);
    assert [Name(name)] + ([Symbol(OperatorAssign)] + all) == [Name(name), Symbol(OperatorAssign)] + all;
    ArgumentText(name, Render(value), if more then ", " else "", Render(rest));
  }

  lemma ArgumentText(name: string, v: string, c: string, r: string)
    ensures name + ("=" + (v + (c + r))) == name + "=" + v + c + r
  {
    assert v + (c + r) == (v + c) + r;
    assert name + ("=" + ((v + c) + r)) == ((name + "=") + (v + c)) + r;
    assert (name + "=") + (v + c) == ((name + "=") + v) + c;
  }

  lemma CommaRender(comma: seq<Item>, rest: seq<Item>, more: bool)
    requires comma == if more then [Symbol(Comma), BLANK] else []
    ensures Render(comma + rest) == (if more then ", " else "") + Render(rest)
  {
    hide Render;
    if more {
      RenderCons(BLANK, rest);
      RenderCons(Symbol(Comma), [BLANK] + rest);
      assert [Symbol(Comma)] + ([BLANK] + rest) == comma + rest;
      assert "," + (" " + Render(rest)) == ", " + Render(rest);
    } else {
      assert comma + rest == rest;
      assert "" + Render(rest) == Render(rest);
    }
  }

  // The items keep apart: no token runs into the next one.

  /** Character `c` may stand behind the printed expression. */
  predicate MayFollow(e: Expression, c: char) {
    !IsInner(c) && (e.Constant? ==> c != '.')
  }

  predicate Starts(c: char) { IsLetter(c) || IsDigit(c) || c == '-' || c == '(' }

  lemma {:induction false} PrintStarts(e: Expression, rest: string, c: char)
    requires Printable(e)
    ensures Print(e) != "" && Starts(First(Print(e) + rest, c))
    decreases e
  {
    match e
    case MemberVariable(parent, _) => PrintStarts(parent, rest, c);
    case MemberCall(parent, _, _, _) => PrintStarts(parent, rest, c);
    case _ =>
  }

  lemma FitsCons(a: Item, rest: seq<Item>, c: char)
    requires FitsBefore(rest, c)
    requires if a.Sep? then WellFormedSeparator(a.separator)
      else WellFormed(a.lexeme) && Ends(a.lexeme, First(Render(rest), c))
    ensures FitsBefore([a] + rest, c)
  {
    assert ([a] + rest)[1..] == rest;
  }

  lemma FitsOne(a: Item, c: char)
    requires a.Lex? && WellFormed(a.lexeme) && Ends(a.lexeme, c)
    ensures FitsBefore([a], c)
  {
    FitsCons(a, [], c);
    assert [a] + [] == [a];
  }

  lemma NumeralIsNumber(n: nat)
    ensures IsNumber(Numeral(n)) && '.' !in Numeral(n)
  {
    assert Numeral(n)[..|Numeral(n)|] == Numeral(n);
    assert DigitsUpTo(Numeral(n), |Numeral(n)|);
  }

  lemma {:induction false} ItemsFit(e: Expression, c: char)
    requires Printable(e) && MayFollow(e, c)
    ensures FitsBefore(Items(e), c)
    decreases e, 2
  {
    hide Items, FitsBefore;
    match e
    case Constant(_) => IntFits(e, c);
    case Variable(_) => VariableFits(e, c);
    case MemberVariable(_, _) => MemberFits(e, c);
    case UnaryNot(_) => NotFits(e, c);
    case Binary(_, _, _) => BinaryFits(e, c);
    case CallTo(_, _, _) => CallToFits(e, c);
    case MemberCall(_, _, _, _) => MemberCallFits(e, c);
  }

  lemma IntFits(e: Expression, c: char)
    requires e.Constant? && Printable(e) && MayFollow(e, c)
    ensures FitsBefore(Items(e), c)
  {
    var i: int := e.c.i;
    var number := Lex(Lexeme(Number, Numeral(if i < 0 then -i else i)));
    NumeralIsNumber(if i < 0 then -i else i);
    FitsOne(number, c);
    FitsCons(Symbol(OperatorMinus), [number], c);
    assert [Symbol(OperatorMinus)] + [number] == [Symbol(OperatorMinus), number];
  }

  lemma VariableFits(e: Expression, c: char)
    requires e.Variable? && Printable(e) && MayFollow(e, c)
    ensures FitsBefore(Items(e), c)
  {
    FitsOne(Name(e.name), c);
  }

  lemma {:induction false} MemberFits(e: Expression, c: char)
    requires e.MemberVariable? && Printable(e) && MayFollow(e, c)
    ensures FitsBefore(Items(e), c)
    decreases e, 0
  {
    hide FitsBefore, Render;
    FitsOne(Name(e.name), c);
    FitsCons(Symbol(Dot), [Name(e.name)], c);
    var rest := [Symbol(Dot), Name(e.name)];
    assert [Symbol(Dot)] + [Name(e.name)] == rest;
    RenderCons(Symbol(Dot), [Name(e.name)]);
    assert First(Render(rest), c) == '.';
    ItemsFit(e.parent, '.');
    FitsAppend(Items(e.parent), rest, c);
  }

  /** An expression in front of a closing parenthesis. */
  lemma {:induction false} ClosedFits(e: Expression, c: char)
    requires Printable(e)
    ensures FitsBefore(Items(e) + [Symbol(RightParen)], c)
    ensures Starts(First(Render(Items(e) + [Symbol(RightParen)]), c))
    decreases e, 3
  {
    hide FitsBefore, Render, Items, Print;
    FitsOne(Symbol(RightParen), c);
    RenderOne(Symbol(RightParen));
    ItemsFit(e, ')');
    FitsAppend(Items(e), [Symbol(RightParen)], c);
    RenderAppend(Items(e), [Symbol(RightParen)]);
    ItemsRender(e);
    PrintStarts(e, ")", c);
  }

  lemma {:induction false} NotFits(e: Expression, c: char)
    requires e.UnaryNot? && Printable(e) && MayFollow(e, c)
    ensures FitsBefore(Items(e), c)
    decreases e, 0
  {
    hide FitsBefore, Render;
    ClosedFits(e.inner, c);
    var rest := Items(e.inner) + [Symbol(RightParen)];
    FitsCons(Symbol(OperatorUnaryNot), rest, c);
    FitsCons(Symbol(LeftParen), [Symbol(OperatorUnaryNot)] + rest, c);
    assert [Symbol(LeftParen)] + ([Symbol(OperatorUnaryNot)] + rest) ==
      [Symbol(LeftParen), Symbol(OperatorUnaryNot)] + rest;
  }

  lemma {:induction false} BinaryFits(e: Expression, c: char)
    requires e.Binary? && Printable(e) && MayFollow(e, c)
    ensures FitsBefore(Items(e), c)
    decreases e, 0
  {
    hide FitsBefore, Render;
    ClosedFits(e.rhs, c);
    var op, right := Symbol(KindOf(e.op)), Items(e.rhs) + [Symbol(RightParen)];
    MiddleFits(op, right, c);
    MiddleRender(op, right);
    ItemsFit(e.lhs, ' ');
    FitsAppend(Items(e.lhs), [BLANK, op, BLANK] + right, c);
    FitsCons(Symbol(LeftParen), Items(e.lhs) + ([BLANK, op, BLANK] + right), c);
  }

  lemma MiddleFits(op: Item, right: seq<Item>, c: char)
    requires op.Lex? && WellFormed(op.lexeme) && Ends(op.lexeme, ' ') && FitsBefore(right, c)
    ensures FitsBefore([BLANK, op, BLANK] + right, c)
  {
    hide FitsBefore, Render;
    FitsCons(BLANK, right, c);
    RenderCons(BLANK, right);
    FitsCons(op, [BLANK] + right, c);
    FitsCons(BLANK, [op] + ([BLANK] + right), c);
    assert [BLANK] + ([op] + ([BLANK] + right)) == [BLANK, op, BLANK] + right;
  }

  lemma {:induction false} CallFits(name: string, named: seq<NamedArg>, c: char)
    requires IsName(name) && PrintableArguments(named)
    ensures FitsBefore([Name(name), Symbol(LeftParen)] + (ArgumentItems(named) + [Symbol(RightParen)]), c)
    decreases named, 1
  {
    hide FitsBefore, Render;
    FitsOne(Symbol(RightParen), c);
    RenderOne(Symbol(RightParen));
    ArgumentsFit(named);
    FitsAppend(ArgumentItems(named), [Symbol(RightParen)], c);
    var args := ArgumentItems(named) + [Symbol(RightParen)];
    FitsCons(Symbol(LeftParen), args, c);
    RenderCons(Symbol(LeftParen), args);
    FitsCons(Name(name), [Symbol(LeftParen)] + args, c);
    assert [Name(name)] + ([Symbol(LeftParen)] + args) == [Name(name), Symbol(LeftParen)] + args;
  }

  lemma {:induction false} CallToFits(e: Expression, c: char)
    requires e.CallTo? && Printable(e)
    ensures FitsBefore(Items(e), c)
    decreases e, 0
  {
    hide FitsBefore;
    CallFits(e.calledName, e.named, c);
  }

  lemma {:induction false} MemberCallFits(e: Expression, c: char)
    requires e.MemberCall? && Printable(e) && MayFollow(e, c)
    ensures FitsBefore(Items(e), c)
    decreases e, 0
  {
    hide FitsBefore, Render;
    CallFits(e.calledName, e.named, c);
    var args := ArgumentItems(e.named) + [Symbol(RightParen)];
    var call := [Name(e.calledName), Symbol(LeftParen)] + args;
    FitsCons(Symbol(Dot), call, c);
    RenderCons(Symbol(Dot), call);
    ItemsFit(e.parent, '.');
    FitsAppend(Items(e.parent), [Symbol(Dot)] + call, c);
    assert [Symbol(Dot)] + call == [Symbol(Dot), Name(e.calledName), Symbol(LeftParen)] + args;
  }

  /** Arguments in front of a closing parenthesis. */
  lemma {:induction false} ArgumentsFit(named: seq<NamedArg>)
    requires PrintableArguments(named)
    ensures FitsBefore(ArgumentItems(named), ')')
    decreases named, 0
  {
    hide FitsBefore, Render, Items, Print, Printable;
    if named == [] {
      assert FitsBefore([], ')') by { NothingFits(')'); }
    } else {
      var value, more := Items(named[0].expression), |named| > 1;
      var comma := if more then [Symbol(Comma), BLANK] else [];
      ArgumentsFit(named[1..]);
      CommaFits(comma, ArgumentItems(named[1..]), more, |named| == 1);
      ItemsFit(named[0].expression, if more then ',' else ')');
      ItemsRender(named[0].expression);
      PrintStarts(named[0].expression, Render(comma + ArgumentItems(named[1..])), ')');
      ArgumentFits(named[0].name, value, comma + ArgumentItems(named[1..]));
    }
  }

  lemma NothingFits(c: char)
    ensures FitsBefore([], c) && Render([]) == ""
  {
  }

  lemma CommaFits(comma: seq<Item>, rest: seq<Item>, more: bool, last: bool)
    requires comma == if more then [Symbol(Comma), BLANK] else []
    requires FitsBefore(rest, ')') && last == !more && (last ==> rest == [])
    ensures FitsBefore(comma + rest, ')') && First(Render(comma + rest), ')') == if more then ',' else ')'
  {
    hide FitsBefore, Render;
    if more {
      FitsCons(BLANK, rest, ')');
      FitsCons(Symbol(Comma), [BLANK] + rest, ')');
      RenderCons(Symbol(Comma), [BLANK] + rest);
      assert [Symbol(Comma)] + ([BLANK] + rest) == comma + rest;
    } else {
      assert comma + rest == [];
      NothingFits(')');
    }
  }

  lemma ArgumentFits(name: string, value: seq<Item>, rest: seq<Item>)
    requires IsName(name) && FitsBefore(value, First(Render(rest), ')')) && FitsBefore(rest, ')')
    requires Starts(First(Render(value) + Render(rest), ')'))
    ensures FitsBefore([Name(name), Symbol(OperatorAssign)] + (value + rest), ')')
  {
    hide FitsBefore, Render;
    FitsAppend(value, rest, ')');
    RenderAppend(value, rest);
    FitsCons(Symbol(OperatorAssign), value + rest, ')');
    RenderCons(Symbol(OperatorAssign), value + rest);
    FitsCons(Name(name), [Symbol(OperatorAssign)] + (value + rest), ')');
    assert [Name(name)] + ([Symbol(OperatorAssign)] + (value + rest)) ==
      [Name(name), Symbol(OperatorAssign)] + (value + rest);
  }

  // Parsing the tokens.

  /** The tokens of a printed expression. */
  function Toks(e: Expression): (r: seq<Lexeme>)
    requires Printable(e)
    ensures r != []
    decreases e
  {
    match e
    case Constant(c) => NumberToks(c.i < 0, Numeral(Magnitude(c.i)))
    case Variable(name) => [Id(name)]
    case MemberVariable(parent, name) => Toks(parent) + [Tok(Dot), Id(name)]
    case UnaryNot(inner) => [Tok(LeftParen), Tok(OperatorUnaryNot)] + (Toks(inner) + [Tok(RightParen)])
    case Binary(op, lhs, rhs) => [Tok(LeftParen)] + (Toks(lhs) + ([Tok(KindOf(op))] + (Toks(rhs) + [Tok(RightParen)])))
    case CallTo(name, _, named) => CallToks(name, Labels(named), false)
    case MemberCall(parent, name, _, named) => Toks(parent) + ([Tok(Dot)] + CallToks(name, Labels(named), false))
  }

  /** Printed arguments, each with its name. */
  function Labels(named: seq<NamedArg>): (r: seq<Written>)
    requires PrintableArguments(named)
    ensures |r| == |named|
    decreases named
  {
    if named == [] then []
    else
      var a := named[0];
      [Labelled(a.name, OperatorAssign, Toks(a.expression), a.expression)] + Labels(named[1..])
  }

  lemma LexemesCons(a: Item, rest: seq<Item>)
    ensures Lexemes([a] + rest) == (if a.Lex? then [a.lexeme] else []) + Lexemes(rest)
  {
    assert ([a] + rest)[1..] == rest;
  }

  lemma LexemesOne(a: Item)
    requires a.Lex?
    ensures Lexemes([a]) == [a.lexeme]
  {
    assert [a][1..] == [];
  }

  lemma {:induction false} ItemsAreToks(e: Expression)
    requires Printable(e)
    ensures Lexemes(Items(e)) == Toks(e)
    decreases e, 2
  {
    hide Lexemes;
    match e
    case Constant(c) => LexemesInt(c.i);
    case Variable(name) => LexemesOne(Name(name));
    case MemberVariable(parent, name) =>
      ItemsAreToks(parent);
      LexemesAppend(Items(parent), [Symbol(Dot), Name(name)]);
      LexemesTwo(Symbol(Dot), Name(name));
    case UnaryNot(inner) =>
      LexemesClosed(inner);
      var rest := Items(inner) + [Symbol(RightParen)];
      LexemesTwo(Symbol(LeftParen), Symbol(OperatorUnaryNot));
      LexemesAppend([Symbol(LeftParen), Symbol(OperatorUnaryNot)], rest);
    case Binary(_, _, _) => LexemesBinary(e);
    case CallTo(name, _, named) => LexemesCall(name, named);
    case MemberCall(parent, name, _, named) =>
      ItemsAreToks(parent);
      LexemesMemberCall(Items(parent), name, named);
  }

  lemma LexemesInt(i: int)
    ensures Lexemes(IntItems(i)) == NumberToks(i < 0, Numeral(Magnitude(i)))
  {
    var number := Lex(Lexeme(Number, Numeral(Magnitude(i))));
    LexemesOne(number);
    if i < 0 {
      LexemesTwo(Symbol(OperatorMinus), number);
    }
  }

  lemma LexemesTwo(a: Item, b: Item)
    requires a.Lex? && b.Lex?
    ensures Lexemes([a, b]) == [a.lexeme, b.lexeme]
  {
    LexemesOne(b);
    LexemesCons(a, [b]);
    assert [a] + [b] == [a, b];
  }

  lemma {:induction false} LexemesClosed(e: Expression)
    requires Printable(e)
    ensures Lexemes(Items(e) + [Symbol(RightParen)]) == Toks(e) + [Tok(RightParen)]
    decreases e, 3
  {
    hide Lexemes, Items, Toks;
    ItemsAreToks(e);
    LexemesOne(Symbol(RightParen));
    LexemesAppend(Items(e), [Symbol(RightParen)]);
  }

  lemma {:induction false} LexemesBinary(e: Expression)
    requires e.Binary? && Printable(e)
    ensures Lexemes(Items(e)) == Toks(e)
    decreases e, 0
  {
    hide Lexemes;
    var op, right := Symbol(KindOf(e.op)), Items(e.rhs) + [Symbol(RightParen)];
    LexemesClosed(e.rhs);
    ItemsAreToks(e.lhs);
    LexemesOne(op);
    LexemesMiddle(op, right);
    LexemesAppend(Items(e.lhs), [BLANK, op, BLANK] + right);
    LexemesCons(Symbol(LeftParen), Items(e.lhs) + ([BLANK, op, BLANK] + right));
  }

  lemma LexemesMiddle(op: Item, right: seq<Item>)
    requires op.Lex?
    ensures Lexemes([BLANK, op, BLANK] + right) == [op.lexeme] + Lexemes(right)
  {
    hide Lexemes;
    LexemesCons(BLANK, right);
    LexemesCons(op, [BLANK] + right);
    LexemesCons(BLANK, [op] + ([BLANK] + right));
    assert [BLANK] + ([op] + ([BLANK] + right)) == [BLANK, op, BLANK] + right;
    assert [] + Lexemes(right) == Lexemes(right);
    assert [] + ([op.lexeme] + Lexemes(right)) == [op.lexeme] + Lexemes(right);
  }

  lemma {:induction false} LexemesCall(name: string, named: seq<NamedArg>)
    requires PrintableArguments(named)
    ensures Lexemes([Name(name), Symbol(LeftParen)] + (ArgumentItems(named) + [Symbol(RightParen)])) ==
      CallToks(name, Labels(named), false)
    decreases named, 1
  {
    hide Lexemes, ListToks, Labels, ArgumentItems;
    LexemesArguments(named);
    LexemesOne(Symbol(RightParen));
    LexemesAppend(ArgumentItems(named), [Symbol(RightParen)]);
    LexemesTwo(Name(name), Symbol(LeftParen));
    LexemesAppend([Name(name), Symbol(LeftParen)], ArgumentItems(named) + [Symbol(RightParen)]);
    var args := ListToks(Labels(named), false) + [Tok(RightParen)];
    assert [Id(name), Tok(LeftParen)] + args == [Id(name)] + ([Tok(LeftParen)] + args);
  }

  lemma {:induction false} LexemesMemberCall(parent: seq<Item>, name: string, named: seq<NamedArg>)
    requires PrintableArguments(named)
    ensures Lexemes(parent +
      ([Symbol(Dot), Name(name), Symbol(LeftParen)] + (ArgumentItems(named) + [Symbol(RightParen)]))) ==
      Lexemes(parent) + ([Tok(Dot)] + CallToks(name, Labels(named), false))
    decreases named, 2
  {
    hide Lexemes, CallToks;
    LexemesCall(name, named);
    var args := ArgumentItems(named) + [Symbol(RightParen)];
    var call := [Name(name), Symbol(LeftParen)] + args;
    LexemesCons(Symbol(Dot), call);
    assert [Symbol(Dot)] + call == [Symbol(Dot), Name(name), Symbol(LeftParen)] + args;
    LexemesAppend(parent, [Symbol(Dot)] + call);
  }

  lemma {:induction false} LexemesArguments(named: seq<NamedArg>)
    requires PrintableArguments(named)
    ensures Lexemes(ArgumentItems(named)) == ListToks(Labels(named), false)
    decreases named, 0
  {
    if named != [] {
      hide Lexemes, Items, Toks;
      var a := named[0];
      ItemsAreToks(a.expression);
      LexemesArguments(named[1..]);
      var comma := if |named| > 1 then [Symbol(Comma), BLANK] else [];
      LexemesComma(|named| > 1);
      LexemesAppend(comma, ArgumentItems(named[1..]));
      LexemesAppend(Items(a.expression), comma + ArgumentItems(named[1..]));
      LexemesTwo(Name(a.name), Symbol(OperatorAssign));
      LexemesAppend([Name(a.name), Symbol(OperatorAssign)],
        Items(a.expression) + (comma + ArgumentItems(named[1..])));
      LabelToks(named, Lexemes(comma));
    }
  }

  lemma {:induction false} LabelToks(named: seq<NamedArg>, comma: seq<Lexeme>)
    requires PrintableArguments(named) && named != [] && comma == if |named| > 1 then [Tok(Comma)] else []
    ensures ListToks(Labels(named), false) ==
      [Id(named[0].name), Tok(OperatorAssign)] +
      (Toks(named[0].expression) + (comma + ListToks(Labels(named[1..]), false)))
  {
    hide Toks, ListToks, Labels, Printable;
    var a, list, rest := named[0], Labels(named), Labels(named[1..]);
    FirstLabel(named);
    ListParts(list, false);
    LabelledToks(Id(a.name), Tok(OperatorAssign), Toks(a.expression), comma + ListToks(rest, false));
  }

  lemma {:induction false} FirstLabel(named: seq<NamedArg>)
    requires PrintableArguments(named) && named != []
    ensures PrintableArguments(named[1..]) && Printable(named[0].expression)
    ensures var a := named[0];
      Labels(named) != [] && Labels(named)[1..] == Labels(named[1..]) &&
      Labels(named)[0] == Labelled(a.name, OperatorAssign, Toks(a.expression), a.expression)
  {
    hide Toks, Printable;
  }

  lemma LabelledToks(s: Lexeme, t: Lexeme, value: seq<Lexeme>, rest: seq<Lexeme>)
    ensures [s] + ([t] + value) + rest == [s, t] + (value + rest)
  {
  }

  lemma LexemesComma(more: bool)
    ensures Lexemes(if more then [Symbol(Comma), BLANK] else []) == if more then [Tok(Comma)] else []
  {
    if more {
      LexemesCons(BLANK, []);
      LexemesCons(Symbol(Comma), [BLANK]);
      assert [BLANK] + [] == [BLANK] && [Symbol(Comma)] + [BLANK] == [Symbol(Comma), BLANK];
    }
  }
}
