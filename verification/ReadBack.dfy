/** Which token lists the expression grammar reads as which expressions, rule by rule. */
module ReadBack {
  import opened Lang
  import opened Numerals
  import opened Tokens
  import opened Syntax
  import opened Climbing
  import opened Parsing

  function Tok(kind: TokenType): Lexeme { Lexeme(kind, "") }

  function Id(name: string): Lexeme { Lexeme(Identifier, name) }

  /** The tokens from `i` on start with `ts`. */
  predicate TokensAt(x: Input, i: nat, ts: seq<Lexeme>): (r: bool)
    ensures r ==> i + |ts| <= |x.tokens|
  {
    i + |ts| <= |x.tokens| && x.tokens[i..i + |ts|] == ts
  }

  lemma TokensSplit(x: Input, i: nat, a: seq<Lexeme>, b: seq<Lexeme>)
    ensures TokensAt(x, i, a + b) <==> TokensAt(x, i, a) && TokensAt(x, i + |a|, b)
  {
    if TokensAt(x, i, a + b) {
      var t := x.tokens[i..i + |a + b|];
      assert x.tokens[i..i + |a|] == t[..|a|] && x.tokens[i + |a|..i + |a| + |b|] == t[|a|..];
    }
    if TokensAt(x, i, a) && TokensAt(x, i + |a|, b) {
      assert x.tokens[i..i + |a| + |b|] == x.tokens[i..i + |a|] + x.tokens[i + |a|..i + |a| + |b|];
    }
  }

  lemma OneToken(x: Input, i: nat, t: Lexeme)
    requires TokensAt(x, i, [t])
    ensures i < |x.tokens| && x.tokens[i] == t
  {
    assert x.tokens[i..i + 1][0] == t;
  }

  lemma FirstToken(x: Input, i: nat, t: Lexeme, rest: seq<Lexeme>)
    requires TokensAt(x, i, [t] + rest)
    ensures i < |x.tokens| && x.tokens[i] == t && TokensAt(x, i + 1, rest)
  {
    TokensSplit(x, i, [t], rest);
    OneToken(x, i, t);
  }

  lemma TwoTokens(x: Input, i: nat, s: Lexeme, t: Lexeme, rest: seq<Lexeme>)
    requires TokensAt(x, i, [s] + ([t] + rest))
    ensures i + 1 < |x.tokens| && x.tokens[i] == s && x.tokens[i + 1] == t && TokensAt(x, i + 2, rest)
  {
    hide TokensAt;
    FirstToken(x, i, s, [t] + rest);
    FirstToken(x, i + 1, t, rest);
  }

  lemma LastToken(x: Input, i: nat, ts: seq<Lexeme>, t: Lexeme)
    requires TokensAt(x, i, ts + [t])
    ensures TokensAt(x, i, ts) && i + |ts| < |x.tokens| && x.tokens[i + |ts|] == t
  {
    TokensSplit(x, i, ts, [t]);
    OneToken(x, i + |ts|, t);
  }

  /** The conversion of float literals. */
  type Stof = string -> Option<Float>

  /** What may go on behind a name. */
  const NAME_EXTENDS := {Dot, LeftParen}

  /** A token that cannot extend any expression. */
  predicate EndsExpression(kind: TokenType) { TokenToBinaryOp(kind).None? && kind !in NAME_EXTENDS }

  /** Wherever these tokens stand in front of one that cannot extend an expression, they are read as `e`. */
  ghost predicate Reads(stof: Stof, ts: seq<Lexeme>, e: Expression) {
    forall x: Input, i: nat | x.stof == stof && TokensAt(x, i, ts) && EndsExpression(Kind(x, i + |ts|)) ::
      ParseExpression(x, i) == Parsed(e, i + |ts|)
  }

  /** The same for a primary expression, which nothing but `open` can extend. */
  ghost predicate ReadsPrimary(stof: Stof, ts: seq<Lexeme>, e: Expression, open: set<TokenType>) {
    forall x: Input, i: nat | x.stof == stof && TokensAt(x, i, ts) && Kind(x, i + |ts|) !in open ::
      ParsePrimary(x, i) == Parsed(e, i + |ts|)
  }

  /** The same for a name, a call or a chain of members, behind which members of it may follow. */
  ghost predicate ReadsName(stof: Stof, ts: seq<Lexeme>, e: Expression, open: set<TokenType>) {
    forall x: Input, i: nat | x.stof == stof && TokensAt(x, i, ts) && Kind(x, i + |ts|) !in open ::
      Kind(x, i) == Identifier && ParseIdentifier(x, None, i) == ParseMembers(x, e, i + |ts|)
  }

  // From one to the other.

  lemma PrimaryReads(stof: Stof, ts: seq<Lexeme>, e: Expression, open: set<TokenType>)
    requires ReadsPrimary(stof, ts, e, open) && open <= NAME_EXTENDS
    ensures Reads(stof, ts, e)
  {
    hide ParsePrimary, TokensAt;
    forall x: Input, i: nat | x.stof == stof && TokensAt(x, i, ts) && EndsExpression(Kind(x, i + |ts|))
      ensures ParseExpression(x, i) == Parsed(e, i + |ts|)
    {
      assert Kind(x, i + |ts|) !in open;
      assert ParsePrimary(x, i) == Parsed(e, i + |ts|);
      assert e.Missing? || ParseBinaryRHS(x, e, 0, i + |ts|) == Parsed(e, i + |ts|);
    }
  }

  lemma NamePrimary(stof: Stof, ts: seq<Lexeme>, e: Expression, open: set<TokenType>)
    requires ReadsName(stof, ts, e, open)
    ensures ReadsPrimary(stof, ts, e, open + {Dot})
  {
    hide ParseIdentifier, TokensAt;
    forall x: Input, i: nat | x.stof == stof && TokensAt(x, i, ts) && Kind(x, i + |ts|) !in open + {Dot}
      ensures ParsePrimary(x, i) == Parsed(e, i + |ts|)
    {
      assert ParseIdentifier(x, None, i) == ParseMembers(x, e, i + |ts|);
    }
  }

  lemma NameAt(x: Input, i: nat, ts: seq<Lexeme>, e: Expression, open: set<TokenType>)
    requires ReadsName(x.stof, ts, e, open) && TokensAt(x, i, ts) && Kind(x, i + |ts|) !in open
    ensures Kind(x, i) == Identifier && ParseIdentifier(x, None, i) == ParseMembers(x, e, i + |ts|)
  {
  }

  // Literals.

  lemma BoolReads(stof: Stof, b: bool, contend: string)
    ensures ReadsPrimary(stof, [Lexeme(if b then KeywordTrue else KeywordFalse, contend)], Constant(BoolConst(b)), {})
  {
    var t := Lexeme(if b then KeywordTrue else KeywordFalse, contend);
    forall x: Input, i: nat | TokensAt(x, i, [t])
      ensures ParsePrimary(x, i) == Parsed(Constant(BoolConst(b)), i + 1)
    {
      OneToken(x, i, t);
    }
  }

  lemma StringReads(stof: Stof, s: string)
    ensures ReadsPrimary(stof, [Lexeme(String, s)], Constant(StringConst(s)), {})
  {
    forall x: Input, i: nat | TokensAt(x, i, [Lexeme(String, s)])
      ensures ParsePrimary(x, i) == Parsed(Constant(StringConst(s)), i + 1)
    {
      OneToken(x, i, Lexeme(String, s));
    }
  }

  /** A number token, behind a minus if it is negative. */
  function NumberToks(negative: bool, digits: string): (r: seq<Lexeme>)
    ensures r != []
  {
    (if negative then [Tok(OperatorMinus)] else []) + [Lexeme(Number, digits)]
  }

  lemma NumberAt(x: Input, i: nat, negative: bool, digits: string)
    requires TokensAt(x, i, NumberToks(negative, digits))
    ensures var j := if negative then i + 1 else i;
      Kind(x, j) == Number && x.tokens[j].contend == digits && ParsePrimary(x, i) == ParseNumber(x, negative, j)
  {
    if negative {
      FirstToken(x, i, Tok(OperatorMinus), [Lexeme(Number, digits)]);
      OneToken(x, i + 1, Lexeme(Number, digits));
    } else {
      assert [] + [Lexeme(Number, digits)] == [Lexeme(Number, digits)];
      OneToken(x, i, Lexeme(Number, digits));
    }
  }

  /** What a number stands for: without a dot a decimal of 32 bits, with a dot a float. */
  function NumberValue(stof: Stof, negative: bool, digits: string): Option<Const> {
    if digits == "" then None
    else if AllDigits(digits) then
      var n := if negative then -(NumeralValue(digits) as int) else NumeralValue(digits);
      if IsI32(n) then Some(IntConst(n)) else None
    else if '.' in digits then
      var f := stof(if negative then "-" + digits else digits);
      if f.Some? then Some(FloatConst(f.value)) else None
    else None
  }

  lemma DigitsOnly(digits: string)
    requires digits != "" && AllDigits(digits)
    ensures '.' !in digits
  {
  }

  /** A number is read as what it stands for, and is an error if it stands for nothing. */
  lemma {:induction false} NumberIs(x: Input, i: nat, negative: bool, digits: string)
    requires TokensAt(x, i, NumberToks(negative, digits))
    ensures var c := NumberValue(x.stof, negative, digits);
      ParsePrimary(x, i) == if c.Some? then Parsed(Constant(c.value), i + |NumberToks(negative, digits)|)
        else ParseError
  {
    NumberAt(x, i, negative, digits);
    if digits != "" && AllDigits(digits) {
      DigitsOnly(digits);
    }
  }

  lemma NumberReads(stof: Stof, negative: bool, digits: string, c: Const)
    requires NumberValue(stof, negative, digits) == Some(c)
    ensures ReadsPrimary(stof, NumberToks(negative, digits), Constant(c), {})
  {
    hide NumberToks, NumberValue, TokensAt;
    forall x: Input, i: nat | x.stof == stof && TokensAt(x, i, NumberToks(negative, digits))
      ensures ParsePrimary(x, i) == Parsed(Constant(c), i + |NumberToks(negative, digits)|)
    {
      NumberIs(x, i, negative, digits);
    }
  }

  function Magnitude(n: int): nat { if n < 0 then -n else n }

  lemma IntReads(stof: Stof, n: Int32)
    ensures ReadsPrimary(stof, NumberToks(n < 0, Numeral(Magnitude(n))), Constant(IntConst(n)), {})
  {
    ValueOfNumeral(Magnitude(n));
    NumberReads(stof, n < 0, Numeral(Magnitude(n)), IntConst(n));
  }

  // Parentheses and `!`.

  /** An empty pair of parentheses is read as no expression at all. */
  lemma NothingReads(stof: Stof)
    ensures ReadsPrimary(stof, [Tok(LeftParen), Tok(RightParen)], Missing, {})
  {
    var ts := [Tok(LeftParen), Tok(RightParen)];
    assert ts == [Tok(LeftParen)] + [Tok(RightParen)];
    forall x: Input, i: nat | TokensAt(x, i, ts)
      ensures ParsePrimary(x, i) == Parsed(Missing, i + 2)
    {
      FirstToken(x, i, Tok(LeftParen), [Tok(RightParen)]);
      OneToken(x, i + 1, Tok(RightParen));
    }
  }

  lemma ParenReads(stof: Stof, ts: seq<Lexeme>, e: Expression)
    requires Reads(stof, ts, e)
    ensures ReadsPrimary(stof, [Tok(LeftParen)] + (ts + [Tok(RightParen)]), e, {})
  {
    hide TokensAt, Reads;
    forall x: Input, i: nat | x.stof == stof && TokensAt(x, i, [Tok(LeftParen)] + (ts + [Tok(RightParen)]))
      ensures ParsePrimary(x, i) == Parsed(e, i + |ts| + 2)
    {
      FirstToken(x, i, Tok(LeftParen), ts + [Tok(RightParen)]);
      LastToken(x, i + 1, ts, Tok(RightParen));
      ReadsAt(x, i + 1, ts, e);
      assert ParseParen(x, i + 1) == Parsed(e, i + |ts| + 2);
    }
  }

  lemma ReadsAt(x: Input, i: nat, ts: seq<Lexeme>, e: Expression)
    requires Reads(x.stof, ts, e) && TokensAt(x, i, ts) && EndsExpression(Kind(x, i + |ts|))
    ensures ParseExpression(x, i) == Parsed(e, i + |ts|)
    ensures Kind(x, i) != RightParen && Kind(x, i) != EndOfFile
  {
    assert ParseExpression(x, i) == Parsed(e, i + |ts|);
    assert ParsePrimary(x, i).Parsed?;
  }

  /** `!` takes the primary expression behind it, and what extends that. */
  lemma NotReads(stof: Stof, ts: seq<Lexeme>, e: Expression, open: set<TokenType>)
    requires ReadsPrimary(stof, ts, e, open)
    ensures ReadsPrimary(stof, [Tok(OperatorUnaryNot)] + ts, UnaryNot(e), open)
  {
    hide TokensAt;
    forall x: Input, i: nat
      | x.stof == stof && TokensAt(x, i, [Tok(OperatorUnaryNot)] + ts) && Kind(x, i + |ts| + 1) !in open
      ensures ParsePrimary(x, i) == Parsed(UnaryNot(e), i + |ts| + 1)
    {
      FirstToken(x, i, Tok(OperatorUnaryNot), ts);
      assert ParsePrimary(x, i + 1) == Parsed(e, i + 1 + |ts|);
    }
  }

  // Names, members and calls.

  lemma VariableReads(stof: Stof, name: string)
    ensures ReadsName(stof, [Id(name)], Variable(name), {LeftParen})
  {
    forall x: Input, i: nat | TokensAt(x, i, [Id(name)]) && Kind(x, i + 1) !in {LeftParen}
      ensures Kind(x, i) == Identifier && ParseIdentifier(x, None, i) == ParseMembers(x, Variable(name), i + 1)
    {
      OneToken(x, i, Id(name));
    }
  }

  lemma MemberReads(stof: Stof, ts: seq<Lexeme>, parent: Expression, open: set<TokenType>, name: string)
    requires ReadsName(stof, ts, parent, open) && Dot !in open
    ensures ReadsName(stof, ts + [Tok(Dot), Id(name)], MemberVariable(parent, name), {LeftParen})
  {
    hide TokensAt, ParseOneIdentifier, ParsePrimary;
    var behind := [Tok(Dot), Id(name)];
    assert behind == [Tok(Dot)] + [Id(name)];
    forall x: Input, i: nat
      | x.stof == stof && TokensAt(x, i, ts + behind) && Kind(x, i + |ts| + 2) !in {LeftParen}
      ensures Kind(x, i) == Identifier &&
        ParseIdentifier(x, None, i) == ParseMembers(x, MemberVariable(parent, name), i + |ts| + 2)
    {
      TokensSplit(x, i, ts, behind);
      FirstToken(x, i + |ts|, Tok(Dot), [Id(name)]);
      OneToken(x, i + |ts| + 1, Id(name));
      NameAt(x, i, ts, parent, open);
      NameParses(x, Some(parent), name, i + |ts| + 1);
    }
  }

  lemma NameParses(x: Input, previous: Option<Expression>, name: string, i: nat)
    requires i < |x.tokens| && x.tokens[i] == Id(name) && Kind(x, i + 1) != LeftParen
    ensures ParseIdentifier(x, previous, i) ==
      ParseMembers(x, if previous.Some? then MemberVariable(previous.value, name) else Variable(name), i + 1)
  {
  }

  /** An argument as it is written; `=` or `:` separates a name from the value. */
  datatype Written =
    | Positional(tokens: seq<Lexeme>, value: Expression)
    | Labelled(name: string, separator: TokenType, tokens: seq<Lexeme>, value: Expression)

  ghost predicate ArgumentReads(stof: Stof, a: Written) {
    Reads(stof, a.tokens, a.value) && (a.Labelled? ==> a.separator == OperatorAssign || a.separator == Colon)
  }

  function ArgumentToks(a: Written): seq<Lexeme> {
    if a.Positional? then a.tokens else [Id(a.name)] + ([Tok(a.separator)] + a.tokens)
  }

  /** The tokens of an argument list; a comma may stand behind the last argument too. */
  function ListToks(list: seq<Written>, trailing: bool): seq<Lexeme> {
    if list == [] then []
    else
      ArgumentToks(list[0]) +
      ((if |list| > 1 || trailing then [Tok(Comma)] else []) + ListToks(list[1..], trailing))
  }

  /** The values without a name, in order. */
  function Unnamed(list: seq<Written>): seq<Expression> {
    if list == [] then [] else (if list[0].Positional? then [list[0].value] else []) + Unnamed(list[1..])
  }

  /** The values with a name, in order. */
  function Named(list: seq<Written>): seq<NamedArg> {
    if list == [] then []
    else (if list[0].Labelled? then [NamedArg(list[0].name, list[0].value)] else []) + Named(list[1..])
  }

  /** No argument without a name stands behind one with a name. */
  predicate PositionalFirst(list: seq<Written>) {
    forall j, k | 0 <= j < k < |list| && list[j].Labelled? :: list[k].Labelled?
  }

  lemma {:induction false} UnnamedNone(list: seq<Written>)
    ensures Unnamed(list) == [] <==> forall k | 0 <= k < |list| :: list[k].Labelled?
  {
    if list != [] {
      UnnamedNone(list[1..]);
      assert list[0].Labelled? && Unnamed(list[1..]) == [] ==> [] + Unnamed(list[1..]) == [];
      assert forall k | 0 < k < |list| :: list[k] == list[1..][k - 1];
    }
  }

  lemma {:induction false} PositionalFirstOf(list: seq<Written>)
    requires list != []
    ensures PositionalFirst(list) <==>
      if list[0].Positional? then PositionalFirst(list[1..]) else Unnamed(list[1..]) == []
    ensures Unnamed(list[1..]) == [] ==> PositionalFirst(list[1..])
  {
    var rest := list[1..];
    UnnamedNone(rest);
    assert forall k | 0 < k < |list| :: list[k] == rest[k - 1];
    if PositionalFirst(list) {
      assert forall j, k | 0 <= j < k < |rest| && rest[j].Labelled? :: list[j + 1].Labelled? && rest[k] == list[k + 1];
    }
  }

  predicate EndsArgument(kind: TokenType): (r: bool)
    ensures r ==> EndsExpression(kind)
  {
    kind == Comma || kind == RightParen
  }

  /** An expression that is read whole does not start like an argument with a name. */
  lemma NoLabel(x: Input, i: nat, ts: seq<Lexeme>, e: Expression)
    requires ParseExpression(x, i) == Parsed(e, i + |ts|) && EndsArgument(Kind(x, i + |ts|))
    ensures Kind(x, i) == Identifier ==> Kind(x, i + 1) != OperatorAssign && Kind(x, i + 1) != Colon
  {
    if Kind(x, i) == Identifier && EndsExpression(Kind(x, i + 1)) {
      VariableAt(x, i);
    }
  }

  lemma VariableAt(x: Input, i: nat)
    requires Kind(x, i) == Identifier && EndsExpression(Kind(x, i + 1))
    ensures ParseExpression(x, i) == Parsed(Variable(x.tokens[i].contend), i + 1)
  {
    var e := Variable(x.tokens[i].contend);
    assert ParseOneIdentifier(x, None, i) == Parsed(e, i + 1);
    assert ParsePrimary(x, i) == ParseIdentifier(x, None, i) == Parsed(e, i + 1);
    assert ParseBinaryRHS(x, e, 0, i + 1) == Parsed(e, i + 1);
  }

  lemma LabelledParses(x: Input, i: nat, before: seq<Expression>, namedBefore: seq<NamedArg>, e: Expression, j: nat)
    requires Kind(x, i) == Identifier && Kind(x, i + 1) in {OperatorAssign, Colon}
    requires ParseExpression(x, i + 2) == Parsed(e, j)
    ensures i + 2 <= |x.tokens| && j <= |x.tokens|
    ensures ParseArguments(x, i, before, namedBefore) ==
      MoreArguments(x, j, before, namedBefore + [NamedArg(x.tokens[i].contend, e)])
  {
    hide MoreArguments, ParseExpression;
  }

  lemma PositionalParses(x: Input, i: nat, before: seq<Expression>, namedBefore: seq<NamedArg>, e: Expression, j: nat)
    requires Kind(x, i) !in {RightParen, EndOfFile} && ParseExpression(x, i) == Parsed(e, j) && i <= |x.tokens|
    requires Kind(x, i) == Identifier ==> Kind(x, i + 1) != OperatorAssign && Kind(x, i + 1) != Colon
    ensures j <= |x.tokens|
    ensures ParseArguments(x, i, before, namedBefore) ==
      if namedBefore == [] then MoreArguments(x, j, before + [e], namedBefore) else ParseError
  {
    hide MoreArguments, ParseExpression;
  }

  lemma LabelledAt(x: Input, i: nat, a: Written, before: seq<Expression>, namedBefore: seq<NamedArg>)
    requires a.Labelled? && ArgumentReads(x.stof, a) && TokensAt(x, i, ArgumentToks(a)) &&
      EndsArgument(Kind(x, i + |ArgumentToks(a)|))
    ensures ParseArguments(x, i, before, namedBefore) ==
      MoreArguments(x, i + |ArgumentToks(a)|, before, namedBefore + [NamedArg(a.name, a.value)])
  {
    hide TokensAt, Reads, MoreArguments, ParseExpression, ParsePrimary, ParseIdentifier, ParseArguments;
    hide ParseBinaryRHS, ParseMembers, ParseOneIdentifier, ParseParen, ParseNumber, ParseOperand, TokenToBinaryOp;
    var ts := a.tokens;
    assert ArgumentToks(a) == [Id(a.name)] + ([Tok(a.separator)] + ts) && |ArgumentToks(a)| == |ts| + 2;
    hide ArgumentToks;
    TwoTokens(x, i, Id(a.name), Tok(a.separator), ts);
    ReadsAt(x, i + 2, ts, a.value);
    LabelledParses(x, i, before, namedBefore, a.value, i + 2 + |a.tokens|);
  }

  lemma PositionalAt(x: Input, i: nat, a: Written, before: seq<Expression>, namedBefore: seq<NamedArg>)
    requires a.Positional? && ArgumentReads(x.stof, a) && TokensAt(x, i, ArgumentToks(a)) &&
      EndsArgument(Kind(x, i + |ArgumentToks(a)|))
    ensures ParseArguments(x, i, before, namedBefore) ==
      if namedBefore == [] then MoreArguments(x, i + |ArgumentToks(a)|, before + [a.value], namedBefore)
      else ParseError
  {
    hide TokensAt, Reads, MoreArguments, ParseExpression, ParsePrimary, ParseIdentifier, ParseArguments;
    hide ParseBinaryRHS, ParseMembers, ParseOneIdentifier, ParseParen, ParseNumber, ParseOperand, TokenToBinaryOp;
    ReadsAt(x, i, a.tokens, a.value);
    NoLabel(x, i, a.tokens, a.value);
    PositionalParses(x, i, before, namedBefore, a.value, i + |a.tokens|);
  }

  /** One argument in front of a comma or the closing parenthesis. */
  lemma OneArgument(x: Input, i: nat, a: Written, before: seq<Expression>, namedBefore: seq<NamedArg>)
    requires ArgumentReads(x.stof, a) && TokensAt(x, i, ArgumentToks(a)) &&
      EndsArgument(Kind(x, i + |ArgumentToks(a)|))
    ensures ParseArguments(x, i, before, namedBefore) ==
      if a.Labelled? then
        MoreArguments(x, i + |ArgumentToks(a)|, before, namedBefore + [NamedArg(a.name, a.value)])
      else if namedBefore == [] then MoreArguments(x, i + |ArgumentToks(a)|, before + [a.value], namedBefore)
      else ParseError
  {
    hide TokensAt, ArgumentReads, ArgumentToks, MoreArguments, ParseArguments;
    if a.Labelled? {
      LabelledAt(x, i, a, before, namedBefore);
    } else {
      PositionalAt(x, i, a, before, namedBefore);
    }
  }

  lemma ArgumentsEnd(x: Input, i: nat, before: seq<Expression>, namedBefore: seq<NamedArg>)
    requires i <= |x.tokens| && Kind(x, i) == RightParen
    ensures ParseArguments(x, i, before, namedBefore) == MoreArguments(x, i, before, namedBefore) ==
      Parsed((before, namedBefore), i)
  {
  }

  /** Behind the first argument stands a comma, or else the closing parenthesis. */
  lemma AfterArgument(x: Input, i: nat, list: seq<Written>, trailing: bool,
          before: seq<Expression>, namedBefore: seq<NamedArg>)
    requires list != []
    requires TokensAt(x, i,
      (if |list| > 1 || trailing then [Tok(Comma)] else []) + (ListToks(list[1..], trailing) + [Tok(RightParen)]))
    ensures EndsArgument(Kind(x, i))
    ensures var j := if |list| > 1 || trailing then i + 1 else i;
      TokensAt(x, j, ListToks(list[1..], trailing) + [Tok(RightParen)]) && j <= |x.tokens| &&
        MoreArguments(x, i, before, namedBefore) == ParseArguments(x, j, before, namedBefore)
  {
    hide TokensAt, ParseArguments;
    var rest := ListToks(list[1..], trailing) + [Tok(RightParen)];
    if |list| > 1 || trailing {
      FirstToken(x, i, Tok(Comma), rest);
    } else {
      assert list[1..] == [];
      assert [] + rest == [Tok(RightParen)] == rest;
      OneToken(x, i, Tok(RightParen));
      ArgumentsEnd(x, i, before, namedBefore);
    }
  }

  /** An argument list is read as exactly its values without and with names, in the order they are written, if no
      argument without a name stands behind one with a name. Otherwise it is an error. */
  lemma {:induction false} ArgumentsRead(x: Input, i: nat, list: seq<Written>, trailing: bool,
          before: seq<Expression>, namedBefore: seq<NamedArg>)
    requires forall k | 0 <= k < |list| :: ArgumentReads(x.stof, list[k])
    requires TokensAt(x, i, ListToks(list, trailing) + [Tok(RightParen)])
    ensures ParseArguments(x, i, before, namedBefore) ==
      if PositionalFirst(list) && (namedBefore == [] || Unnamed(list) == []) then
        Parsed((before + Unnamed(list), namedBefore + Named(list)), i + |ListToks(list, trailing)|)
      else ParseError
    decreases |list|
  {
    hide TokensAt, ParseArguments, MoreArguments, ArgumentReads, ArgumentToks, PositionalFirst, ListToks, Unnamed;
    hide Named;
    ListParts(list, trailing);
    LastToken(x, i, ListToks(list, trailing), Tok(RightParen));
    if list == [] {
      assert before + [] == before && namedBefore + [] == namedBefore;
      ArgumentsEnd(x, i, before, namedBefore);
      assert PositionalFirst(list) by { NothingIsFirst(list); }
    } else {
      var a, rest := list[0], ListToks(list[1..], trailing) + [Tok(RightParen)];
      var comma := if |list| > 1 || trailing then [Tok(Comma)] else [];
      var j := i + |ArgumentToks(a)|;
      var b := if a.Positional? then before + [a.value] else before;
      var n := if a.Labelled? then namedBefore + [NamedArg(a.name, a.value)] else namedBefore;
      assert ListToks(list, trailing) + [Tok(RightParen)] == ArgumentToks(a) + (comma + rest);
      TokensSplit(x, i, ArgumentToks(a), comma + rest);
      AfterArgument(x, j, list, trailing, b, n);
      OneArgument(x, i, a, before, namedBefore);
      PositionalFirstOf(list);
      ArgumentsRead(x, j + |comma|, list[1..], trailing, b, n);
      assert b + Unnamed(list[1..]) == before + Unnamed(list);
      assert n + Named(list[1..]) == namedBefore + Named(list);
    }
  }

  lemma ListParts(list: seq<Written>, trailing: bool)
    ensures list == [] ==> ListToks(list, trailing) == [] && Unnamed(list) == [] && Named(list) == []
    ensures list != [] ==>
      ListToks(list, trailing) == ArgumentToks(list[0]) +
        ((if |list| > 1 || trailing then [Tok(Comma)] else []) + ListToks(list[1..], trailing)) &&
      Unnamed(list) == (if list[0].Positional? then [list[0].value] else []) + Unnamed(list[1..]) &&
      Named(list) == (if list[0].Labelled? then [NamedArg(list[0].name, list[0].value)] else []) + Named(list[1..])
  {
  }

  lemma NothingIsFirst(list: seq<Written>)
    requires list == []
    ensures PositionalFirst(list)
  {
  }

  /** The tokens of a call, behind the tokens of what it is a member of, if of anything. */
  function CallToks(name: string, list: seq<Written>, trailing: bool): seq<Lexeme> {
    [Id(name)] + ([Tok(LeftParen)] + (ListToks(list, trailing) + [Tok(RightParen)]))
  }

  /** A call, or a member call behind its parent. */
  function CallOf(previous: Option<Expression>, name: string, list: seq<Written>): Expression {
    if previous.Some? then MemberCall(previous.value, name, Unnamed(list), Named(list))
    else CallTo(name, Unnamed(list), Named(list))
  }

  lemma CallAt(x: Input, i: nat, previous: Option<Expression>, name: string, list: seq<Written>, trailing: bool)
    requires forall k | 0 <= k < |list| :: ArgumentReads(x.stof, list[k])
    requires TokensAt(x, i, CallToks(name, list, trailing))
    ensures Kind(x, i) == Identifier
    ensures i + |CallToks(name, list, trailing)| <= |x.tokens|
    ensures ParseIdentifier(x, previous, i) ==
      if PositionalFirst(list) then
        ParseMembers(x, CallOf(previous, name, list), i + |CallToks(name, list, trailing)|)
      else ParseError
  {
    hide TokensAt, ParseMembers, ParseArguments, ArgumentReads, PositionalFirst, ListToks, Unnamed, Named;
    var args := ListToks(list, trailing) + [Tok(RightParen)];
    FirstToken(x, i, Id(name), [Tok(LeftParen)] + args);
    FirstToken(x, i + 1, Tok(LeftParen), args);
    LastToken(x, i + 2, ListToks(list, trailing), Tok(RightParen));
    ArgumentsRead(x, i + 2, list, trailing, [], []);
    assert [] + Unnamed(list) == Unnamed(list) && [] + Named(list) == Named(list);
  }

  /** A call with arguments that are read whole is read as the call with exactly the written lists, in order. If an
      argument without a name stands behind one with a name it is an error, whatever follows. */
  lemma {:induction false} CallReads(stof: Stof, name: string, list: seq<Written>, trailing: bool)
    requires forall k | 0 <= k < |list| :: ArgumentReads(stof, list[k])
    ensures PositionalFirst(list) ==>
      ReadsName(stof, CallToks(name, list, trailing), CallTo(name, Unnamed(list), Named(list)), {})
    ensures !PositionalFirst(list) ==>
      forall x: Input, i: nat | x.stof == stof && TokensAt(x, i, CallToks(name, list, trailing)) ::
        ParseExpression(x, i).ParseError?
  {
    hide TokensAt, ParseIdentifier, ParseMembers, PositionalFirst, CallToks, Unnamed, Named, ArgumentReads;
    forall x: Input, i: nat | x.stof == stof && TokensAt(x, i, CallToks(name, list, trailing))
      ensures Kind(x, i) == Identifier
      ensures PositionalFirst(list) ==>
        ParseIdentifier(x, None, i) ==
        ParseMembers(x, CallTo(name, Unnamed(list), Named(list)), i + |CallToks(name, list, trailing)|)
      ensures !PositionalFirst(list) ==> ParseExpression(x, i).ParseError?
    {
      CallAt(x, i, None, name, list, trailing);
    }
  }

  /** The same for a call of a member of anything that is read as a name. */
  lemma {:induction false} MemberCallReads(stof: Stof, ts: seq<Lexeme>, parent: Expression, open: set<TokenType>,
          name: string, list: seq<Written>, trailing: bool)
    requires forall k | 0 <= k < |list| :: ArgumentReads(stof, list[k])
    requires ReadsName(stof, ts, parent, open) && Dot !in open && PositionalFirst(list)
    ensures ReadsName(stof, ts + ([Tok(Dot)] + CallToks(name, list, trailing)),
      MemberCall(parent, name, Unnamed(list), Named(list)), {})
  {
    hide TokensAt, ParseIdentifier, PositionalFirst, CallToks, Unnamed, Named, ArgumentReads;
    var call := CallToks(name, list, trailing);
    forall x: Input, i: nat | x.stof == stof && TokensAt(x, i, ts + ([Tok(Dot)] + call))
      ensures Kind(x, i) == Identifier &&
        ParseIdentifier(x, None, i) ==
        ParseMembers(x, MemberCall(parent, name, Unnamed(list), Named(list)), i + |ts| + 1 + |call|)
    {
      TokensSplit(x, i, ts, [Tok(Dot)] + call);
      FirstToken(x, i + |ts|, Tok(Dot), call);
      NameAt(x, i, ts, parent, open);
      CallAt(x, i + |ts| + 1, Some(parent), name, list, trailing);
    }
  }

  // Operators.

  /** An operator with the tokens of its right operand. */
  datatype WrittenLink = WrittenLink(op: BinOp, tokens: seq<Lexeme>, operand: Expression)

  function ChainToks(c: seq<WrittenLink>): seq<Lexeme> {
    if c == [] then [] else [Tok(KindOf(c[0].op))] + (c[0].tokens + ChainToks(c[1..]))
  }

  function LinksOf(c: seq<WrittenLink>): (r: seq<Link>)
    ensures |r| == |c|
  {
    if c == [] then [] else [Link(c[0].op, c[0].operand)] + LinksOf(c[1..])
  }

  ghost predicate LinkReads(stof: Stof, l: WrittenLink) { ReadsPrimary(stof, l.tokens, l.operand, NAME_EXTENDS) }

  lemma {:induction false} ChainReads(x: Input, i: nat, c: seq<WrittenLink>)
    requires forall k | 0 <= k < |c| :: LinkReads(x.stof, c[k])
    requires TokensAt(x, i, ChainToks(c)) && EndsExpression(Kind(x, i + |ChainToks(c)|))
    ensures i <= |x.tokens| && Kind(x, i) !in NAME_EXTENDS
    ensures ReadChain(x, i) == Parsed(LinksOf(c), i + |ChainToks(c)|)
    decreases |c|
  {
    hide TokensAt, ParsePrimary, KindOf;
    if c == [] {
    } else {
      var l, rest := c[0], ChainToks(c[1..]);
      FirstToken(x, i, Tok(KindOf(l.op)), l.tokens + rest);
      TokensSplit(x, i + 1, l.tokens, rest);
      ChainReads(x, i + 1 + |l.tokens|, c[1..]);
      KindIsOperator(l.op);
      assert LinkReads(x.stof, l);
      assert ParsePrimary(x, i + 1) == Parsed(l.operand, i + 1 + |l.tokens|);
    }
  }

  lemma KindIsOperator(op: BinOp)
    ensures TokenToBinaryOp(KindOf(op)) == Some(op) && KindOf(op) !in NAME_EXTENDS
  {
  }

  /** Operands with operators between them are read as the one ordered tree over them. */
  lemma {:induction false} OperatorsRead(stof: Stof, ts: seq<Lexeme>, e: Expression, c: seq<WrittenLink>, t: Tree)
    requires ReadsPrimary(stof, ts, e, NAME_EXTENDS) && !e.Missing?
    requires forall k | 0 <= k < |c| :: LinkReads(stof, c[k])
    requires Ordered(t) && Head(t) == e && Links(t) == LinksOf(c)
    ensures Reads(stof, ts + ChainToks(c), ToExpression(t))
  {
    hide TokensAt, ParsePrimary, ParseExpression, ReadChain, LinkReads, ChainToks, LinksOf, Ordered, Head, Links;
    hide EndsExpression;
    forall x: Input, i: nat
      | x.stof == stof && TokensAt(x, i, ts + ChainToks(c)) && EndsExpression(Kind(x, i + |ts + ChainToks(c)|))
      ensures ParseExpression(x, i) == Parsed(ToExpression(t), i + |ts + ChainToks(c)|)
    {
      TokensSplit(x, i, ts, ChainToks(c));
      ChainReads(x, i + |ts|, c);
      assert ParsePrimary(x, i) == Parsed(e, i + |ts|);
      ExpressionIsOrdered(x, i, t);
    }
  }

  /** Of two operators between three operands the one that stands later in the list of operators takes the middle
      one; an operator and itself group to the left. */
  lemma {:induction false} TwoOperatorsRead(stof: Stof, ts: seq<Lexeme>, a: Expression, j: nat, l: WrittenLink,
          k: nat, m: WrittenLink)
    requires j < |WEAKEST_FIRST| && k < |WEAKEST_FIRST| && l.op == WEAKEST_FIRST[j] && m.op == WEAKEST_FIRST[k]
    requires ReadsPrimary(stof, ts, a, NAME_EXTENDS) && !a.Missing? && LinkReads(stof, l) && LinkReads(stof, m)
    ensures Reads(stof, ts + ([Tok(KindOf(l.op))] + l.tokens + ([Tok(KindOf(m.op))] + m.tokens)),
      if j < k then Binary(l.op, a, Binary(m.op, l.operand, m.operand))
      else Binary(m.op, Binary(l.op, a, l.operand), m.operand))
  {
    hide ReadsPrimary, LinkReads, Reads, KindOf, Ordered, Precedence;
    var c, t := [l, m], Grouped(a, l.op, l.operand, m.op, m.operand, j < k);
    assert c[1..] == [m] && [m][1..] == [];
    assert LinksOf(c) == [Link(l.op, l.operand), Link(m.op, m.operand)];
    assert ChainToks(c) == [Tok(KindOf(l.op))] + l.tokens + ([Tok(KindOf(m.op))] + m.tokens) by {
      assert ChainToks([m]) == [Tok(KindOf(m.op))] + m.tokens;
    }
    TableIsList(l.op, j, k);
    GroupedLinks(a, l.op, l.operand, m.op, m.operand, j < k);
    GroupedIsOrdered(a, l.op, l.operand, m.op, m.operand, j < k);
    OperatorsRead(stof, ts, a, c, t);
    GroupedExpression(a, l.op, l.operand, m.op, m.operand, j < k);
  }

  lemma GroupedExpression(a: Expression, op1: BinOp, b: Expression, op2: BinOp, c: Expression, right: bool)
    ensures ToExpression(Grouped(a, op1, b, op2, c, right)) ==
      if right then Binary(op1, a, Binary(op2, b, c)) else Binary(op2, Binary(op1, a, b), c)
  {
    assert ToExpression(Node(op1, Leaf(a), Leaf(b))) == Binary(op1, a, b);
    assert ToExpression(Node(op2, Leaf(b), Leaf(c))) == Binary(op2, b, c);
  }
}
