/** Printing an expression, lexing the text and parsing the tokens gives the expression back. */
module RoundTrip {
  import opened Lang
  import opened Numerals
  import opened Tokens
  import opened Scanning
  import opened Syntax
  import opened Climbing
  import opened Parsing
  import opened Rendering
  import opened Printing
  import opened PrintedTokens
  import opened ReadBack
  import opened Grammar

  /** What can extend a printed expression as a primary expression. */
  function Extending(e: Expression): set<TokenType> {
    if e.Variable? || e.MemberVariable? then NAME_EXTENDS else if IsIdentifierExpression(e) then {Dot} else {}
  }

  /** A token of this type cannot extend the printed expression as a primary expression. */
  predicate EndsPrimary(e: Expression, kind: TokenType) { kind !in Extending(e) }

  /** The tokens of a printed expression are read as that expression; it is a primary expression. */
  lemma {:induction false} PrimaryBack(stof: Stof, e: Expression)
    requires Printable(e)
    ensures ReadsPrimary(stof, Toks(e), e, Extending(e))
    decreases e, 4
  {
    hide ReadsPrimary;
    if e.Constant? {
      IntReads(stof, e.c.i);
    } else if e.UnaryNot? {
      NotBack(stof, e);
    } else if e.Binary? {
      BinaryBack(stof, e);
    } else {
      NameBack(stof, e);
      NamePrimary(stof, Toks(e), e, Extending(e) - {Dot});
      assert Extending(e) - {Dot} + {Dot} == Extending(e);
    }
  }

  lemma {:induction false} NotBack(stof: Stof, e: Expression)
    requires e.UnaryNot? && Printable(e)
    ensures ReadsPrimary(stof, Toks(e), e, {})
    decreases e, 0
  {
    hide ReadsPrimary, Reads;
    var ts := [Tok(OperatorUnaryNot)] + Toks(e.inner);
    PrimaryBack(stof, e.inner);
    NotReads(stof, Toks(e.inner), e.inner, Extending(e.inner));
    PrimaryReads(stof, ts, e, Extending(e.inner));
    ParenReads(stof, ts, e);
    assert [Tok(LeftParen)] + (ts + [Tok(RightParen)]) == Toks(e);
  }

  lemma {:induction false} BinaryBack(stof: Stof, e: Expression)
    requires e.Binary? && Printable(e)
    ensures ReadsPrimary(stof, Toks(e), e, {})
    decreases e, 0
  {
    hide ReadsPrimary, Reads, KindOf, Precedence;
    PrimaryBack(stof, e.lhs);
    PrimaryBack(stof, e.rhs);
    WiderPrimary(stof, Toks(e.lhs), e.lhs, Extending(e.lhs), NAME_EXTENDS);
    WiderPrimary(stof, Toks(e.rhs), e.rhs, Extending(e.rhs), NAME_EXTENDS);
    OneOperator(stof, Toks(e.lhs), e.lhs, WrittenLink(e.op, Toks(e.rhs), e.rhs));
    var ts := Toks(e.lhs) + ([Tok(KindOf(e.op))] + Toks(e.rhs));
    ParenReads(stof, ts, e);
    assert [Tok(LeftParen)] + (ts + [Tok(RightParen)]) == Toks(e);
  }

  /** Two operands with an operator between them. */
  lemma OneOperator(stof: Stof, ts: seq<Lexeme>, a: Expression, l: WrittenLink)
    requires ReadsPrimary(stof, ts, a, NAME_EXTENDS) && !a.Missing? && LinkReads(stof, l)
    ensures Reads(stof, ts + ([Tok(KindOf(l.op))] + l.tokens), Binary(l.op, a, l.operand))
  {
    hide ReadsPrimary, LinkReads, Reads, KindOf, Precedence;
    var t := Node(l.op, Leaf(a), Leaf(l.operand));
    assert [l][1..] == [] && LinksOf([l]) == [Link(l.op, l.operand)];
    assert ChainToks([l]) == [Tok(KindOf(l.op))] + l.tokens;
    assert Ordered(Leaf(a)) && Ordered(Leaf(l.operand));
    assert Links(Leaf(a)) == Links(Leaf(l.operand)) == [] && Head(Leaf(l.operand)) == l.operand;
    assert Head(t) == Head(Leaf(a)) == a && Links(t) == [Link(l.op, l.operand)];
    OperatorsRead(stof, ts, a, [l], t);
    assert ToExpression(t) == Binary(l.op, a, l.operand);
  }

  /** A printed name or call; a chain of members is read from the left. */
  lemma {:induction false} NameBack(stof: Stof, e: Expression)
    requires IsIdentifierExpression(e) && Printable(e)
    ensures ReadsName(stof, Toks(e), e, Extending(e) - {Dot})
    decreases e, 3
  {
    hide ReadsName;
    assert NAME_EXTENDS - {Dot} == {LeftParen} && {Dot} - {Dot} == {};
    match e
    case Variable(name) => VariableReads(stof, name);
    case MemberVariable(parent, name) =>
      NameBack(stof, parent);
      MemberReads(stof, Toks(parent), parent, Extending(parent) - {Dot}, name);
    case CallTo(name, _, named) =>
      LabelsRead(stof, named);
      CallReads(stof, name, Labels(named), false);
    case MemberCall(parent, name, _, named) =>
      NameBack(stof, parent);
      LabelsRead(stof, named);
      MemberCallReads(stof, Toks(parent), parent, Extending(parent) - {Dot}, name, Labels(named), false);
  }

  lemma {:induction false} LabelsRead(stof: Stof, named: seq<NamedArg>)
    requires PrintableArguments(named)
    ensures forall k | 0 <= k < |named| :: ArgumentReads(stof, Labels(named)[k]) && Labels(named)[k].Labelled?
    ensures PositionalFirst(Labels(named)) && Unnamed(Labels(named)) == [] && Named(Labels(named)) == named
    decreases named, 0
  {
    if named != [] {
      hide Reads, ReadsPrimary, Toks, Labels, ListToks, Unnamed, Named, Printable;
      var a, list, rest := named[0], Labels(named), Labels(named[1..]);
      FirstLabel(named);
      LabelsRead(stof, named[1..]);
      PrimaryBack(stof, a.expression);
      PrimaryReads(stof, Toks(a.expression), a.expression, Extending(a.expression));
      ListParts(list, false);
      assert forall k | 0 < k < |named| :: list[k] == rest[k - 1];
      assert NamedArg(a.name, a.expression) == a && [a] + named[1..] == named;
    }
  }

  /** Parsing the tokens of a printed expression gives it back in front of any token that cannot extend it: no
      operator and, behind a name, neither a dot nor a parenthesis. */
  lemma ParseBack(x: Input, i: nat, e: Expression)
    requires Printable(e) && TokensAt(x, i, Toks(e))
    requires TokenToBinaryOp(Kind(x, i + |Toks(e)|)).None? && EndsPrimary(e, Kind(x, i + |Toks(e)|))
    ensures ParseExpression(x, i) == Parsed(e, i + |Toks(e)|)
  {
    PrimaryBack(x.stof, e);
    assert ParsePrimary(x, i) == Parsed(e, i + |Toks(e)|);
    assert ParseBinaryRHS(x, e, 0, i + |Toks(e)|) == Parsed(e, i + |Toks(e)|);
  }

  predicate PlainlyLexed(t: Token) { HasContend(t.kind) || t.contend == "" }

  lemma ScanIsPlain(text: string, i: nat)
    requires i <= |text| && ScanAt(text, i).Scan?
    ensures PlainlyLexed(ScanAt(text, i).token)
  {
    hide SkipWhile, NumberEnd, KeywordOrIdentifier;
  }

  lemma {:induction false} TokensArePlain(text: string, i: nat)
    requires i <= |text| && AllTokens(text, i).Some?
    ensures forall k | 0 <= k < |AllTokens(text, i).value| :: PlainlyLexed(AllTokens(text, i).value[k])
    decreases |text| - i
  {
    hide ScanAt, SpacesEnd;
    var r := NextToken(text, i);
    if r.Scan? && r.next < Size(text) {
      if SpacesEnd(text, i) < Size(text) {
        ScanIsPlain(text, SpacesEnd(text, i));
      }
      TokensArePlain(text, r.next);
    }
  }

  /** What the lexer makes of a text is fit for the grammar. */
  lemma LexedPlainly(text: string, stof: Stof)
    requires AllTokens(text, 0).Some?
    ensures Plainly(Input(Stripped(AllTokens(text, 0).value), stof))
  {
    TokensArePlain(text, 0);
    var ts := AllTokens(text, 0).value;
    assert forall k | 0 <= k < |ts| :: PlainlyLexed(ts[k]);
  }

  /** The tokens from index `i` of the text on. */
  predicate LexesFrom(text: string, i: nat, ls: seq<Lexeme>) {
    i <= |text| && AllTokens(text, i).Some? && Stripped(AllTokens(text, i).value) == ls
  }

  predicate LexesTo(text: string, ls: seq<Lexeme>) { LexesFrom(text, 0, ls) }

  /** Lexing printed code in front of a text that may stand behind it gives the tokens of the expression and then
      those of that text. */
  lemma PrintThenLex(e: Expression, rest: string)
    requires Printable(e) && MayFollow(e, First(rest, NUL))
    ensures LexesBefore(Print(e) + rest, 0, Toks(e), |Print(e)|)
  {
    hide Items, Print, Printable, FitsBefore, Lexemes, Render, LexesBefore;
    ItemsRender(e);
    ItemsFit(e, First(rest, NUL));
    ItemsAreToks(e);
    var text := Print(e) + rest;
    assert text[0..] == text;
    LexRendering(text, 0, Items(e), rest);
  }

  /** Printing an expression in front of a text whose first token cannot extend it, lexing and parsing gives the
      expression back, and the cursor stands at that token. */
  lemma PrintLexParseBefore(e: Expression, rest: string, behind: seq<Lexeme>, stof: Stof)
    requires Printable(e) && MayFollow(e, First(rest, NUL)) && LexesFrom(Print(e) + rest, |Print(e)|, behind)
    requires var next := Kind(Input(behind, stof), 0); TokenToBinaryOp(next).None? && EndsPrimary(e, next)
    ensures LexesTo(Print(e) + rest, Toks(e) + behind)
    ensures ParseExpression(Input(Toks(e) + behind, stof), 0) == Parsed(e, |Toks(e)|)
  {
    hide Toks, Print, Printable, ParseExpression, MayFollow, TokenToBinaryOp, EndsPrimary;
    PrintThenLex(e, rest);
    var x := Input(Toks(e) + behind, stof);
    assert x.tokens[0..|Toks(e)|] == Toks(e);
    assert Kind(x, |Toks(e)|) == Kind(Input(behind, stof), 0);
    ParseBack(x, 0, e);
  }

  /** The end of the file never extends an expression. */
  lemma NothingFollows(e: Expression)
    ensures TokenToBinaryOp(EndOfFile).None? && EndsPrimary(e, EndOfFile) && MayFollow(e, NUL)
  {
  }

  /** Printing, lexing and parsing gives the expression back. */
  lemma PrintLexParse(e: Expression, ls: seq<Lexeme>, stof: Stof)
    requires Printable(e) && LexesTo(Print(e), ls)
    ensures ls != [] && ParseExpression(Input(ls, stof), 0) == Parsed(e, |ls| - 1)
  {
    hide Toks, Print, Printable, ParseExpression, AllTokens, MayFollow, TokenToBinaryOp, EndsPrimary;
    assert Print(e) + "" == Print(e);
    LexEnd(Print(e));
    NothingFollows(e);
    PrintLexParseBefore(e, "", [Tok(EndOfFile)], stof);
    assert ls == Toks(e) + [Tok(EndOfFile)];
  }
}
