/** The expression grammar as phrases, and that the parser reads exactly these. */
module Grammar {
  import opened Lang
  import opened Numerals
  import opened Tokens
  import opened Syntax
  import opened Climbing
  import opened Parsing
  import opened ReadBack

  /** An expression as it is written, with its parentheses. A chain has operators between its operands. */
  datatype Phrase =
    | Truth(b: bool)
    | Text(s: string)
    | Digits(negative: bool, digits: string)
    | Nothing
    | Parens(inner: Phrase)
    | Inverted(inner: Phrase)
    | Word(name: string)
    | MemberOf(parent: Phrase, name: string)
    | Calling(name: string, args: seq<Argument>, trailing: bool)
    | MemberCalling(parent: Phrase, name: string, args: seq<Argument>, trailing: bool)
    | Chain(first: Phrase, links: seq<Operation>)

  datatype Argument = Plain(value: Phrase) | WithName(name: string, separator: TokenType, value: Phrase)

  datatype Operation = Operation(op: BinOp, operand: Phrase)

  predicate IsPrimary(p: Phrase) { !p.Chain? }

  predicate IsNameLike(p: Phrase) { p.Word? || p.MemberOf? || p.Calling? || p.MemberCalling? }

  /** The tokens a phrase is written as. */
  function TokensOf(stof: Stof, p: Phrase): seq<Lexeme>
    decreases p, 0
  {
    match p
    case Truth(b) => [Tok(if b then KeywordTrue else KeywordFalse)]
    case Text(s) => [Lexeme(String, s)]
    case Digits(negative, digits) => NumberToks(negative, digits)
    case Nothing => [Tok(LeftParen), Tok(RightParen)]
    case Parens(inner) => [Tok(LeftParen)] + (TokensOf(stof, inner) + [Tok(RightParen)])
    case Inverted(inner) => [Tok(OperatorUnaryNot)] + TokensOf(stof, inner)
    case Word(name) => [Id(name)]
    case MemberOf(parent, name) => TokensOf(stof, parent) + [Tok(Dot), Id(name)]
    case Calling(name, args, trailing) => CallToks(name, ListOf(stof, args), trailing)
    case MemberCalling(parent, name, args, trailing) =>
      TokensOf(stof, parent) + ([Tok(Dot)] + CallToks(name, ListOf(stof, args), trailing))
    case Chain(first, links) => TokensOf(stof, first) + ChainToks(ChainOf(stof, links))
  }

  /** The tree a phrase stands for. Operators group by climbing, which builds the one ordered tree over the chain. */
  function TreeOf(stof: Stof, p: Phrase): Expression
    decreases p, 0
  {
    match p
    case Truth(b) => Constant(BoolConst(b))
    case Text(s) => Constant(StringConst(s))
    case Digits(negative, digits) =>
      var c := NumberValue(stof, negative, digits);
      if c.Some? then Constant(c.value) else Missing
    case Nothing => Missing
    case Parens(inner) => TreeOf(stof, inner)
    case Inverted(inner) => UnaryNot(TreeOf(stof, inner))
    case Word(name) => Variable(name)
    case MemberOf(parent, name) => MemberVariable(TreeOf(stof, parent), name)
    case Calling(name, args, _) => CallTo(name, Unnamed(ListOf(stof, args)), Named(ListOf(stof, args)))
    case MemberCalling(parent, name, args, _) =>
      MemberCall(TreeOf(stof, parent), name, Unnamed(ListOf(stof, args)), Named(ListOf(stof, args)))
    case Chain(first, links) =>
      ToExpression(Climb(Leaf(TreeOf(stof, first)), 0, LinksOf(ChainOf(stof, links))).0)
  }

  function ArgumentOf(stof: Stof, a: Argument): Written
    decreases a, 0
  {
    match a
    case Plain(p) => Positional(TokensOf(stof, p), TreeOf(stof, p))
    case WithName(name, separator, p) => Labelled(name, separator, TokensOf(stof, p), TreeOf(stof, p))
  }

  function ListOf(stof: Stof, args: seq<Argument>): (r: seq<Written>)
    ensures |r| == |args|
    decreases args, 1
  {
    if args == [] then [] else [ArgumentOf(stof, args[0])] + ListOf(stof, args[1..])
  }

  function LinkOf(stof: Stof, l: Operation): WrittenLink
    decreases l, 0
  {
    WrittenLink(l.op, TokensOf(stof, l.operand), TreeOf(stof, l.operand))
  }

  function ChainOf(stof: Stof, links: seq<Operation>): (r: seq<WrittenLink>)
    ensures |r| == |links|
    decreases links, 1
  {
    if links == [] then [] else [LinkOf(stof, links[0])] + ChainOf(stof, links[1..])
  }

  /** What the grammar asks for: numbers that fit, members of names and calls only, arguments without a name in
      front, and operands that are no chains without parentheses. */
  predicate Grammatical(stof: Stof, p: Phrase)
    decreases p, 0
  {
    match p
    case Digits(negative, digits) => NumberValue(stof, negative, digits).Some?
    case Parens(inner) => Grammatical(stof, inner)
    case Inverted(inner) => IsPrimary(inner) && Grammatical(stof, inner)
    case MemberOf(parent, _) => IsNameLike(parent) && Grammatical(stof, parent)
    case Calling(_, args, _) => GrammaticalArguments(stof, args) && PositionalFirst(ListOf(stof, args))
    case MemberCalling(parent, _, args, _) =>
      IsNameLike(parent) && Grammatical(stof, parent) && GrammaticalArguments(stof, args) &&
      PositionalFirst(ListOf(stof, args))
    case Chain(first, links) =>
      IsPrimary(first) && Grammatical(stof, first) && !TreeOf(stof, first).Missing? &&
      GrammaticalLinks(stof, links)
    case _ => true
  }

  predicate GrammaticalArgument(stof: Stof, a: Argument)
    decreases a, 0
  {
    match a
    case Plain(p) => Grammatical(stof, p)
    case WithName(_, separator, p) => Grammatical(stof, p) && (separator == OperatorAssign || separator == Colon)
  }

  predicate GrammaticalArguments(stof: Stof, args: seq<Argument>)
    decreases args, 1
  {
    args != [] ==> GrammaticalArgument(stof, args[0]) && GrammaticalArguments(stof, args[1..])
  }

  predicate GrammaticalLink(stof: Stof, l: Operation)
    decreases l, 0
  {
    IsPrimary(l.operand) && Grammatical(stof, l.operand)
  }

  predicate GrammaticalLinks(stof: Stof, links: seq<Operation>)
    decreases links, 1
  {
    links != [] ==> GrammaticalLink(stof, links[0]) && GrammaticalLinks(stof, links[1..])
  }

  // What is written is read.

  lemma WiderPrimary(stof: Stof, ts: seq<Lexeme>, e: Expression, open: set<TokenType>, wider: set<TokenType>)
    requires ReadsPrimary(stof, ts, e, open) && open <= wider
    ensures ReadsPrimary(stof, ts, e, wider)
  {
  }

  lemma WiderName(stof: Stof, ts: seq<Lexeme>, e: Expression, open: set<TokenType>, wider: set<TokenType>)
    requires ReadsName(stof, ts, e, open) && open <= wider
    ensures ReadsName(stof, ts, e, wider)
  {
  }

  lemma {:induction false} NamesRead(stof: Stof, p: Phrase)
    requires IsNameLike(p) && Grammatical(stof, p)
    ensures ReadsName(stof, TokensOf(stof, p), TreeOf(stof, p), {LeftParen})
    decreases p, 1
  {
    hide ReadsName, Reads;
    match p
    case Word(name) => VariableReads(stof, name);
    case MemberOf(parent, name) =>
      NamesRead(stof, parent);
      MemberReads(stof, TokensOf(stof, parent), TreeOf(stof, parent), {LeftParen}, name);
    case Calling(name, args, trailing) =>
      ListReads(stof, args);
      CallReads(stof, name, ListOf(stof, args), trailing);
      WiderName(stof, TokensOf(stof, p), TreeOf(stof, p), {}, {LeftParen});
    case MemberCalling(parent, name, args, trailing) =>
      NamesRead(stof, parent);
      ListReads(stof, args);
      MemberCallReads(stof, TokensOf(stof, parent), TreeOf(stof, parent), {LeftParen}, name, ListOf(stof, args),
        trailing);
      WiderName(stof, TokensOf(stof, p), TreeOf(stof, p), {}, {LeftParen});
  }

  lemma {:induction false} PrimaryPhraseReads(stof: Stof, p: Phrase)
    requires IsPrimary(p) && Grammatical(stof, p)
    ensures ReadsPrimary(stof, TokensOf(stof, p), TreeOf(stof, p), NAME_EXTENDS)
    decreases p, 2
  {
    hide ReadsPrimary, ReadsName, Reads;
    var ts, e := TokensOf(stof, p), TreeOf(stof, p);
    assert {LeftParen} + {Dot} == NAME_EXTENDS;
    match p
    case Truth(b) => BoolReads(stof, b, ""); WiderPrimary(stof, ts, e, {}, NAME_EXTENDS);
    case Text(s) => StringReads(stof, s); WiderPrimary(stof, ts, e, {}, NAME_EXTENDS);
    case Digits(negative, digits) =>
      NumberReads(stof, negative, digits, NumberValue(stof, negative, digits).value);
      WiderPrimary(stof, ts, e, {}, NAME_EXTENDS);
    case Nothing => NothingReads(stof); WiderPrimary(stof, ts, e, {}, NAME_EXTENDS);
    case Parens(inner) =>
      PhraseReads(stof, inner);
      ParenReads(stof, TokensOf(stof, inner), TreeOf(stof, inner));
      WiderPrimary(stof, ts, e, {}, NAME_EXTENDS);
    case Inverted(inner) =>
      PrimaryPhraseReads(stof, inner);
      NotReads(stof, TokensOf(stof, inner), TreeOf(stof, inner), NAME_EXTENDS);
    case Word(_) | MemberOf(_, _) | Calling(_, _, _) | MemberCalling(_, _, _, _) =>
      NamesRead(stof, p);
      NamePrimary(stof, ts, e, {LeftParen});
  }

  /** Every grammatical phrase is read as its tree, in front of any token that cannot extend an expression. */
  lemma {:induction false} PhraseReads(stof: Stof, p: Phrase)
    requires Grammatical(stof, p)
    ensures Reads(stof, TokensOf(stof, p), TreeOf(stof, p))
    decreases p, 3
  {
    hide ReadsPrimary, Reads, Climb, Ordered, ToExpression;
    if p.Chain? {
      var e, c := TreeOf(stof, p.first), ChainOf(stof, p.links);
      PrimaryPhraseReads(stof, p.first);
      LinksRead(stof, p.links);
      var t := Climb(Leaf(e), 0, LinksOf(c)).0;
      ClimbAll(e, LinksOf(c), t);
      OperatorsRead(stof, TokensOf(stof, p.first), e, c, t);
    } else {
      PrimaryPhraseReads(stof, p);
      PrimaryReads(stof, TokensOf(stof, p), TreeOf(stof, p), NAME_EXTENDS);
    }
  }

  lemma {:induction false} OneArgumentReads(stof: Stof, a: Argument)
    requires GrammaticalArgument(stof, a)
    ensures ArgumentReads(stof, ArgumentOf(stof, a))
    decreases a, 4
  {
    hide Reads;
    match a
    case Plain(p) => PhraseReads(stof, p);
    case WithName(_, _, p) => PhraseReads(stof, p);
  }

  lemma {:induction false} ListReads(stof: Stof, args: seq<Argument>)
    requires GrammaticalArguments(stof, args)
    ensures forall k | 0 <= k < |args| :: ArgumentReads(stof, ListOf(stof, args)[k])
    decreases args, 5
  {
    hide ArgumentReads;
    if args != [] {
      OneArgumentReads(stof, args[0]);
      ListReads(stof, args[1..]);
    }
  }

  lemma {:induction false} OneLinkReads(stof: Stof, l: Operation)
    requires GrammaticalLink(stof, l)
    ensures LinkReads(stof, LinkOf(stof, l))
    decreases l, 4
  {
    hide ReadsPrimary;
    PrimaryPhraseReads(stof, l.operand);
  }

  lemma {:induction false} LinksRead(stof: Stof, links: seq<Operation>)
    requires GrammaticalLinks(stof, links)
    ensures forall k | 0 <= k < |links| :: LinkReads(stof, ChainOf(stof, links)[k])
    decreases links, 5
  {
    hide LinkReads;
    if links != [] {
      OneLinkReads(stof, links[0]);
      LinksRead(stof, links[1..]);
    }
  }

  // What is read was written.

  /** Types of tokens that have a contend. */
  predicate HasContend(kind: TokenType) {
    kind == Identifier || kind == Number || kind == String || kind == Comment || kind == Invalid
  }

  /** Tokens as the lexer makes them. */
  predicate Plainly(x: Input) {
    forall k | 0 <= k < |x.tokens| && !HasContend(x.tokens[k].kind) :: x.tokens[k].contend == ""
  }

  lemma PlainToken(x: Input, i: nat, kind: TokenType)
    requires Plainly(x) && Kind(x, i) == kind && !HasContend(kind) && kind != EndOfFile
    ensures i < |x.tokens| && x.tokens[i] == Tok(kind) && TokensAt(x, i, [Tok(kind)])
  {
    TokenHere(x, i);
  }

  lemma TokenHere(x: Input, i: nat)
    requires i < |x.tokens|
    ensures TokensAt(x, i, [x.tokens[i]])
  {
    assert x.tokens[i..i + 1] == [x.tokens[i]];
  }

  /** The phrase stands in front of where the parser got to, and the parser made its tree. */
  predicate Stands(x: Input, i: nat, p: Phrase, r: Parsed<Expression>) {
    Grammatical(x.stof, p) && TokensAt(x, i, TokensOf(x.stof, p)) &&
    r == Parsed(TreeOf(x.stof, p), i + |TokensOf(x.stof, p)|)
  }

  lemma {:induction false} PrimaryWritten(x: Input, i: nat) returns (p: Phrase)
    requires Plainly(x) && ParsePrimary(x, i).Parsed?
    ensures IsPrimary(p) && Stands(x, i, p, ParsePrimary(x, i))
    decreases Left(x, i), 2
  {
    hide Stands, Plainly;
    var kind := Kind(x, i);
    if kind == Identifier {
      p := NameWritten(x, i, i, None);
    } else if kind == Number || kind == OperatorMinus {
      p := NumberWritten(x, i);
    } else if kind == KeywordTrue || kind == KeywordFalse || kind == String {
      p := LiteralWritten(x, i);
    } else if kind == OperatorUnaryNot {
      var inner := PrimaryWritten(x, i + 1);
      p := Inverted(inner);
      InvertedStands(x, i, inner);
    } else {
      p := ParenWritten(x, i);
    }
  }

  lemma LiteralWritten(x: Input, i: nat) returns (p: Phrase)
    requires Plainly(x) && Kind(x, i) in {KeywordTrue, KeywordFalse, String}
    ensures IsPrimary(p) && Stands(x, i, p, ParsePrimary(x, i))
  {
    TokenHere(x, i);
    p := if Kind(x, i) == String then Text(x.tokens[i].contend) else Truth(Kind(x, i) == KeywordTrue);
  }

  lemma NumberWritten(x: Input, i: nat) returns (p: Phrase)
    requires Plainly(x) && Kind(x, i) in {Number, OperatorMinus} && ParsePrimary(x, i).Parsed?
    ensures IsPrimary(p) && Stands(x, i, p, ParsePrimary(x, i))
  {
    var negative := Kind(x, i) == OperatorMinus;
    var j := if negative then i + 1 else i;
    var digits := x.tokens[j].contend;
    TokenHere(x, j);
    if negative {
      PlainToken(x, i, OperatorMinus);
      TokensSplit(x, i, [Tok(OperatorMinus)], [Lexeme(Number, digits)]);
    } else {
      assert [] + [Lexeme(Number, digits)] == [Lexeme(Number, digits)];
    }
    NumberIs(x, i, negative, digits);
    p := Digits(negative, digits);
  }

  lemma InvertedStands(x: Input, i: nat, inner: Phrase)
    requires Plainly(x) && Kind(x, i) == OperatorUnaryNot && IsPrimary(inner) &&
      Stands(x, i + 1, inner, ParsePrimary(x, i + 1))
    ensures Stands(x, i, Inverted(inner), ParsePrimary(x, i))
  {
    hide Plainly, TokensAt;
    PlainToken(x, i, OperatorUnaryNot);
    TokensSplit(x, i, [Tok(OperatorUnaryNot)], TokensOf(x.stof, inner));
  }

  lemma {:induction false} ParenWritten(x: Input, i: nat) returns (p: Phrase)
    requires Plainly(x) && Kind(x, i) == LeftParen && ParsePrimary(x, i).Parsed?
    ensures IsPrimary(p) && Stands(x, i, p, ParsePrimary(x, i))
    decreases Left(x, i), 1
  {
    hide Plainly;
    PlainToken(x, i, LeftParen);
    if Kind(x, i + 1) == RightParen {
      PlainToken(x, i + 1, RightParen);
      assert [Tok(LeftParen), Tok(RightParen)] == [Tok(LeftParen)] + [Tok(RightParen)];
      TokensSplit(x, i, [Tok(LeftParen)], [Tok(RightParen)]);
      p := Nothing;
    } else {
      var inner := ExpressionWritten(x, i + 1);
      p := Parens(inner);
      ParensStand(x, i, inner);
    }
  }

  /** Tokens between parentheses. */
  lemma Enclosed(x: Input, i: nat, ts: seq<Lexeme>)
    requires Plainly(x) && Kind(x, i) == LeftParen && TokensAt(x, i + 1, ts) && Kind(x, i + 1 + |ts|) == RightParen
    ensures TokensAt(x, i, [Tok(LeftParen)] + (ts + [Tok(RightParen)]))
  {
    hide Plainly, TokensAt;
    PlainToken(x, i, LeftParen);
    PlainToken(x, i + 1 + |ts|, RightParen);
    TokensSplit(x, i + 1, ts, [Tok(RightParen)]);
    TokensSplit(x, i, [Tok(LeftParen)], ts + [Tok(RightParen)]);
  }

  lemma ParensStand(x: Input, i: nat, inner: Phrase)
    requires Plainly(x) && Kind(x, i) == LeftParen && Kind(x, i + 1) != RightParen && ParsePrimary(x, i).Parsed?
    requires Stands(x, i + 1, inner, ParseExpression(x, i + 1))
    ensures Stands(x, i, Parens(inner), ParsePrimary(x, i))
  {
    hide TokensAt, Plainly;
    var j := i + 1 + |TokensOf(x.stof, inner)|;
    ClosedParses(x, i, TreeOf(x.stof, inner), j);
    Enclosed(x, i, TokensOf(x.stof, inner));
  }

  lemma ClosedParses(x: Input, i: nat, e: Expression, j: nat)
    requires Kind(x, i) == LeftParen && Kind(x, i + 1) != RightParen && ParsePrimary(x, i).Parsed?
    requires ParseExpression(x, i + 1) == Parsed(e, j)
    ensures Kind(x, j) == RightParen && ParsePrimary(x, i) == Parsed(e, j + 1)
  {
    hide ParseExpression;
    assert ParseParen(x, i + 1) == Parsed(e, j + 1);
  }

  // Names.

  /** A phrase up to `start`, behind which a member is expected at `i`; or nothing yet. */
  predicate Begun(x: Input, start: nat, previous: Option<Phrase>, i: nat) {
    if previous.Some? then
      var p := previous.value;
      IsNameLike(p) && Grammatical(x.stof, p) && i == start + |TokensOf(x.stof, p)| + 1 &&
      TokensAt(x, start, TokensOf(x.stof, p) + [Tok(Dot)])
    else i == start
  }

  function TreeBefore(stof: Stof, previous: Option<Phrase>): Option<Expression> {
    if previous.Some? then Some(TreeOf(stof, previous.value)) else None
  }

  lemma {:induction false} NameWritten(x: Input, start: nat, i: nat, previous: Option<Phrase>) returns (p: Phrase)
    requires Plainly(x) && Begun(x, start, previous, i)
    requires ParseIdentifier(x, TreeBefore(x.stof, previous), i).Parsed?
    ensures IsNameLike(p) && Stands(x, start, p, ParseIdentifier(x, TreeBefore(x.stof, previous), i))
    decreases Left(x, i), 1
  {
    hide Plainly, Grammatical, TokensOf, TreeOf, TokensAt, ParseOneIdentifier, IsNameLike;
    var r := ParseOneIdentifier(x, TreeBefore(x.stof, previous), i);
    p := OneNameWritten(x, start, i, previous);
    if Kind(x, r.next) == Dot {
      PlainToken(x, r.next, Dot);
      TokensSplit(x, start, TokensOf(x.stof, p), [Tok(Dot)]);
      p := NameWritten(x, start, r.next + 1, Some(p));
    }
  }

  lemma {:induction false} OneNameWritten(x: Input, start: nat, i: nat, previous: Option<Phrase>) returns (p: Phrase)
    requires Plainly(x) && Begun(x, start, previous, i)
    requires ParseOneIdentifier(x, TreeBefore(x.stof, previous), i).Parsed?
    ensures IsNameLike(p) && Stands(x, start, p, ParseOneIdentifier(x, TreeBefore(x.stof, previous), i))
    decreases Left(x, i), 0
  {
    hide Plainly, TokensAt, ParseArguments;
    TokenHere(x, i);
    var name := x.tokens[i].contend;
    if Kind(x, i + 1) == LeftParen {
      var args, trailing := ArgumentsWritten(x, i + 2, [], []);
      p := if previous.Some? then MemberCalling(previous.value, name, args, trailing)
        else Calling(name, args, trailing);
      CallStands(x, start, i, previous, name, args, trailing);
    } else if previous.Some? {
      p := MemberOf(previous.value, name);
      var ts := TokensOf(x.stof, previous.value);
      TokensSplit(x, start, ts + [Tok(Dot)], [Id(name)]);
      assert ts + [Tok(Dot)] + [Id(name)] == ts + [Tok(Dot), Id(name)];
    } else {
      p := Word(name);
    }
  }

  /** What an argument list was parsed to. */
  predicate ListStands(x: Input, i: nat, before: seq<Expression>, namedBefore: seq<NamedArg>, args: seq<Argument>,
          trailing: bool, r: Parsed<(seq<Expression>, seq<NamedArg>)>)
  {
    var list := ListOf(x.stof, args);
    GrammaticalArguments(x.stof, args) && PositionalFirst(list) && TokensAt(x, i, ListToks(list, trailing)) &&
    (namedBefore == [] || Unnamed(list) == []) &&
    r == Parsed((before + Unnamed(list), namedBefore + Named(list)), i + |ListToks(list, trailing)|)
  }

  /** The tokens of a call, behind those of what it is a member of. */
  lemma CallTokensAt(x: Input, start: nat, i: nat, previous: Option<Phrase>, name: string, list: seq<Written>,
          trailing: bool)
    requires Plainly(x) && Begun(x, start, previous, i) && TokensAt(x, i, [Id(name)]) && Kind(x, i + 1) == LeftParen
    requires TokensAt(x, i + 2, ListToks(list, trailing)) && Kind(x, i + 2 + |ListToks(list, trailing)|) == RightParen
    ensures
      var call := CallToks(name, list, trailing);
      TokensAt(x, start, if previous.Some? then TokensOf(x.stof, previous.value) + ([Tok(Dot)] + call) else call)
  {
    hide Plainly, TokensAt, ListToks, TokensOf;
    var args := [Tok(LeftParen)] + (ListToks(list, trailing) + [Tok(RightParen)]);
    Enclosed(x, i + 1, ListToks(list, trailing));
    TokensSplit(x, i, [Id(name)], args);
    if previous.Some? {
      var front, call := TokensOf(x.stof, previous.value), CallToks(name, list, trailing);
      hide CallToks;
      TokensSplit(x, start, front + [Tok(Dot)], call);
      assert front + [Tok(Dot)] + call == front + ([Tok(Dot)] + call);
    }
  }

  lemma CallStands(x: Input, start: nat, i: nat, previous: Option<Phrase>, name: string, args: seq<Argument>,
          trailing: bool)
    requires Plainly(x) && Begun(x, start, previous, i)
    requires TokensAt(x, i, [Id(name)]) && Kind(x, i + 1) == LeftParen
    requires ParseOneIdentifier(x, TreeBefore(x.stof, previous), i).Parsed?
    requires i + 2 <= |x.tokens| && ListStands(x, i + 2, [], [], args, trailing, ParseArguments(x, i + 2, [], []))
    ensures
      var p := if previous.Some? then MemberCalling(previous.value, name, args, trailing)
        else Calling(name, args, trailing);
      Stands(x, start, p, ParseOneIdentifier(x, TreeBefore(x.stof, previous), i))
  {
    hide Plainly, TokensAt, ParseArguments, ListToks, ListOf, Unnamed, Named, PositionalFirst;
    var list := ListOf(x.stof, args);
    OneToken(x, i, Id(name));
    assert [] + Unnamed(list) == Unnamed(list) && [] + Named(list) == Named(list);
    CallTokensAt(x, start, i, previous, name, list, trailing);
  }

  // Arguments.

  /** The arguments so far with one more. */
  function WithOne(stof: Stof, a: Argument, before: seq<Expression>, namedBefore: seq<NamedArg>)
    : (seq<Expression>, seq<NamedArg>)
  {
    match a
    case Plain(p) => (before + [TreeOf(stof, p)], namedBefore)
    case WithName(name, _, p) => (before, namedBefore + [NamedArg(name, TreeOf(stof, p))])
  }

  /** One argument stands at `i`, and may follow what was read before it. */
  predicate ArgumentStands(x: Input, i: nat, namedBefore: seq<NamedArg>, a: Argument) {
    GrammaticalArgument(x.stof, a) && (namedBefore != [] ==> a.WithName?) &&
    TokensAt(x, i, ArgumentToks(ArgumentOf(x.stof, a))) && |ArgumentToks(ArgumentOf(x.stof, a))| > 0
  }

  function ArgumentEnd(x: Input, i: nat, a: Argument): nat { i + |ArgumentToks(ArgumentOf(x.stof, a))| }

  lemma LabelStands(x: Input, i: nat, before: seq<Expression>, namedBefore: seq<NamedArg>, p: Phrase)
    requires Plainly(x) && i + 2 <= |x.tokens| && Kind(x, i) == Identifier && Kind(x, i + 1) in {OperatorAssign, Colon}
    requires Stands(x, i + 2, p, ParseExpression(x, i + 2))
    ensures
      var a := WithName(x.tokens[i].contend, Kind(x, i + 1), p);
      var (b, n) := WithOne(x.stof, a, before, namedBefore);
      ArgumentStands(x, i, namedBefore, a) && ArgumentEnd(x, i, a) <= |x.tokens| &&
      ParseArguments(x, i, before, namedBefore) == MoreArguments(x, ArgumentEnd(x, i, a), b, n)
  {
    hide Plainly, TokensAt, ParseExpression, MoreArguments, ParseArguments, Grammatical, TokensOf, TreeOf;
    var ts, separator := TokensOf(x.stof, p), Kind(x, i + 1);
    LabelledParses(x, i, before, namedBefore, TreeOf(x.stof, p), i + 2 + |ts|);
    LabelAt(x, i, separator, ts);
    assert x.tokens[i] == Id(x.tokens[i].contend);
  }

  lemma LabelAt(x: Input, i: nat, separator: TokenType, ts: seq<Lexeme>)
    requires Plainly(x) && Kind(x, i + 1) == separator && separator in {OperatorAssign, Colon}
    requires TokensAt(x, i + 2, ts)
    ensures TokensAt(x, i, [x.tokens[i]] + ([Tok(separator)] + ts))
  {
    hide Plainly, TokensAt;
    TokenHere(x, i);
    PlainToken(x, i + 1, separator);
    TokensSplit(x, i + 1, [Tok(separator)], ts);
    TokensSplit(x, i, [x.tokens[i]], [Tok(separator)] + ts);
  }

  lemma PlainStands(x: Input, i: nat, before: seq<Expression>, namedBefore: seq<NamedArg>, p: Phrase)
    requires i <= |x.tokens| && Kind(x, i) != EndOfFile && Kind(x, i) != RightParen && namedBefore == []
    requires Kind(x, i) == Identifier ==> Kind(x, i + 1) != OperatorAssign && Kind(x, i + 1) != Colon
    requires Stands(x, i, p, ParseExpression(x, i))
    ensures
      var a := Plain(p);
      var (b, n) := WithOne(x.stof, a, before, namedBefore);
      ArgumentStands(x, i, namedBefore, a) && ArgumentEnd(x, i, a) <= |x.tokens| &&
      ParseArguments(x, i, before, namedBefore) == MoreArguments(x, ArgumentEnd(x, i, a), b, n)
  {
    hide TokensAt, ParseExpression, MoreArguments, ParseArguments, Grammatical, TokensOf, TreeOf;
    PositionalParses(x, i, before, namedBefore, TreeOf(x.stof, p), i + |TokensOf(x.stof, p)|);
  }

  lemma {:induction false} ArgumentWritten(x: Input, i: nat, before: seq<Expression>, namedBefore: seq<NamedArg>)
    returns (a: Argument)
    requires Plainly(x) && i <= |x.tokens| && ParseArguments(x, i, before, namedBefore).Parsed?
    requires Kind(x, i) != EndOfFile && Kind(x, i) != RightParen
    ensures ArgumentStands(x, i, namedBefore, a) && ArgumentEnd(x, i, a) <= |x.tokens|
    ensures var (b, n) := WithOne(x.stof, a, before, namedBefore);
      ParseArguments(x, i, before, namedBefore) == MoreArguments(x, ArgumentEnd(x, i, a), b, n)
    decreases Left(x, i), 5
  {
    hide Plainly, Stands, ArgumentStands, ArgumentEnd, WithOne, ParseExpression, MoreArguments;
    if Kind(x, i) == Identifier && (Kind(x, i + 1) == OperatorAssign || Kind(x, i + 1) == Colon) {
      var p := ExpressionWritten(x, i + 2);
      LabelStands(x, i, before, namedBefore, p);
      a := WithName(x.tokens[i].contend, Kind(x, i + 1), p);
    } else {
      var p := ExpressionWritten(x, i);
      PlainStands(x, i, before, namedBefore, p);
      a := Plain(p);
    }
  }

  lemma EmptyStands(x: Input, i: nat, before: seq<Expression>, namedBefore: seq<NamedArg>)
    requires i <= |x.tokens|
    ensures ListStands(x, i, before, namedBefore, [], false, Parsed((before, namedBefore), i))
  {
    assert x.tokens[i..i] == [];
    assert before + [] == before && namedBefore + [] == namedBefore;
  }

  lemma EmptyAlike(x: Input, i: nat, before: seq<Expression>, namedBefore: seq<NamedArg>, trailing: bool,
          r: Parsed<(seq<Expression>, seq<NamedArg>)>)
    requires ListStands(x, i, before, namedBefore, [], trailing, r)
    ensures ListStands(x, i, before, namedBefore, [], true, r)
  {
  }

  /** An argument in front of a list. */
  lemma {:induction false} ListGrows(x: Input, i: nat, before: seq<Expression>, namedBefore: seq<NamedArg>, a: Argument,
          rest: seq<Argument>, trailing: bool, r: Parsed<(seq<Expression>, seq<NamedArg>)>)
    requires ArgumentStands(x, i, namedBefore, a)
    requires
      var j, (b, n) := ArgumentEnd(x, i, a), WithOne(x.stof, a, before, namedBefore);
      var commas := if rest != [] || trailing then [Tok(Comma)] else [];
      TokensAt(x, j, commas) && ListStands(x, j + |commas|, b, n, rest, trailing, r)
    ensures ListStands(x, i, before, namedBefore, [a] + rest, trailing, r)
  {
    hide TokensAt, ArgumentToks, PositionalFirst, Unnamed, Named, ListToks, TokensOf, TreeOf, Grammatical;
    hide GrammaticalArgument;
    var list, all := ListOf(x.stof, rest), ListOf(x.stof, [a] + rest);
    assert ([a] + rest)[1..] == rest && all == [ArgumentOf(x.stof, a)] + list && all[1..] == list;
    ListParts(all, trailing);
    PositionalFirstOf(all);
    var ts := ArgumentToks(all[0]);
    var commas := if rest != [] || trailing then [Tok(Comma)] else [];
    TokensSplit(x, i + |ts|, commas, ListToks(list, trailing));
    TokensSplit(x, i, ts, commas + ListToks(list, trailing));
    var (b, n) := WithOne(x.stof, a, before, namedBefore);
    assert b + Unnamed(list) == before + Unnamed(all);
    assert n + Named(list) == namedBefore + Named(all);
  }

  /** The last argument, without a comma behind it. */
  lemma LastStands(x: Input, i: nat, before: seq<Expression>, namedBefore: seq<NamedArg>, a: Argument)
    requires ArgumentStands(x, i, namedBefore, a) && ArgumentEnd(x, i, a) <= |x.tokens|
    requires Kind(x, ArgumentEnd(x, i, a)) != Comma
    ensures var (b, n) := WithOne(x.stof, a, before, namedBefore);
      ListStands(x, i, before, namedBefore, [a], false, MoreArguments(x, ArgumentEnd(x, i, a), b, n))
  {
    hide TokensAt, ListStands, ArgumentStands, ArgumentEnd, ParseArguments;
    var j := ArgumentEnd(x, i, a);
    var (b, n) := WithOne(x.stof, a, before, namedBefore);
    NoTokens(x, j);
    EmptyStands(x, j, b, n);
    ListGrows(x, i, before, namedBefore, a, [], false, Parsed((b, n), j));
    assert [a] + [] == [a];
  }

  /** An argument with a comma behind it, and the arguments behind the comma. */
  lemma CommaStands(x: Input, i: nat, before: seq<Expression>, namedBefore: seq<NamedArg>, a: Argument,
          rest: seq<Argument>, trailing: bool)
    requires Plainly(x) && ArgumentStands(x, i, namedBefore, a) && ArgumentEnd(x, i, a) < |x.tokens|
    requires
      var j, (b, n) := ArgumentEnd(x, i, a), WithOne(x.stof, a, before, namedBefore);
      Kind(x, j) == Comma && ListStands(x, j + 1, b, n, rest, trailing, ParseArguments(x, j + 1, b, n))
    ensures var (b, n) := WithOne(x.stof, a, before, namedBefore);
      ListStands(x, i, before, namedBefore, [a] + rest, trailing || rest == [],
        MoreArguments(x, ArgumentEnd(x, i, a), b, n))
  {
    hide Plainly, TokensAt, ListStands, ArgumentStands, ArgumentEnd, ParseArguments;
    var j := ArgumentEnd(x, i, a);
    var (b, n) := WithOne(x.stof, a, before, namedBefore);
    var r := ParseArguments(x, j + 1, b, n);
    PlainToken(x, j, Comma);
    if rest == [] {
      EmptyAlike(x, j + 1, b, n, trailing, r);
    }
    ListGrows(x, i, before, namedBefore, a, rest, trailing || rest == [], r);
  }

  lemma {:induction false} ArgumentsWritten(x: Input, i: nat, before: seq<Expression>, namedBefore: seq<NamedArg>)
    returns (args: seq<Argument>, trailing: bool)
    requires Plainly(x) && i <= |x.tokens| && ParseArguments(x, i, before, namedBefore).Parsed?
    ensures ListStands(x, i, before, namedBefore, args, trailing, ParseArguments(x, i, before, namedBefore))
    decreases Left(x, i), 6
  {
    hide Plainly, ListStands, WithOne, ParseExpression;
    if Kind(x, i) == EndOfFile || Kind(x, i) == RightParen {
      args, trailing := [], false;
      EmptyStands(x, i, before, namedBefore);
    } else {
      hide ParseArguments, ArgumentToks, ArgumentOf, TokensAt, GrammaticalArgument;
      var a := ArgumentWritten(x, i, before, namedBefore);
      var j := ArgumentEnd(x, i, a);
      var (b, n) := WithOne(x.stof, a, before, namedBefore);
      if Kind(x, j) == Comma {
        var rest, behind := ArgumentsWritten(x, j + 1, b, n);
        CommaStands(x, i, before, namedBefore, a, rest, behind);
        args, trailing := [a] + rest, behind || rest == [];
      } else {
        LastStands(x, i, before, namedBefore, a);
        args, trailing := [a], false;
      }
    }
  }

  // Operators.

  lemma {:induction false} ChainWritten(x: Input, i: nat) returns (links: seq<Operation>)
    requires Plainly(x) && i <= |x.tokens| && ReadChain(x, i).Parsed?
    ensures GrammaticalLinks(x.stof, links)
    ensures var c := ChainOf(x.stof, links);
      TokensAt(x, i, ChainToks(c)) && ReadChain(x, i) == Parsed(LinksOf(c), i + |ChainToks(c)|)
    decreases Left(x, i), 0
  {
    hide Plainly, TokensAt, ParsePrimary, TokenToBinaryOp, KindOf, Grammatical;
    var op := TokenToBinaryOp(Kind(x, i));
    if op.None? {
      links := [];
      NoTokens(x, i);
    } else {
      var p := PrimaryWritten(x, i + 1);
      var ts := TokensOf(x.stof, p);
      var rest := ChainWritten(x, i + 1 + |ts|);
      links := [Operation(op.value, p)] + rest;
      assert links[1..] == rest;
      var l, c := LinkOf(x.stof, links[0]), ChainOf(x.stof, rest);
      assert ([l] + c)[1..] == c;
      OperatorIs(Kind(x, i));
      ChainAt(x, i, KindOf(op.value), ts, ChainToks(c));
    }
  }

  lemma ChainAt(x: Input, i: nat, kind: TokenType, ts: seq<Lexeme>, rest: seq<Lexeme>)
    requires Plainly(x) && Kind(x, i) == kind && !HasContend(kind) && kind != EndOfFile
    requires TokensAt(x, i + 1, ts) && TokensAt(x, i + 1 + |ts|, rest)
    ensures TokensAt(x, i, [Tok(kind)] + (ts + rest))
  {
    hide Plainly, TokensAt;
    PlainToken(x, i, kind);
    TokensSplit(x, i + 1, ts, rest);
    TokensSplit(x, i, [Tok(kind)], ts + rest);
  }

  lemma NoTokens(x: Input, i: nat)
    requires i <= |x.tokens|
    ensures TokensAt(x, i, [])
  {
    assert x.tokens[i..i] == [];
  }

  lemma OperatorIs(kind: TokenType)
    requires TokenToBinaryOp(kind).Some?
    ensures KindOf(TokenToBinaryOp(kind).value) == kind && !HasContend(kind) && kind != EndOfFile
  {
  }

  /** Whatever is parsed was written: a grammatical phrase stands in front of where the parser stopped, and the parser
      made its tree. */
  lemma {:induction false} ExpressionWritten(x: Input, i: nat) returns (p: Phrase)
    requires Plainly(x) && ParseExpression(x, i).Parsed?
    ensures Stands(x, i, p, ParseExpression(x, i))
    decreases Left(x, i), 3
  {
    hide Plainly, TokensAt, ParsePrimary, Climb, Ordered, ToExpression, ReadChain;
    var first := PrimaryWritten(x, i);
    p := first;
    var e, j := TreeOf(x.stof, first), i + |TokensOf(x.stof, first)|;
    if !e.Missing? {
      ExpressionIsOrdered(x, i, Leaf(e));
      var t := Climb(Leaf(e), 0, ReadChain(x, j).value).0;
      ClimbAll(e, ReadChain(x, j).value, t);
      ExpressionIsOrdered(x, i, t);
      var links := ChainWritten(x, j);
      p := Chain(first, links);
      TokensSplit(x, i, TokensOf(x.stof, first), ChainToks(ChainOf(x.stof, links)));
    }
  }

  /** The parser reads exactly the grammar: in front of a token that cannot extend an expression it succeeds exactly if
      a grammatical phrase stands there, and makes the tree of that phrase. */
  lemma {:induction false} ParsesExactly(x: Input, i: nat, e: Expression, j: nat)
    requires Plainly(x) && i <= j && EndsExpression(Kind(x, j))
    ensures ParseExpression(x, i) == Parsed(e, j) <==>
      exists p :: Grammatical(x.stof, p) && TokensAt(x, i, TokensOf(x.stof, p)) && TreeOf(x.stof, p) == e &&
        j == i + |TokensOf(x.stof, p)|
  {
    hide Plainly, TokensAt, Grammatical, TreeOf, TokensOf, ParseExpression, EndsExpression;
    if ParseExpression(x, i) == Parsed(e, j) {
      var p := ExpressionWritten(x, i);
      assert Grammatical(x.stof, p);
    }
    forall p | Grammatical(x.stof, p) && TokensAt(x, i, TokensOf(x.stof, p)) && j == i + |TokensOf(x.stof, p)|
      ensures ParseExpression(x, i) == Parsed(TreeOf(x.stof, p), j)
    {
      PhraseReads(x.stof, p);
      ReadsAt(x, i, TokensOf(x.stof, p), TreeOf(x.stof, p));
    }
  }
}
