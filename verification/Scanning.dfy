/** What the lexer reads at a position, as functions of the text.

    The text is followed by a terminating NUL, which the lexer counts as part of the input.
 */
module Scanning {
  import opened Lang
  import opened Numerals
  import opened Tokens

  const NUL: char := '\0'

  function CharAt(text: string, i: nat): char {
    if i < |text| then text[i] else NUL
  }

  predicate IsNewLine(c: char) { c == '\n' }
  predicate IsSpace(c: char) { c == '\n' || c == ' ' || c == '\t' || c == '\r' }
  predicate IsLetter(c: char) { 'a' <= c <= 'z' || 'A' <= c <= 'Z' }
  predicate IsInner(c: char) { IsLetter(c) || IsDigit(c) || c == '_' }

  const SMALL := "abcdefghijklmnopqrstuvwxyz"
  const CAPITAL := "ABCDEFGHIJKLMNOPQRSTUVWXYZ"
  const DIGITS := "0123456789"

  /** The characters of words, numbers and spaces, one by one. */
  lemma {:induction false} CharacterClasses(c: char)
    ensures IsLetter(c) <==> c in SMALL + CAPITAL
    ensures IsInner(c) <==> c in SMALL + CAPITAL + DIGITS + "_"
    ensures IsDigit(c) <==> c in DIGITS
    ensures IsSpace(c) <==> c in " \t\r\n"
    ensures IsNewLine(c) <==> c in "\n"
  {
    RangeIs('a', 'z', SMALL, c);
    RangeIs('A', 'Z', CAPITAL, c);
    RangeIs('0', '9', DIGITS, c);
    var spaces := " \t\r\n";
    assert spaces[0] == ' ' && spaces[1] == '\t' && spaces[2] == '\r' && spaces[3] == '\n';
  }

  lemma RangeIs(first: char, last: char, all: string, c: char)
    requires |all| == last as int - first as int + 1
    requires forall i | 0 <= i < |all| :: all[i] as int == first as int + i
    ensures first <= c <= last <==> c in all
  {
    if first <= c <= last {
      assert all[c as int - first as int] == c;
    }
  }

  /** Where the location stands after `i` characters. */
  function Position(text: string, i: nat): (p: SrcLocation)
    ensures p.index == i
    decreases i
  {
    if i == 0 then SrcLocation(1, 1, 0)
    else
      var p := Position(text, i - 1);
      if IsNewLine(CharAt(text, i - 1)) then SrcLocation(p.line + 1, 1, i) else SrcLocation(p.line, p.column + 1, i)
  }

  function NewLines(text: string): nat {
    if text == "" then 0 else NewLines(text[..|text|-1]) + if IsNewLine(text[|text|-1]) then 1 else 0
  }

  /** Index of the first character of the line that index `i` is on. */
  function LineStart(text: string, i: nat): (s: nat)
    requires i <= |text|
    ensures s <= i && (forall k | s <= k < i :: !IsNewLine(text[k])) && (s > 0 ==> IsNewLine(text[s-1]))
    decreases i
  {
    if i == 0 || IsNewLine(text[i-1]) then i else LineStart(text, i - 1)
  }

  /** Line and column of an index follow from the new lines before it. */
  lemma {:induction false} PositionIs(text: string, i: nat)
    requires i <= |text|
    ensures Position(text, i) == SrcLocation(NewLines(text[..i]) + 1, i - LineStart(text, i) + 1, i)
    decreases i
  {
    if i > 0 {
      PositionIs(text, i - 1);
      assert text[..i][..i-1] == text[..i-1];
    }
  }

  // Conditions under which characters are skipped.

  function SpaceAt(text: string): nat -> bool { (i: nat) => IsSpace(CharAt(text, i)) }
  function InnerAt(text: string): nat -> bool { (i: nat) => IsInner(CharAt(text, i)) }
  function DigitAt(text: string): nat -> bool { (i: nat) => IsDigit(CharAt(text, i)) }
  function NoQuoteAt(text: string): nat -> bool { (i: nat) => CharAt(text, i) != '"' }
  function NoNewLineAt(text: string): nat -> bool { (i: nat) => !IsNewLine(CharAt(text, i)) }
  function NoCommentEndAt(text: string): nat -> bool {
    (i: nat) => !(CharAt(text, i) == '*' && CharAt(text, i + 1) == '/')
  }

  /** The first index from `i` on that fails the condition, or `size`. */
  function SkipWhile(size: nat, p: nat -> bool, i: nat): (j: nat)
    requires i <= size
    ensures i <= j <= size && (forall k | i <= k < j :: p(k)) && (j < size ==> !p(j))
    decreases size - i
  {
    if i < size && p(i) then SkipWhile(size, p, i + 1) else i
  }

  lemma {:induction false} SkipsTo(size: nat, p: nat -> bool, i: nat, j: nat)
    requires i <= j <= size && (forall k | i <= k < j :: p(k)) && (j < size ==> !p(j))
    ensures SkipWhile(size, p, i) == j
    decreases size - i
  {
    if i < j {
      SkipsTo(size, p, i + 1, j);
    }
  }

  /** The text with its terminating NUL. */
  function Size(text: string): nat { |text| + 1 }

  /** What was read: a token up to index `next`, or the exception on reading past the end. */
  datatype Scan = Scan(token: Token, next: nat) | OutOfRange

  function Single(text: string, kind: TokenType, i: nat): Scan {
    Scan(Token(kind, "", Position(text, i), None), i + 1)
  }

  function Double(text: string, kind: TokenType, i: nat): Scan {
    Scan(Token(kind, "", Position(text, i), Some(Position(text, i + 2))), i + 2)
  }

  /** A token up to index `j` whose contend is `text[a..b]`. */
  function Long(text: string, kind: TokenType, contend: string, i: nat, j: nat): Scan {
    Scan(Token(kind, contend, Position(text, i), Some(Position(text, j))), j)
  }

  /** Characters `a` up to `b` of the text and its NUL. */
  function SubText(text: string, a: nat, b: nat): string
    requires a <= b <= Size(text)
  {
    (text + [NUL])[a..b]
  }

  function ScanWord(text: string, i: nat): Scan
    requires i <= |text|
  {
    var j := SkipWhile(Size(text), InnerAt(text), i);
    var word := SubText(text, i, j);
    var kind := KeywordOrIdentifier(word);
    Long(text, kind, if kind == Identifier then word else "", i, j)
  }

  /** Digits, and a dot with more digits. */
  function NumberEnd(text: string, i: nat): (j: nat)
    requires i <= |text|
    ensures i <= j <= |text|
  {
    var j := SkipWhile(Size(text), DigitAt(text), i);
    assert !DigitAt(text)(|text|);
    if CharAt(text, j) == '.' then
      var k := SkipWhile(Size(text), DigitAt(text), j + 1);
      k
    else j
  }

  function ScanNumber(text: string, i: nat): Scan
    requires i <= |text|
  {
    Long(text, Number, SubText(text, i, NumberEnd(text, i)), i, NumberEnd(text, i))
  }

  /** A string without its closing quote runs into the end. */
  function ScanString(text: string, i: nat): Scan
    requires i <= |text|
  {
    var j := SkipWhile(Size(text), NoQuoteAt(text), i + 1);
    if j >= Size(text) then OutOfRange else Long(text, String, SubText(text, i + 1, j), i, j + 1)
  }

  function ScanOneLineComment(text: string, i: nat): Scan
    requires i + 2 <= Size(text)
  {
    var j := SkipWhile(Size(text), NoNewLineAt(text), i + 2);
    Long(text, Comment, SubText(text, i + 2, j), i, j)
  }

  function ScanMultiLineComment(text: string, i: nat): Scan
    requires i + 2 <= Size(text)
  {
    var j := SkipWhile(Size(text), NoCommentEndAt(text), i + 2);
    if j >= Size(text) then OutOfRange else Long(text, Comment, SubText(text, i + 2, j), i, j + 2)
  }

  /** One token or comment at `i`. The cases of '|' and '&' fall through to the ones below them. */
  function ScanAt(text: string, i: nat): Scan
    requires i <= |text|
  {
    var c, d := CharAt(text, i), CharAt(text, i + 1);
    if IsLetter(c) then ScanWord(text, i)
    else if IsDigit(c) then ScanNumber(text, i)
    else if c == '"' then ScanString(text, i)
    else if c == '+' then Single(text, OperatorPlus, i)
    else if c == '-' then Single(text, OperatorMinus, i)
    else if c == '*' then Single(text, OperatorMultiply, i)
    else if c == '/' then
      if d == '/' then ScanOneLineComment(text, i)
      else if d == '*' then ScanMultiLineComment(text, i)
      else Single(text, OperatorDivide, i)
    else if c == '=' then if d == '=' then Double(text, OperatorEquals, i) else Single(text, OperatorAssign, i)
    else if c == '!' then if d == '=' then Double(text, OperatorNotEquals, i) else Single(text, OperatorUnaryNot, i)
    else if c == '>' then if d == '=' then Double(text, OperatorGreaterEqualThen, i)
      else Single(text, OperatorGreaterThen, i)
    else if c == '<' then if d == '=' then Double(text, OperatorLessEqualThen, i) else Single(text, OperatorLessThen, i)
    else if c == '|' && d == '|' then Double(text, OperatorLogicOr, i)
    else if (c == '|' || c == '&') && d == '&' then Double(text, OperatorLogicAnd, i)
    else if c == '|' || c == '&' || c == ',' then Single(text, Comma, i)
    else if c == '.' then Single(text, Dot, i)
    else if c == ';' then Single(text, Semicolon, i)
    else if c == ':' then Single(text, Colon, i)
    else if c == '(' then Single(text, LeftParen, i)
    else if c == ')' then Single(text, RightParen, i)
    else if c == '{' then Single(text, LeftBrace, i)
    else if c == '}' then Single(text, RightBrace, i)
    else Scan(Token(Invalid, [c], Position(text, i), None), i + 1)
  }

  lemma ScanMoves(text: string, i: nat)
    requires i <= |text| && ScanAt(text, i).Scan?
    ensures i < ScanAt(text, i).next <= Size(text)
  {
    var c := CharAt(text, i);
    if IsLetter(c) {
      assert InnerAt(text)(i);
    } else if IsDigit(c) {
      assert DigitAt(text)(i);
    } else if c == '/' && CharAt(text, i + 1) == '*' && ScanAt(text, i).Scan? {
      var j := SkipWhile(Size(text), NoCommentEndAt(text), i + 2);
      assert !NoCommentEndAt(text)(j);
    }
  }

  function SpacesEnd(text: string, i: nat): (j: nat)
    requires i <= Size(text)
    ensures i <= j <= Size(text) && (i <= |text| ==> j <= |text|)
  {
    var j := SkipWhile(Size(text), SpaceAt(text), i);
    assert !SpaceAt(text)(|text|);
    j
  }

  /** The next token, behind any spaces. */
  function NextToken(text: string, i: nat): (r: Scan)
    requires i <= Size(text)
    ensures r.Scan? && i <= |text| ==> i < r.next <= Size(text)
  {
    var j := SpacesEnd(text, i);
    if j >= Size(text) then Scan(Token(EndOfFile, "", Position(text, j), None), j)
    else
      assert ScanAt(text, j).Scan? ==> j < ScanAt(text, j).next <= Size(text) by {
        if ScanAt(text, j).Scan? { ScanMoves(text, j); }
      }
      ScanAt(text, j)
  }

  /** What a token adds to the list: comments are dropped. */
  function Kept(t: Token): seq<Token> {
    if t.kind == Comment then [] else [t]
  }

  function Append(ts: seq<Token>, rest: Option<seq<Token>>): Option<seq<Token>> {
    if rest.None? then None else Some(ts + rest.value)
  }

  /** All tokens from `i` on, without comments and closed by EndOfFile; None is the exception. The token that
      reaches the end is not kept: it is the NUL, or a comment that ran into it. */
  function AllTokens(text: string, i: nat): Option<seq<Token>>
    requires i <= |text|
    decreases |text| - i
  {
    var r := NextToken(text, i);
    if r.OutOfRange? then None
    else if r.next >= Size(text) then Some([Token(EndOfFile, "", Position(text, r.next), None)])
    else Append(Kept(r.token), AllTokens(text, r.next))
  }
}
