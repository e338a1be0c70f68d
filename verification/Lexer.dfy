/** The lexer: it advances a location through the text and its terminating NUL. */
module Lexer {
  import opened Lang
  import opened Numerals
  import opened Tokens
  import opened Scanning

  class Lexer {
    const text: string
    var location: SrcLocation

    constructor (text: string)
      ensures this.text == text && Valid() && location.index == 0
    {
      this.text := text;
      location := SrcLocation(1, 1, 0);
    }

    /** The location is the one the text gives to its index. */
    ghost predicate Valid()
      reads this
    {
      location.index <= Size(text) && location == Position(text, location.index)
    }

    predicate AtEndOfFile()
      reads this
    {
      location.index >= Size(text)
    }

    function CurrentChar(): char
      reads this
    {
      CharAt(text, location.index)
    }

    predicate NextCharIs(c: char)
      reads this
    {
      !AtEndOfFile() && CharAt(text, location.index + 1) == c
    }

    /** Move past a character, or raise the exception at the end. The location stays right unless the character
        ends its line. */
    method NextChar() returns (ok: bool)
      modifies this
      ensures ok == !old(AtEndOfFile())
      ensures location == if ok then SrcLocation(old(location).line, old(location).column + 1, old(location).index + 1)
        else old(location)
      ensures old(Valid()) && !(ok && IsNewLine(old(CurrentChar()))) ==> Valid()
    {
      if AtEndOfFile() {
        return false;
      }
      location := SrcLocation(location.line, location.column + 1, location.index + 1);
      ok := true;
    }

    /** Move over the characters that meet a condition; a new line starts a new line. */
    method SkipCharsWhile(condition: nat -> bool)
      requires Valid()
      modifies this
      ensures Valid() && location.index == SkipWhile(Size(text), condition, old(location.index))
    {
      while condition(location.index) && !AtEndOfFile()
        invariant Valid() && SkipWhile(Size(text), condition, old(location.index)) ==
          SkipWhile(Size(text), condition, location.index)
        decreases Size(text) - location.index
      {
        if IsNewLine(CurrentChar()) {
          location := SrcLocation(location.line + 1, 0, location.index);
        }
        var _ := NextChar();
      }
    }

    method MakeSingleCharToken(kind: TokenType) returns (r: Scan)
      requires Valid() && !AtEndOfFile() && !IsNewLine(CurrentChar())
      modifies this
      ensures r == Single(text, kind, old(location.index)) && Valid() && location.index == r.next
    {
      var start := location;
      var _ := NextChar();
      r := Scan(Token(kind, "", start, None), location.index);
    }

    method MakeDoubleCharToken(kind: TokenType) returns (r: Scan)
      requires Valid() && location.index + 2 <= Size(text) && !IsNewLine(CurrentChar()) &&
        !IsNewLine(CharAt(text, location.index + 1))
      modifies this
      ensures r == Double(text, kind, old(location.index)) && Valid() && location.index == r.next
    {
      var start := location;
      var _ := NextChar();
      var _ := NextChar();
      r := Scan(Token(kind, "", start, Some(location)), location.index);
    }

    method MakeIdentifierOrKeyword() returns (r: Scan)
      requires Valid() && location.index <= |text|
      modifies this
      ensures r == ScanWord(text, old(location.index)) && Valid() && location.index == r.next
    {
      var start := location;
      SkipCharsWhile(InnerAt(text));
      var contend := SubText(text, start.index, location.index);
      var kind := KeywordOrIdentifier(contend);
      r := Scan(Token(kind, if kind == Identifier then contend else "", start, Some(location)), location.index);
    }

    method MakeNumber() returns (r: Scan)
      requires Valid() && location.index <= |text|
      modifies this
      ensures r == ScanNumber(text, old(location.index)) && Valid() && location.index == r.next
    {
      var start := location;
      SkipCharsWhile(DigitAt(text));
      if CurrentChar() == '.' {
        var _ := NextChar();
        SkipCharsWhile(DigitAt(text));
      }
      r := Scan(Token(Number, SubText(text, start.index, location.index), start, Some(location)), location.index);
    }

    /** The exception is raised by moving past the end. */
    method MakeString() returns (r: Scan)
      requires Valid() && location.index <= |text| && CurrentChar() == '"'
      modifies this
      ensures r == ScanString(text, old(location.index)) && Valid() && (r.Scan? ==> location.index == r.next)
    {
      var start := location;
      var _ := NextChar();
      var startText := location;
      SkipCharsWhile(NoQuoteAt(text));
      var endText := location;
      assert !AtEndOfFile() ==> !NoQuoteAt(text)(location.index);
      var closed := NextChar();
      if !closed {
        return OutOfRange;
      }
      r := Scan(Token(String, SubText(text, startText.index, endText.index), start, Some(location)), location.index);
    }

    method MakeOneLineComment() returns (r: Scan)
      requires Valid() && location.index + 2 <= Size(text) && CurrentChar() == '/' && NextCharIs('/')
      modifies this
      ensures r == ScanOneLineComment(text, old(location.index)) && Valid() && location.index == r.next
    {
      var start := location;
      var _ := NextChar();
      var _ := NextChar();
      var startText := location;
      SkipCharsWhile(NoNewLineAt(text));
      r := Scan(Token(Comment, SubText(text, startText.index, location.index), start, Some(location)), location.index);
    }

    method MakeMultiLineComment() returns (r: Scan)
      requires Valid() && location.index + 2 <= Size(text) && CurrentChar() == '/' && NextCharIs('*')
      modifies this
      ensures r == ScanMultiLineComment(text, old(location.index)) && Valid() && (r.Scan? ==> location.index == r.next)
    {
      var start := location;
      var _ := NextChar();
      var _ := NextChar();
      var startText := location;
      SkipCharsWhile(NoCommentEndAt(text));
      var endText := location;
      assert !AtEndOfFile() ==> !NoCommentEndAt(text)(location.index);
      var closed := NextChar();
      if !closed {
        return OutOfRange;
      }
      var _ := NextChar();
      r := Scan(Token(Comment, SubText(text, startText.index, endText.index), start, Some(location)), location.index);
    }

    method GetNextToken() returns (r: Scan)
      requires Valid()
      modifies this
      ensures r == NextToken(text, old(location.index)) && Valid() && (r.Scan? ==> location.index == r.next)
    {
      SkipCharsWhile(SpaceAt(text));
      if AtEndOfFile() {
        return Scan(Token(EndOfFile, "", location, None), location.index);
      }
      assert !SpaceAt(text)(location.index);
      r := TokenHere();
    }

    method TokenHere() returns (r: Scan)
      requires Valid() && location.index <= |text| && !IsSpace(CurrentChar())
      modifies this
      ensures r == ScanAt(text, old(location.index)) && Valid() && (r.Scan? ==> location.index == r.next)
    {
      if IsLetter(CurrentChar()) {
        r := MakeIdentifierOrKeyword();
        return;
      }
      if IsDigit(CurrentChar()) {
        r := MakeNumber();
        return;
      }
      if CurrentChar() == '"' {
        r := MakeString();
        return;
      }
      match CurrentChar()
      case '+' => r := MakeSingleCharToken(OperatorPlus);
      case '-' => r := MakeSingleCharToken(OperatorMinus);
      case '*' => r := MakeSingleCharToken(OperatorMultiply);
      case '/' =>
        if NextCharIs('/') {
          r := MakeOneLineComment();
        } else if NextCharIs('*') {
          r := MakeMultiLineComment();
        } else {
          r := MakeSingleCharToken(OperatorDivide);
        }
      case '=' =>
        if NextCharIs('=') {
          r := MakeDoubleCharToken(OperatorEquals);
        } else {
          r := MakeSingleCharToken(OperatorAssign);
        }
      case '!' =>
        if NextCharIs('=') {
          r := MakeDoubleCharToken(OperatorNotEquals);
        } else {
          r := MakeSingleCharToken(OperatorUnaryNot);
        }
      case '>' =>
        if NextCharIs('=') {
          r := MakeDoubleCharToken(OperatorGreaterEqualThen);
        } else {
          r := MakeSingleCharToken(OperatorGreaterThen);
        }
      case '<' =>
        if NextCharIs('=') {
          r := MakeDoubleCharToken(OperatorLessEqualThen);
        } else {
          r := MakeSingleCharToken(OperatorLessThen);
        }
      case '|' =>
        if NextCharIs('|') {
          r := MakeDoubleCharToken(OperatorLogicOr);
        } else {
          r := Ampersand();
        }
      case '&' => r := Ampersand();
      case _ => r := Punctuation();
    }

    /** The case of '&', which that of '|' falls through to. */
    method Ampersand() returns (r: Scan)
      requires Valid() && location.index < |text|
      requires CurrentChar() == '&' || (CurrentChar() == '|' && !NextCharIs('|'))
      modifies this
      ensures r == ScanAt(text, old(location.index)) && Valid() && location.index == r.next
    {
      if NextCharIs('&') {
        r := MakeDoubleCharToken(OperatorLogicAnd);
      } else {
        r := MakeSingleCharToken(Comma);
      }
    }

    /** The remaining characters of a token of their own; anything else is invalid. */
    method Punctuation() returns (r: Scan)
      requires Valid() && location.index <= |text| && !IsSpace(CurrentChar())
      requires !IsLetter(CurrentChar()) && !IsDigit(CurrentChar()) &&
        CurrentChar() !in {'"', '+', '-', '*', '/', '=', '!', '>', '<', '|', '&'}
      modifies this
      ensures r == ScanAt(text, old(location.index)) && Valid() && location.index == r.next
    {
      match CurrentChar()
      case ',' => r := MakeSingleCharToken(Comma);
      case '.' => r := MakeSingleCharToken(Dot);
      case ';' => r := MakeSingleCharToken(Semicolon);
      case ':' => r := MakeSingleCharToken(Colon);
      case '(' => r := MakeSingleCharToken(LeftParen);
      case ')' => r := MakeSingleCharToken(RightParen);
      case '{' => r := MakeSingleCharToken(LeftBrace);
      case '}' => r := MakeSingleCharToken(RightBrace);
      case _ =>
        var token := Token(Invalid, [CurrentChar()], location, None);
        var _ := NextChar();
        r := Scan(token, location.index);
    }

    /** All tokens of the text; None stands for the exception. */
    method GetAllTokens() returns (r: Option<seq<Token>>)
      requires Valid() && location.index == 0
      modifies this
      ensures r == AllTokens(text, 0)
    {
      hide NextToken, Position, AllTokens;
      var tokens: seq<Token> := [];
      AppendNothing(AllTokens(text, 0));
      var next := GetNextToken();
      ghost var from: nat := 0;
      while next.Scan? && !AtEndOfFile()
        invariant Valid() && from <= |text| && next == NextToken(text, from) &&
          (next.Scan? ==> location.index == next.next)
        invariant AllTokens(text, 0) == Append(tokens, AllTokens(text, from))
        decreases if next.Scan? then Size(text) - location.index + 1 else 0
      {
        TokensStep(text, from, tokens);
        if next.token.kind != Comment {
          tokens := tokens + [next.token];
        }
        from := location.index;
        next := GetNextToken();
      }
      TokensEnd(text, from);
      if next.OutOfRange? {
        return None;
      }
      r := Some(tokens + [Token(EndOfFile, "", location, None)]);
    }
  }

  lemma AppendNothing(rest: Option<seq<Token>>)
    ensures Append([], rest) == rest
  {
    assert rest.Some? ==> [] + rest.value == rest.value;
  }

  /** One turn of the loop. */
  lemma TokensStep(text: string, from: nat, tokens: seq<Token>)
    requires from <= |text| && NextToken(text, from).Scan? && NextToken(text, from).next <= |text|
    ensures
      var next := NextToken(text, from);
      Append(tokens, AllTokens(text, from)) ==
      Append(if next.token.kind == Comment then tokens else tokens + [next.token], AllTokens(text, next.next))
  {
    var next := NextToken(text, from);
    var rest := AllTokens(text, next.next);
    if rest.Some? {
      assert tokens + (Kept(next.token) + rest.value) == (tokens + Kept(next.token)) + rest.value;
      assert tokens + [] == tokens;
    }
  }

  /** The end of the loop: the exception, or the end of the text. */
  lemma TokensEnd(text: string, from: nat)
    requires from <= |text|
    ensures
      var next := NextToken(text, from);
      if next.OutOfRange? then AllTokens(text, from).None?
      else next.next >= Size(text) ==>
        AllTokens(text, from) == Some([Token(EndOfFile, "", Position(text, next.next), None)])
  {
  }
}
