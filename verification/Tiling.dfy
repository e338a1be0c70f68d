/** Tokens, spaces and comments tile the text, at the locations its new lines give. */
module Tiling {
  import opened Lang
  import opened Numerals
  import opened Tokens
  import opened Scanning

  /** A comment from `a` up to `e`: to the end of its line, or to the first end mark. */
  predicate IsComment(text: string, a: nat, e: nat) {
    a + 2 <= e <= Size(text) && CharAt(text, a) == '/' &&
    ((CharAt(text, a + 1) == '/' && (forall k | a + 2 <= k < e :: NoNewLineAt(text)(k)) &&
      (e < Size(text) ==> IsNewLine(CharAt(text, e)))) ||
     (CharAt(text, a + 1) == '*' && a + 4 <= e <= |text| && text[e-2] == '*' && text[e-1] == '/' &&
      forall k | a + 2 <= k < e - 2 :: NoCommentEndAt(text)(k)))
  }

  /** Only spaces and comments from `a` up to `b`. */
  ghost predicate Blank(text: string, a: nat, b: nat)
    decreases b - a
  {
    a == b || (a < b && ((IsSpace(CharAt(text, a)) && Blank(text, a + 1, b)) ||
      exists e :: a < e <= b && IsComment(text, a, e) && Blank(text, e, b)))
  }

  /** The contend of a token up to `e` is what the text says there. */
  predicate Spelled(text: string, t: Token, e: nat)
    requires t.start.index < e <= |text|
  {
    var s := text[t.start.index..e];
    match t.kind
    case Number => t.contend == s && IsDigit(s[0])
    case Identifier => t.contend == s && IsLetter(s[0]) && KeywordOrIdentifier(s) == Identifier
    case String => s == "\"" + t.contend + "\"" && '"' !in t.contend
    case Comma => s == "," || s == "|" || s == "&"
    case OperatorLogicAnd => s == "&&" || s == "|&"
    case Invalid => t.contend == s
    case _ => s == Spelling(t.kind)
  }

  /** Token `t` covers the text up to `e`, and its locations are those of its first character and of `e`. */
  predicate Covers(text: string, t: Token, e: nat) {
    t.start.index < e <= |text| && t.start == Position(text, t.start.index) && Spelled(text, t, e) &&
    if t.end.Some? then t.end.value == Position(text, e) else e == t.start.index + 1
  }

  /** From `i` on the text is blank but for the tokens, which do not overlap; the last one is EndOfFile. */
  ghost predicate Tiled(text: string, i: nat, ts: seq<Token>)
    decreases ts
  {
    ts != [] &&
    if |ts| == 1 then
      ts[0].kind == EndOfFile && ts[0].start == Position(text, Size(text)) &&
        (Blank(text, i, |text|) || Blank(text, i, Size(text)))
    else Blank(text, i, ts[0].start.index) && exists e: nat :: Covers(text, ts[0], e) && Tiled(text, e, ts[1..])
  }

  lemma {:induction false} SpacesAreBlank(text: string, i: nat, j: nat)
    requires i <= j && forall k | i <= k < j :: SpaceAt(text)(k)
    ensures Blank(text, i, j)
    decreases j - i
  {
    if i < j {
      assert SpaceAt(text)(i);
      SpacesAreBlank(text, i + 1, j);
    }
  }

  lemma {:induction false} BlankTrans(text: string, a: nat, b: nat, c: nat)
    requires Blank(text, a, b) && Blank(text, b, c) && a <= b <= c
    ensures Blank(text, a, c)
    decreases b - a
  {
    if a < b {
      if IsSpace(CharAt(text, a)) && Blank(text, a + 1, b) {
        BlankTrans(text, a + 1, b, c);
      } else {
        var e :| a < e <= b && IsComment(text, a, e) && Blank(text, e, b);
        BlankTrans(text, e, b, c);
      }
    }
  }

  /** What starts at a comment mark is a comment, and nothing else is. */
  lemma ScannedComment(text: string, i: nat)
    requires i <= |text| && ScanAt(text, i).Scan? && ScanAt(text, i).token.kind == Comment
    ensures IsComment(text, i, ScanAt(text, i).next)
  {
    var r := ScanAt(text, i);
    assert CharAt(text, i) == '/';
    if CharAt(text, i + 1) == '*' {
      var j := SkipWhile(Size(text), NoCommentEndAt(text), i + 2);
      assert !NoCommentEndAt(text)(j);
    } else {
      var j := SkipWhile(Size(text), NoNewLineAt(text), i + 2);
      assert j < Size(text) ==> !NoNewLineAt(text)(j);
    }
  }

  /** A token that is not a comment covers what was read, unless it is the terminating NUL. */
  lemma ScannedToken(text: string, i: nat)
    requires i <= |text| && ScanAt(text, i).Scan? && ScanAt(text, i).token.kind != Comment
    ensures var r := ScanAt(text, i);
      if i == |text| then r.next == Size(text)
        else r.next <= |text| && r.token.start.index == i && Covers(text, r.token, r.next)
  {
    if i < |text| {
      hide Covers;
      if IsLetter(text[i]) {
        ScannedWord(text, i);
      } else if IsDigit(text[i]) {
        ScannedNumber(text, i);
      } else if text[i] == '"' {
        ScannedString(text, i);
      } else {
        ScannedSymbol(text, i);
      }
    }
  }

  /** The scanned token is one or two characters long and spelled as they say. */
  predicate SymbolAt(text: string, i: nat) {
    i < |text| && ScanAt(text, i).Scan? &&
    var r := ScanAt(text, i);
    (r == Single(text, r.token.kind, i) &&
      (text[i..i + 1] == Spelling(r.token.kind) || (r.token.kind == Comma && text[i] in {'|', '&'}))) ||
    (r == Double(text, r.token.kind, i) && i + 2 <= |text| && r.token.kind !in {Comma, Invalid} &&
     (text[i..i + 2] == Spelling(r.token.kind) || (r.token.kind == OperatorLogicAnd && text[i..i + 2] == "|&"))) ||
    (r.token == Token(Invalid, text[i..i + 1], Position(text, i), None) && r.next == i + 1)
  }

  lemma ScannedSymbol(text: string, i: nat)
    requires i < |text| && !IsLetter(text[i]) && !IsDigit(text[i]) && text[i] != '"'
    requires ScanAt(text, i).Scan? && ScanAt(text, i).token.kind != Comment
    ensures ScanAt(text, i).token.start.index == i && Covers(text, ScanAt(text, i).token, ScanAt(text, i).next)
  {
    hide ScanAt, Covers, Position;
    if text[i] in {'=', '!', '>', '<'} {
      ComparisonAt(text, i);
    } else if text[i] in {'|', '&'} {
      BarAt(text, i);
    } else {
      PlainAt(text, i);
    }
    var r := ScanAt(text, i);
    if r.token.end.Some? {
      DoubleCovers(text, i, r.token.kind);
    } else {
      SingleCovers(text, i, r.token);
    }
  }

  lemma ComparisonAt(text: string, i: nat)
    requires i < |text| && text[i] in {'=', '!', '>', '<'}
    ensures SymbolAt(text, i)
  {
    hide Position;
    assert text[i..i + 1] == [text[i]];
    assert CharAt(text, i + 1) == '=' ==> text[i..i + 2] == [text[i], '='];
  }

  lemma BarAt(text: string, i: nat)
    requires i < |text| && text[i] in {'|', '&'}
    ensures SymbolAt(text, i)
  {
    hide Position;
    assert CharAt(text, i + 1) in {'|', '&'} ==> text[i..i + 2] == [text[i], text[i + 1]];
  }

  lemma PlainAt(text: string, i: nat)
    requires i < |text| && !IsLetter(text[i]) && !IsDigit(text[i]) && text[i] !in {'"', '=', '!', '>', '<', '|', '&'}
    requires ScanAt(text, i).Scan? && ScanAt(text, i).token.kind != Comment
    ensures SymbolAt(text, i)
  {
    hide Position, SkipWhile;
    assert text[i..i + 1] == [text[i]];
  }

  lemma DoubleCovers(text: string, i: nat, kind: TokenType)
    requires i + 2 <= |text| && kind !in {Number, Identifier, String, Comma, Invalid}
    requires text[i..i + 2] == Spelling(kind) || (kind == OperatorLogicAnd && text[i..i + 2] == "|&")
    ensures Covers(text, Double(text, kind, i).token, i + 2)
  {
    hide Position;
  }

  lemma SingleCovers(text: string, i: nat, t: Token)
    requires i < |text| && t.start == Position(text, i) && t.end.None? && t.kind !in {Number, Identifier, String}
    requires
      if t.kind == Invalid then t.contend == text[i..i + 1]
      else text[i..i + 1] == Spelling(t.kind) || (t.kind == Comma && text[i] in {'|', '&'})
    ensures Covers(text, t, i + 1)
  {
    hide Position;
    assert text[i..i + 1] == [text[i]];
  }

  lemma ScannedNumber(text: string, i: nat)
    requires i < |text| && IsDigit(text[i])
    ensures ScanAt(text, i).token.start.index == i && Covers(text, ScanAt(text, i).token, ScanAt(text, i).next)
  {
    hide Position;
    assert DigitAt(text)(i);
    var j := NumberEnd(text, i);
    assert SubText(text, i, j) == text[i..j];
  }

  lemma ScannedString(text: string, i: nat)
    requires i < |text| && text[i] == '"' && ScanAt(text, i).Scan?
    ensures ScanAt(text, i).token.start.index == i && Covers(text, ScanAt(text, i).token, ScanAt(text, i).next)
  {
    hide Position;
    var j := SkipWhile(Size(text), NoQuoteAt(text), i + 1);
    assert !NoQuoteAt(text)(j) && NoQuoteAt(text)(|text|);
    assert text[i..j + 1] == "\"" + text[i + 1..j] + "\"";
    assert SubText(text, i + 1, j) == text[i + 1..j];
    forall k | i + 1 <= k < j
      ensures text[k] != '"'
    {
      assert NoQuoteAt(text)(k);
    }
  }

  lemma ScannedWord(text: string, i: nat)
    requires i < |text| && IsLetter(text[i])
    ensures ScanAt(text, i).token.start.index == i && Covers(text, ScanAt(text, i).token, ScanAt(text, i).next)
  {
    var j := SkipWhile(Size(text), InnerAt(text), i);
    assert InnerAt(text)(i) && !InnerAt(text)(|text|);
    assert SubText(text, i, j) == text[i..j];
    var word := text[i..j];
    var kind := KeywordOrIdentifier(word);
    assert kind != Identifier ==> word == Spelling(kind);
  }

  /** On every text that lexes without exception the tokens tile it, with the right locations. */
  lemma {:induction false} AllTokensTile(text: string, i: nat)
    requires i <= |text| && AllTokens(text, i).Some?
    ensures Tiled(text, i, AllTokens(text, i).value)
    decreases |text| - i
  {
    hide ScanAt, SpacesEnd, Covers, IsComment, Position;
    var j, r := SpacesEnd(text, i), NextToken(text, i);
    assert Blank(text, i, j) && r == ScanAt(text, j) by { NextTokenIs(text, i); }
    if r.token.kind == Comment {
      ScannedComment(text, j);
      assert Blank(text, r.next, r.next);
      BlankTrans(text, i, j, r.next);
      if r.next < Size(text) {
        AllTokensTile(text, r.next);
        BlankBefore(text, i, r.next, AllTokens(text, r.next).value);
        assert Kept(r.token) + AllTokens(text, r.next).value == AllTokens(text, r.next).value;
      }
    } else {
      ScannedToken(text, j);
      if r.next < Size(text) {
        AllTokensTile(text, r.next);
        TokenBefore(text, i, r.token, r.next, AllTokens(text, r.next).value);
      }
    }
  }

  lemma NextTokenIs(text: string, i: nat)
    requires i <= |text|
    ensures Blank(text, i, SpacesEnd(text, i)) && NextToken(text, i) == ScanAt(text, SpacesEnd(text, i))
    ensures NextToken(text, i).Scan? ==> SpacesEnd(text, i) < NextToken(text, i).next
  {
    SpacesAreBlank(text, i, SpacesEnd(text, i));
    if ScanAt(text, SpacesEnd(text, i)).Scan? {
      ScanMoves(text, SpacesEnd(text, i));
    }
  }

  lemma TokenBefore(text: string, i: nat, t: Token, e: nat, ts: seq<Token>)
    requires Blank(text, i, t.start.index) && Covers(text, t, e) && Tiled(text, e, ts)
    ensures Tiled(text, i, [t] + ts)
  {
    assert ([t] + ts)[1..] == ts;
  }

  lemma {:induction false} BlankBefore(text: string, i: nat, j: nat, ts: seq<Token>)
    requires i <= j <= |text| && Blank(text, i, j) && Tiled(text, j, ts)
    ensures Tiled(text, i, ts)
  {
    if |ts| == 1 {
      if Blank(text, j, |text|) {
        BlankTrans(text, i, j, |text|);
      } else {
        BlankTrans(text, i, j, Size(text));
      }
    } else {
      BlankIsOrdered(text, j, ts[0].start.index);
      BlankTrans(text, i, j, ts[0].start.index);
    }
  }

  lemma BlankIsOrdered(text: string, a: nat, b: nat)
    requires Blank(text, a, b)
    ensures a <= b
  {
  }
}
