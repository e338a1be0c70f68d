/** Writing tokens down and lexing the text gives the tokens back. */
module Rendering {
  import opened Lang
  import opened Numerals
  import opened Tokens
  import opened Scanning

  datatype Separator = Space(c: char) | OneLine(s: string) | MultiLine(s: string)

  datatype Item = Sep(separator: Separator) | Lex(lexeme: Lexeme)

  predicate IsName(s: string) {
    s != "" && IsLetter(s[0]) && (forall k | 0 <= k < |s| :: IsInner(s[k])) && KeywordOrIdentifier(s) == Identifier
  }

  /** Digits, and possibly a dot at `k` with more digits behind it. */
  predicate DigitsUpTo(s: string, k: nat) {
    0 < k <= |s| && AllDigits(s[..k]) && (k < |s| ==> s[k] == '.' && AllDigits(s[k + 1..]))
  }

  predicate IsNumber(s: string) {
    exists k: nat | k <= |s| :: DigitsUpTo(s, k)
  }

  predicate WellFormed(l: Lexeme) {
    match l.kind
    case Identifier => IsName(l.contend)
    case Number => IsNumber(l.contend)
    case String => '"' !in l.contend
    case _ => l.contend == "" && Spelling(l.kind) != ""
  }

  function Written(l: Lexeme): string {
    match l.kind
    case Identifier => l.contend
    case Number => l.contend
    case String => "\"" + l.contend + "\""
    case _ => Spelling(l.kind)
  }

  /** Character `c` behind the lexeme does not belong to it. */
  predicate Ends(l: Lexeme, c: char) {
    if l.kind == Identifier || IsKeyword(l.kind) then !IsInner(c)
    else match l.kind
      case Number => !IsDigit(c) && (c == '.' ==> '.' in l.contend)
      case OperatorAssign => c != '='
      case OperatorUnaryNot => c != '='
      case OperatorGreaterThen => c != '='
      case OperatorLessThen => c != '='
      case OperatorDivide => c != '/' && c != '*'
      case _ => true
  }

  predicate WellFormedSeparator(s: Separator) {
    match s
    case Space(c) => IsSpace(c)
    case OneLine(s) => forall k | 0 <= k < |s| :: !IsNewLine(s[k])
    case MultiLine(s) => forall k | 0 <= k < |s| - 1 :: !(s[k] == '*' && s[k + 1] == '/')
  }

  function WrittenSeparator(s: Separator): string {
    match s
    case Space(c) => [c]
    case OneLine(s) => "//" + s + "\n"
    case MultiLine(s) => "/*" + s + "*/"
  }

  function WrittenItem(item: Item): string {
    if item.Sep? then WrittenSeparator(item.separator) else Written(item.lexeme)
  }

  function Render(items: seq<Item>): string
    decreases items
  {
    if items == [] then "" else WrittenItem(items[0]) + Render(items[1..])
  }

  function Lexemes(items: seq<Item>): seq<Lexeme>
    decreases items
  {
    if items == [] then [] else (if items[0].Lex? then [items[0].lexeme] else []) + Lexemes(items[1..])
  }

  /** The first character of a text that `c` follows. */
  function First(s: string, c: char): char {
    if s == "" then c else s[0]
  }

  /** Every item is well-formed, and what follows a lexeme does not belong to it; `c` follows the last one. */
  predicate FitsBefore(items: seq<Item>, c: char)
    decreases items
  {
    items != [] ==>
      (if items[0].Sep? then WellFormedSeparator(items[0].separator)
       else WellFormed(items[0].lexeme) && Ends(items[0].lexeme, First(Render(items[1..]), c))) &&
         FitsBefore(items[1..], c)
  }

  predicate Fits(items: seq<Item>) { FitsBefore(items, NUL) }

  /** The text says `w` at `i`. */
  predicate At(text: string, i: nat, w: string) {
    i + |w| <= |text| && text[i..i + |w|] == w
  }

  lemma AtChars(text: string, i: nat, w: string)
    requires At(text, i, w)
    ensures forall k: nat | k < |w| :: CharAt(text, i + k) == w[k]
  {
    forall k: nat | k < |w|
      ensures CharAt(text, i + k) == w[k]
    {
      assert text[i..i + |w|][k] == text[i + k];
    }
  }

  /** What scanning gives at a lexeme. */
  ghost predicate Scanned(text: string, i: nat, l: Lexeme)
    requires i <= |text|
  {
    var r := ScanAt(text, i);
    r.Scan? && r.token.kind == l.kind && r.token.contend == l.contend && r.next == i + |Written(l)|
  }

  lemma NameWord(l: Lexeme)
    requires (l.kind == Identifier || IsKeyword(l.kind)) && WellFormed(l)
    ensures var w := Written(l);
      w != "" && IsLetter(w[0]) && (forall k | 0 <= k < |w| :: IsInner(w[k])) && KeywordOrIdentifier(w) == l.kind
    ensures l.kind != Identifier ==> l.contend == ""
    ensures l.kind == Identifier ==> l.contend == Written(l)
  {
  }

  lemma ScanName(text: string, i: nat, l: Lexeme)
    requires l.kind == Identifier || IsKeyword(l.kind)
    requires WellFormed(l) && At(text, i, Written(l)) && Ends(l, CharAt(text, i + |Written(l)|))
    ensures Scanned(text, i, l)
  {
    hide Position, KeywordOrIdentifier, Spelling, Written, WellFormed;
    var w := Written(l);
    NameWord(l);
    AtChars(text, i, w);
    assert w != "" && forall k | 0 <= k < |w| :: IsInner(w[k]);
    forall k | i <= k < i + |w|
      ensures InnerAt(text)(k)
    {
      assert CharAt(text, i + (k - i)) == w[k - i];
    }
    assert !InnerAt(text)(i + |w|);
    SkipsTo(Size(text), InnerAt(text), i, i + |w|);
    assert SubText(text, i, i + |w|) == w;
    assert IsLetter(CharAt(text, i + 0));
    assert KeywordOrIdentifier(w) == l.kind;
  }

  /** Digits at `a` up to `b`, and none at `b`. */
  lemma SkipDigits(text: string, a: nat, b: nat, d: string)
    requires At(text, a, d) && b == a + |d| && AllDigits(d) && !IsDigit(CharAt(text, b))
    ensures SkipWhile(Size(text), DigitAt(text), a) == b
  {
    AtChars(text, a, d);
    forall n | a <= n < b
      ensures DigitAt(text)(n)
    {
      assert CharAt(text, a + (n - a)) == d[n - a];
    }
    assert !DigitAt(text)(b);
    SkipsTo(Size(text), DigitAt(text), a, b);
  }

  /** A number with a dot at `k`. */
  lemma FractionEnds(text: string, i: nat, w: string, k: nat)
    requires DigitsUpTo(w, k) && k < |w| && At(text, i, w) && !IsDigit(CharAt(text, i + |w|))
    ensures NumberEnd(text, i) == i + |w|
  {
    hide SkipWhile, SubText;
    AtChars(text, i, w);
    assert CharAt(text, i + k) == '.';
    assert At(text, i, w[..k]) by { assert text[i..i + k] == text[i..i + |w|][..k]; }
    SkipDigits(text, i, i + k, w[..k]);
    assert At(text, i + k + 1, w[k + 1..]) by { assert text[i + k + 1..i + |w|] == text[i..i + |w|][k + 1..]; }
    SkipDigits(text, i + k + 1, i + |w|, w[k + 1..]);
  }

  /** A number without a dot. */
  lemma WholeEnds(text: string, i: nat, w: string)
    requires AllDigits(w) && At(text, i, w) && !IsDigit(CharAt(text, i + |w|)) && CharAt(text, i + |w|) != '.'
    ensures NumberEnd(text, i) == i + |w|
  {
    hide SkipWhile, SubText;
    SkipDigits(text, i, i + |w|, w);
  }

  lemma NumberEnds(text: string, i: nat, w: string, c: char)
    requires IsNumber(w) && At(text, i, w) && c == CharAt(text, i + |w|) && Ends(Lexeme(Number, w), c)
    ensures IsDigit(CharAt(text, i)) && NumberEnd(text, i) == i + |w|
  {
    hide NumberEnd, SubText, At, CharAt;
    AtChars(text, i, w);
    var k: nat :| k <= |w| && DigitsUpTo(w, k);
    assert IsDigit(w[..k][0]) && CharAt(text, i + 0) == w[0];
    if k < |w| {
      FractionEnds(text, i, w, k);
    } else {
      assert w[..k] == w && '.' !in w;
      WholeEnds(text, i, w);
    }
  }

  lemma ScanDigits(text: string, i: nat, l: Lexeme)
    requires l.kind == Number && WellFormed(l) && At(text, i, l.contend) && Ends(l, CharAt(text, i + |l.contend|))
    ensures Scanned(text, i, l)
  {
    hide Position, NumberEnd, Ends;
    NumberEnds(text, i, l.contend, CharAt(text, i + |l.contend|));
    assert SubText(text, i, i + |l.contend|) == l.contend;
  }

  lemma ScanQuoted(text: string, i: nat, l: Lexeme)
    requires l.kind == String && WellFormed(l) && At(text, i, Written(l))
    ensures Scanned(text, i, l)
  {
    hide Position;
    var w, n := Written(l), |l.contend|;
    AtChars(text, i, w);
    assert w[0] == '"' && w[n + 1] == '"' && w[1..n + 1] == l.contend;
    assert CharAt(text, i + 0) == '"' && CharAt(text, i + (n + 1)) == '"';
    forall k | i + 1 <= k < i + 1 + n
      ensures NoQuoteAt(text)(k)
    {
      assert CharAt(text, i + (k - i)) == w[k - i] == l.contend[k - i - 1];
    }
    SkipsTo(Size(text), NoQuoteAt(text), i + 1, i + 1 + n);
    assert SubText(text, i + 1, i + 1 + n) == w[1..n + 1];
  }

  lemma ScanSymbol(text: string, i: nat, l: Lexeme)
    requires l.kind !in {Identifier, Number, String} && !IsKeyword(l.kind)
    requires WellFormed(l) && At(text, i, Written(l)) && Ends(l, CharAt(text, i + |Written(l)|))
    ensures Scanned(text, i, l)
  {
    hide Position, SkipWhile, ScanWord, ScanNumber, ScanString, ScanOneLineComment, ScanMultiLineComment;
    var w := Written(l);
    AtChars(text, i, w);
    assert CharAt(text, i + 0) == w[0];
    assert |w| > 1 ==> CharAt(text, i + 1) == w[1];
  }

  lemma ScanLexeme(text: string, i: nat, l: Lexeme)
    requires WellFormed(l) && At(text, i, Written(l)) && Ends(l, CharAt(text, i + |Written(l)|))
    ensures Scanned(text, i, l) && !IsSpace(CharAt(text, i)) && l.kind != Comment
  {
    hide Scanned;
    var w := Written(l);
    AtChars(text, i, w);
    assert CharAt(text, i + 0) == w[0];
    if l.kind == Identifier || IsKeyword(l.kind) {
      ScanName(text, i, l);
    } else if l.kind == Number {
      ScanDigits(text, i, l);
      var k: nat :| k <= |w| && DigitsUpTo(w, k);
      assert w[..k][0] == w[0];
    } else if l.kind == String {
      ScanQuoted(text, i, l);
    } else {
      ScanSymbol(text, i, l);
    }
  }

  // Separators.

  /** Lexing from `i` on gives what lexing from `j` on gives, but for the locations. */
  ghost predicate SameTokens(text: string, i: nat, j: nat)
    requires i <= |text| && j <= |text|
  {
    AllTokens(text, i) == AllTokens(text, j)
  }

  /** Without a space here the next token is here. */
  lemma NoSpaceHere(text: string, i: nat)
    requires i <= |text| && !IsSpace(CharAt(text, i))
    ensures NextToken(text, i) == ScanAt(text, i)
  {
    hide ScanAt;
    assert !SpaceAt(text)(i);
    assert SpacesEnd(text, i) == i;
  }

  lemma SkipSpace(text: string, i: nat)
    requires i < |text| && IsSpace(text[i])
    ensures SameTokens(text, i, i + 1)
  {
    hide ScanAt;
    assert SpaceAt(text)(i);
    assert SpacesEnd(text, i) == SpacesEnd(text, i + 1);
    assert NextToken(text, i) == NextToken(text, i + 1);
  }

  /** A comment at `i` that ends at `j`. */
  lemma SkipComment(text: string, i: nat, j: nat)
    requires i < j <= |text| && !IsSpace(CharAt(text, i))
    requires var r := ScanAt(text, i); r.Scan? && r.token.kind == Comment && r.next == j
    ensures SameTokens(text, i, j)
  {
    hide ScanAt, NextToken;
    NoSpaceHere(text, i);
    assert AllTokens(text, i) == Append([], AllTokens(text, j));
    var rest := AllTokens(text, j);
    assert rest.Some? ==> [] + rest.value == rest.value;
  }

  lemma SkipOneLine(text: string, i: nat, s: string)
    requires WellFormedSeparator(OneLine(s)) && At(text, i, WrittenSeparator(OneLine(s)))
    ensures SameTokens(text, i, i + |s| + 3)
  {
    hide Position, ScanWord, ScanNumber, ScanString, ScanMultiLineComment, NextToken, AllTokens;
    var w, j := WrittenSeparator(OneLine(s)), i + 2 + |s|;
    AtChars(text, i, w);
    assert CharAt(text, i + 0) == '/' && CharAt(text, i + 1) == '/' && CharAt(text, i + (2 + |s|)) == '\n';
    forall k | i + 2 <= k < j
      ensures NoNewLineAt(text)(k)
    {
      assert CharAt(text, i + (k - i)) == w[k - i] == s[k - i - 2];
    }
    assert !NoNewLineAt(text)(j);
    SkipsTo(Size(text), NoNewLineAt(text), i + 2, j);
    SkipComment(text, i, j);
    SkipSpace(text, j);
  }

  lemma SkipMultiLine(text: string, i: nat, s: string)
    requires WellFormedSeparator(MultiLine(s)) && At(text, i, WrittenSeparator(MultiLine(s)))
    ensures SameTokens(text, i, i + |s| + 4)
  {
    hide Position, ScanWord, ScanNumber, ScanString, ScanOneLineComment, NextToken, AllTokens;
    var w, j := WrittenSeparator(MultiLine(s)), i + 2 + |s|;
    AtChars(text, i, w);
    assert CharAt(text, i + 0) == '/' && CharAt(text, i + 1) == '*';
    assert CharAt(text, i + (2 + |s|)) == '*' && CharAt(text, i + (3 + |s|)) == '/';
    forall k | i + 2 <= k < j
      ensures NoCommentEndAt(text)(k)
    {
      var m := k - i - 2;
      assert w[m + 2] == s[m] && CharAt(text, i + (m + 2)) == s[m];
      assert w[m + 3] == (s + "*/")[m + 1] && CharAt(text, i + (m + 3)) == w[m + 3];
      assert m + 1 < |s| ==> w[m + 3] == s[m + 1];
    }
    assert !NoCommentEndAt(text)(j);
    SkipsTo(Size(text), NoCommentEndAt(text), i + 2, j);
    SkipComment(text, i, j + 2);
  }

  lemma SkipSeparator(text: string, i: nat, s: Separator)
    requires WellFormedSeparator(s) && At(text, i, WrittenSeparator(s))
    ensures SameTokens(text, i, i + |WrittenSeparator(s)|)
  {
    hide SameTokens;
    match s
    case Space(c) =>
      AtChars(text, i, [c]);
      assert CharAt(text, i + 0) == c;
      SkipSpace(text, i);
    case OneLine(s) => SkipOneLine(text, i, s);
    case MultiLine(s) => SkipMultiLine(text, i, s);
  }

  /** A lexeme at `i` is the next token. */
  lemma TakeLexeme(text: string, i: nat, l: Lexeme)
    requires WellFormed(l) && At(text, i, Written(l)) && Ends(l, CharAt(text, i + |Written(l)|))
    ensures var r := ScanAt(text, i);
      r.Scan? && r.token.kind == l.kind && r.token.contend == l.contend &&
      AllTokens(text, i) == Append([r.token], AllTokens(text, i + |Written(l)|))
  {
    hide ScanAt, WellFormed, Written, Ends, NextToken;
    ScanLexeme(text, i, l);
    NoSpaceHere(text, i);
  }

  /** The tokens from `i` on are `ls` and then those from `j` on; the text lexes from both or from neither. */
  ghost predicate LexesBefore(text: string, i: nat, ls: seq<Lexeme>, j: nat)
    requires i <= |text| && j <= |text|
  {
    (AllTokens(text, i).Some? <==> AllTokens(text, j).Some?) &&
    (AllTokens(text, i).Some? ==> Stripped(AllTokens(text, i).value) == ls + Stripped(AllTokens(text, j).value))
  }

  lemma TextSplit(text: string, i: nat, w: string, tail: string)
    requires i <= |text| && text[i..] == w + tail
    ensures At(text, i, w) && text[i + |w|..] == tail && CharAt(text, i + |w|) == First(tail, NUL)
  {
    var j := i + |w|;
    assert text[i..][..|w|] == w && text[i..][|w|..] == tail;
    assert text[j..] == tail;
    assert tail != "" ==> tail[0] == text[j];
  }

  /** Where the first item of a rendering stands, and what is behind it. */
  lemma FirstItem(text: string, i: nat, items: seq<Item>, rest: string)
    requires items != [] && i <= |text| && text[i..] == Render(items) + rest
    ensures var w := WrittenItem(items[0]); var j := i + |w|;
      At(text, i, w) && text[j..] == Render(items[1..]) + rest && i + |Render(items)| == j + |Render(items[1..])| &&
      CharAt(text, j) == First(Render(items[1..]), First(rest, NUL))
  {
    hide WrittenItem, CharAt, At;
    var w, b := WrittenItem(items[0]), Render(items[1..]);
    assert Render(items) == w + b;
    assert (w + b) + rest == w + (b + rest);
    TextSplit(text, i, w, b + rest);
  }

  /** The text goes on with a rendering, behind which comes `rest`. */
  lemma {:induction false} LexRendering(text: string, i: nat, items: seq<Item>, rest: string)
    requires i <= |text| && text[i..] == Render(items) + rest && FitsBefore(items, First(rest, NUL))
    ensures i + |Render(items)| <= |text| && LexesBefore(text, i, Lexemes(items), i + |Render(items)|)
    decreases items
  {
    hide Written, WrittenSeparator, WellFormed, WellFormedSeparator, Ends, ScanAt, AllTokens, Position, Render, First;
    hide CharAt, LexesBefore;
    if items == [] {
      NothingBefore(text, i);
    } else {
      var j := i + |WrittenItem(items[0])|;
      FirstItem(text, i, items, rest);
      LexRendering(text, j, items[1..], rest);
      if items[0].Sep? {
        SkipSeparator(text, i, items[0].separator);
        assert [] + Lexemes(items[1..]) == Lexemes(items[1..]);
        SeparatorBefore(text, i, j, Lexemes(items[1..]), i + |Render(items)|);
      } else {
        TakeLexeme(text, i, items[0].lexeme);
        LexemeBefore(text, i, items[0].lexeme, j, Lexemes(items[1..]), i + |Render(items)|);
      }
    }
  }

  lemma NothingBefore(text: string, i: nat)
    requires i <= |text|
    ensures LexesBefore(text, i, Lexemes([]), i + |Render([])|)
  {
    hide AllTokens;
    if AllTokens(text, i).Some? {
      var ls := Stripped(AllTokens(text, i).value);
      assert [] + ls == ls;
    }
  }

  lemma SeparatorBefore(text: string, i: nat, j: nat, ls: seq<Lexeme>, k: nat)
    requires i <= |text| && j <= |text| && k <= |text| && SameTokens(text, i, j) && LexesBefore(text, j, ls, k)
    ensures LexesBefore(text, i, ls, k)
  {
  }

  lemma LexemeBefore(text: string, i: nat, l: Lexeme, j: nat, ls: seq<Lexeme>, k: nat)
    requires i <= |text| && j <= |text| && k <= |text| && LexesBefore(text, j, ls, k)
    requires var r := ScanAt(text, i);
      r.Scan? && r.token.kind == l.kind && r.token.contend == l.contend &&
        AllTokens(text, i) == Append([r.token], AllTokens(text, j))
    ensures LexesBefore(text, i, [l] + ls, k)
  {
    hide ScanAt, AllTokens;
    if AllTokens(text, j).Some? {
      var t, ts := ScanAt(text, i).token, AllTokens(text, j).value;
      assert Stripped([t] + ts) == [l] + Stripped(ts);
      assert [l] + (ls + Stripped(AllTokens(text, k).value)) == ([l] + ls) + Stripped(AllTokens(text, k).value);
    }
  }

  lemma LexEnd(text: string)
    ensures AllTokens(text, |text|) == Some([Token(EndOfFile, "", Position(text, Size(text)), None)])
  {
    hide NextToken, SkipWhile, Position;
    NoSpaceHere(text, |text|);
    assert CharAt(text, |text|) == NUL == CharAt(text, |text| + 1);
    assert ScanAt(text, |text|).next == Size(text);
  }

  /** Lexing the rendering of a list of tokens and separators gives exactly the tokens, followed by EndOfFile. */
  lemma RenderThenLex(items: seq<Item>)
    requires Fits(items)
    ensures AllTokens(Render(items), 0).Some?
    ensures Stripped(AllTokens(Render(items), 0).value) == Lexemes(items) + [Lexeme(EndOfFile, "")]
  {
    hide AllTokens;
    var text := Render(items);
    assert text[0..] == text + "";
    LexRendering(text, 0, items, "");
    LexEnd(text);
  }

  /** Every token is followed by a space, a line break or the end. */
  predicate Spaced(items: seq<Item>)
    decreases items
  {
    items != [] ==>
      (if items[0].Sep? then WellFormedSeparator(items[0].separator)
       else WellFormed(items[0].lexeme) && (|items| > 1 ==> items[1].Sep? && items[1].separator.Space?)) &&
         Spaced(items[1..])
  }

  /** Tokens with spaces between them, and comments behind the spaces, always fit. */
  lemma {:induction false} SpacedFits(items: seq<Item>)
    requires Spaced(items)
    ensures Fits(items)
    decreases items
  {
    if items != [] {
      SpacedFits(items[1..]);
      if items[0].Lex? && |items| > 1 {
        assert First(Render(items[1..]), NUL) == items[1].separator.c by {
          assert Render(items[1..])[..1] == WrittenItem(items[1]);
        }
        assert IsSpace(items[1].separator.c);
      }
    }
  }

  // Concatenation.

  lemma Regroup<T>(a: seq<T>, b: seq<T>, c: seq<T>)
    ensures a + (b + c) == (a + b) + c
  {
  }

  lemma {:induction false} RenderAppend(a: seq<Item>, b: seq<Item>)
    ensures Render(a + b) == Render(a) + Render(b)
    decreases a
  {
    hide WrittenItem;
    if a == [] {
      assert a + b == b;
    } else {
      RenderAppend(a[1..], b);
      assert (a + b)[0] == a[0] && (a + b)[1..] == a[1..] + b;
      assert Render(a + b) == WrittenItem(a[0]) + Render(a[1..] + b);
      Regroup(WrittenItem(a[0]), Render(a[1..]), Render(b));
    }
  }

  lemma {:induction false} LexemesAppend(a: seq<Item>, b: seq<Item>)
    ensures Lexemes(a + b) == Lexemes(a) + Lexemes(b)
    decreases a
  {
    if a == [] {
      assert a + b == b;
    } else {
      LexemesAppend(a[1..], b);
      var first := if a[0].Lex? then [a[0].lexeme] else [];
      assert (a + b)[0] == a[0] && (a + b)[1..] == a[1..] + b;
      assert Lexemes(a + b) == first + Lexemes(a[1..] + b);
      Regroup(first, Lexemes(a[1..]), Lexemes(b));
    }
  }

  lemma {:induction false} FitsAppend(a: seq<Item>, b: seq<Item>, c: char)
    requires FitsBefore(a, First(Render(b), c)) && FitsBefore(b, c)
    ensures FitsBefore(a + b, c)
    decreases a
  {
    hide Render, WellFormed, Ends, WellFormedSeparator;
    if a == [] {
      assert a + b == b;
    } else {
      FitsAppend(a[1..], b, c);
      assert (a + b)[1..] == a[1..] + b;
      RenderAppend(a[1..], b);
    }
  }
}
