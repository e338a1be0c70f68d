/** Tokens and source locations. */
module Tokens {
  import opened Lang

  datatype TokenType =
    | Invalid | Comment | Number | String | Identifier
    | Semicolon | Colon | Comma | Dot | LeftParen | RightParen | LeftBrace | RightBrace
    | KeywordLet | KeywordIf | KeywordWhile | KeywordElse | KeywordTrue | KeywordFalse
    | KeywordFun | KeywordClass | KeywordExtern | KeywordReturn
    | OperatorUnaryNot | OperatorPlus | OperatorMinus | OperatorMultiply | OperatorDivide
    | OperatorAssign | OperatorEquals | OperatorNotEquals
    | OperatorGreaterThen | OperatorGreaterEqualThen | OperatorLessThen | OperatorLessEqualThen
    | OperatorLogicOr | OperatorLogicAnd
    | EndOfFile

  /** Lines and columns start at 1, indices at 0. */
  datatype SrcLocation = SrcLocation(line: nat, column: nat, index: nat)

  /** A token of a single character has no end location. */
  datatype Token = Token(kind: TokenType, contend: string, start: SrcLocation, end: Option<SrcLocation>)

  /** The type of a word: a keyword, or else an identifier. */
  function KeywordOrIdentifier(word: string): TokenType {
    if word == "let" then KeywordLet
    else if word == "if" then KeywordIf
    else if word == "while" then KeywordWhile
    else if word == "else" then KeywordElse
    else if word == "true" then KeywordTrue
    else if word == "false" then KeywordFalse
    else if word == "fun" then KeywordFun
    else if word == "class" then KeywordClass
    else if word == "extern" then KeywordExtern
    else if word == "return" then KeywordReturn
    else Identifier
  }

  /** How a token without contend is written. */
  function Spelling(kind: TokenType): string {
    match kind
    case Semicolon => ";"
    case Colon => ":"
    case Comma => ","
    case Dot => "."
    case LeftParen => "("
    case RightParen => ")"
    case LeftBrace => "{"
    case RightBrace => "}"
    case KeywordLet => "let"
    case KeywordIf => "if"
    case KeywordWhile => "while"
    case KeywordElse => "else"
    case KeywordTrue => "true"
    case KeywordFalse => "false"
    case KeywordFun => "fun"
    case KeywordClass => "class"
    case KeywordExtern => "extern"
    case KeywordReturn => "return"
    case OperatorUnaryNot => "!"
    case OperatorPlus => "+"
    case OperatorMinus => "-"
    case OperatorMultiply => "*"
    case OperatorDivide => "/"
    case OperatorAssign => "="
    case OperatorEquals => "=="
    case OperatorNotEquals => "!="
    case OperatorGreaterThen => ">"
    case OperatorGreaterEqualThen => ">="
    case OperatorLessThen => "<"
    case OperatorLessEqualThen => "<="
    case OperatorLogicOr => "||"
    case OperatorLogicAnd => "&&"
    case _ => ""
  }

  predicate IsKeyword(kind: TokenType) {
    kind in {KeywordLet, KeywordIf, KeywordWhile, KeywordElse, KeywordTrue, KeywordFalse, KeywordFun, KeywordClass,
      KeywordExtern, KeywordReturn}
  }

  /** A token without its locations. */
  datatype Lexeme = Lexeme(kind: TokenType, contend: string)

  function Stripped(ts: seq<Token>): (r: seq<Lexeme>)
    ensures |r| == |ts| && forall k | 0 <= k < |ts| :: r[k] == Lexeme(ts[k].kind, ts[k].contend)
  {
    seq(|ts|, k requires 0 <= k < |ts| => Lexeme(ts[k].kind, ts[k].contend))
  }
}
