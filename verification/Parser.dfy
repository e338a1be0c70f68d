/** The expression parser: it advances a cursor through the token list.

    None stands for the exception of an unexpected token, after which the cursor is not used again.
 */
module Parser {
  import opened Lang
  import opened Numerals
  import opened Tokens
  import opened Syntax
  import opened Climbing
  import P = Parsing

  class Parser {
    const tokens: seq<Lexeme>
    const stof: string -> Option<Float>
    var tokenIter: nat

    constructor (tokens: seq<Lexeme>, stof: string -> Option<Float>)
      ensures this.tokens == tokens && this.stof == stof && tokenIter == 0
    {
      this.tokens, this.stof, tokenIter := tokens, stof, 0;
    }

    ghost function Input(): P.Input { P.Input(tokens, stof) }

    /** What a method returns and where it leaves the cursor. */
    ghost predicate Gives<T(!new)>(p: P.Parsed<T>, r: Option<T>)
      reads this
    {
      if p.Parsed? then r == Some(p.value) && tokenIter == p.next else r.None?
    }

    function TokenKind(): TokenType
      reads this
    {
      if tokenIter < |tokens| then tokens[tokenIter].kind else EndOfFile
    }

    function NextTokenKind(): TokenType
      reads this
    {
      if tokenIter + 1 < |tokens| then tokens[tokenIter + 1].kind else EndOfFile
    }

    predicate TokensEmpty()
      reads this
    {
      TokenKind() == EndOfFile
    }

    method ConsumeToken(kind: TokenType) returns (r: Option<string>)
      modifies this
      ensures Gives(P.Consume(Input(), kind, old(tokenIter)), r)
    {
      if tokenIter >= |tokens| || tokens[tokenIter].kind != kind {
        return None;
      }
      r := Some(tokens[tokenIter].contend);
      tokenIter := tokenIter + 1;
    }

    method ParseExpression() returns (r: Option<Expression>)
      modifies this
      ensures Gives(P.ParseExpression(Input(), old(tokenIter)), r)
      decreases P.Left(Input(), tokenIter), 3
    {
      var exprLHS := ParsePrimaryExpression();
      if exprLHS.None? || exprLHS.value.Missing? {
        return exprLHS;
      }
      r := ParseBinaryExpressionRHS(exprLHS.value, 0);
    }

    method ParsePrimaryExpression() returns (r: Option<Expression>)
      modifies this
      ensures Gives(P.ParsePrimary(Input(), old(tokenIter)), r)
      decreases P.Left(Input(), tokenIter), 2
    {
      if TokenKind() == Identifier {
        r := ParseIdentifierExpression(None);
      } else if TokenKind() == Number || (TokenKind() == OperatorMinus && NextTokenKind() == Number) {
        r := ParseNumberExpression();
      } else if TokenKind() == KeywordTrue {
        tokenIter := tokenIter + 1;
        r := Some(Constant(BoolConst(true)));
      } else if TokenKind() == KeywordFalse {
        tokenIter := tokenIter + 1;
        r := Some(Constant(BoolConst(false)));
      } else if TokenKind() == String {
        r := Some(Constant(StringConst(tokens[tokenIter].contend)));
        tokenIter := tokenIter + 1;
      } else if TokenKind() == OperatorUnaryNot {
        r := ParseUnaryNotExpression();
      } else if TokenKind() == LeftParen {
        r := ParseParenExpression();
      } else {
        r := None;
      }
    }

    method ParseParenExpression() returns (r: Option<Expression>)
      requires TokenKind() == LeftParen
      modifies this
      ensures Gives(P.ParsePrimary(Input(), old(tokenIter)), r)
      decreases P.Left(Input(), tokenIter), 1
    {
      var expr := Missing;
      assert P.ParsePrimary(Input(), tokenIter) == P.ParseParen(Input(), tokenIter + 1);
      var _ := ConsumeToken(LeftParen);
      if TokenKind() != RightParen {
        var inner := ParseExpression();
        if inner.None? {
          return None;
        }
        expr := inner.value;
      }
      var closed := ConsumeToken(RightParen);
      r := if closed.Some? then Some(expr) else None;
    }

    method ParseUnaryNotExpression() returns (r: Option<Expression>)
      requires TokenKind() == OperatorUnaryNot
      modifies this
      ensures Gives(P.ParsePrimary(Input(), old(tokenIter)), r)
      decreases P.Left(Input(), tokenIter), 1
    {
      var _ := ConsumeToken(OperatorUnaryNot);
      var inner := ParsePrimaryExpression();
      r := if inner.Some? then Some(UnaryNot(inner.value)) else None;
    }

    method ParseNumberExpression() returns (r: Option<Expression>)
      requires TokenKind() == Number || (TokenKind() == OperatorMinus && NextTokenKind() == Number)
      modifies this
      ensures Gives(P.ParsePrimary(Input(), old(tokenIter)), r)
    {
      var isNegative := TokenKind() == OperatorMinus;
      if isNegative {
        var _ := ConsumeToken(OperatorMinus);
      }
      var contend := ConsumeToken(Number);
      if '.' !in contend.value {
        var n := P.StringToInt(isNegative, contend.value);
        r := if n.Some? then Some(Constant(IntConst(n.value))) else None;
      } else {
        var f := stof(if isNegative then "-" + contend.value else contend.value);
        r := if f.Some? then Some(Constant(FloatConst(f.value))) else None;
      }
    }

    method ParseIdentifierExpression(previousMemberExpr: Option<Expression>) returns (r: Option<Expression>)
      modifies this
      ensures Gives(P.ParseIdentifier(Input(), previousMemberExpr, old(tokenIter)), r)
      decreases P.Left(Input(), tokenIter), 1
    {
      var identifierExpr := ParseOneIdentifier(previousMemberExpr);
      if identifierExpr.None? {
        return None;
      }
      assert P.ParseIdentifier(Input(), previousMemberExpr, old(tokenIter)) ==
        P.ParseMembers(Input(), identifierExpr.value, tokenIter);
      if TokenKind() == Dot {
        var _ := ConsumeToken(Dot);
        r := ParseIdentifierExpression(identifierExpr);
      } else {
        r := identifierExpr;
      }
    }

    /** The first identifier of a chain of members, or the call of it. */
    method ParseOneIdentifier(previousMemberExpr: Option<Expression>) returns (r: Option<Expression>)
      modifies this
      ensures Gives(P.ParseOneIdentifier(Input(), previousMemberExpr, old(tokenIter)), r)
      decreases P.Left(Input(), tokenIter), 0, 1
    {
      if NextTokenKind() == LeftParen {
        r := ParseCallExpression(previousMemberExpr);
      } else {
        var name := ConsumeToken(Identifier);
        r :=
          if name.None? then None
          else if previousMemberExpr.Some? then Some(MemberVariable(previousMemberExpr.value, name.value))
          else Some(Variable(name.value));
      }
    }

    method ParseCallExpression(parent: Option<Expression>) returns (r: Option<Expression>)
      requires NextTokenKind() == LeftParen
      modifies this
      ensures Gives(P.ParseOneIdentifier(Input(), parent, old(tokenIter)), r)
      decreases P.Left(Input(), tokenIter), 0, 0
    {
      var calledName := ConsumeToken(Identifier);
      if calledName.None? {
        return None;
      }
      var _ := ConsumeToken(LeftParen);
      var ok, nonNamed, named := ParseCallArguments();
      if !ok {
        return None;
      }
      var closed := ConsumeToken(RightParen);
      if closed.None? {
        return None;
      }
      r := Some(if parent.Some? then MemberCall(parent.value, calledName.value, nonNamed, named)
        else CallTo(calledName.value, nonNamed, named));
    }

    /** The arguments up to the closing parenthesis; false stands for the exception. */
    method ParseCallArguments() returns (ok: bool, nonNamed: seq<Expression>, named: seq<NamedArg>)
      requires tokenIter <= |tokens|
      modifies this
      ensures Gives(P.ParseArguments(Input(), old(tokenIter), [], []), if ok then Some((nonNamed, named)) else None)
      decreases P.Left(Input(), tokenIter), 6
    {
      nonNamed, named := [], [];
      while !TokensEmpty() && TokenKind() != RightParen
        invariant old(tokenIter) <= tokenIter <= |tokens|
        invariant P.ParseArguments(Input(), old(tokenIter), [], []) ==
          P.ParseArguments(Input(), tokenIter, nonNamed, named)
        decreases |tokens| - tokenIter
      {
        ok, nonNamed, named := ParseCallArgument(nonNamed, named);
        if !ok || TokenKind() != Comma {
          return;
        }
        var _ := ConsumeToken(Comma);
      }
      ok := true;
    }

    /** One argument; none without a name is allowed behind one with a name. */
    method ParseCallArgument(before: seq<Expression>, namedBefore: seq<NamedArg>)
        returns (ok: bool, nonNamed: seq<Expression>, named: seq<NamedArg>)
      requires !TokensEmpty() && TokenKind() != RightParen && tokenIter <= |tokens|
      modifies this
      ensures var p := P.ParseArguments(Input(), old(tokenIter), before, namedBefore);
        if ok then old(tokenIter) < tokenIter <= |tokens| && p == P.MoreArguments(Input(), tokenIter, nonNamed, named)
          else p.ParseError?
      decreases P.Left(Input(), tokenIter), 5
    {
      nonNamed, named := before, namedBefore;
      if TokenKind() == Identifier && (NextTokenKind() == OperatorAssign || NextTokenKind() == Colon) {
        var argName := tokens[tokenIter].contend;
        tokenIter := tokenIter + 2;
        var value := ParseExpression();
        if value.None? {
          return false, nonNamed, named;
        }
        named := named + [NamedArg(argName, value.value)];
      } else {
        if named != [] {
          return false, nonNamed, named;
        }
        var value := ParseExpression();
        if value.None? {
          return false, nonNamed, named;
        }
        nonNamed := nonNamed + [value.value];
      }
      ok := true;
    }

    /** The loop over operators; `lhsExpression` grows to the left. */
    method ParseBinaryExpressionRHS(lhs: Expression, precedenceHigherThan: nat) returns (r: Option<Expression>)
      requires tokenIter <= |tokens|
      modifies this
      ensures Gives(P.ParseBinaryRHS(Input(), lhs, precedenceHigherThan, old(tokenIter)), r)
      decreases P.Left(Input(), tokenIter), 1
    {
      var lhsExpression := lhs;
      while true
        invariant old(tokenIter) <= tokenIter <= |tokens|
        invariant P.ParseBinaryRHS(Input(), lhs, precedenceHigherThan, old(tokenIter)) ==
          P.ParseBinaryRHS(Input(), lhsExpression, precedenceHigherThan, tokenIter)
        decreases |tokens| - tokenIter
      {
        var currentBinOp := P.TokenToBinaryOp(TokenKind());
        if currentBinOp.None? || Precedence(currentBinOp.value) < precedenceHigherThan {
          return Some(lhsExpression);
        }
        tokenIter := tokenIter + 1;
        var rhsExpression := ParsePrimaryExpression();
        if rhsExpression.None? {
          return None;
        }
        var nextBinOp := P.TokenToBinaryOp(TokenKind());
        if nextBinOp.Some? && Precedence(currentBinOp.value) < Precedence(nextBinOp.value) {
          rhsExpression := ParseBinaryExpressionRHS(rhsExpression.value, Precedence(currentBinOp.value) + 1);
          if rhsExpression.None? {
            return None;
          }
        }
        lhsExpression := Binary(currentBinOp.value, lhsExpression, rhsExpression.value);
      }
    }
  }
}
