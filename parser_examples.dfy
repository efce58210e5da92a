/** Worked examples of the parser (Calculator/Parser.cs) on the token
    lists the lexer produces for short texts (positions as the lexer
    assigns them; an operator at index i spans i - 1 to i). Each starts
    from the fields as the constructor leaves them. */
module ParserExamples {
  import opened Tokens
  import opened Expressions
  import opened Lexing
  import opened Parsing
  import opened ParserProperties

  /** The fields after construction on a list whose first two tokens are
      valid: cursor on the first token, the second as lookahead. */
  function Constructed(ts: seq<Token>): PState
    requires 2 <= |ts|
  {
    PState(0, ts[0], Some(ts[1]), 0)
  }

  function N(text: string): Expr
  {
    Expr.Number(text)
  }

  /** "2+3*4": multiplication binds tighter, giving (2 + (3 * 4)). */
  lemma MultiplicationBindsTighter(ts: seq<Token>)
    requires ts == [NumberToken("2", 0, 0), OperatorToken(Plus, 0, 1), NumberToken("3", 2, 2),
                    OperatorToken(Multiply, 2, 3), NumberToken("4", 4, 4), EofToken(5, 5)]
    ensures ParseChecked(ts, Constructed(ts)).0 == Ok(Infix(N("2"), Plus, Infix(N("3"), Multiply, N("4"))))
  {
    var s0 := Constructed(ts);
    var s2 := PState(2, ts[2], Some(ts[3]), 0);
    var s4 := PState(4, ts[4], Some(ts[5]), 0);
    var product := Infix(N("3"), Multiply, N("4"));
    assert Extend(ts, N("4"), Multiply, 0, s4) == (Ok(N("4")), s4);
    assert Advance(ts, s2) == (Ok(()), PState(3, ts[3], Some(ts[4]), 0));
    assert Advance(ts, PState(3, ts[3], Some(ts[4]), 0)) == (Ok(()), s4);
    assert Climb(ts, N("3"), 2, 0, s2) == (Ok(product), s4);
    assert Extend(ts, N("3"), Plus, 0, s2) == (Ok(product), s4);
    assert Advance(ts, s0) == (Ok(()), PState(1, ts[1], Some(ts[2]), 0));
    assert Advance(ts, PState(1, ts[1], Some(ts[2]), 0)) == (Ok(()), s2);
    assert Climb(ts, N("2"), 0, 0, s0) == (Ok(Infix(N("2"), Plus, product)), s4);
    assert Advance(ts, s0.(index := -1)) == (Ok(()), s0);
  }

  /** "2^3^2": power groups to the right, giving (2 ^ (3 ^ 2)). */
  lemma PowerGroupsRight(ts: seq<Token>)
    requires ts == [NumberToken("2", 0, 0), OperatorToken(Power, 0, 1), NumberToken("3", 2, 2),
                    OperatorToken(Power, 2, 3), NumberToken("2", 4, 4), EofToken(5, 5)]
    ensures ParseChecked(ts, Constructed(ts)).0 == Ok(Infix(N("2"), Power, Infix(N("3"), Power, N("2"))))
  {
    var s0 := Constructed(ts);
    var s2 := PState(2, ts[2], Some(ts[3]), 0);
    var s4 := PState(4, ts[4], Some(ts[5]), 0);
    var inner := Infix(N("3"), Power, N("2"));
    assert Extend(ts, N("2"), Power, 0, s4) == (Ok(N("2")), s4);
    assert Advance(ts, s2) == (Ok(()), PState(3, ts[3], Some(ts[4]), 0));
    assert Advance(ts, PState(3, ts[3], Some(ts[4]), 0)) == (Ok(()), s4);
    assert Climb(ts, N("3"), 3, 0, s2) == (Ok(inner), s4);
    assert Extend(ts, N("3"), Power, 0, s2) == (Ok(inner), s4);
    assert Advance(ts, s0) == (Ok(()), PState(1, ts[1], Some(ts[2]), 0));
    assert Advance(ts, PState(1, ts[1], Some(ts[2]), 0)) == (Ok(()), s2);
    assert Climb(ts, N("2"), 0, 0, s0) == (Ok(Infix(N("2"), Power, inner)), s4);
    assert Advance(ts, s0.(index := -1)) == (Ok(()), s0);
  }

  /** "8-3-2": subtraction groups to the left, giving ((8 - 3) - 2). */
  lemma SubtractionGroupsLeft(ts: seq<Token>)
    requires ts == [NumberToken("8", 0, 0), OperatorToken(Minus, 0, 1), NumberToken("3", 2, 2),
                    OperatorToken(Minus, 2, 3), NumberToken("2", 4, 4), EofToken(5, 5)]
    ensures ParseChecked(ts, Constructed(ts)).0 == Ok(Infix(Infix(N("8"), Minus, N("3")), Minus, N("2")))
  {
    var s0 := Constructed(ts);
    var s2 := PState(2, ts[2], Some(ts[3]), 0);
    var s4 := PState(4, ts[4], Some(ts[5]), 0);
    var first := Infix(N("8"), Minus, N("3"));
    assert Extend(ts, N("2"), Minus, 0, s4) == (Ok(N("2")), s4);
    assert Advance(ts, s2) == (Ok(()), PState(3, ts[3], Some(ts[4]), 0));
    assert Advance(ts, PState(3, ts[3], Some(ts[4]), 0)) == (Ok(()), s4);
    assert Climb(ts, first, 0, 0, s2) == (Ok(Infix(first, Minus, N("2"))), s4);
    assert Extend(ts, N("3"), Minus, 0, s2) == (Ok(N("3")), s2);
    assert Advance(ts, s0) == (Ok(()), PState(1, ts[1], Some(ts[2]), 0));
    assert Advance(ts, PState(1, ts[1], Some(ts[2]), 0)) == (Ok(()), s2);
    assert Climb(ts, N("8"), 0, 0, s0) == (Ok(Infix(first, Minus, N("2"))), s4);
    assert Advance(ts, s0.(index := -1)) == (Ok(()), s0);
  }

  /** "-2^2": unary minus applies to the primary only, giving
      (((-1) * 2) ^ 2). */
  lemma UnaryMinusBindsToPrimary(ts: seq<Token>)
    requires ts == [OperatorToken(Minus, -1, 0), NumberToken("2", 1, 1), OperatorToken(Power, 1, 2),
                    NumberToken("2", 3, 3), EofToken(4, 4)]
    ensures ParseChecked(ts, Constructed(ts)).0 == Ok(Infix(Infix(N("-1"), Multiply, N("2")), Power, N("2")))
  {
    var s0 := Constructed(ts);
    var s1 := PState(1, ts[1], Some(ts[2]), 0);
    var s3 := PState(3, ts[3], Some(ts[4]), 0);
    var negated := Infix(N("-1"), Multiply, N("2"));
    assert Advance(ts, s0) == (Ok(()), s1);
    assert Primary(ts, s0) == (Ok(negated), s1);
    assert Extend(ts, N("2"), Power, 0, s3) == (Ok(N("2")), s3);
    assert Advance(ts, s1) == (Ok(()), PState(2, ts[2], Some(ts[3]), 0));
    assert Advance(ts, PState(2, ts[2], Some(ts[3]), 0)) == (Ok(()), s3);
    assert Climb(ts, negated, 0, 0, s1) == (Ok(Infix(negated, Power, N("2"))), s3);
    assert Advance(ts, s0.(index := -1)) == (Ok(()), s0);
  }

  /** "(2+3)*4": the group is parsed at its own level and closed by its
      ")", so the sum becomes the left operand of the product despite its
      lower precedence, giving ((2 + 3) * 4) with the counter back at 0. */
  lemma GroupOverridesPrecedence(ts: seq<Token>)
    requires ts == [ParenthesisToken(Left, 0, 0), NumberToken("2", 1, 1), OperatorToken(Plus, 1, 2),
                    NumberToken("3", 3, 3), ParenthesisToken(Right, 4, 4), OperatorToken(Multiply, 4, 5),
                    NumberToken("4", 6, 6), EofToken(7, 7)]
    ensures ParseChecked(ts, Constructed(ts)).0 == Ok(Infix(Infix(N("2"), Plus, N("3")), Multiply, N("4")))
    ensures ParseChecked(ts, Constructed(ts)).1.level == 0
  {
    var s0 := Constructed(ts);
    var sum := Infix(N("2"), Plus, N("3"));
    var t1 := PState(1, ts[1], Some(ts[2]), 1);
    var t3 := PState(3, ts[3], Some(ts[4]), 1);
    var u4 := PState(4, ts[4], Some(ts[5]), 0);
    var u6 := PState(6, ts[6], Some(ts[7]), 0);
    assert Advance(ts, t3) == (Ok(()), PState(4, ts[4], Some(ts[5]), 1));
    assert Climb(ts, sum, 0, 1, t3) == (Ok(sum), u4);
    assert Extend(ts, N("3"), Plus, 1, t3) == (Ok(N("3")), t3);
    assert Advance(ts, t1) == (Ok(()), PState(2, ts[2], Some(ts[3]), 1));
    assert Advance(ts, PState(2, ts[2], Some(ts[3]), 1)) == (Ok(()), t3);
    assert Climb(ts, N("2"), 0, 1, t1) == (Ok(sum), u4);
    assert Advance(ts, s0) == (Ok(()), PState(1, ts[1], Some(ts[2]), 0));
    assert Primary(ts, s0) == (Ok(sum), u4);
    assert Extend(ts, N("4"), Multiply, 0, u6) == (Ok(N("4")), u6);
    assert Advance(ts, u4) == (Ok(()), PState(5, ts[5], Some(ts[6]), 0));
    assert Advance(ts, PState(5, ts[5], Some(ts[6]), 0)) == (Ok(()), u6);
    assert Climb(ts, sum, 0, 0, u4) == (Ok(Infix(sum, Multiply, N("4"))), u6);
    assert Advance(ts, s0.(index := -1)) == (Ok(()), s0);
  }

  /** "2*(3+4)": a group as the right operand is parsed whole before the
      product is built, giving (2 * (3 + 4)) with the counter back at 0. */
  lemma GroupAsRightOperand(ts: seq<Token>)
    requires ts == [NumberToken("2", 0, 0), OperatorToken(Multiply, 0, 1), ParenthesisToken(Left, 2, 2),
                    NumberToken("3", 3, 3), OperatorToken(Plus, 3, 4), NumberToken("4", 5, 5),
                    ParenthesisToken(Right, 6, 6), EofToken(7, 7)]
    ensures ParseChecked(ts, Constructed(ts)).0 == Ok(Infix(N("2"), Multiply, Infix(N("3"), Plus, N("4"))))
    ensures ParseChecked(ts, Constructed(ts)).1.level == 0
  {
    var s0 := Constructed(ts);
    var sum := Infix(N("3"), Plus, N("4"));
    var s2 := PState(2, ts[2], Some(ts[3]), 0);
    var t3 := PState(3, ts[3], Some(ts[4]), 1);
    var t5 := PState(5, ts[5], Some(ts[6]), 1);
    var u6 := PState(6, ts[6], Some(ts[7]), 0);
    assert Advance(ts, t5) == (Ok(()), PState(6, ts[6], Some(ts[7]), 1));
    assert Climb(ts, sum, 0, 1, t5) == (Ok(sum), u6);
    assert Extend(ts, N("4"), Plus, 1, t5) == (Ok(N("4")), t5);
    assert Advance(ts, t3) == (Ok(()), PState(4, ts[4], Some(ts[5]), 1));
    assert Advance(ts, PState(4, ts[4], Some(ts[5]), 1)) == (Ok(()), t5);
    assert Climb(ts, N("3"), 0, 1, t3) == (Ok(sum), u6);
    assert Advance(ts, s2) == (Ok(()), PState(3, ts[3], Some(ts[4]), 0));
    assert Primary(ts, s2) == (Ok(sum), u6);
    assert Extend(ts, sum, Multiply, 0, u6) == (Ok(sum), u6);
    assert Advance(ts, s0) == (Ok(()), PState(1, ts[1], Some(ts[2]), 0));
    assert Advance(ts, PState(1, ts[1], Some(ts[2]), 0)) == (Ok(()), s2);
    assert Climb(ts, N("2"), 0, 0, s0) == (Ok(Infix(N("2"), Multiply, sum)), u6);
    assert Advance(ts, s0.(index := -1)) == (Ok(()), s0);
  }

  /** "--5": a minus followed by an operator is not unary, so the first
      minus is a syntax error expecting a number, parenthesis or variable. */
  lemma DoubleMinusRejected(ts: seq<Token>)
    requires ts == [OperatorToken(Minus, -1, 0), OperatorToken(Minus, 0, 1), NumberToken("5", 2, 2), EofToken(3, 3)]
    ensures ParseChecked(ts, Constructed(ts)).0
         == Err(SyntaxError([TokenType.Number, TokenType.Parenthesis, TokenType.Variable], -1, 0, TokenType.Operator))
  {
    var s0 := Constructed(ts);
    assert Advance(ts, s0.(index := -1)) == (Ok(()), s0);
  }

  /** "2(3)": a parenthesis where an operator should follow an operand is
      a syntax error expecting an operator, at the parenthesis. */
  lemma ParenthesisAfterOperandRejected(ts: seq<Token>)
    requires ts == [NumberToken("2", 0, 0), ParenthesisToken(Left, 1, 1), NumberToken("3", 2, 2),
                    ParenthesisToken(Right, 3, 3), EofToken(4, 4)]
    ensures ParseChecked(ts, Constructed(ts)).0 == Err(SyntaxError([TokenType.Operator], 1, 1, TokenType.Parenthesis))
  {
    var s0 := Constructed(ts);
    assert Advance(ts, s0.(index := -1)) == (Ok(()), s0);
  }

  /** "(2+3": an unclosed parenthesis is a syntax error expecting a
      parenthesis, one column after the last token, where input ends. */
  lemma UnclosedParenthesisRejected(ts: seq<Token>)
    requires ts == [ParenthesisToken(Left, 0, 0), NumberToken("2", 1, 1), OperatorToken(Plus, 1, 2),
                    NumberToken("3", 3, 3), EofToken(4, 4)]
    ensures ParseChecked(ts, Constructed(ts)).0 == Err(SyntaxError([TokenType.Parenthesis], 4, 4, TokenType.Eof))
  {
    var s0 := Constructed(ts);
    var s1 := PState(1, ts[1], Some(ts[2]), 1);
    var s3 := PState(3, ts[3], Some(ts[4]), 1);
    var sum := Infix(N("2"), Plus, N("3"));
    assert Advance(ts, s0) == (Ok(()), s1.(level := 0));
    assert Extend(ts, N("3"), Plus, 1, s3) == (Ok(N("3")), s3);
    assert Advance(ts, s1) == (Ok(()), PState(2, ts[2], Some(ts[3]), 1));
    assert Advance(ts, PState(2, ts[2], Some(ts[3]), 1)) == (Ok(()), s3);
    assert Climb(ts, N("2"), 0, 1, s1) == (Ok(sum), s3);
    assert Primary(ts, s0) == (Ok(sum), s3);
    assert Advance(ts, s0.(index := -1)) == (Ok(()), s0);
    assert ParseFromStart(ts, s0) == (Ok(sum), s3);
  }

  /** "2 3": a token left before the end is a syntax error expecting the
      end of input, one column after the parsed expression. */
  lemma TrailingTokenRejected(ts: seq<Token>)
    requires ts == [NumberToken("2", 0, 0), NumberToken("3", 2, 2), EofToken(3, 3)]
    ensures ParseChecked(ts, Constructed(ts)).0 == Err(SyntaxError([TokenType.Eof], 1, 1, TokenType.Number))
  {
    var s0 := Constructed(ts);
    assert Advance(ts, s0.(index := -1)) == (Ok(()), s0);
  }

  /** ")1)": a closing parenthesis in primary position opens a level like
      "(", so this parses, to the number alone. */
  lemma ClosingParenthesisOpens(ts: seq<Token>)
    requires ts == [ParenthesisToken(Right, 0, 0), NumberToken("1", 1, 1), ParenthesisToken(Right, 2, 2), EofToken(3, 3)]
    ensures ParseChecked(ts, Constructed(ts)).0 == Ok(N("1"))
  {
    var s0 := Constructed(ts);
    assert Primary(ts, s0) == (Ok(N("1")), PState(2, ts[2], Some(ts[3]), 0)) by {
      EitherParenthesisOpens(ts, s0);
    }
    assert Advance(ts, s0.(index := -1)) == (Ok(()), s0);
  }

  /** "(1))": at the top level a closing parenthesis cannot follow a
      parenthesised expression; it is a syntax error expecting an
      operator, at the second ")". */
  lemma SurplusCloseAtTopRejected(ts: seq<Token>)
    requires ts == [ParenthesisToken(Left, 0, 0), NumberToken("1", 1, 1), ParenthesisToken(Right, 2, 2),
                    ParenthesisToken(Right, 3, 3), EofToken(4, 4)]
    ensures ParseChecked(ts, Constructed(ts)).0 == Err(SyntaxError([TokenType.Operator], 3, 3, TokenType.Parenthesis))
  {
    var s0 := Constructed(ts);
    var s2 := PState(2, ts[2], Some(ts[3]), 0);
    assert Primary(ts, s0) == (Ok(N("1")), s2) by {
      EitherParenthesisOpens(ts, s0);
    }
    assert Advance(ts, s0.(index := -1)) == (Ok(()), s0);
  }
}
