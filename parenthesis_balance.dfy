/** The parenthesis counter of `Parse` (Calculator/Parser.cs) can end
    below zero: a closing parenthesis consumed by a nested climbing call
    leaves the enclosing call at its level to consume one more, so a text
    with a surplus ")" parses, and the parser is left in a state where the
    same text no longer parses. `ParseBalanced` is `Parse` with the check
    the two-sided counter evidently calls for, and for it parsing twice
    agrees. */
module ParenthesisBalance {
  import opened Tokens
  import opened Expressions
  import opened Parsing
  import opened ParserProperties
  import opened ParserExamples

  /** The tokens of "(1+2*3))". */
  function SurplusClose(): seq<Token>
  {
    [ParenthesisToken(Left, 0, 0), NumberToken("1", 1, 1), OperatorToken(Plus, 1, 2), NumberToken("2", 3, 3),
     OperatorToken(Multiply, 3, 4), NumberToken("3", 5, 5), ParenthesisToken(Right, 6, 6),
     ParenthesisToken(Right, 7, 7), EofToken(8, 8)]
  }

  /** As written: "(1+2*3))" parses, consuming both closing parentheses,
      and leaves the counter at -1. */
  lemma SurplusCloseAccepted(ts: seq<Token>)
    requires ts == SurplusClose()
    ensures ParseChecked(ts, Constructed(ts))
         == (Ok(Infix(N("1"), Plus, Infix(N("2"), Multiply, N("3")))), PState(7, ts[7], Some(ts[8]), -1))
  {
    var product := Infix(N("2"), Multiply, N("3"));
    var sum := Infix(N("1"), Plus, product);
    var s0 := Constructed(ts);
    var s1 := PState(1, ts[1], Some(ts[2]), 1);
    var s3 := PState(3, ts[3], Some(ts[4]), 1);
    var s5 := PState(5, ts[5], Some(ts[6]), 1);
    var s6 := PState(6, ts[6], Some(ts[7]), 0);
    var s7 := PState(7, ts[7], Some(ts[8]), -1);
    assert Extend(ts, N("3"), Multiply, 1, s5) == (Ok(N("3")), s5);
    assert Climb(ts, product, 2, 1, s5) == (Ok(product), s6);
    assert Advance(ts, s3) == (Ok(()), PState(4, ts[4], Some(ts[5]), 1));
    assert Advance(ts, PState(4, ts[4], Some(ts[5]), 1)) == (Ok(()), s5);
    assert Climb(ts, N("2"), 2, 1, s3) == (Ok(product), s6);
    assert Extend(ts, N("2"), Plus, 1, s3) == (Ok(product), s6);
    assert Climb(ts, sum, 0, 1, s6) == (Ok(sum), s7);
    assert Advance(ts, s1) == (Ok(()), PState(2, ts[2], Some(ts[3]), 1));
    assert Advance(ts, PState(2, ts[2], Some(ts[3]), 1)) == (Ok(()), s3);
    assert Climb(ts, N("1"), 0, 1, s1) == (Ok(sum), s7);
    assert Advance(ts, s0) == (Ok(()), s1.(level := 0));
    assert Primary(ts, s0) == (Ok(sum), s7);
    assert Advance(ts, s0.(index := -1)) == (Ok(()), s0);
  }

  /** As written: a second `Parse` on the same parser, as the user
      interface makes, starts with the counter at -1, so the first closing
      parenthesis is no longer taken as one and the parse fails there. */
  lemma SurplusCloseFailsWhenParsedAgain(ts: seq<Token>)
    requires ts == SurplusClose()
    ensures ParseChecked(ts, ParseChecked(ts, Constructed(ts)).1).0
         == Err(SyntaxError([TokenType.Operator], 6, 6, TokenType.Parenthesis))
  {
    SurplusCloseAccepted(ts);
    ReparseAtMinusOne(ts);
  }

  /** The second parse of `SurplusCloseFailsWhenParsedAgain`, from the
      fields the first one leaves. */
  lemma ReparseAtMinusOne(ts: seq<Token>)
    requires ts == SurplusClose()
    ensures ParseChecked(ts, PState(7, ts[7], Some(ts[8]), -1)).0
         == Err(SyntaxError([TokenType.Operator], 6, 6, TokenType.Parenthesis))
  {
    var product := Infix(N("2"), Multiply, N("3"));
    var s0 := PState(0, ts[0], Some(ts[1]), -1);
    var s1 := PState(1, ts[1], Some(ts[2]), 0);
    var s3 := PState(3, ts[3], Some(ts[4]), 0);
    var s5 := PState(5, ts[5], Some(ts[6]), 0);
    var error := Err(SyntaxError([TokenType.Operator], 6, 6, TokenType.Parenthesis));
    assert Extend(ts, N("3"), Multiply, 0, s5) == (Ok(N("3")), s5);
    assert Climb(ts, product, 2, 0, s5).0 == error;
    assert Advance(ts, s3) == (Ok(()), PState(4, ts[4], Some(ts[5]), 0));
    assert Advance(ts, PState(4, ts[4], Some(ts[5]), 0)) == (Ok(()), s5);
    assert Climb(ts, N("2"), 2, 0, s3).0 == error;
    assert Extend(ts, N("2"), Plus, 0, s3).0 == error;
    assert Advance(ts, s1) == (Ok(()), PState(2, ts[2], Some(ts[3]), 0));
    assert Advance(ts, PState(2, ts[2], Some(ts[3]), 0)) == (Ok(()), s3);
    assert Climb(ts, N("1"), 0, 0, s1).0 == error;
    assert Advance(ts, s0) == (Ok(()), s1.(level := -1));
    assert Primary(ts, s0).0 == error;
    assert Advance(ts, PState(-1, ts[7], Some(ts[8]), -1)) == (Ok(()), s0);
  }

  /** `Parse` with the counter checked on both sides: a parse that leaves
      it below zero closed more parentheses than it opened, and is a syntax
      error at the surplus parenthesis (the last token consumed),
      expecting the end of input. */
  function ParseBalanced(ts: seq<Token>, s: PState): (r: (Result<Expr>, PState))
    requires Consistent(ts, s)
    ensures Consistent(ts, r.1)
    ensures r.0.Ok? ==> r.1.level == 0 && |ts| - 2 <= r.1.index
  {
    var (e, s1) := ParseChecked(ts, s);
    if e.Ok? && s1.level < 0 then (Err(SyntaxErrorAt([TokenType.Eof], s1.current)), s1)
    else (e, s1)
  }

  /** The corrected check accepts exactly the parses of `Parse` that leave
      the counter where a fresh parser has it, with the same tree. */
  lemma BalancedAcceptsExactlyLevelZero(ts: seq<Token>, s: PState)
    requires Consistent(ts, s) && s.level == 0
    ensures ParseBalanced(ts, s).0.Ok? <==> ParseChecked(ts, s).0.Ok? && ParseChecked(ts, s).1.level == 0
    ensures ParseBalanced(ts, s).0.Ok? ==> ParseBalanced(ts, s) == ParseChecked(ts, s)
  {
  }

  /** What the user interface relies on holds for the corrected check: a
      successful parse from a fresh counter leaves it at zero, and parsing
      again gives the same tree and state. */
  lemma BalancedParseRepeatable(ts: seq<Token>, s: PState)
    requires Consistent(ts, s) && s.level == 0 && ParseBalanced(ts, s).0.Ok?
    ensures ParseBalanced(ts, s).1.level == 0
    ensures ParseBalanced(ts, ParseBalanced(ts, s).1) == ParseBalanced(ts, s)
  {
    ParseAgain(ts, s);
  }

  /** The corrected check rejects "(1+2*3))" at the second ")". */
  lemma BalancedRejectsSurplusClose(ts: seq<Token>)
    requires ts == SurplusClose()
    ensures ParseBalanced(ts, Constructed(ts)).0 == Err(SyntaxError([TokenType.Eof], 7, 7, TokenType.Parenthesis))
  {
    SurplusCloseAccepted(ts);
  }
}
