/** Properties of the parser (Calculator/Parser.cs) stated over the
    functions of module Parsing: fail-fast construction and parsing, what a primary
    becomes, when a parse can start, repeatable parsing, and how much of
    the input a successful parse consumes. */
module ParserProperties {
  import opened Tokens
  import opened Expressions
  import opened Lexing
  import opened Parsing

  /** `NextToken` fails fast: an invalid new current token is reported
      first, then an invalid lookahead, and otherwise the step succeeds. */
  lemma AdvanceFailsFast(ts: seq<Token>, s: PState)
    requires Consistent(ts, s) && 0 <= s.index && s.index + 1 < |ts|
    ensures Advance(ts, s).1.index == s.index + 1 && Advance(ts, s).1.current == ts[s.index + 1]
    ensures ts[s.index + 1].InvalidToken? ==> Advance(ts, s).0 == Err(InvalidTokenErrorFor(ts[s.index + 1]))
    ensures && !ts[s.index + 1].InvalidToken? && s.index + 2 < |ts| && ts[s.index + 2].InvalidToken?
            ==> Advance(ts, s).0 == Err(InvalidTokenErrorFor(ts[s.index + 2]))
    ensures Advance(ts, s).0.Ok? <==>
              !ts[s.index + 1].InvalidToken? && (s.index + 2 < |ts| ==> !ts[s.index + 2].InvalidToken?)
  {
  }

  /** Constructing a parser fails on an empty token list, and on an invalid
      token among the first two; otherwise the cursor is on the first token
      with the second as lookahead. */
  lemma ConstructionFailsFast(ts: seq<Token>)
    ensures |ts| == 0 ==> Advance(ts, InitialState()).0 == Err(UnexpectedEndOfFile)
    ensures 0 < |ts| && ts[0].InvalidToken? ==> Advance(ts, InitialState()).0 == Err(InvalidTokenErrorFor(ts[0]))
    ensures && 1 < |ts| && !ts[0].InvalidToken? && ts[1].InvalidToken?
            ==> Advance(ts, InitialState()).0 == Err(InvalidTokenErrorFor(ts[1]))
    ensures && 1 < |ts| && !ts[0].InvalidToken? && !ts[1].InvalidToken?
            ==> Advance(ts, InitialState()) == (Ok(()), PState(0, ts[0], Some(ts[1]), 0))
  {
  }

  /** No token before index `n` is invalid. */
  ghost predicate CleanBefore(ts: seq<Token>, n: int)
  {
    forall m :: 0 <= m < n && m < |ts| ==> !ts[m].InvalidToken?
  }

  /** A successful `NextToken` has checked the new current token and the
      lookahead, so the tokens up to the lookahead are valid. */
  lemma AdvanceChecks(ts: seq<Token>, s: PState)
    requires Consistent(ts, s) && CleanBefore(ts, s.index + 1)
    ensures Advance(ts, s).0.Ok? ==> CleanBefore(ts, Advance(ts, s).1.index + 2)
  {
  }

  /** A successful `ParsePrimary` has only passed valid tokens, up to and
      including the lookahead where it stops. */
  lemma {:induction false} PrimaryChecks(ts: seq<Token>, s: PState)
    requires Consistent(ts, s) && 0 <= s.index && CleanBefore(ts, s.index + 2)
    ensures Primary(ts, s).0.Ok? ==> CleanBefore(ts, Primary(ts, s).1.index + 2)
    decreases |ts| - s.index, 2
  {
    var cur := s.current;
    if cur.NumberToken? || cur.VariableToken? {
    } else if cur.OperatorToken? && cur.op == Minus {
      if Lookahead(ts, s).Ok? && !Lookahead(ts, s).value.OperatorToken? {
        NegationChecks(ts, s);
      }
    } else if cur.ParenthesisToken? {
      GroupChecks(ts, s);
    }
  }

  /** The unary-minus branch of `ParsePrimary`. */
  lemma {:induction false} NegationChecks(ts: seq<Token>, s: PState)
    requires Consistent(ts, s) && 0 <= s.index && CleanBefore(ts, s.index + 2)
    requires s.current.OperatorToken? && s.current.op == Minus
    requires Lookahead(ts, s).Ok? && !Lookahead(ts, s).value.OperatorToken?
    ensures Primary(ts, s).0.Ok? ==> CleanBefore(ts, Primary(ts, s).1.index + 2)
    decreases |ts| - s.index, 1
  {
    AdvanceChecks(ts, s);
    var (a, s1) := Advance(ts, s);
    if a.Ok? {
      PrimaryChecks(ts, s1);
    }
  }

  /** The parenthesis branch of `ParsePrimary`. */
  lemma {:induction false} GroupChecks(ts: seq<Token>, s: PState)
    requires Consistent(ts, s) && 0 <= s.index && CleanBefore(ts, s.index + 2)
    requires s.current.ParenthesisToken?
    ensures Primary(ts, s).0.Ok? ==> CleanBefore(ts, Primary(ts, s).1.index + 2)
    decreases |ts| - s.index, 1
  {
    AdvanceChecks(ts, s);
    var (a, s1) := Advance(ts, s);
    if a.Ok? {
      var s1' := s1.(level := s1.level + 1);
      PrimaryChecks(ts, s1');
      var (p, s2) := Primary(ts, s1');
      if p.Ok? {
        ClimbChecks(ts, p.value, 0, s2.level, s2);
      }
    }
  }

  /** The same for the climbing loop of `ParseToken`. */
  lemma {:induction false} ClimbChecks(ts: seq<Token>, lhs: Expr, minPrecedence: int, level: int, s: PState)
    requires Consistent(ts, s) && 0 <= s.index && CleanBefore(ts, s.index + 2)
    ensures Climb(ts, lhs, minPrecedence, level, s).0.Ok? ==> CleanBefore(ts, Climb(ts, lhs, minPrecedence, level, s).1.index + 2)
    decreases |ts| - s.index, 0
  {
    var pk := Lookahead(ts, s);
    if pk.Ok? && ClimbsOn(pk.value, minPrecedence) {
      var t := pk.value;
      if level > 0 && t.ParenthesisToken? && t.dir == Right {
        AdvanceChecks(ts, s);
      } else if level <= s.level && t.OperatorToken? {
        ClimbTurnChecks(ts, lhs, minPrecedence, level, s, t);
      }
    }
  }

  /** A turn of the climbing loop that consumes the operator `t`. */
  lemma {:induction false} ClimbTurnChecks(ts: seq<Token>, lhs: Expr, minPrecedence: int, level: int, s: PState, t: Token)
    requires Consistent(ts, s) && 0 <= s.index && CleanBefore(ts, s.index + 2)
    requires Lookahead(ts, s) == Ok(t) && t.OperatorToken? && ClimbsOn(t, minPrecedence) && level <= s.level
    ensures Climb(ts, lhs, minPrecedence, level, s).0.Ok? ==> CleanBefore(ts, Climb(ts, lhs, minPrecedence, level, s).1.index + 2)
    decreases |ts| - s.index, 0, 0
  {
    AdvanceChecks(ts, s);
    var (a1, s1) := Advance(ts, s);
    if a1.Ok? {
      AdvanceChecks(ts, s1);
      var (a2, s2) := Advance(ts, s1);
      if a2.Ok? {
        PrimaryChecks(ts, s2);
        var (rhs, s3) := Primary(ts, s2);
        if rhs.Ok? {
          ExtendChecks(ts, rhs.value, t.op, level, s3);
          var (ext, s4) := Extend(ts, rhs.value, t.op, level, s3);
          if ext.Ok? {
            ClimbChecks(ts, Infix(lhs, t.op, ext.value), minPrecedence, level, s4);
          }
        }
      }
    }
  }

  /** The same for the inner loop of `ParseToken`. */
  lemma {:induction false} ExtendChecks(ts: seq<Token>, rhs: Expr, op: Operators, level: int, s: PState)
    requires Consistent(ts, s) && 0 <= s.index && CleanBefore(ts, s.index + 2)
    ensures Extend(ts, rhs, op, level, s).0.Ok? ==> CleanBefore(ts, Extend(ts, rhs, op, level, s).1.index + 2)
    decreases |ts| - s.index, 1
  {
    var pk := Lookahead(ts, s);
    if level <= s.level && pk.Ok? && BindsTighter(pk.value, op) {
      var next := pk.value;
      ExtendTakesTurn(ts, rhs, op, level, s, next);
      var minPrecedence := Precedence(op) + (if Precedence(next.op) > Precedence(op) then 1 else 0);
      assert ClimbsOn(next, minPrecedence);
      ClimbChecks(ts, rhs, minPrecedence, level, s);
      var (r1, s1) := Climb(ts, rhs, minPrecedence, level, s);
      if r1.Ok? {
        ExtendChecks(ts, r1.value, op, level, s1);
      }
    }
  }

  /** Invalid lexical content is never parsed: a successful `Parse` has
      checked every token of the list, so a list holding an invalid token
      always fails. */
  lemma ParseRejectsInvalidTokens(ts: seq<Token>, s: PState)
    requires Consistent(ts, s)
    ensures ParseChecked(ts, s).0.Ok? ==> forall m :: 0 <= m < |ts| ==> !ts[m].InvalidToken?
  {
    var (a, s1) := Advance(ts, s.(index := -1));
    AdvanceChecks(ts, s.(index := -1));
    if a.Ok? {
      PrimaryChecks(ts, s1);
      var (p, s2) := Primary(ts, s1);
      if p.Ok? {
        ClimbChecks(ts, p.value, 0, 0, s2);
      }
    }
  }

  /** The same for a whole text: a text compiles only when its lexer
      output holds no invalid token. */
  lemma CompiledTextsLexCleanly(text: string)
    ensures Compile(text).Ok? ==> forall m :: 0 <= m < |Tokenize(text)| ==> !Tokenize(text)[m].InvalidToken?
  {
    var ts := Tokenize(text);
    var (a, s) := Advance(ts, InitialState());
    if a.Ok? {
      ParseRejectsInvalidTokens(ts, s);
    }
  }

  /** A number or variable token is a leaf and consumes nothing; a token
      that no branch of `ParsePrimary` takes is a syntax error at that
      token, expecting a number, a parenthesis or a variable. */
  lemma PrimaryOfSingleToken(ts: seq<Token>, s: PState)
    requires Consistent(ts, s) && 0 <= s.index
    ensures s.current.NumberToken? ==> Primary(ts, s) == (Ok(Expr.Number(s.current.text)), s)
    ensures s.current.VariableToken? ==> Primary(ts, s) == (Ok(Expr.Variable(s.current.name)), s)
    ensures s.current.EofToken? || s.current.InvalidToken? || (s.current.OperatorToken? && s.current.op != Minus)
            ==> Primary(ts, s) == (Err(SyntaxErrorAt([TokenType.Number, TokenType.Parenthesis, TokenType.Variable], s.current)), s)
  {
  }

  /** A minus in primary position negates the primary after it, as
      multiplication by the literal "-1"; a minus followed by another
      operator is a syntax error at the minus. */
  lemma UnaryMinus(ts: seq<Token>, s: PState)
    requires Consistent(ts, s) && 0 <= s.index && s.index + 1 < |ts|
    requires s.current.OperatorToken? && s.current.op == Minus
    ensures ts[s.index + 1].OperatorToken? ==>
              Primary(ts, s) == (Err(SyntaxErrorAt([TokenType.Number, TokenType.Parenthesis, TokenType.Variable], s.current)), s)
    ensures && !ts[s.index + 1].OperatorToken? && Advance(ts, s).0.Ok?
            && Primary(ts, Advance(ts, s).1).0.Ok?
            ==> Primary(ts, s) == (Ok(Infix(Expr.Number("-1"), Multiply, Primary(ts, Advance(ts, s).1).0.value)),
                                   Primary(ts, Advance(ts, s).1).1)
  {
  }

  /** A parenthesis of either direction in primary position opens a nested
      level: followed by a number and a ")" it yields that number, leaves
      the cursor on the ")" and restores the counter. */
  lemma EitherParenthesisOpens(ts: seq<Token>, s: PState)
    requires Consistent(ts, s) && 0 <= s.index && s.index + 3 < |ts| && 0 <= s.level
    requires s.current.ParenthesisToken?
    requires ts[s.index + 1].NumberToken?
    requires ts[s.index + 2].ParenthesisToken? && ts[s.index + 2].dir == Right
    requires !ts[s.index + 3].InvalidToken?
    ensures Primary(ts, s) == (Ok(Expr.Number(ts[s.index + 1].text)),
                               PState(s.index + 2, ts[s.index + 2], Some(ts[s.index + 3]), s.level))
  {
    var (a, s1) := Advance(ts, s);
    assert a.Ok? && s1 == PState(s.index + 1, ts[s.index + 1], Some(ts[s.index + 2]), s.level);
    var s1' := s1.(level := s.level + 1);
    assert Primary(ts, s1') == (Ok(Expr.Number(ts[s.index + 1].text)), s1');
    var (a2, s2) := Advance(ts, s1');
    assert a2.Ok? && s2 == PState(s.index + 2, ts[s.index + 2], Some(ts[s.index + 3]), s.level + 1);
  }

  /** In the climbing loop, a ")" lookahead inside parentheses is consumed
      and closes one level; any other parenthesis lookahead (or a ")" at
      level 0) is a syntax error expecting an operator. */
  lemma ClimbOnParenthesis(ts: seq<Token>, lhs: Expr, minPrecedence: int, level: int, s: PState)
    requires Consistent(ts, s) && 0 <= s.index && s.index + 1 < |ts| && ts[s.index + 1].ParenthesisToken?
    ensures && level > 0 && ts[s.index + 1].dir == Right && Advance(ts, s).0.Ok?
            ==> Climb(ts, lhs, minPrecedence, level, s) == (Ok(lhs), Advance(ts, s).1.(level := s.level - 1))
    ensures && !(level > 0 && ts[s.index + 1].dir == Right) && level <= s.level
            ==> Climb(ts, lhs, minPrecedence, level, s) == (Err(SyntaxErrorFor(TokenType.Operator, ts[s.index + 1])), s)
  {
  }

  /** A successful parse needs at least two tokens: a one-token list runs
      out while looking for the token after the expression. */
  lemma ParseNeedsTwoTokens(ts: seq<Token>, s: PState)
    requires Consistent(ts, s) && ParseFromStart(ts, s).0.Ok?
    ensures 2 <= |ts|
  {
  }

  /** `Parse` depends on the parser's fields only through the counter:
      once a parse succeeds, any consistent state with the same counter
      parses the same tokens to the same tree and the same final state. */
  lemma ParseRepeatable(ts: seq<Token>, s: PState, t: PState)
    requires Consistent(ts, s) && Consistent(ts, t) && s.level == t.level
    requires ParseChecked(ts, s).0.Ok?
    ensures ParseChecked(ts, t) == ParseChecked(ts, s)
  {
    ParseNeedsTwoTokens(ts, s);
    assert Advance(ts, s.(index := -1)) == Advance(ts, t.(index := -1));
  }

  /** Calling `Parse` again after a successful parse that left the counter
      where it found it gives the same tree and the same state. */
  lemma ParseAgain(ts: seq<Token>, s: PState)
    requires Consistent(ts, s)
    requires ParseChecked(ts, s).0.Ok? && ParseChecked(ts, s).1.level == s.level
    ensures ParseChecked(ts, ParseChecked(ts, s).1) == ParseChecked(ts, s)
  {
    ParseRepeatable(ts, s, ParseChecked(ts, s).1);
  }

  /** The user interface parses each text twice (once to check it, once to
      use it); with the counter back where it started, both agree. */
  method ParseTwice(p: Parser) returns (first: Result<Expr>, between: int, second: Result<Expr>)
    requires p.Valid()
    modifies p
    ensures p.Valid()
    ensures first == ParseChecked(p.tokens, old(p.State())).0
    ensures between == ParseChecked(p.tokens, old(p.State())).1.level
    ensures first.Ok? && between == old(p.parenthesisLevel) ==> second == first
  {
    ghost var s := p.State();
    first := p.Parse();
    between := p.parenthesisLevel;
    second := p.Parse();
    if first.Ok? && between == s.level {
      ParseAgain(p.tokens, s);
    }
  }

  /** A successful parse of lexer output consumes every token but the
      final end-of-input token. */
  lemma ParseConsumesEveryToken(text: string, s: PState)
    requires Consistent(Tokenize(text), s) && ParseChecked(Tokenize(text), s).0.Ok?
    ensures ParseChecked(Tokenize(text), s).1.index == |Tokenize(text)| - 2
    ensures ParseChecked(Tokenize(text), s).1.level <= 0
  {
    TokenizeEndsWithEof(text);
  }
}
