/** The precedence-climbing parser (Calculator/Parser.cs). The functions
    say what each parser method returns and what it leaves in the parser's
    fields, one exception-free step at a time: a failing call returns `Err`
    together with the fields as the source leaves them when it throws. The
    class `Parser` is the field-updating implementation, proved equal to
    them. */
module Parsing {
  import opened Tokens
  import opened Expressions
  import opened Lexing

  /** The parser's mutable fields: `CurrentIndex`, `CurrentToken`, `_peek`
      (None while it is still null) and `_parenthesisLevel`. */
  datatype PState = PState(index: int, current: Token, peek: Option<Token>, level: int)

  /** The fields as both constructors set them before their first `NextToken`. */
  function InitialState(): PState
  {
    PState(-1, InvalidToken('\0', 0, 0), None, 0)
  }

  /** What the fields satisfy between calls: the cursor is on a token or
      just before the first one, the current token is the token at the
      cursor, and the lookahead field holds the next token while there is
      one. The lookahead is left as it was once the cursor reaches the last
      token. */
  ghost predicate Consistent(ts: seq<Token>, s: PState)
  {
    && -1 <= s.index < |ts|
    && (0 <= s.index ==> s.current == ts[s.index])
    && (0 <= s.index && s.index + 1 < |ts| ==> s.peek == Some(ts[s.index + 1]))
  }

  /** `NextToken`: moves to the next token and fails if that token or the
      one after it is invalid; past the last token it fails with "Unexpected
      end of file" and moves nothing. */
  function Advance(ts: seq<Token>, s: PState): (r: (Result<()>, PState))
    requires Consistent(ts, s)
    ensures Consistent(ts, r.1) && r.1.level == s.level
    ensures r.0.Ok? ==> r.1.index == s.index + 1
    ensures r.1.index == s.index || r.1.index == s.index + 1
    ensures r.0 == Err(UnexpectedEndOfFile) <==> s.index + 1 >= |ts|
  {
    if s.index + 1 < |ts| then
      var i := s.index + 1;
      var peek := if i + 1 < |ts| then Some(ts[i + 1]) else s.peek;
      var s' := PState(i, ts[i], peek, s.level);
      if ts[i].InvalidToken? then (Err(InvalidTokenErrorFor(ts[i])), s')
      else if peek.Some? && peek.value.InvalidToken? then (Err(InvalidTokenErrorFor(peek.value)), s')
      else (Ok(()), s')
    else
      (Err(UnexpectedEndOfFile), s)
  }

  /** `Peek`: the token after the cursor, or "Unexpected end of file". */
  function Lookahead(ts: seq<Token>, s: PState): (r: Result<Token>)
    requires -1 <= s.index
  {
    if s.index + 1 < |ts| then Ok(ts[s.index + 1]) else Err(UnexpectedEndOfFile)
  }

  /** What `Lookahead` answers: the next token exactly when there is one,
      and otherwise "Unexpected end of file". Kept apart from `Lookahead`
      so that the parser's proofs do not carry it. */
  lemma LookaheadAnswers(ts: seq<Token>, s: PState)
    requires -1 <= s.index
    ensures Lookahead(ts, s).Ok? <==> s.index + 1 < |ts|
    ensures Lookahead(ts, s).Ok? ==> Lookahead(ts, s).value == ts[s.index + 1]
    ensures Lookahead(ts, s).Err? ==> Lookahead(ts, s).error == UnexpectedEndOfFile
  {
  }

  /** `CastOrThrow<OperatorToken>`: the token if it is an operator, else a
      syntax error expecting `expectation` at the token. */
  function CastOrThrow(t: Token, expectation: TokenType): (r: Result<Token>)
    ensures r.Ok? <==> t.OperatorToken?
    ensures r.Ok? ==> r.value == t
    ensures r.Err? ==> r.error == SyntaxErrorFor(expectation, t)
  {
    if t.OperatorToken? then Ok(t) else Err(SyntaxErrorFor(expectation, t))
  }

  /** Whether the lookahead makes the climbing loop of `ParseToken` take
      another turn: any parenthesis, or an operator binding at least as
      tightly as `minPrecedence`. */
  predicate ClimbsOn(t: Token, minPrecedence: int)
  {
    t.ParenthesisToken? || (t.OperatorToken? && Precedence(t.op) >= minPrecedence)
  }

  /** Whether an operator lookahead must extend the right-hand side of `op`:
      it binds tighter, or as tightly and to the right. */
  predicate BindsTighter(t: Token, op: Operators)
  {
    && t.OperatorToken?
    && (|| Precedence(t.op) > Precedence(op)
        || (Precedence(t.op) == Precedence(op) && Associativity(t.op) == Right))
  }

  /** The loop test of `ParseToken` read against the tables: at threshold
      0 every operator and every parenthesis continues the loop, above the
      top precedence only a parenthesis does, and raising the threshold
      only stops more tokens. */
  lemma ClimbsOnThresholds(t: Token, minPrecedence: int, lower: int)
    requires lower <= minPrecedence
    ensures ClimbsOn(t, 0) <==> t.OperatorToken? || t.ParenthesisToken?
    ensures ClimbsOn(t, 4) <==> t.ParenthesisToken?
    ensures ClimbsOn(t, minPrecedence) ==> ClimbsOn(t, lower)
    ensures t.NumberToken? || t.VariableToken? || t.EofToken? || t.InvalidToken? ==> !ClimbsOn(t, minPrecedence)
  {
  }

  /** The inner loop test read against the tables: a lookahead extends the
      right-hand side of `op` exactly when it is an operator of higher
      precedence, or both are `^`; and the nested climb it starts always
      accepts that lookahead. */
  lemma BindsTighterExactly(t: Token, op: Operators)
    ensures BindsTighter(t, op) <==>
              t.OperatorToken? && (Precedence(t.op) > Precedence(op) || (t.op == Power && op == Power))
    ensures BindsTighter(t, op) ==>
              ClimbsOn(t, Precedence(op) + (if Precedence(t.op) > Precedence(op) then 1 else 0))
  {
  }

  /** Where a successfully parsed (sub)expression leaves the cursor: on a
      number, a variable or a closing parenthesis. */
  predicate EndsOperand(t: Token)
  {
    t.NumberToken? || t.VariableToken? || (t.ParenthesisToken? && t.dir == Right)
  }

  /** `ParsePrimary`. */
  function Primary(ts: seq<Token>, s: PState): (r: (Result<Expr>, PState))
    requires Consistent(ts, s) && 0 <= s.index
    ensures Consistent(ts, r.1) && s.index <= r.1.index
    ensures r.0.Ok? ==> EndsOperand(r.1.current)
    decreases |ts| - s.index, 2
  {
    var cur := s.current;
    if cur.NumberToken? then
      (Ok(Expr.Number(cur.text)), s)
    else if cur.OperatorToken? && cur.op == Minus && Lookahead(ts, s).Err? then
      (Err(Lookahead(ts, s).error), s)
    else if cur.OperatorToken? && cur.op == Minus && !Lookahead(ts, s).value.OperatorToken? then
      var (a, s1) := Advance(ts, s);
      if a.Err? then (Err(a.error), s1)
      else
        var (p, s2) := Primary(ts, s1);
        if p.Err? then (p, s2)
        else (Ok(Infix(Expr.Number("-1"), Multiply, p.value)), s2)
    else if cur.ParenthesisToken? then
      var (a, s1) := Advance(ts, s);
      if a.Err? then (Err(a.error), s1)
      else
        var (p, s2) := Primary(ts, s1.(level := s1.level + 1));
        if p.Err? then (p, s2)
        else Climb(ts, p.value, 0, s2.level, s2)
    else if cur.VariableToken? then
      (Ok(Expr.Variable(cur.name)), s)
    else
      (Err(SyntaxErrorAt([TokenType.Number, TokenType.Parenthesis, TokenType.Variable], cur)), s)
  }

  /** `ParseToken(lhs, minPrecedence, level)`, one turn of its outer loop at
      a time. A turn that goes on consumes an operator and the token after
      it, so a lookahead operator that passes the loop test at a level the
      counter has not fallen below is always consumed. */
  function Climb(ts: seq<Token>, lhs: Expr, minPrecedence: int, level: int, s: PState): (r: (Result<Expr>, PState))
    requires Consistent(ts, s) && 0 <= s.index
    ensures Consistent(ts, r.1) && s.index <= r.1.index
    ensures && r.0.Ok? && Lookahead(ts, s).Ok? && Lookahead(ts, s).value.OperatorToken?
            && ClimbsOn(Lookahead(ts, s).value, minPrecedence) && level <= s.level
            ==> s.index < r.1.index
    ensures r.0.Ok? && EndsOperand(s.current) ==> EndsOperand(r.1.current)
    decreases |ts| - s.index, 0
  {
    var pk := Lookahead(ts, s);
    if pk.Err? then (Err(pk.error), s)
    else
      var t := pk.value;
      if !ClimbsOn(t, minPrecedence) then (Ok(lhs), s)
      else if level > 0 && t.ParenthesisToken? && t.dir == Right then
        var (a, s1) := Advance(ts, s);
        if a.Err? then (Err(a.error), s1)
        else (Ok(lhs), s1.(level := s1.level - 1))
      else if level > s.level then (Ok(lhs), s)
      else
        var cast := CastOrThrow(t, TokenType.Operator);
        if cast.Err? then (Err(cast.error), s)
        else
          var (a1, s1) := Advance(ts, s);
          if a1.Err? then (Err(a1.error), s1)
          else
            var (a2, s2) := Advance(ts, s1);
            if a2.Err? then (Err(a2.error), s2)
            else
              var (rhs, s3) := Primary(ts, s2);
              if rhs.Err? then (rhs, s3)
              else
                var (ext, s4) := Extend(ts, rhs.value, t.op, level, s3);
                if ext.Err? then (ext, s4)
                else Climb(ts, Infix(lhs, t.op, ext.value), minPrecedence, level, s4)
  }

  /** The inner loop of `ParseToken`: while the counter has not fallen
      below `level` and the lookahead binds tighter than `op`, the
      right-hand side is extended by a nested `ParseToken`. */
  function Extend(ts: seq<Token>, rhs: Expr, op: Operators, level: int, s: PState): (r: (Result<Expr>, PState))
    requires Consistent(ts, s) && 0 <= s.index
    ensures Consistent(ts, r.1) && s.index <= r.1.index
    ensures r.0.Ok? && EndsOperand(s.current) ==> EndsOperand(r.1.current)
    decreases |ts| - s.index, 1
  {
    if level > s.level then (Ok(rhs), s)
    else
      var pk := Lookahead(ts, s);
      if pk.Err? then (Err(pk.error), s)
      else if !BindsTighter(pk.value, op) then (Ok(rhs), s)
      else
        var peekOp := pk.value;
        var minPrecedence := Precedence(op) + (if Precedence(peekOp.op) > Precedence(op) then 1 else 0);
        var (r1, s1) := Climb(ts, rhs, minPrecedence, level, s);
        if r1.Err? then (r1, s1)
        else Extend(ts, r1.value, op, level, s1)
  }

  /** One turn of `Climb` that consumes the operator `t`: two steps, a
      primary, the inner loop, then the rest of the outer loop. */
  lemma ClimbTakesTurn(ts: seq<Token>, lhs: Expr, minPrecedence: int, level: int, s: PState, t: Token)
    requires Consistent(ts, s) && 0 <= s.index && level <= s.level
    requires Lookahead(ts, s) == Ok(t) && t.OperatorToken? && ClimbsOn(t, minPrecedence)
    ensures Climb(ts, lhs, minPrecedence, level, s) ==
              var (a1, s1) := Advance(ts, s);
              if a1.Err? then (Err(a1.error), s1)
              else
                var (a2, s2) := Advance(ts, s1);
                if a2.Err? then (Err(a2.error), s2)
                else
                  var (rhs, s3) := Primary(ts, s2);
                  if rhs.Err? then (rhs, s3)
                  else
                    var (ext, s4) := Extend(ts, rhs.value, t.op, level, s3);
                    if ext.Err? then (ext, s4)
                    else Climb(ts, Infix(lhs, t.op, ext.value), minPrecedence, level, s4)
  {
  }

  /** One turn of `Extend` when the counter allows it and the next token
      binds tighter than `op`: a climb, then the rest of the loop. */
  lemma ExtendTakesTurn(ts: seq<Token>, rhs: Expr, op: Operators, level: int, s: PState, next: Token)
    requires Consistent(ts, s) && 0 <= s.index && level <= s.level
    requires Lookahead(ts, s) == Ok(next) && BindsTighter(next, op)
    ensures var c := Climb(ts, rhs, Precedence(op) + (if Precedence(next.op) > Precedence(op) then 1 else 0), level, s);
            Extend(ts, rhs, op, level, s) == if c.0.Err? then c else Extend(ts, c.0.value, op, level, c.1)
  {
  }

  /** `ParseAll`: rewinds the cursor (not the counter) and parses one
      expression from the first token. */
  function ParseFromStart(ts: seq<Token>, s: PState): (r: (Result<Expr>, PState))
    requires Consistent(ts, s)
    ensures Consistent(ts, r.1)
    ensures r.0.Ok? ==> 0 <= r.1.index && EndsOperand(r.1.current)
  {
    var (a, s1) := Advance(ts, s.(index := -1));
    if a.Err? then (Err(a.error), s1)
    else
      var (p, s2) := Primary(ts, s1);
      if p.Err? then (p, s2)
      else Climb(ts, p.value, 0, 0, s2)
  }

  /** `Parse`: `ParseAll`, then an unclosed parenthesis is an error at the
      column after the current token, and so is any token left before the
      end-of-input token. */
  function ParseChecked(ts: seq<Token>, s: PState): (r: (Result<Expr>, PState))
    requires Consistent(ts, s)
    ensures Consistent(ts, r.1)
    ensures r.0.Ok? ==> r.1.level <= 0 && |ts| - 2 <= r.1.index && EndsOperand(r.1.current)
  {
    var (e, s1) := ParseFromStart(ts, s);
    if e.Err? then (e, s1)
    else if s1.level > 0 then
      (Err(SyntaxError([TokenType.Parenthesis], s1.current.end + 1, s1.current.end + 1, TokenType.Eof)), s1)
    else if s1.index < |ts| - 2 then
      (Err(SyntaxError([TokenType.Eof], s1.current.end + 1, s1.current.end + 1, ts[s1.index + 1].Type())), s1)
    else
      (e, s1)
  }

  /** The whole pipeline as the user interface runs it: lex the text,
      construct the parser (its first `NextToken` may already fail) and
      call `Parse`. */
  function Compile(text: string): (r: Result<Expr>)
    ensures Tokenize(text)[0].InvalidToken? ==> r == Err(InvalidTokenErrorFor(Tokenize(text)[0]))
    ensures |Tokenize(text)| == 1 ==> r.Err?
  {
    var ts := Tokenize(text);
    var (a, s) := Advance(ts, InitialState());
    if a.Err? then Err(a.error) else ParseChecked(ts, s).0
  }

  class Parser {
    const tokens: seq<Token>
    const literal: string
    var currentIndex: int
    var currentToken: Token
    var peek: Option<Token>
    var parenthesisLevel: int

    function State(): PState
      reads this
    {
      PState(currentIndex, currentToken, peek, parenthesisLevel)
    }

    /** Between calls the fields are consistent, and the cursor is before
        the first token only when there is none. */
    ghost predicate Valid()
      reads this
    {
      Consistent(tokens, State()) && (currentIndex == -1 ==> |tokens| == 0)
    }

    /** The field initialisations shared by both source constructors. */
    constructor Init(tokens: seq<Token>, literal: string)
      ensures this.tokens == tokens && this.literal == literal
      ensures State() == InitialState()
    {
      this.tokens := tokens;
      this.literal := literal;
      currentIndex := -1;
      currentToken := InvalidToken('\0', 0, 0);
      peek := None;
      parenthesisLevel := 0;
    }

    /** `Parser(List<IToken> tokens, string literal)`: fails when its first
        `NextToken` throws. */
    static method FromTokens(tokens: seq<Token>, literal: string) returns (r: Result<Parser>)
      ensures r.Ok? ==> fresh(r.value) && r.value.Valid()
      ensures r.Ok? ==> r.value.tokens == tokens && r.value.literal == literal
      ensures r.Ok? ==> Advance(tokens, InitialState()) == (Ok(()), r.value.State())
      ensures r.Err? ==> Advance(tokens, InitialState()).0 == Err(r.error)
    {
      var p := new Parser.Init(tokens, literal);
      var a := p.NextToken();
      if a.Err? {
        return Err(a.error);
      }
      return Ok(p);
    }

    /** `Parser(Lexer lexer)`: takes the lexer's full token list. */
    static method FromLexer(lexer: Lexer) returns (r: Result<Parser>)
      modifies lexer
      ensures r.Ok? ==> fresh(r.value) && r.value.Valid()
      ensures r.Ok? ==> r.value.tokens == Tokenize(lexer.input) && r.value.literal == lexer.input
      ensures r.Ok? ==> Advance(Tokenize(lexer.input), InitialState()) == (Ok(()), r.value.State())
      ensures r.Err? ==> Advance(Tokenize(lexer.input), InitialState()).0 == Err(r.error)
    {
      var tokens := lexer.ParseAll();
      r := FromTokens(tokens, lexer.input);
    }

    /** `NextToken`. */
    method NextToken() returns (r: Result<()>)
      requires Consistent(tokens, State())
      modifies this
      ensures Valid()
      ensures (r, State()) == Advance(tokens, old(State()))
    {
      if currentIndex + 1 < |tokens| {
        currentIndex := currentIndex + 1;
        currentToken := tokens[currentIndex];
        if currentIndex + 1 < |tokens| {
          peek := Some(tokens[currentIndex + 1]);
        }
        if currentToken.InvalidToken? {
          return Err(InvalidTokenErrorFor(currentToken));
        } else if peek.Some? && peek.value.InvalidToken? {
          return Err(InvalidTokenErrorFor(peek.value));
        }
        return Ok(());
      } else {
        return Err(UnexpectedEndOfFile);
      }
    }

    /** `Peek`: reads the lookahead field, which holds the next token. */
    function Peek(): (r: Result<Token>)
      requires Valid()
      reads this
      ensures r == Lookahead(tokens, State())
    {
      if currentIndex + 1 < |tokens| then Ok(peek.value) else Err(UnexpectedEndOfFile)
    }

    /** `Is`. */
    function Is(tt: TokenType): (r: bool)
      reads this
      ensures r <==> match tt
                     case Number => currentToken.NumberToken?
                     case Operator => currentToken.OperatorToken?
                     case Parenthesis => currentToken.ParenthesisToken?
                     case Variable => currentToken.VariableToken?
                     case Invalid => currentToken.InvalidToken?
                     case Eof => currentToken.EofToken?
    {
      currentToken.Type() == tt
    }

    /** `PeekIs`. */
    function PeekIs(tt: TokenType): (r: Result<bool>)
      requires Valid()
      reads this
      ensures r.Ok? <==> currentIndex + 1 < |tokens|
      ensures r.Ok? ==> (r.value <==> tokens[currentIndex + 1].Type() == tt)
    {
      match Peek()
      case Ok(t) => Ok(t.Type() == tt)
      case Err(e) => Err(e)
    }

    /** `ParsePrimary`. */
    method ParsePrimary() returns (r: Result<Expr>)
      requires Valid() && 0 <= currentIndex
      modifies this
      decreases |tokens| - currentIndex, 2
      ensures Valid()
      ensures (r, State()) == Primary(tokens, old(State()))
    {
      if Is(TokenType.Number) {
        return Ok(Expr.Number(currentToken.text));
      }
      if Is(TokenType.Operator) && currentToken.op == Minus {
        r := ParseNegation();
        return;
      }
      if Is(TokenType.Parenthesis) {
        r := ParseGroup();
        return;
      }
      if Is(TokenType.Variable) {
        return Ok(Expr.Variable(currentToken.name));
      }
      return Err(SyntaxErrorAt([TokenType.Number, TokenType.Parenthesis, TokenType.Variable], currentToken));
    }

    /** The unary-minus branch of `ParsePrimary`, with its fall-through to
        the final syntax error when an operator follows the minus. */
    method ParseNegation() returns (r: Result<Expr>)
      requires Valid() && 0 <= currentIndex
      requires currentToken.OperatorToken? && currentToken.op == Minus
      modifies this
      decreases |tokens| - currentIndex, 1
      ensures Valid()
      ensures (r, State()) == Primary(tokens, old(State()))
    {
      var peekIsOperator := PeekIs(TokenType.Operator);
      if peekIsOperator.Err? {
        return Err(peekIsOperator.error);
      }
      if peekIsOperator.value {
        return Err(SyntaxErrorAt([TokenType.Number, TokenType.Parenthesis, TokenType.Variable], currentToken));
      }
      var a := NextToken();
      if a.Err? {
        return Err(a.error);
      }
      var p := ParsePrimary();
      if p.Err? {
        return p;
      }
      return Ok(Infix(Expr.Number("-1"), Multiply, p.value));
    }

    /** The parenthesis branch of `ParsePrimary`: one level deeper, a
        primary, then the climbing loop at the level the counter has after
        that primary. */
    method ParseGroup() returns (r: Result<Expr>)
      requires Valid() && 0 <= currentIndex && currentToken.ParenthesisToken?
      modifies this
      decreases |tokens| - currentIndex, 1
      ensures Valid()
      ensures (r, State()) == Primary(tokens, old(State()))
    {
      var a := NextToken();
      if a.Err? {
        return Err(a.error);
      }
      parenthesisLevel := parenthesisLevel + 1;
      var p := ParsePrimary();
      if p.Err? {
        return p;
      }
      r := ParseToken(p.value, 0, parenthesisLevel);
    }

    /** `ParseToken(lhs, minPrecedence, level)`. */
    method ParseToken(lhs: Expr, minPrecedence: int, level: int) returns (r: Result<Expr>)
      requires Valid() && 0 <= currentIndex
      modifies this
      decreases |tokens| - currentIndex, 0
      ensures Valid()
      ensures (r, State()) == Climb(tokens, lhs, minPrecedence, level, old(State()))
    {
      var left := lhs;
      while true
        invariant Valid() && old(currentIndex) <= currentIndex
        invariant Climb(tokens, left, minPrecedence, level, State()) == Climb(tokens, lhs, minPrecedence, level, old(State()))
        decreases |tokens| - currentIndex
      {
        var pk := Peek();
        if pk.Err? {
          return Err(pk.error);
        }
        if !ClimbsOn(pk.value, minPrecedence) {
          return Ok(left);
        }
        if level > 0 && pk.value.ParenthesisToken? && pk.value.dir == Right {
          var a := NextToken();
          if a.Err? {
            return Err(a.error);
          }
          parenthesisLevel := parenthesisLevel - 1;
          return Ok(left);
        } else if level > parenthesisLevel {
          return Ok(left);
        }
        var cast := CastOrThrow(pk.value, TokenType.Operator);
        if cast.Err? {
          return Err(cast.error);
        }
        var op := cast.value.op;
        ClimbTakesTurn(tokens, left, minPrecedence, level, State(), pk.value);
        var a1 := NextToken();
        if a1.Err? {
          return Err(a1.error);
        }
        var a2 := NextToken();
        if a2.Err? {
          return Err(a2.error);
        }
        var primary := ParsePrimary();
        if primary.Err? {
          return primary;
        }
        var rhs := ExtendRhs(primary.value, op, level);
        if rhs.Err? {
          return rhs;
        }
        left := Infix(left, op, rhs.value);
      }
    }

    /** The inner loop of `ParseToken`, which extends the right-hand side
        `rhs` of `op` by nested `ParseToken` calls. */
    method ExtendRhs(rhs: Expr, op: Operators, level: int) returns (r: Result<Expr>)
      requires Valid() && 0 <= currentIndex
      modifies this
      decreases |tokens| - currentIndex, 1
      ensures Valid()
      ensures (r, State()) == Extend(tokens, rhs, op, level, old(State()))
    {
      var right := rhs;
      while true
        invariant Valid() && old(currentIndex) <= currentIndex
        invariant Extend(tokens, right, op, level, State()) == Extend(tokens, rhs, op, level, old(State()))
        decreases |tokens| - currentIndex
      {
        if level > parenthesisLevel {
          assert Extend(tokens, right, op, level, State()) == (Ok(right), State());
          return Ok(right);
        }
        var next := Peek();
        if next.Err? {
          assert Extend(tokens, right, op, level, State()) == (Err(next.error), State());
          return Err(next.error);
        }
        if !BindsTighter(next.value, op) {
          assert Extend(tokens, right, op, level, State()) == (Ok(right), State());
          return Ok(right);
        }
        var peekOp := CastOrThrow(next.value, TokenType.Operator).value;
        ExtendTakesTurn(tokens, right, op, level, State(), next.value);
        var extended := ParseToken(right, Precedence(op) + (if Precedence(peekOp.op) > Precedence(op) then 1 else 0), level);
        if extended.Err? {
          return extended;
        }
        right := extended.value;
      }
    }

    /** `ParseAll`. */
    method ParseAll() returns (r: Result<Expr>)
      requires Valid()
      modifies this
      ensures Valid()
      ensures (r, State()) == ParseFromStart(tokens, old(State()))
    {
      currentIndex := -1;
      var a := NextToken();
      if a.Err? {
        return Err(a.error);
      }
      var p := ParsePrimary();
      if p.Err? {
        return p;
      }
      r := ParseToken(p.value, 0, 0);
    }

    /** `Parse`. */
    method Parse() returns (r: Result<Expr>)
      requires Valid()
      modifies this
      ensures Valid()
      ensures (r, State()) == ParseChecked(tokens, old(State()))
    {
      r := ParseAll();
      if r.Err? {
        return;
      }
      if parenthesisLevel > 0 {
        return Err(SyntaxError([TokenType.Parenthesis], currentToken.end + 1, currentToken.end + 1, TokenType.Eof));
      } else if currentIndex < |tokens| - 2 {
        return Err(SyntaxError([TokenType.Eof], currentToken.end + 1, currentToken.end + 1, tokens[currentIndex + 1].Type()));
      }
    }
  }

  /** What the user interface does with a line of text: a new lexer, a new
      parser over it, one `Parse`. */
  method ParseText(text: string) returns (r: Result<Expr>)
    ensures r == Compile(text)
  {
    var lexer := new Lexer(text);
    var created := Parser.FromLexer(lexer);
    if created.Err? {
      return Err(created.error);
    }
    r := created.value.Parse();
  }
}
