/** Operator tables, token values and diagnostics of the calculator core
    (Calculator/Shared.cs). Tokens are immutable values; every field the
    source derives from a table is computed from the constructor arguments,
    so a token cannot disagree with the tables. */
module Tokens {

  datatype Option<T> = None | Some(value: T)

  datatype Direction = Left | Right

  datatype Operators = Plus | Minus | Multiply | Divide | Power

  datatype TokenType = Invalid | Eof | Number | Operator | Parenthesis | Variable

  /** The one-character text of an operator, as it is written in the input
      and printed between the operands of an infix node. */
  function Symbol(op: Operators): (r: string)
    ensures |r| == 1 && r[0] in "+-*/^"
  {
    match op
    case Plus => "+"
    case Minus => "-"
    case Multiply => "*"
    case Divide => "/"
    case Power => "^"
  }

  /** `Global.OperatorsMap`: the operator a literal stands for, if any.
      It is exactly the inverse of Symbol. */
  function OperatorOf(literal: string): (r: Option<Operators>)
    ensures forall op :: r == Some(op) <==> literal == Symbol(op)
  {
    if literal == "+" then Some(Plus)
    else if literal == "-" then Some(Minus)
    else if literal == "*" then Some(Multiply)
    else if literal == "/" then Some(Divide)
    else if literal == "^" then Some(Power)
    else None
  }

  /** `Global.PrecedenceMap`: three levels, Power alone on the top one. */
  function Precedence(op: Operators): (r: nat)
    ensures 1 <= r <= 3
    ensures r == 3 <==> op == Power
  {
    match op
    case Plus => 1
    case Minus => 1
    case Multiply => 2
    case Divide => 2
    case Power => 3
  }

  /** `Global.AssociativeMap`: only the top precedence level groups to
      the right. */
  function Associativity(op: Operators): (r: Direction)
    ensures r == Right <==> Precedence(op) == 3
  {
    match op
    case Power => Right
    case _ => Left
  }

  /** The map recognises exactly the five operator strings. */
  lemma OperatorsMapKeys(literal: string)
    ensures OperatorOf(literal).Some? <==> literal in {"+", "-", "*", "/", "^"}
  {
  }

  /** Plus = Minus < Multiply = Divide < Power. */
  lemma PrecedenceOrder()
    ensures Precedence(Plus) == Precedence(Minus) == 1
    ensures Precedence(Multiply) == Precedence(Divide) == 2
    ensures Precedence(Power) == 3
  {
  }

  /** Power is the only right-associative operator. */
  lemma OnlyPowerIsRightAssociative(op: Operators)
    ensures Associativity(op) == Right <==> op == Power
  {
  }

  /** A token: its kind, its text and its inclusive span in the input.
      Start may be -1 for an operator in the first column (see Lexing.Scan). */
  datatype Token =
    | NumberToken(text: string, start: int, end: int)
    | OperatorToken(op: Operators, start: int, end: int)
    | ParenthesisToken(dir: Direction, start: int, end: int)
    | VariableToken(name: char, start: int, end: int)
    | InvalidToken(ch: char, start: int, end: int)
    | EofToken(start: int, end: int)
  {
    function Type(): TokenType
    {
      match this
      case NumberToken(_, _, _) => TokenType.Number
      case OperatorToken(_, _, _) => TokenType.Operator
      case ParenthesisToken(_, _, _) => TokenType.Parenthesis
      case VariableToken(_, _, _) => TokenType.Variable
      case InvalidToken(_, _, _) => TokenType.Invalid
      case EofToken(_, _) => TokenType.Eof
    }

    /** The token's `Literal`; the end-of-input token's is "\0". */
    function Literal(): string
    {
      match this
      case NumberToken(t, _, _) => t
      case OperatorToken(op, _, _) => Symbol(op)
      case ParenthesisToken(d, _, _) => if d == Left then "(" else ")"
      case VariableToken(c, _, _) => [c]
      case InvalidToken(c, _, _) => [c]
      case EofToken(_, _) => "\0"
    }
  }

  /** The `OperatorToken` constructor: looks the literal up in the operator
      table and fails (None) where the source's dictionary lookup throws. */
  function NewOperatorToken(literal: string, start: int, end: int): (r: Option<Token>)
    ensures r.Some? <==> OperatorOf(literal).Some?
    ensures r.Some? ==> r.value.OperatorToken? && r.value.Literal() == literal
    ensures r.Some? ==> r.value.start == start && r.value.end == end
  {
    match OperatorOf(literal)
    case Some(op) => Some(OperatorToken(op, start, end))
    case None => None
  }

  /** The `ParenthesisToken` constructor: "(" opens (Left), ")" closes
      (Right), anything else is a construction error (None). */
  function NewParenthesisToken(literal: string, start: int, end: int): (r: Option<Token>)
    ensures r.Some? <==> literal == "(" || literal == ")"
    ensures r.Some? ==> r.value.ParenthesisToken? && r.value.Literal() == literal
    ensures r.Some? ==> r.value.start == start && r.value.end == end
  {
    if literal == "(" then Some(ParenthesisToken(Left, start, end))
    else if literal == ")" then Some(ParenthesisToken(Right, start, end))
    else None
  }

  /** The direction a parenthesis literal gets. */
  lemma ParenthesisDirection(start: int, end: int)
    ensures NewParenthesisToken("(", start, end) == Some(ParenthesisToken(Left, start, end))
    ensures NewParenthesisToken(")", start, end) == Some(ParenthesisToken(Right, start, end))
  {
  }

  /** The diagnostics the core raises. `UnexpectedEndOfFile` is the generic
      exception the parser throws when it runs past its token list. */
  datatype Error =
    | InvalidTokenError(start: int, end: int, literal: string)
    | SyntaxError(expected: seq<TokenType>, start: int, end: int, got: TokenType)
    | UnexpectedEndOfFile

  datatype Result<T> = Ok(value: T) | Err(error: Error)

  /** `SyntaxError(List<TokenType> expected, IToken got)`. */
  function SyntaxErrorAt(expected: seq<TokenType>, got: Token): (e: Error)
    ensures e.SyntaxError? && e.expected == expected
    ensures e.start == got.start && e.end == got.end && e.got == got.Type()
  {
    SyntaxError(expected, got.start, got.end, got.Type())
  }

  /** `SyntaxError(TokenType expected, IToken got)`: one expected kind. */
  function SyntaxErrorFor(expected: TokenType, got: Token): (e: Error)
    ensures e.SyntaxError? && e.expected == [expected]
    ensures e.start == got.start && e.end == got.end && e.got == got.Type()
  {
    SyntaxErrorAt([expected], got)
  }

  /** The `InvalidTokenError` raised for an invalid token. */
  function InvalidTokenErrorFor(t: Token): (e: Error)
    requires t.InvalidToken?
    ensures e.InvalidTokenError? && e.start == t.start && e.end == t.end
    ensures e.literal == t.Literal()
  {
    InvalidTokenError(t.start, t.end, [t.ch])
  }
}
