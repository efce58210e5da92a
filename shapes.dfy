/** What precedence climbing computes (Calculator/Parser.cs, `ParseToken`)
    on expressions without parentheses or unary minus: the tree holds the
    operands and operators in input order, and every node nests its
    children as the precedence and associativity tables require. */
module Shapes {
  import opened Tokens
  import opened Expressions
  import opened Lexing
  import opened Parsing

  /** One element of an expression read left to right. */
  datatype Piece = Operand(leaf: Expr) | Op(op: Operators)

  /** The tree read left to right, without its nesting. */
  function Flat(e: Expr): seq<Piece>
  {
    match e
    case Infix(l, o, r) => Flat(l) + [Op(o)] + Flat(r)
    case _ => [Operand(e)]
  }

  predicate IsOperandToken(t: Token)
  {
    t.NumberToken? || t.VariableToken?
  }

  /** The piece a number, variable or operator token stands for (no
      other kind of token occurs in the expressions considered here; they
      read as their literal). */
  function PieceOf(t: Token): Piece
  {
    if t.NumberToken? then Operand(Expr.Number(t.text))
    else if t.VariableToken? then Operand(Expr.Variable(t.name))
    else if t.OperatorToken? then Op(t.op)
    else Operand(Expr.Number(t.Literal()))
  }

  /** The pieces of a whole token list, one per token. */
  function Pieces(ts: seq<Token>): (r: seq<Piece>)
    ensures |r| == |ts|
    ensures forall i :: 0 <= i < |ts| ==> r[i] == PieceOf(ts[i])
  {
    seq(|ts|, i requires 0 <= i < |ts| => PieceOf(ts[i]))
  }

  /** From position i on, operands and binary operators alternate,
      operand first and last, and then the end-of-input token ends the
      list: the rest of an expression without parentheses or unary minus. */
  ghost predicate SimpleFrom(ts: seq<Token>, i: nat)
    decreases |ts| - i
  {
    && i + 1 < |ts| && IsOperandToken(ts[i])
    && if ts[i + 1].OperatorToken? then SimpleFrom(ts, i + 2)
       else ts[i + 1].EofToken? && i + 2 == |ts|
  }

  /** A whole token list of that form. */
  ghost predicate Simple(ts: seq<Token>)
  {
    SimpleFrom(ts, 0)
  }

  /** `l` may stand as the left operand of `o` without parentheses: it is a
      leaf, binds tighter, or binds as tightly and `o` groups to the left. */
  predicate LeftFits(l: Expr, o: Operators)
  {
    l.Infix? ==>
      || Precedence(l.op) > Precedence(o)
      || (Precedence(l.op) == Precedence(o) && Associativity(o) == Left)
  }

  /** `r` may stand as the right operand of `o` without parentheses. */
  predicate RightFits(o: Operators, r: Expr)
  {
    r.Infix? ==>
      || Precedence(r.op) > Precedence(o)
      || (Precedence(r.op) == Precedence(o) && Associativity(o) == Right)
  }

  /** Every node of the tree nests its children as the tables require. */
  predicate Respects(e: Expr)
  {
    match e
    case Infix(l, o, r) => Respects(l) && Respects(r) && LeftFits(l, o) && RightFits(o, r)
    case _ => true
  }

  /** Operators of equal precedence group the same way. */
  lemma EqualPrecedenceSameAssociativity(a: Operators, b: Operators)
    requires Precedence(a) == Precedence(b)
    ensures Associativity(a) == Associativity(b)
  {
  }

  /** The parser's fields at an operand of a simple expression, outside
      any parenthesis. */
  ghost predicate AtOperand(ts: seq<Token>, s: PState)
  {
    && 0 <= s.index && SimpleFrom(ts, s.index)
    && Consistent(ts, s) && s.level == 0
  }

  /** `e` is `e0` followed by the pieces of the tokens after position `j`
      up to and including position `k`. */
  ghost predicate Grew(ts: seq<Token>, e0: Expr, j: int, e: Expr, k: int)
  {
    0 <= j <= k < |ts| && Flat(e) == Flat(e0) + Pieces(ts)[j + 1..k + 1]
  }

  /** A climbing call that ends at position `k` with tree `e` stopped
      there: the next token, if an operator, is below `minPrecedence`,
      and `e` fits as its left operand. */
  ghost predicate StopsBelow(ts: seq<Token>, e: Expr, minPrecedence: int, k: int)
  {
    && 0 <= k && k + 1 < |ts|
    && (ts[k + 1].OperatorToken? ==>
          Precedence(ts[k + 1].op) < minPrecedence && LeftFits(e, ts[k + 1].op))
  }

  /** What a climbing call on a simple expression achieves, from the
      operand at position `j` with tree `lhs` so far: it succeeds at an
      operand, appends the pieces it consumes to `lhs` in order, keeps the
      nesting respectful, builds a node of precedence at least
      `minPrecedence` whenever it consumes anything, and stops at an
      operator below `minPrecedence` or at the end. */
  ghost predicate Climbed(ts: seq<Token>, lhs: Expr, minPrecedence: int, j: int, c: (Result<Expr>, PState))
  {
    match c.0
    case Err(_) => false
    case Ok(e) =>
      && AtOperand(ts, c.1)
      && Grew(ts, lhs, j, e, c.1.index)
      && Respects(e)
      && (c.1.index == j ==> e == lhs)
      && (c.1.index > j ==> e.Infix? && Precedence(e.op) >= minPrecedence)
      && StopsBelow(ts, e, minPrecedence, c.1.index)
  }

  /** What the inner loop achieves on a simple expression: it succeeds
      at an operand, appends the pieces it consumes to `rhs` in order,
      keeps `rhs` a fitting right operand of `op`, and stops at an operator
      that does not bind tighter than `op`, or at the end. */
  ghost predicate Extended(ts: seq<Token>, rhs: Expr, op: Operators, j: int, c: (Result<Expr>, PState))
  {
    match c.0
    case Err(_) => false
    case Ok(e) =>
      && AtOperand(ts, c.1) && c.1.index + 1 < |ts|
      && Grew(ts, rhs, j, e, c.1.index)
      && Respects(e) && RightFits(op, e)
      && (ts[c.1.index + 1].OperatorToken? ==> !BindsTighter(ts[c.1.index + 1], op))
  }

  lemma {:induction false} ClimbSimple(ts: seq<Token>, lhs: Expr, minPrecedence: int, s: PState)
    requires AtOperand(ts, s) && Respects(lhs)
    requires ts[s.index + 1].OperatorToken? ==> LeftFits(lhs, ts[s.index + 1].op)
    ensures Climbed(ts, lhs, minPrecedence, s.index, Climb(ts, lhs, minPrecedence, 0, s))
    decreases |ts| - s.index, 0, 3
  {
    var t := ts[s.index + 1];
    if t.OperatorToken? && Precedence(t.op) >= minPrecedence {
      ClimbSimpleTurn(ts, lhs, minPrecedence, s);
    } else {
      ClimbStops(ts, lhs, minPrecedence, s);
      FlatOfNothing(ts, lhs, s.index);
    }
  }

  /** `ClimbSimple` when the loop takes a turn: the inner loop extends the
      operand after the operator, then the loop goes on with the new node. */
  lemma {:induction false} ClimbSimpleTurn(ts: seq<Token>, lhs: Expr, minPrecedence: int, s: PState)
    requires AtOperand(ts, s) && Respects(lhs)
    requires ts[s.index + 1].OperatorToken? && Precedence(ts[s.index + 1].op) >= minPrecedence
    requires LeftFits(lhs, ts[s.index + 1].op)
    ensures Climbed(ts, lhs, minPrecedence, s.index, Climb(ts, lhs, minPrecedence, 0, s))
    decreases |ts| - s.index, 0, 2
  {
    var j := s.index;
    ClimbTurn(ts, lhs, minPrecedence, s);
    ClimbRest(ts, lhs, minPrecedence, j, PState(j + 2, ts[j + 2], Some(ts[j + 3]), 0));
  }

  /** The turn after `ClimbTurn` has unfolded it: the inner loop extends
      the operand at j + 2, then the loop goes on with the new node. */
  lemma {:induction false} ClimbRest(ts: seq<Token>, lhs: Expr, minPrecedence: int, j: nat, s2: PState)
    requires AtOperand(ts, s2) && s2.index == j + 2 && Respects(lhs)
    requires ts[j + 1].OperatorToken? && Precedence(ts[j + 1].op) >= minPrecedence
    requires LeftFits(lhs, ts[j + 1].op)
    ensures var ext := Extend(ts, PieceOf(ts[j + 2]).leaf, ts[j + 1].op, 0, s2);
      && ext.0.Ok?
      && Climbed(ts, lhs, minPrecedence, j, Climb(ts, Infix(lhs, ts[j + 1].op, ext.0.value), minPrecedence, 0, ext.1))
    decreases |ts| - j, 0, 1
  {
    var o := ts[j + 1].op;
    var leaf := PieceOf(ts[j + 2]).leaf;
    var ext := Extend(ts, leaf, o, 0, s2);
    ExtendSimple(ts, leaf, o, s2);
    NodeFits(ts, lhs, o, leaf, j + 2, ext);
    ClimbRestAfter(ts, lhs, minPrecedence, j, ext);
  }

  /** The loop going on with the node built from `lhs` and the extended
      operand at j + 2. */
  lemma {:induction false} ClimbRestAfter(ts: seq<Token>, lhs: Expr, minPrecedence: int, j: nat, ext: (Result<Expr>, PState))
    requires j + 2 < |ts| && ts[j + 1].OperatorToken? && Precedence(ts[j + 1].op) >= minPrecedence
    requires IsOperandToken(ts[j + 2])
    requires Extended(ts, PieceOf(ts[j + 2]).leaf, ts[j + 1].op, j + 2, ext)
    requires Respects(Infix(lhs, ts[j + 1].op, ext.0.value))
    requires ts[ext.1.index + 1].OperatorToken? ==> LeftFits(Infix(lhs, ts[j + 1].op, ext.0.value), ts[ext.1.index + 1].op)
    ensures Climbed(ts, lhs, minPrecedence, j, Climb(ts, Infix(lhs, ts[j + 1].op, ext.0.value), minPrecedence, 0, ext.1))
    decreases |ts| - j, 0, 0
  {
    var e := Infix(lhs, ts[j + 1].op, ext.0.value);
    ClimbSimple(ts, e, minPrecedence, ext.1);
    ClimbStep(ts, lhs, ts[j + 1].op, minPrecedence, j, ext, Climb(ts, e, minPrecedence, 0, ext.1));
  }

  /** A node built from `lhs` and what the inner loop returned respects
      the tables, and fits as the left operand of the operator the inner
      loop stopped at. */
  lemma NodeFits(ts: seq<Token>, lhs: Expr, o: Operators, leaf: Expr, j: int, ext: (Result<Expr>, PState))
    requires Respects(lhs) && LeftFits(lhs, o) && Extended(ts, leaf, o, j, ext)
    ensures var k := ext.1.index;
      && Respects(Infix(lhs, o, ext.0.value))
      && (ts[k + 1].OperatorToken? ==> LeftFits(Infix(lhs, o, ext.0.value), ts[k + 1].op))
  {
  }

  /** One turn of the climbing loop, composed: the operator at j + 1, the
      operand at j + 2 as extended by the inner loop, then the rest of
      the loop. */
  lemma ClimbStep(ts: seq<Token>, lhs: Expr, o: Operators, minPrecedence: int, j: nat,
                  ext: (Result<Expr>, PState), c: (Result<Expr>, PState))
    requires j + 2 < |ts| && ts[j + 1].OperatorToken? && ts[j + 1].op == o && Precedence(o) >= minPrecedence
    requires IsOperandToken(ts[j + 2])
    requires Extended(ts, PieceOf(ts[j + 2]).leaf, o, j + 2, ext)
    requires Climbed(ts, Infix(lhs, o, ext.0.value), minPrecedence, ext.1.index, c)
    ensures Climbed(ts, lhs, minPrecedence, j, c)
  {
    var leaf := PieceOf(ts[j + 2]).leaf;
    ClimbStepGrows(ts, lhs, o, leaf, ext.0.value, c.0.value, j, ext.1.index, c.1.index);
  }

  /** The first climbing call of the inner loop consumes the operator
      that made it run, and its tree fits as the right operand of `op`. */
  lemma RaisedOperandFits(ts: seq<Token>, rhs: Expr, op: Operators, j: int, c: (Result<Expr>, PState))
    requires 0 <= j && j + 1 < |ts| && BindsTighter(ts[j + 1], op)
    requires var p := ts[j + 1].op;
      Climbed(ts, rhs, Precedence(op) + (if Precedence(p) > Precedence(op) then 1 else 0), j, c)
    ensures j < c.1.index && RightFits(op, c.0.value)
  {
    var p := ts[j + 1].op;
    if Precedence(p) == Precedence(op) {
      EqualPrecedenceSameAssociativity(p, op);
    }
  }

  /** One turn of the climbing loop on a simple expression, unfolded: the
      operator and the operand after it are consumed, the operand is
      extended, and the loop goes on with the new node. */
  lemma ClimbTurn(ts: seq<Token>, lhs: Expr, minPrecedence: int, s: PState)
    requires AtOperand(ts, s)
    requires ts[s.index + 1].OperatorToken? && Precedence(ts[s.index + 1].op) >= minPrecedence
    ensures SimpleFrom(ts, s.index + 2) && IsOperandToken(ts[s.index + 2]) && s.index + 3 < |ts|
    ensures PieceOf(ts[s.index + 2]).Operand?
    ensures var s2 := PState(s.index + 2, ts[s.index + 2], Some(ts[s.index + 3]), 0);
            var ext := Extend(ts, PieceOf(ts[s.index + 2]).leaf, ts[s.index + 1].op, 0, s2);
            && AtOperand(ts, s2)
            && Climb(ts, lhs, minPrecedence, 0, s)
               == if ext.0.Err? then ext
                  else Climb(ts, Infix(lhs, ts[s.index + 1].op, ext.0.value), minPrecedence, 0, ext.1)
  {
    var j := s.index;
    assert SimpleFrom(ts, j + 2);
    assert ts[j + 3].OperatorToken? || ts[j + 3].EofToken?;
    var (a1, s1) := Advance(ts, s);
    assert a1.Ok? && s1.index == j + 1;
    var (a2, s2) := Advance(ts, s1);
    assert a2.Ok? && s2 == PState(j + 2, ts[j + 2], Some(ts[j + 3]), 0);
    assert Primary(ts, s2) == (Ok(PieceOf(ts[j + 2]).leaf), s2);
  }

  /** One turn of the inner loop on a simple expression, unfolded. */
  lemma ExtendTurn(ts: seq<Token>, rhs: Expr, op: Operators, s: PState)
    requires Consistent(ts, s) && 0 <= s.index && s.index + 1 < |ts| && s.level == 0
    requires BindsTighter(ts[s.index + 1], op)
    ensures var t := ts[s.index + 1];
            var m := Precedence(op) + (if Precedence(t.op) > Precedence(op) then 1 else 0);
            var c := Climb(ts, rhs, m, 0, s);
            Extend(ts, rhs, op, 0, s) == if c.0.Err? then c else Extend(ts, c.0.value, op, 0, c.1)
  {
    assert Lookahead(ts, s) == Ok(ts[s.index + 1]);
  }

  /** The climbing loop stops, consuming nothing, at the end or at an
      operator below `minPrecedence`. */
  lemma ClimbStops(ts: seq<Token>, e: Expr, minPrecedence: int, s: PState)
    requires AtOperand(ts, s)
    requires !(ts[s.index + 1].OperatorToken? && Precedence(ts[s.index + 1].op) >= minPrecedence)
    ensures Climb(ts, e, minPrecedence, 0, s) == (Ok(e), s)
  {
  }

  /** The inner loop stops, consuming nothing, at the end or at an
      operator that does not bind tighter than `op`. */
  lemma ExtendStops(ts: seq<Token>, e: Expr, op: Operators, s: PState)
    requires AtOperand(ts, s) && !BindsTighter(ts[s.index + 1], op)
    ensures Extend(ts, e, op, 0, s) == (Ok(e), s)
  {
  }

  /** No token consumed: nothing appended. */
  lemma FlatOfNothing(ts: seq<Token>, e: Expr, j: nat)
    requires j + 1 < |ts|
    ensures Grew(ts, e, j, e, j)
  {
    assert Pieces(ts)[j + 1..j + 1] == [];
  }

  /** The pieces of one turn of the climbing loop: `lhs`, the operator at
      j + 1, the operand at j + 2 extended by the tokens up to k, and
      whatever the next turns add up to m. */
  lemma ClimbStepGrows(ts: seq<Token>, lhs: Expr, o: Operators, leaf: Expr, x: Expr, r: Expr, j: nat, k: nat, m: nat)
    requires j + 2 < |ts|
    requires PieceOf(ts[j + 1]) == Op(o) && PieceOf(ts[j + 2]) == Operand(leaf) && !leaf.Infix?
    requires Grew(ts, leaf, j + 2, x, k) && Grew(ts, Infix(lhs, o, x), k, r, m)
    ensures Grew(ts, lhs, j, r, m)
  {
    var ps := Pieces(ts);
    SliceCons(ps, j + 1, m + 1);
    SliceCons(ps, j + 2, m + 1);
    SliceJoin(ps, j + 3, k + 1, m + 1);
    Regroup(Flat(r), Flat(lhs), Op(o), Operand(leaf), ps[j + 3..k + 1], ps[k + 1..m + 1],
            ps[j + 3..m + 1], ps[j + 2..m + 1], ps[j + 1..m + 1]);
  }

  /** A non-empty slice is its first element followed by the rest. */
  lemma SliceCons<T>(s: seq<T>, a: nat, b: nat)
    requires a < b <= |s|
    ensures s[a..b] == [s[a]] + s[a + 1..b]
  {
  }

  /** Two stretches of consumed tokens, one after the other. */
  lemma GrewTwice(ts: seq<Token>, e0: Expr, e1: Expr, e2: Expr, j: nat, k: nat, m: nat)
    requires Grew(ts, e0, j, e1, k) && Grew(ts, e1, k, e2, m)
    ensures Grew(ts, e0, j, e2, m)
  {
    var ps := Pieces(ts);
    SliceJoin(ps, j + 1, k + 1, m + 1);
    AppendTwice(Flat(e0), Flat(e1), Flat(e2), ps[j + 1..k + 1], ps[k + 1..m + 1], ps[j + 1..m + 1]);
  }

  lemma AppendTwice<T>(a: seq<T>, b: seq<T>, c: seq<T>, p: seq<T>, q: seq<T>, pq: seq<T>)
    requires b == a + p && c == b + q && pq == p + q
    ensures c == a + pq
  {
  }

  lemma Regroup<T>(f: seq<T>, a: seq<T>, x: T, y: T, p: seq<T>, q: seq<T>, pq: seq<T>, ypq: seq<T>, xypq: seq<T>)
    requires f == a + [x] + ([y] + p) + q
    requires pq == p + q && ypq == [y] + pq && xypq == [x] + ypq
    ensures f == a + xypq
  {
    assert a + [x] + ([y] + p) + q == a + ([x] + ([y] + (p + q)));
  }

  lemma {:induction false} ExtendSimple(ts: seq<Token>, rhs: Expr, op: Operators, s: PState)
    requires AtOperand(ts, s) && Respects(rhs) && RightFits(op, rhs)
    requires ts[s.index + 1].OperatorToken? ==> LeftFits(rhs, ts[s.index + 1].op)
    ensures Extended(ts, rhs, op, s.index, Extend(ts, rhs, op, 0, s))
    decreases |ts| - s.index, 1, 2
  {
    if BindsTighter(ts[s.index + 1], op) {
      ExtendSimpleTurn(ts, rhs, op, s);
    } else {
      ExtendStops(ts, rhs, op, s);
      FlatOfNothing(ts, rhs, s.index);
    }
  }

  /** `ExtendSimple` when the inner loop takes a turn: a nested climbing
      call at the raised precedence, then the inner loop again. */
  lemma {:induction false} ExtendSimpleTurn(ts: seq<Token>, rhs: Expr, op: Operators, s: PState)
    requires AtOperand(ts, s) && Respects(rhs) && RightFits(op, rhs)
    requires BindsTighter(ts[s.index + 1], op) && LeftFits(rhs, ts[s.index + 1].op)
    ensures Extended(ts, rhs, op, s.index, Extend(ts, rhs, op, 0, s))
    decreases |ts| - s.index, 1, 1
  {
    var j := s.index;
    var p := ts[j + 1].op;
    var m := Precedence(op) + (if Precedence(p) > Precedence(op) then 1 else 0);
    var c := Climb(ts, rhs, m, 0, s);
    ClimbSimple(ts, rhs, m, s);
    RaisedOperandFits(ts, rhs, op, j, c);
    ExtendSimpleRest(ts, rhs, op, j, c);
    ExtendTurn(ts, rhs, op, s);
  }

  /** The inner loop going on after its first climbing call `c`. */
  lemma {:induction false} ExtendSimpleRest(ts: seq<Token>, rhs: Expr, op: Operators, j: nat, c: (Result<Expr>, PState))
    requires j + 1 < |ts| && BindsTighter(ts[j + 1], op)
    requires var p := ts[j + 1].op;
      Climbed(ts, rhs, Precedence(op) + (if Precedence(p) > Precedence(op) then 1 else 0), j, c)
    requires j < c.1.index && RightFits(op, c.0.value)
    ensures Extended(ts, rhs, op, j, Extend(ts, c.0.value, op, 0, c.1))
    decreases |ts| - j, 1, 0
  {
    ExtendSimple(ts, c.0.value, op, c.1);
    ExtendStep(ts, rhs, op, j, c, Extend(ts, c.0.value, op, 0, c.1));
  }

  /** One turn of the inner loop, composed: a climbing call from `rhs`,
      then the rest of the inner loop. */
  lemma ExtendStep(ts: seq<Token>, rhs: Expr, op: Operators, j: int, c: (Result<Expr>, PState), d: (Result<Expr>, PState))
    requires 0 <= j && j + 1 < |ts| && BindsTighter(ts[j + 1], op)
    requires var p := ts[j + 1].op;
      Climbed(ts, rhs, Precedence(op) + (if Precedence(p) > Precedence(op) then 1 else 0), j, c)
    requires Extended(ts, c.0.value, op, c.1.index, d)
    ensures Extended(ts, rhs, op, j, d)
  {
    GrewTwice(ts, rhs, c.0.value, d.0.value, j, c.1.index, d.1.index);
  }

  /** An expression without parentheses or unary minus always parses, to
      a tree that reads back as the input and nests as the tables say. */
  lemma SimpleExpressionsParse(ts: seq<Token>, s: PState)
    requires Simple(ts) && Consistent(ts, s) && s.level == 0
    ensures ParseChecked(ts, s).0.Ok?
    ensures Flat(ParseChecked(ts, s).0.value) == Pieces(ts)[..|ts| - 1]
    ensures Respects(ParseChecked(ts, s).0.value)
  {
    var (a, s1) := Advance(ts, s.(index := -1));
    assert a.Ok? && s1.index == 0;
    var (p, s2) := Primary(ts, s1);
    assert p == Ok(PieceOf(ts[0]).leaf) && s2 == s1;
    ClimbSimple(ts, p.value, 0, s2);
    var c := Climb(ts, p.value, 0, 0, s2);
    assert c.1.index == |ts| - 2 && ParseChecked(ts, s) == c;
    var ps := Pieces(ts);
    assert Flat(p.value) == ps[0..1];
    SliceJoin(ps, 0, 1, |ts| - 1);
  }

  /** The same for a text whose tokens form such an expression: `Compile`
      returns the tree of its operands and operators, nested as the tables
      say. */
  lemma SimpleTextsCompile(text: string)
    requires Simple(Tokenize(text))
    ensures Compile(text).Ok?
    ensures Flat(Compile(text).value) == Pieces(Tokenize(text))[..|Tokenize(text)| - 1]
    ensures Respects(Compile(text).value)
  {
    var ts := Tokenize(text);
    var (a, s) := Advance(ts, InitialState());
    assert a.Ok?;
    SimpleExpressionsParse(ts, s);
  }
}
