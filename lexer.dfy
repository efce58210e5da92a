/** The lexer (Calculator/Lexer.cs): a cursor with one character of
    lookahead that turns the input into positioned tokens ending in one
    end-of-input token. The functions below say what one call of
    `ParseToken` and one call of `ParseAll` produce; the class `Lexer` is
    the cursor-based implementation, proved against them. */
module Lexing {
  import opened Tokens

  /** The character at `i`, or '\0' past either end (the cursor's
      `CurrentCharacter` once it has run off the input). */
  function CharAt(s: string, i: int): char
  {
    if 0 <= i < |s| then s[i] else '\0'
  }

  predicate IsBlank(c: char)
  {
    c == ' ' || c == '\t'
  }

  predicate IsDigit(c: char)
  {
    '0' <= c <= '9'
  }

  predicate IsAsciiLetter(c: char)
  {
    'a' <= c <= 'z' || 'A' <= c <= 'Z'
  }

  /** `_is` on the one-character string of `c`: '\0' is nothing; a
      character `int.TryParse` accepts (an ASCII digit) is a Number; a key of
      the operator table an Operator; a parenthesis a Parenthesis. */
  function IsKind(c: char, tt: TokenType): (r: bool)
    ensures r <==> || (tt == TokenType.Number && IsDigit(c))
                   || (tt == TokenType.Operator && c in "+-*/^")
                   || (tt == TokenType.Parenthesis && (c == '(' || c == ')'))
  {
    if c == '\0' then false
    else if IsDigit(c) then tt == TokenType.Number
    else if OperatorOf([c]).Some? then tt == TokenType.Operator
    else if c == '(' || c == ')' then tt == TokenType.Parenthesis
    else false
  }

  /** Where the cursor stops after `ConsumeWhitespaces` from `i`. */
  function SkipBlanks(s: string, i: nat): (j: nat)
    decreases |s| - i
    ensures i <= j && !IsBlank(CharAt(s, j))
    ensures i <= |s| ==> j <= |s|
    ensures forall k :: i <= k < j ==> k < |s| && IsBlank(s[k])
  {
    if IsBlank(CharAt(s, i)) then SkipBlanks(s, i + 1) else i
  }

  /** The end of the run of digits starting at `i`. */
  function DigitsEnd(s: string, i: nat): (j: nat)
    decreases |s| - i
    ensures i <= j && !IsDigit(CharAt(s, j))
    ensures i <= |s| ==> j <= |s|
    ensures forall k :: i <= k < j ==> k < |s| && IsDigit(s[k])
  {
    if IsDigit(CharAt(s, i)) then DigitsEnd(s, i + 1) else i
  }

  /** Where a number literal starting with the digit at `j` ends: after
      its digits and, if a '.' follows them, after that '.' and the digits
      behind it. */
  function NumberEnd(s: string, j: nat): (e: nat)
    requires j < |s|
    ensures j < e <= |s|
  {
    var k := DigitsEnd(s, j + 1);
    if CharAt(s, k) == '.' then DigitsEnd(s, k + 1) else k
  }

  /** The token that starts at `j`, a position that is not blank, and
      where the cursor is left after it. */
  function ScanAt(s: string, j: nat): (r: (Token, nat))
    ensures r.0.EofToken? <==> j >= |s|
    ensures r.0.EofToken? ==> r.1 == j && r.0 == EofToken(j, j)
    ensures !r.0.EofToken? ==> j < r.1 <= |s|
  {
    var c := CharAt(s, j);
    if IsKind(c, TokenType.Number) then
      var e := NumberEnd(s, j);
      (NumberToken(s[j..e], j, e - 1), e)
    else if IsKind(c, TokenType.Operator) then
      (NewOperatorToken([c], j - 1, j).value, j + 1)
    else if j >= |s| then
      (EofToken(j, j), j)
    else if c == '(' || c == ')' then
      (NewParenthesisToken([c], j, j).value, j + 1)
    else if IsAsciiLetter(c) && !IsAsciiLetter(CharAt(s, j + 1)) then
      (VariableToken(c, j, j), j + 1)
    else
      (InvalidToken(c, j, j), j + 1)
  }

  /** One `ParseToken` call with the cursor at `i`: blanks are skipped,
      then one token is read. Only the end-of-input token leaves the cursor
      where the blanks end; every other token moves it past at least one
      character. */
  function Scan(s: string, i: nat): (r: (Token, nat))
    ensures r.0.EofToken? <==> SkipBlanks(s, i) >= |s|
    ensures r.0.EofToken? ==> r.1 == SkipBlanks(s, i) && r.0 == EofToken(r.1, r.1)
    ensures !r.0.EofToken? ==> i < r.1 <= |s|
  {
    ScanAt(s, SkipBlanks(s, i))
  }

  /** The tokens `ParseAll` collects once the cursor is at `i`. */
  function TokensFrom(s: string, i: nat): (r: seq<Token>)
    requires i <= |s|
    ensures 1 <= |r| <= |s| - i + 1
    decreases |s| - i
  {
    var (t, next) := Scan(s, i);
    if t.EofToken? then [t] else [t] + TokensFrom(s, next)
  }

  /** One step of `TokensFrom`: the scanned token, then the rest from where
      it ends; the end-of-input token ends the list at the input's end. */
  lemma TokensFromStep(s: string, i: nat, t: Token, next: nat)
    requires i <= |s| && (t, next) == Scan(s, i)
    ensures t.EofToken? ==> TokensFrom(s, i) == [t] && next == |s|
    ensures !t.EofToken? ==> TokensFrom(s, i) == [t] + TokensFrom(s, next)
  {
  }

  /** `ParseAll`'s loop keeps the tokens read so far, followed by those
      still to be read, equal to the whole token list. */
  lemma CollectStep(s: string, read: seq<Token>, i: nat, t: Token, next: nat)
    requires i <= |s| && read + TokensFrom(s, i) == Tokenize(s) && (t, next) == Scan(s, i)
    ensures t.EofToken? ==> read + [t] == Tokenize(s) && next == |s|
    ensures !t.EofToken? ==> next <= |s| && (read + [t]) + TokensFrom(s, next) == Tokenize(s)
  {
    TokensFromStep(s, i, t, next);
    if !t.EofToken? {
      AppendOne(read, t, TokensFrom(s, next), Tokenize(s));
    }
  }

  /** Moving one element from the front of the rest to the end of the
      part already read keeps the whole. */
  lemma AppendOne<T>(read: seq<T>, t: T, rest: seq<T>, whole: seq<T>)
    requires read + ([t] + rest) == whole
    ensures (read + [t]) + rest == whole
  {
    assert (read + [t]) + rest == read + ([t] + rest);
  }

  /** `ParseAll`: the whole token list of an input. */
  function Tokenize(s: string): (r: seq<Token>)
    ensures 1 <= |r| <= |s| + 1
  {
    TokensFrom(s, 0)
  }

  lemma {:induction false} TokensFromEndWithEof(s: string, i: nat)
    requires i <= |s|
    ensures var ts := TokensFrom(s, i);
      && |ts| >= 1
      && ts[|ts| - 1] == EofToken(|s|, |s|)
      && forall k :: 0 <= k < |ts| - 1 ==> !ts[k].EofToken?
    decreases |s| - i
  {
    var (t, next) := Scan(s, i);
    if !t.EofToken? {
      TokensFromEndWithEof(s, next);
    }
  }

  /** The token list ends with the only end-of-input token, placed at the
      input's length. */
  lemma TokenizeEndsWithEof(s: string)
    ensures var ts := Tokenize(s);
      && |ts| >= 1
      && ts[|ts| - 1] == EofToken(|s|, |s|)
      && forall k :: 0 <= k < |ts| - 1 ==> !ts[k].EofToken?
  {
    TokensFromEndWithEof(s, 0);
  }

  /** Blanks before a token are skipped: scanning from before them is
      scanning from after them. */
  lemma BlanksProduceNoToken(s: string, i: nat)
    ensures Scan(s, i) == Scan(s, SkipBlanks(s, i))
  {
  }

  predicate AllDigits(t: string)
  {
    forall k :: 0 <= k < |t| ==> IsDigit(t[k])
  }

  /** A decimal literal: digits, then optionally one '.' and more
      (possibly no) digits. */
  ghost predicate IsNumberLiteral(t: string)
  {
    exists d :: 1 <= d <= |t| && AllDigits(t[..d]) && (d == |t| || (t[d] == '.' && AllDigits(t[d + 1..])))
  }

  /** A Number token is the longest decimal literal at the cursor: it runs
      from the first digit to the last character consumed, and the next
      character neither is a digit nor, unless the literal already has its
      '.', a '.'. */
  lemma ScanNumber(s: string, i: nat)
    requires IsDigit(CharAt(s, SkipBlanks(s, i)))
    ensures var j := SkipBlanks(s, i);
            var (t, e) := Scan(s, i);
      && j < e <= |s|
      && t == NumberToken(s[j..e], j, e - 1)
      && IsNumberLiteral(t.text)
      && !IsDigit(CharAt(s, e))
      && (CharAt(s, e) == '.' ==> '.' in t.text)
  {
    var j := SkipBlanks(s, i);
    var k := DigitsEnd(s, j + 1);
    var e := NumberEnd(s, j);
    assert j < k <= e;
    var text := s[j..e];
    var whole := text[..k - j];
    forall m | 0 <= m < |whole|
      ensures IsDigit(whole[m])
    {
      assert whole[m] == s[j + m];
    }
    if CharAt(s, k) == '.' {
      assert e == DigitsEnd(s, k + 1);
      assert k < |s| && s[k] == '.' && k < e;
      assert text[k - j] == s[k];
      var fraction := text[k - j + 1..];
      assert fraction == s[k + 1..e];
      forall m | 0 <= m < |fraction|
        ensures IsDigit(fraction[m])
      {
        assert k + 1 <= k + 1 + m < e;
        assert fraction[m] == s[k + 1 + m];
      }
    }
    assert 1 <= k - j <= |text|;
  }

  /** Every other token is one character: its literal is that character and
      the cursor moves past it. Parenthesis, Variable and Invalid tokens
      span exactly that character; an Operator token at `j` spans j-1..j.
      A letter is a Variable only when the next character is not a letter;
      otherwise it is an Invalid token, as is every unclassified character. */
  lemma ScanSingleCharacter(s: string, i: nat)
    requires SkipBlanks(s, i) < |s| && !IsDigit(s[SkipBlanks(s, i)])
    ensures var j := SkipBlanks(s, i);
            var c := s[j];
            var (t, next) := Scan(s, i);
      && next == j + 1
      && t.Literal() == [c]
      && t.end == j
      && t.start == (if t.OperatorToken? then j - 1 else j)
      && (t.OperatorToken? <==> c in "+-*/^")
      && (t.ParenthesisToken? <==> c == '(' || c == ')')
      && (t.VariableToken? <==> IsAsciiLetter(c) && !IsAsciiLetter(CharAt(s, j + 1)))
      && (t.InvalidToken? <==>
            !(c in "+-*/^" || c == '(' || c == ')' || (IsAsciiLetter(c) && !IsAsciiLetter(CharAt(s, j + 1)))))
  {
    var j := SkipBlanks(s, i);
    var c := s[j];
    if c in "+-*/^" {
      var op := OperatorOf([c]).value;
      assert Symbol(op) == [c];
    }
  }

  lemma SliceJoin<T>(s: seq<T>, a: nat, b: nat, c: nat)
    requires a <= b <= c <= |s|
    ensures s[a..b] + s[b..c] == s[a..c]
    ensures c == |s| ==> s[a..b] + s[b..] == s[a..]
  {
  }

  /** The source text that tokens were read from, blanks excluded. */
  function Literals(ts: seq<Token>): string
  {
    if ts == [] then [] else (if ts[0].EofToken? then [] else ts[0].Literal()) + Literals(ts[1..])
  }

  function RemoveBlanks(s: string): string
  {
    if s == [] then [] else (if IsBlank(s[0]) then [] else [s[0]]) + RemoveBlanks(s[1..])
  }

  lemma {:induction false} RemoveBlanksAppend(a: string, b: string)
    ensures RemoveBlanks(a + b) == RemoveBlanks(a) + RemoveBlanks(b)
  {
    if a == [] {
      assert a + b == b;
    } else {
      assert (a + b)[1..] == a[1..] + b;
      RemoveBlanksAppend(a[1..], b);
    }
  }

  lemma {:induction false} RemoveBlanksOfBlanks(a: string)
    requires forall k :: 0 <= k < |a| ==> IsBlank(a[k])
    ensures RemoveBlanks(a) == []
  {
    if a != [] {
      RemoveBlanksOfBlanks(a[1..]);
    }
  }

  lemma {:induction false} RemoveBlanksKeepsText(a: string)
    requires forall k :: 0 <= k < |a| ==> !IsBlank(a[k])
    ensures RemoveBlanks(a) == a
  {
    if a != [] {
      RemoveBlanksKeepsText(a[1..]);
    }
  }

  /** The text of a token read at a non-blank position is exactly the
      characters the cursor passes, and none of them is blank. */
  lemma ScanAtReadsItsLiteral(s: string, j: nat)
    requires j < |s| && !IsBlank(s[j])
    ensures var (t, next) := ScanAt(s, j);
      && s[j..next] == t.Literal()
      && forall k :: j <= k < next ==> !IsBlank(s[k])
  {
    var c := s[j];
    var (t, next) := ScanAt(s, j);
    if IsDigit(c) {
      var k := DigitsEnd(s, j + 1);
      assert forall m :: j < m < k ==> IsDigit(s[m]);
      if CharAt(s, k) == '.' {
        var e := DigitsEnd(s, k + 1);
        assert forall m :: k < m < e ==> IsDigit(s[m]);
      }
    } else {
      assert next == j + 1 && s[j..next] == [c];
      if c in "+-*/^" {
        assert Symbol(OperatorOf([c]).value) == [c];
      }
    }
  }

  /** One token accounts for exactly the characters the cursor passes,
      blanks aside. */
  lemma ScanCovers(s: string, i: nat)
    requires i <= |s|
    ensures var (t, next) := Scan(s, i);
      if t.EofToken? then RemoveBlanks(s[i..]) == []
      else next <= |s| && RemoveBlanks(s[i..next]) == t.Literal()
  {
    var j := SkipBlanks(s, i);
    var (t, next) := ScanAt(s, j);
    if t.EofToken? {
      RemoveBlanksOfBlanks(s[i..]);
    } else {
      ScanAtReadsItsLiteral(s, j);
      SliceJoin(s, i, j, next);
      RemoveBlanksAppend(s[i..j], s[j..next]);
      RemoveBlanksOfBlanks(s[i..j]);
      RemoveBlanksKeepsText(s[j..next]);
    }
  }

  lemma {:induction false} TokensFromCover(s: string, i: nat)
    requires i <= |s|
    ensures Literals(TokensFrom(s, i)) == RemoveBlanks(s[i..])
    decreases |s| - i
  {
    var (t, next) := Scan(s, i);
    ScanCovers(s, i);
    TokensFromStep(s, i, t, next);
    if t.EofToken? {
      assert Literals([t]) == [];
    } else {
      var rest := TokensFrom(s, next);
      assert ([t] + rest)[1..] == rest;
      assert Literals([t] + rest) == t.Literal() + Literals(rest);
      TokensFromCover(s, next);
      SliceJoin(s, i, next, |s|);
      RemoveBlanksAppend(s[i..next], s[next..]);
    }
  }

  /** Lexing never drops or invents text: the literals of the tokens, in
      order, are the input without its blanks. */
  lemma TokenizeCoversInput(s: string)
    ensures Literals(Tokenize(s)) == RemoveBlanks(s)
  {
    TokensFromCover(s, 0);
    assert s[0..] == s;
  }

  /** A two-letter name is not a variable: its first letter is Invalid. */
  lemma TwoLettersLexAsInvalidThenVariable()
    ensures Tokenize("ab") == [InvalidToken('a', 0, 0), VariableToken('b', 1, 1), EofToken(2, 2)]
  {
    assert Scan("ab", 0) == (InvalidToken('a', 0, 0), 1);
    assert Scan("ab", 1) == (VariableToken('b', 1, 1), 2);
    assert Scan("ab", 2) == (EofToken(2, 2), 2);
  }

  /** The lexer's cursor over its input. */
  class Lexer {
    const input: string
    var currentCharacter: char
    var currentIndex: int
    var peek: char

    /** The cursor's character is the input's character at the cursor, and
        the lookahead field holds the next character while there is one. */
    ghost predicate Valid()
      reads this
    {
      && 0 <= currentIndex
      && currentCharacter == CharAt(input, currentIndex)
      && (currentIndex + 1 < |input| ==> peek == input[currentIndex + 1])
    }

    constructor (input: string)
      ensures Valid() && this.input == input && currentIndex == 0
    {
      this.input := input;
      currentIndex := -1;
      currentCharacter := '\0';
      peek := '\0';
      new;
      var moved := NextToken();
    }

    /** `NextToken`: moves the cursor one place, past the end too, and
        reports whether it is still on a character. */
    method NextToken() returns (moved: bool)
      requires currentIndex >= -1
      modifies this
      ensures currentIndex == old(currentIndex) + 1
      ensures moved <==> currentIndex < |input|
      ensures currentCharacter == CharAt(input, currentIndex)
      ensures peek == if currentIndex + 1 < |input| then input[currentIndex + 1] else old(peek)
    {
      if currentIndex + 1 < |input| {
        currentIndex := currentIndex + 1;
        currentCharacter := input[currentIndex];
        if currentIndex + 1 < |input| {
          peek := input[currentIndex + 1];
        }
        moved := true;
      } else {
        currentIndex := currentIndex + 1;
        currentCharacter := '\0';
        moved := false;
      }
    }

    /** `Peek`: the character after the cursor, or '\0'. */
    function Peek(): (c: char)
      requires Valid()
      reads this
      ensures c == CharAt(input, currentIndex + 1)
    {
      if currentIndex + 1 < |input| then peek else '\0'
    }

    /** `Is`: the kind of the character under the cursor. */
    function Is(tt: TokenType): (r: bool)
      requires Valid()
      reads this
      ensures r == IsKind(CharAt(input, currentIndex), tt)
    {
      IsKind(currentCharacter, tt)
    }

    /** `PeekIs`: the kind of the character after the cursor. */
    function PeekIs(tt: TokenType): (r: bool)
      requires Valid()
      reads this
      ensures r == IsKind(CharAt(input, currentIndex + 1), tt)
    {
      IsKind(Peek(), tt)
    }

    /** `ConsumeWhitespaces`: skips spaces and tabs. */
    method ConsumeWhitespaces()
      requires Valid()
      modifies this
      ensures Valid()
      ensures currentIndex == SkipBlanks(input, old(currentIndex))
    {
      while currentCharacter == ' ' || currentCharacter == '\t'
        invariant Valid() && old(currentIndex) <= currentIndex
        invariant SkipBlanks(input, currentIndex) == SkipBlanks(input, old(currentIndex))
        decreases |input| - currentIndex
      {
        var moved := NextToken();
      }
    }

    /** The digit loop of `ParseToken`: appends the run of digits at the
        cursor to `result` and moves past it. */
    method ReadDigits(result: string) returns (r: string)
      requires Valid() && currentIndex <= |input|
      modifies this
      ensures Valid() && currentIndex == DigitsEnd(input, old(currentIndex))
      ensures r == result + input[old(currentIndex)..currentIndex]
    {
      r := result;
      while Is(TokenType.Number)
        invariant Valid() && old(currentIndex) <= currentIndex <= |input|
        invariant r == result + input[old(currentIndex)..currentIndex]
        invariant DigitsEnd(input, currentIndex) == DigitsEnd(input, old(currentIndex))
        decreases |input| - currentIndex
      {
        r := r + [currentCharacter];
        var moved := NextToken();
      }
    }

    /** The number branch of `ParseToken`: a run of digits, then, if a "."
        follows, the "." and a second, possibly empty, run of digits. */
    method ReadNumber() returns (t: Token)
      requires Valid() && 0 <= currentIndex < |input| && IsDigit(input[currentIndex])
      modifies this
      ensures Valid() && currentIndex == NumberEnd(input, old(currentIndex))
      ensures t == NumberToken(input[old(currentIndex)..currentIndex], old(currentIndex), currentIndex - 1)
    {
      var start := currentIndex;
      var result := [currentCharacter];
      var moved := NextToken();
      assert result == input[start..currentIndex];
      ghost var first := currentIndex;
      result := ReadDigits(result);
      SliceJoin(input, start, first, currentIndex);
      assert result == input[start..currentIndex];
      if currentCharacter == '.' {
        ghost var dot := currentIndex;
        result := result + [currentCharacter];
        moved := NextToken();
        assert input[dot..currentIndex] == [input[dot]];
        SliceJoin(input, start, dot, currentIndex);
        assert result == input[start..currentIndex];
        ghost var second := currentIndex;
        result := ReadDigits(result);
        SliceJoin(input, start, second, currentIndex);
        assert result == input[start..currentIndex];
      }
      t := NumberToken(result, start, currentIndex - 1);
    }

    /** `ParseToken`: reads the next token and leaves the cursor after it. */
    method ParseToken() returns (t: Token)
      requires Valid()
      modifies this
      ensures Valid()
      ensures (t, currentIndex) == Scan(input, old(currentIndex))
    {
      ConsumeWhitespaces();
      ghost var j := currentIndex;
      assert Scan(input, old(currentIndex)) == ScanAt(input, j);
      var moved: bool;
      if Is(TokenType.Number) {
        t := ReadNumber();
        assert (t, currentIndex) == ScanAt(input, j);
      } else if Is(TokenType.Operator) {
        var op := currentCharacter;
        moved := NextToken();
        t := NewOperatorToken([op], currentIndex - 2, currentIndex - 1).value;
        assert (t, currentIndex) == ScanAt(input, j);
      } else if currentIndex >= |input| {
        t := EofToken(currentIndex, currentIndex);
        assert (t, currentIndex) == ScanAt(input, j);
      } else if currentCharacter == '(' || currentCharacter == ')' {
        var token := [currentCharacter];
        moved := NextToken();
        t := NewParenthesisToken(token, currentIndex - 1, currentIndex - 1).value;
        assert (t, currentIndex) == ScanAt(input, j);
      } else if IsAsciiLetter(currentCharacter) && !IsAsciiLetter(Peek()) {
        var name := currentCharacter;
        moved := NextToken();
        t := VariableToken(name, currentIndex - 1, currentIndex - 1);
        assert (t, currentIndex) == ScanAt(input, j);
      } else {
        var literal := currentCharacter;
        moved := NextToken();
        t := InvalidToken(literal, currentIndex - 1, currentIndex - 1);
        assert (t, currentIndex) == ScanAt(input, j);
      }
    }

    /** `ParseAll`: rewinds the cursor and reads tokens up to and including
        the end-of-input token. */
    method ParseAll() returns (tokens: seq<Token>)
      modifies this
      ensures Valid() && currentIndex == |input|
      ensures tokens == Tokenize(input)
    {
      currentIndex := -1;
      var moved := NextToken();
      var t := ParseToken();
      tokens := [t];
      while t.Type() != TokenType.Eof
        invariant Valid() && currentIndex <= |input| && tokens != [] && tokens[|tokens| - 1] == t
        invariant t.EofToken? ==> tokens == Tokenize(input) && currentIndex == |input|
        invariant !t.EofToken? ==> tokens + TokensFrom(input, currentIndex) == Tokenize(input)
        decreases if t.EofToken? then 0 else |input| - currentIndex + 1
      {
        ghost var before := currentIndex;
        t := ParseToken();
        CollectStep(input, tokens, before, t, currentIndex);
        tokens := tokens + [t];
      }
    }
  }

  /** Re-lexing with the same lexer gives the same token list. */
  method ParseAllTwice(lexer: Lexer) returns (first: seq<Token>, second: seq<Token>)
    modifies lexer
    ensures first == second == Tokenize(lexer.input)
  {
    first := lexer.ParseAll();
    second := lexer.ParseAll();
  }
}
