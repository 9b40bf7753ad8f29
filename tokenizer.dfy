/** The tokenizer: one left-to-right pass over the input that turns
    parentheses, quoted strings, digit runs and letter runs into tokens,
    drops blanks, and stops at the first character it has no rule for. */
module Tokenizer {
  import opened Syntax

  /** The one way tokenizing fails: a character that is not a parenthesis,
      a quote, a blank, a digit or a letter. */
  datatype LexError = UnexpectedCharacter(c: char)

  // Character classes, restricted to ASCII.

  predicate IsWhitespace(c: char) {
    c == ' ' || '\t' <= c <= '\r'
  }

  predicate IsDigit(c: char) {
    '0' <= c <= '9'
  }

  predicate IsAlphabetic(c: char) {
    'a' <= c <= 'z' || 'A' <= c <= 'Z'
  }

  /** A character no branch of the tokenizer accepts. */
  predicate IsOther(c: char) {
    !(c == '(' || c == ')' || c == '"' || IsWhitespace(c) || IsDigit(c) || IsAlphabetic(c))
  }

  /** The classes whose maximal runs the tokenizer scans. */
  datatype Class = Digits | Letters | NonQuote

  predicate InClass(c: char, cls: Class) {
    match cls
    case Digits => IsDigit(c)
    case Letters => IsAlphabetic(c)
    case NonQuote => c != '"'
  }

  /** The end of the maximal run of `cls` characters that starts at `i`. */
  function RunEnd(data: string, i: nat, cls: Class): (j: nat)
    requires i <= |data|
    ensures i <= j <= |data|
    ensures forall k :: i <= k < j ==> InClass(data[k], cls)
    ensures j == |data| || !InClass(data[j], cls)
    decreases |data| - i
  {
    if i < |data| && InClass(data[i], cls) then RunEnd(data, i + 1, cls) else i
  }

  /** The first quote at or after `i`, or the end of the input. */
  function QuoteFrom(data: string, i: nat): nat
    requires i <= |data|
  {
    RunEnd(data, i, NonQuote)
  }

  /** A token together with the span `[start, end)` of the input it covers;
      the Rust tokens are slices of the input, which carry this span. */
  datatype Lexeme = Lexeme(token: Token, start: nat, end: nat)

  /** One turn of the outer loop: the token that starts at `i` and where it
      ends. A quote opens a `Char` token that runs up to, but not over, the
      next quote or the end of the input. */
  function Classify(data: string, i: nat): (r: Result<Lexeme, LexError>)
    requires i < |data|
    ensures r.Ok? ==> r.value.start == i < r.value.end <= |data|
    ensures r.Err? <==> IsOther(data[i])
    ensures r.Err? ==> r.error == UnexpectedCharacter(data[i])
  {
    var c := data[i];
    if c == '(' || c == ')' then
      Ok(Lexeme(Paren(c), i, i + 1))
    else if c == '"' then
      var j := RunEnd(data, i + 1, NonQuote);
      Ok(Lexeme(Char(data[i..j]), i, j))
    else if IsWhitespace(c) then
      Ok(Lexeme(Whitespace, i, i + 1))
    else if IsDigit(c) then
      var j := RunEnd(data, i + 1, Digits);
      Ok(Lexeme(Integer(data[i..j]), i, j))
    else if IsAlphabetic(c) then
      var j := RunEnd(data, i + 1, Letters);
      Ok(Lexeme(Name(data[i..j]), i, j))
    else
      Err(UnexpectedCharacter(c))
  }

  /** `acc` followed by the lexemes of `r`, or the error of `r`. */
  function Prefixed(acc: seq<Lexeme>, r: Result<seq<Lexeme>, LexError>): Result<seq<Lexeme>, LexError> {
    match r
    case Ok(ls) => Ok(acc + ls)
    case Err(e) => Err(e)
  }

  /** The lexemes of `data[i..]`, whitespace dropped. */
  function ScanFrom(data: string, i: nat): Result<seq<Lexeme>, LexError>
    requires i <= |data|
    decreases |data| - i
  {
    if i == |data| then Ok([])
    else
      match Classify(data, i)
      case Err(e) => Err(e)
      case Ok(l) =>
        if l.token.Whitespace? then ScanFrom(data, l.end)
        else Prefixed([l], ScanFrom(data, l.end))
  }

  lemma PrefixedAppend(acc: seq<Lexeme>, l: Lexeme, r: Result<seq<Lexeme>, LexError>)
    ensures Prefixed(acc, Prefixed([l], r)) == Prefixed(acc + [l], r)
  {
    if r.Ok? {
      assert acc + ([l] + r.value) == acc + [l] + r.value;
    }
  }

  function TokensOf(ls: seq<Lexeme>): seq<Token> {
    seq(|ls|, k requires 0 <= k < |ls| => ls[k].token)
  }

  /** The token sequence of the whole input. */
  function Tokenize(data: string): Result<seq<Token>, LexError> {
    match ScanFrom(data, 0)
    case Ok(ls) => Ok(TokensOf(ls))
    case Err(e) => Err(e)
  }

  /** The inner `while let` loops of `tokenizer`: starting with the cursor
      at `i`, advance while the next character is in `cls`; the result is
      both the new cursor and the end `counter` of the token's span. */
  method ScanRun(data: string, i: nat, cls: Class) returns (counter: nat)
    requires i <= |data|
    ensures counter == RunEnd(data, i, cls)
  {
    counter := i;
    while counter < |data| && InClass(data[counter], cls)
      invariant i <= counter <= |data|
      invariant RunEnd(data, counter, cls) == RunEnd(data, i, cls)
      decreases |data| - counter
    {
      counter := counter + 1;
    }
  }

  /** `tokenizer`: `i` is the index of the next character the input
      iterator yields; each turn reads one token and keeps it unless it is
      `Whitespace`. */
  method Tokenizer(data: string) returns (r: Result<seq<Token>, LexError>)
    ensures r == Tokenize(data)
  {
    var tokens: seq<Token> := [];
    ghost var scanned: seq<Lexeme> := [];
    var i := 0;
    assert ScanFrom(data, 0).Ok? ==> [] + ScanFrom(data, 0).value == ScanFrom(data, 0).value;
    while i < |data|
      invariant i <= |data|
      invariant tokens == TokensOf(scanned)
      invariant ScanFrom(data, 0) == Prefixed(scanned, ScanFrom(data, i))
      decreases |data| - i
    {
      var index, current := i, data[i];
      var token: Token;
      if current == '(' || current == ')' {
        token := Paren(current);
        i := index + 1;
      } else if current == '"' {
        i := ScanRun(data, index + 1, NonQuote);
        token := Char(data[index..i]);
      } else if IsWhitespace(current) {
        token := Whitespace;
        i := index + 1;
      } else if IsDigit(current) {
        i := ScanRun(data, index + 1, Digits);
        token := Integer(data[index..i]);
      } else if IsAlphabetic(current) {
        i := ScanRun(data, index + 1, Letters);
        token := Name(data[index..i]);
      } else {
        return Err(UnexpectedCharacter(current));
      }
      ghost var l := Lexeme(token, index, i);
      assert Classify(data, index) == Ok(l);
      if !token.Whitespace? {
        assert TokensOf(scanned + [l]) == TokensOf(scanned) + [token];
        PrefixedAppend(scanned, l, ScanFrom(data, i));
        tokens := tokens + [token];
        scanned := scanned + [l];
      }
    }
    assert scanned + [] == scanned;
    return Ok(tokens);
  }
}
