/** Concrete runs of the front end: the input hard-coded in `main`, and the
    corner cases of the string rule and of the parser's errors. The scan of
    each input is replayed from its end backwards, a few tokens per helper
    lemma; the input is passed as a parameter equal to the literal so that
    the solver does not unfold the scan on the literal by itself. */
module Scenarios {
  import opened Syntax
  import opened Tokenizer
  import opened Parser
  import opened TokenizerLemmas

  // ---------------------------------------------------------------------
  // One step of the scan: a kept token is prepended, a blank is skipped

  lemma ScanStep(data: string, i: nat, l: Lexeme, ls: seq<Lexeme>)
    requires i < |data| && Classify(data, i) == Ok(l) && !l.token.Whitespace?
    requires ScanFrom(data, l.end) == Ok(ls)
    ensures ScanFrom(data, i) == Ok([l] + ls)
  {
  }

  lemma ScanSkip(data: string, i: nat)
    requires i < |data| && Classify(data, i) == Ok(Lexeme(Whitespace, i, i + 1))
    ensures ScanFrom(data, i) == ScanFrom(data, i + 1)
  {
  }

  // ---------------------------------------------------------------------
  // The input of `main`

  const MainTokens: seq<Token> := [
    Paren('('), Name("add"), Integer("2"),
    Paren('('), Name("subtract"), Integer("4"), Integer("2"), Paren(')'),
    Paren(')')]

  // The scan of the input of `main` from positions 19, 7, 4 and 0.

  lemma MainInputFrom19(d: string)
    requires d == "(add 2 (subtract 4 2))"
    ensures ScanFrom(d, 19) == Ok([Lexeme(Integer("2"), 19, 20)] + ([Lexeme(Paren(')'), 20, 21)] + ([Lexeme(Paren(')'), 21, 22)] + [])))
  {
    ghost var ls: seq<Lexeme> := [];
    assert ScanFrom(d, 22) == Ok(ls);
    assert Classify(d, 21) == Ok(Lexeme(Paren(')'), 21, 22));
    ScanStep(d, 21, Lexeme(Paren(')'), 21, 22), ls);
    ls := [Lexeme(Paren(')'), 21, 22)] + ls;
    assert Classify(d, 20) == Ok(Lexeme(Paren(')'), 20, 21));
    ScanStep(d, 20, Lexeme(Paren(')'), 20, 21), ls);
    ls := [Lexeme(Paren(')'), 20, 21)] + ls;
    RunEndUnique(d, 20, 20, Digits);
    assert d[19..20] == "2";
    assert Classify(d, 19) == Ok(Lexeme(Integer("2"), 19, 20));
    ScanStep(d, 19, Lexeme(Integer("2"), 19, 20), ls);
    ls := [Lexeme(Integer("2"), 19, 20)] + ls;
  }

  lemma MainInputFrom7(d: string)
    requires d == "(add 2 (subtract 4 2))"
    ensures ScanFrom(d, 7) == Ok([Lexeme(Paren('('), 7, 8)] + ([Lexeme(Name("subtract"), 8, 16)] + ([Lexeme(Integer("4"), 17, 18)] + ([Lexeme(Integer("2"), 19, 20)] + ([Lexeme(Paren(')'), 20, 21)] + ([Lexeme(Paren(')'), 21, 22)] + []))))))
  {
    MainInputFrom19(d);
    ghost var ls: seq<Lexeme> := [Lexeme(Integer("2"), 19, 20)] + ([Lexeme(Paren(')'), 20, 21)] + ([Lexeme(Paren(')'), 21, 22)] + []));
    assert Classify(d, 18) == Ok(Lexeme(Whitespace, 18, 19));
    ScanSkip(d, 18);
    RunEndUnique(d, 18, 18, Digits);
    assert d[17..18] == "4";
    assert Classify(d, 17) == Ok(Lexeme(Integer("4"), 17, 18));
    ScanStep(d, 17, Lexeme(Integer("4"), 17, 18), ls);
    ls := [Lexeme(Integer("4"), 17, 18)] + ls;
    assert Classify(d, 16) == Ok(Lexeme(Whitespace, 16, 17));
    ScanSkip(d, 16);
    RunEndUnique(d, 9, 16, Letters);
    assert d[8..16] == "subtract";
    assert Classify(d, 8) == Ok(Lexeme(Name("subtract"), 8, 16));
    ScanStep(d, 8, Lexeme(Name("subtract"), 8, 16), ls);
    ls := [Lexeme(Name("subtract"), 8, 16)] + ls;
    assert Classify(d, 7) == Ok(Lexeme(Paren('('), 7, 8));
    ScanStep(d, 7, Lexeme(Paren('('), 7, 8), ls);
    ls := [Lexeme(Paren('('), 7, 8)] + ls;
  }

  lemma MainInputFrom4(d: string)
    requires d == "(add 2 (subtract 4 2))"
    ensures ScanFrom(d, 4) == Ok([Lexeme(Integer("2"), 5, 6)] + ([Lexeme(Paren('('), 7, 8)] + ([Lexeme(Name("subtract"), 8, 16)] + ([Lexeme(Integer("4"), 17, 18)] + ([Lexeme(Integer("2"), 19, 20)] + ([Lexeme(Paren(')'), 20, 21)] + ([Lexeme(Paren(')'), 21, 22)] + [])))))))
  {
    MainInputFrom7(d);
    ghost var ls: seq<Lexeme> := [Lexeme(Paren('('), 7, 8)] + ([Lexeme(Name("subtract"), 8, 16)] + ([Lexeme(Integer("4"), 17, 18)] + ([Lexeme(Integer("2"), 19, 20)] + ([Lexeme(Paren(')'), 20, 21)] + ([Lexeme(Paren(')'), 21, 22)] + [])))));
    assert Classify(d, 6) == Ok(Lexeme(Whitespace, 6, 7));
    ScanSkip(d, 6);
    RunEndUnique(d, 6, 6, Digits);
    assert d[5..6] == "2";
    assert Classify(d, 5) == Ok(Lexeme(Integer("2"), 5, 6));
    ScanStep(d, 5, Lexeme(Integer("2"), 5, 6), ls);
    ls := [Lexeme(Integer("2"), 5, 6)] + ls;
    assert Classify(d, 4) == Ok(Lexeme(Whitespace, 4, 5));
    ScanSkip(d, 4);
  }

  lemma MainInputFrom0(d: string)
    requires d == "(add 2 (subtract 4 2))"
    ensures ScanFrom(d, 0) == Ok([Lexeme(Paren('('), 0, 1)] + ([Lexeme(Name("add"), 1, 4)] + ([Lexeme(Integer("2"), 5, 6)] + ([Lexeme(Paren('('), 7, 8)] + ([Lexeme(Name("subtract"), 8, 16)] + ([Lexeme(Integer("4"), 17, 18)] + ([Lexeme(Integer("2"), 19, 20)] + ([Lexeme(Paren(')'), 20, 21)] + ([Lexeme(Paren(')'), 21, 22)] + [])))))))))
  {
    MainInputFrom4(d);
    ghost var ls: seq<Lexeme> := [Lexeme(Integer("2"), 5, 6)] + ([Lexeme(Paren('('), 7, 8)] + ([Lexeme(Name("subtract"), 8, 16)] + ([Lexeme(Integer("4"), 17, 18)] + ([Lexeme(Integer("2"), 19, 20)] + ([Lexeme(Paren(')'), 20, 21)] + ([Lexeme(Paren(')'), 21, 22)] + []))))));
    assert d[0] == '(' && d[1] == 'a' && d[2] == 'd' && d[3] == 'd' && d[4] == ' ';
    RunEndUnique(d, 2, 4, Letters);
    assert d[1..4] == "add";
    assert Classify(d, 1) == Ok(Lexeme(Name("add"), 1, 4));
    ScanStep(d, 1, Lexeme(Name("add"), 1, 4), ls);
    ls := [Lexeme(Name("add"), 1, 4)] + ls;
    assert Classify(d, 0) == Ok(Lexeme(Paren('('), 0, 1));
    ScanStep(d, 0, Lexeme(Paren('('), 0, 1), ls);
    ls := [Lexeme(Paren('('), 0, 1)] + ls;
  }

  /** The tokens of the input of `main`. */
  lemma MainInputTokens(d: string)
    requires d == "(add 2 (subtract 4 2))"
    ensures Tokenize(d) == Ok(MainTokens)
  {
    MainInputFrom0(d);
    assert TokensOf([Lexeme(Paren('('), 0, 1)] + ([Lexeme(Name("add"), 1, 4)] + ([Lexeme(Integer("2"), 5, 6)] + ([Lexeme(Paren('('), 7, 8)] + ([Lexeme(Name("subtract"), 8, 16)] + ([Lexeme(Integer("4"), 17, 18)] + ([Lexeme(Integer("2"), 19, 20)] + ([Lexeme(Paren(')'), 20, 21)] + ([Lexeme(Paren(')'), 21, 22)] + []))))))))) == MainTokens;
  }

  /** The tree `main` parses from those tokens. */
  lemma MainInputTree(t: seq<Token>)
    requires t == MainTokens
    ensures Parse(t) == Ok(Program([CallExpression("add", [
      IntegerLiteral(2),
      CallExpression("subtract", [IntegerLiteral(4), IntegerLiteral(2)])])]))
  {
    assert DecimalValue("2") == 2 && DecimalValue("4") == 4;
    var sub := CallExpression("subtract", [IntegerLiteral(4), IntegerLiteral(2)]);
    assert ParseParams(t, 7, "subtract", [IntegerLiteral(4), IntegerLiteral(2)]) == Ok((sub, 8));
    assert [IntegerLiteral(4)] + [IntegerLiteral(2)] == [IntegerLiteral(4), IntegerLiteral(2)];
    assert ParseParams(t, 6, "subtract", [IntegerLiteral(4)]) == Ok((sub, 8));
    assert [] + [IntegerLiteral(4)] == [IntegerLiteral(4)];
    assert ParseParams(t, 5, "subtract", []) == Ok((sub, 8));
    assert ParseExpr(t, 3) == Ok((sub, 8));
    var add := CallExpression("add", [IntegerLiteral(2), sub]);
    assert ParseParams(t, 8, "add", [IntegerLiteral(2), sub]) == Ok((add, 9));
    assert [IntegerLiteral(2)] + [sub] == [IntegerLiteral(2), sub];
    assert ParseParams(t, 3, "add", [IntegerLiteral(2)]) == Ok((add, 9));
    assert [] + [IntegerLiteral(2)] == [IntegerLiteral(2)];
    assert ParseParams(t, 2, "add", []) == Ok((add, 9));
    assert ParseExpr(t, 0) == Ok((add, 9));
    assert [] + [add] == [add];
  }

  // ---------------------------------------------------------------------
  // Strings

  lemma QuotedWordFrom0(d: string)
    requires d == "\"hi\""
    ensures ScanFrom(d, 0) == Ok([Lexeme(Char("\"hi"), 0, 3)] + ([Lexeme(Char("\""), 3, 4)] + []))
  {
    ghost var ls: seq<Lexeme> := [];
    assert ScanFrom(d, 4) == Ok(ls);
    RunEndUnique(d, 4, 4, NonQuote);
    assert d[3..4] == "\"";
    assert Classify(d, 3) == Ok(Lexeme(Char("\""), 3, 4));
    ScanStep(d, 3, Lexeme(Char("\""), 3, 4), ls);
    ls := [Lexeme(Char("\""), 3, 4)] + ls;
    RunEndUnique(d, 1, 3, NonQuote);
    assert d[0..3] == "\"hi";
    assert Classify(d, 0) == Ok(Lexeme(Char("\"hi"), 0, 3));
    ScanStep(d, 0, Lexeme(Char("\"hi"), 0, 3), ls);
    ls := [Lexeme(Char("\"hi"), 0, 3)] + ls;
  }

  /** A closing quote is not consumed: it opens a second string token. */
  lemma QuotedWord(d: string)
    requires d == "\"hi\""
    ensures Tokenize(d) == Ok([Char("\"hi"), Char("\"")])
  {
    QuotedWordFrom0(d);
    assert TokensOf([Lexeme(Char("\"hi"), 0, 3)] + ([Lexeme(Char("\""), 3, 4)] + [])) == [Char("\"hi"), Char("\"")];
  }

  lemma QuotedParameterFrom0(d: string)
    requires d == "(greet \"hi\")"
    ensures ScanFrom(d, 0) == Ok([Lexeme(Paren('('), 0, 1)] + ([Lexeme(Name("greet"), 1, 6)] + ([Lexeme(Char("\"hi"), 7, 10)] + ([Lexeme(Char("\")"), 10, 12)] + []))))
  {
    ghost var ls: seq<Lexeme> := [];
    assert ScanFrom(d, 12) == Ok(ls);
    RunEndUnique(d, 11, 12, NonQuote);
    assert d[10..12] == "\")";
    assert Classify(d, 10) == Ok(Lexeme(Char("\")"), 10, 12));
    ScanStep(d, 10, Lexeme(Char("\")"), 10, 12), ls);
    ls := [Lexeme(Char("\")"), 10, 12)] + ls;
    RunEndUnique(d, 8, 10, NonQuote);
    assert d[7..10] == "\"hi";
    assert Classify(d, 7) == Ok(Lexeme(Char("\"hi"), 7, 10));
    ScanStep(d, 7, Lexeme(Char("\"hi"), 7, 10), ls);
    ls := [Lexeme(Char("\"hi"), 7, 10)] + ls;
    assert Classify(d, 6) == Ok(Lexeme(Whitespace, 6, 7));
    ScanSkip(d, 6);
    RunEndUnique(d, 2, 6, Letters);
    assert d[1..6] == "greet";
    assert Classify(d, 1) == Ok(Lexeme(Name("greet"), 1, 6));
    ScanStep(d, 1, Lexeme(Name("greet"), 1, 6), ls);
    ls := [Lexeme(Name("greet"), 1, 6)] + ls;
    assert Classify(d, 0) == Ok(Lexeme(Paren('('), 0, 1));
    ScanStep(d, 0, Lexeme(Paren('('), 0, 1), ls);
    ls := [Lexeme(Paren('('), 0, 1)] + ls;
  }

  /** A quoted parameter swallows the rest of the input, so the call never
      sees its `)`. */
  lemma QuotedParameter(d: string)
    requires d == "(greet \"hi\")"
    ensures Tokenize(d) == Ok([Paren('('), Name("greet"), Char("\"hi"), Char("\")")])
    ensures Parse([Paren('('), Name("greet"), Char("\"hi"), Char("\")")]) == Err(UnterminatedCall)
  {
    QuotedParameterFrom0(d);
    var t := [Paren('('), Name("greet"), Char("\"hi"), Char("\")")];
    assert ParseParams(t, 4, "greet", [StringLiteral("\"hi"), StringLiteral("\")")]) == Err(UnterminatedCall);
    assert ParseParams(t, 2, "greet", []) == Err(UnterminatedCall);
    assert TokensOf([Lexeme(Paren('('), 0, 1)] + ([Lexeme(Name("greet"), 1, 6)] + ([Lexeme(Char("\"hi"), 7, 10)] + ([Lexeme(Char("\")"), 10, 12)] + [])))) == [Paren('('), Name("greet"), Char("\"hi"), Char("\")")];
  }

  // ---------------------------------------------------------------------
  // Runs and failures

  lemma DigitsThenLettersFrom0(d: string)
    requires d == "2a"
    ensures ScanFrom(d, 0) == Ok([Lexeme(Integer("2"), 0, 1)] + ([Lexeme(Name("a"), 1, 2)] + []))
  {
    ghost var ls: seq<Lexeme> := [];
    assert ScanFrom(d, 2) == Ok(ls);
    RunEndUnique(d, 2, 2, Letters);
    assert d[1..2] == "a";
    assert Classify(d, 1) == Ok(Lexeme(Name("a"), 1, 2));
    ScanStep(d, 1, Lexeme(Name("a"), 1, 2), ls);
    ls := [Lexeme(Name("a"), 1, 2)] + ls;
    RunEndUnique(d, 1, 1, Digits);
    assert d[0..1] == "2";
    assert Classify(d, 0) == Ok(Lexeme(Integer("2"), 0, 1));
    ScanStep(d, 0, Lexeme(Integer("2"), 0, 1), ls);
    ls := [Lexeme(Integer("2"), 0, 1)] + ls;
  }

  /** A digit run stops at the first letter. */
  lemma DigitsThenLetters(d: string)
    requires d == "2a"
    ensures Tokenize(d) == Ok([Integer("2"), Name("a")])
  {
    DigitsThenLettersFrom0(d);
    assert TokensOf([Lexeme(Integer("2"), 0, 1)] + ([Lexeme(Name("a"), 1, 2)] + [])) == [Integer("2"), Name("a")];
  }

  /** The empty input is the empty program. */
  lemma EmptyInput()
    ensures Tokenize("") == Ok([]) && Parse([]) == Ok(Program([]))
  {
    assert TokensOf([]) == [];
  }

  /** A lone integer is one `Integer` token, which parses to a program of
      one literal. */
  lemma SingleInteger(d: string)
    requires d == "42"
    ensures Tokenize(d) == Ok([Integer("42")])
    ensures Parse([Integer("42")]) == Ok(Program([IntegerLiteral(42)]))
  {
    ghost var ls: seq<Lexeme> := [];
    assert ScanFrom(d, 2) == Ok(ls);
    RunEndUnique(d, 1, 2, Digits);
    assert d[0..2] == "42";
    assert Classify(d, 0) == Ok(Lexeme(Integer("42"), 0, 2));
    ScanStep(d, 0, Lexeme(Integer("42"), 0, 2), ls);
    assert TokensOf([Lexeme(Integer("42"), 0, 2)] + []) == [Integer("42")];
    assert "42"[..1] == "4";
    assert DecimalValue("42") == 42;
    assert ParseI64("42") == Some(42);
    assert ParseExpr([Integer("42")], 0) == Ok((IntegerLiteral(42), 1));
    assert [] + [IntegerLiteral(42)] == [IntegerLiteral(42)];
  }

  /** A comma fits no rule, so tokenizing stops there. */
  lemma CommaStops(d: string)
    requires d == "(a, b)"
    ensures Tokenize(d) == Err(UnexpectedCharacter(','))
  {
    RunEndUnique(d, 2, 2, Letters);
    assert d[1..2] == "a";
    assert ScanFrom(d, 2) == Err(UnexpectedCharacter(','));
    assert Classify(d, 1) == Ok(Lexeme(Name("a"), 1, 2));
    assert ScanFrom(d, 1) == Err(UnexpectedCharacter(','));
    assert ScanFrom(d, 0) == Err(UnexpectedCharacter(','));
  }

  /** The tokens of `(foo` fail as an unterminated call, and those of
      `(1 foo)` fail because the call's head is an integer. */
  lemma MalformedCalls()
    ensures Parse([Paren('('), Name("foo")]) == Err(UnterminatedCall)
    ensures Parse([Paren('('), Integer("1"), Name("foo"), Paren(')')]) == Err(ExpectedName(Integer("1")))
  {
  }
}
