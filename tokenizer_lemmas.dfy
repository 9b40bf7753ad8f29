/** What the tokenizer promises about every input: where each token comes
    from, that no blank token survives, that the token texts cover the input,
    how many string and parenthesis tokens there are, and exactly when it
    fails. Each fact is proved about `ScanFrom` at an arbitrary position and
    then stated for the whole input. */
module TokenizerLemmas {
  import opened Syntax
  import opened Tokenizer

  // ---------------------------------------------------------------------
  // Runs

  /** Skipping a prefix of a run does not move its end. */
  lemma RunEndSkip(data: string, i: nat, j: nat, cls: Class)
    requires i <= j <= |data|
    requires forall k :: i <= k < j ==> InClass(data[k], cls)
    ensures RunEnd(data, i, cls) == RunEnd(data, j, cls)
  {
  }

  /** The run end is the only position that closes a run: any `j` with
      every character of `[i, j)` in the class and `data[j]` outside it (or
      at the end of the input) is `RunEnd(data, i, cls)`. */
  lemma {:induction false} RunEndUnique(data: string, i: nat, j: nat, cls: Class)
    requires i <= j <= |data|
    requires forall k :: i <= k < j ==> InClass(data[k], cls)
    requires j == |data| || !InClass(data[j], cls)
    ensures RunEnd(data, i, cls) == j
    decreases j - i
  {
    if i < j {
      RunEndUnique(data, i + 1, j, cls);
    }
  }

  /** `[s, e)` is a maximal run of `cls`: every character of it is in the
      class and the characters just before and just after it are not. */
  ghost predicate MaximalRun(data: string, s: nat, e: nat, cls: Class) {
    s < e <= |data|
    && (forall k :: s <= k < e ==> InClass(data[k], cls))
    && (s == 0 || !InClass(data[s - 1], cls))
    && (e == |data| || !InClass(data[e], cls))
  }

  /** Position `i` does not cut a digit run or a letter run in two. */
  ghost predicate Boundary(data: string, i: nat)
    requires i <= |data|
  {
    0 < i < |data| ==>
      !(IsDigit(data[i - 1]) && IsDigit(data[i])) && !(IsAlphabetic(data[i - 1]) && IsAlphabetic(data[i]))
  }

  /** The lexeme's token is what the input holds at its span. */
  ghost predicate Fits(data: string, l: Lexeme) {
    l.start < l.end <= |data|
    && match l.token
       case Paren(c) =>
         l.end == l.start + 1 && data[l.start] == c && (c == '(' || c == ')')
       case Integer(t) =>
         t == data[l.start..l.end] && MaximalRun(data, l.start, l.end, Digits)
       case Name(t) =>
         t == data[l.start..l.end] && MaximalRun(data, l.start, l.end, Letters)
       case Char(t) =>
         t == data[l.start..l.end] && data[l.start] == '"'
         && (forall k :: l.start < k < l.end ==> data[k] != '"')
         && (l.end == |data| || data[l.end] == '"')
       case Whitespace => false
  }

  /** Spans appear in input order and do not overlap. */
  ghost predicate Ordered(ls: seq<Lexeme>) {
    forall k :: 0 <= k < |ls| - 1 ==> ls[k].end <= ls[k + 1].start
  }

  /** A kept token read at a position that does not cut a run fits the
      input, and its end does not cut a run either. */
  lemma ClassifyFits(data: string, i: nat)
    requires i < |data| && Boundary(data, i) && Classify(data, i).Ok?
    ensures var l := Classify(data, i).value;
      Boundary(data, l.end) && (!l.token.Whitespace? ==> Fits(data, l))
  {
    var l := Classify(data, i).value;
    var j := l.end;
    if l.token.Integer? || l.token.Name? {
      assert IsDigit(data[j - 1]) || IsAlphabetic(data[j - 1]);
    }
  }

  /** Prepending a lexeme that ends before every later span keeps the spans
      in order. */
  lemma OrderedCons(l: Lexeme, rest: seq<Lexeme>)
    requires Ordered(rest) && forall m :: m in rest ==> l.end <= m.start
    ensures Ordered([l] + rest)
  {
    var ls := [l] + rest;
    forall k | 0 <= k < |ls| - 1
      ensures ls[k].end <= ls[k + 1].start
    {
      if k == 0 {
        assert ls[1] == rest[0] && rest[0] in rest;
      } else {
        assert ls[k] == rest[k - 1] && ls[k + 1] == rest[k];
      }
    }
  }

  lemma {:induction false} ScanFromFits(data: string, i: nat)
    requires i <= |data| && Boundary(data, i)
    ensures ScanFrom(data, i).Ok? ==>
      forall l :: l in ScanFrom(data, i).value ==> i <= l.start && Fits(data, l)
    ensures ScanFrom(data, i).Ok? ==> Ordered(ScanFrom(data, i).value)
    decreases |data| - i
  {
    if i < |data| && Classify(data, i).Ok? {
      var l := Classify(data, i).value;
      var j := l.end;
      ClassifyFits(data, i);
      ScanFromFits(data, j);
      if !l.token.Whitespace? && ScanFrom(data, j).Ok? {
        var rest := ScanFrom(data, j).value;
        assert ScanFrom(data, i).value == [l] + rest;
        OrderedCons(l, rest);
      }
    }
  }

  /** Every token of the output is the slice of the input at its span: a
      parenthesis is that character, an integer or a name is a maximal digit
      or letter run, and a string token starts at a quote and runs up to the
      next quote or the end of the input; spans come in input order. */
  lemma TokenizeSpans(data: string)
    ensures ScanFrom(data, 0).Ok? ==>
      Tokenize(data) == Ok(TokensOf(ScanFrom(data, 0).value))
      && (forall l :: l in ScanFrom(data, 0).value ==> Fits(data, l))
      && Ordered(ScanFrom(data, 0).value)
  {
    ScanFromFits(data, 0);
  }

  /** The output never holds a `Whitespace` token. */
  lemma TokenizeNoWhitespace(data: string)
    ensures Tokenize(data).Ok? ==> forall t :: t in Tokenize(data).value ==> !t.Whitespace?
  {
    if Tokenize(data).Ok? {
      var ls := ScanFrom(data, 0).value;
      ScanFromFits(data, 0);
      forall t | t in Tokenize(data).value
        ensures !t.Whitespace?
      {
        var k :| 0 <= k < |ls| && TokensOf(ls)[k] == t;
        assert ls[k] in ls;
      }
    }
  }

  // ---------------------------------------------------------------------
  // Coverage: the token texts spell out the input

  /** The characters of a token as they stand in the input. */
  function TokenText(t: Token): string {
    match t
    case Paren(c) => [c]
    case Name(s) => s
    case Integer(s) => s
    case Char(s) => s
    case Whitespace => []
  }

  function Text(ts: seq<Token>): string {
    if ts == [] then [] else TokenText(ts[0]) + Text(ts[1..])
  }

  /** `s` with its blank characters removed. */
  function Strip(s: string): string {
    if s == [] then [] else (if IsWhitespace(s[0]) then [] else [s[0]]) + Strip(s[1..])
  }

  lemma {:induction false} StripAppend(a: string, b: string)
    ensures Strip(a + b) == Strip(a) + Strip(b)
  {
    if a != [] {
      assert (a + b)[1..] == a[1..] + b;
      StripAppend(a[1..], b);
    } else {
      assert a + b == b;
    }
  }

  lemma {:induction false} StripNoBlank(s: string)
    requires forall k :: 0 <= k < |s| ==> !IsWhitespace(s[k])
    ensures Strip(s) == s
  {
    if s != [] {
      StripNoBlank(s[1..]);
    }
  }

  lemma TokensOfCons(l: Lexeme, rest: seq<Lexeme>)
    ensures TokensOf([l] + rest) == [l.token] + TokensOf(rest)
  {
    assert TokensOf([l] + rest)[1..] == TokensOf(rest);
  }

  /** A string token starts at a quote and stops at the next one, so the
      scan for a quote stops at both of its ends. */
  lemma QuoteEnds(data: string, i: nat, j: nat)
    requires i < |data| && data[i] == '"' && j == RunEnd(data, i + 1, NonQuote)
    ensures QuoteFrom(data, i) == i && QuoteFrom(data, j) == j
  {
    RunEndUnique(data, i, i, NonQuote);
    RunEndUnique(data, j, j, NonQuote);
  }

  lemma SliceJoin(data: string, i: nat, j: nat)
    requires i <= j <= |data|
    ensures data[i..j] + data[j..] == data[i..]
  {
  }

  /** A string token is the input from its quote up to the next quote. */
  lemma TextQuote(data: string, i: nat, j: nat)
    requires i < |data| && data[i] == '"' && j == RunEnd(data, i + 1, NonQuote)
    ensures QuoteFrom(data, i) == i && QuoteFrom(data, j) == j
    ensures Strip(data[i..i]) + data[i..] == data[i..j] + (Strip(data[j..j]) + data[j..])
  {
    QuoteEnds(data, i, j);
    SliceJoin(data, i, j);
    assert data[i..i] == [] && data[j..j] == [];
    assert Strip(data[i..i]) == [] && Strip(data[j..j]) == [];
  }

  /** A token that is not a string lies before the first quote. */
  lemma TextRun(data: string, i: nat, j: nat)
    requires i <= j <= |data|
    requires forall k :: i <= k < j ==> data[k] != '"'
    ensures QuoteFrom(data, i) == QuoteFrom(data, j)
    ensures Strip(data[i..QuoteFrom(data, i)]) == Strip(data[i..j]) + Strip(data[j..QuoteFrom(data, j)])
  {
    RunEndSkip(data, i, j, NonQuote);
    var q := QuoteFrom(data, i);
    assert data[i..q] == data[i..j] + data[j..q];
    StripAppend(data[i..j], data[j..q]);
  }

  /** Outside strings, a token's text is its span with blanks removed. */
  lemma TokenTextStripped(data: string, i: nat)
    requires i < |data| && Classify(data, i).Ok? && data[i] != '"'
    ensures TokenText(Classify(data, i).value.token) == Strip(data[i..Classify(data, i).value.end])
    ensures forall k :: i <= k < Classify(data, i).value.end ==> data[k] != '"'
  {
    var j := Classify(data, i).value.end;
    if IsDigit(data[i]) || IsAlphabetic(data[i]) {
      StripNoBlank(data[i..j]);
    } else {
      assert data[i..j] == [data[i]];
    }
  }

  /** What one token contributes to the text: the stripped input from `i`
      on equals the token's text followed by the stripped input from its end. */
  lemma TextStep(data: string, i: nat)
    requires i < |data| && Classify(data, i).Ok?
    ensures var l := Classify(data, i).value;
      Strip(data[i..QuoteFrom(data, i)]) + data[QuoteFrom(data, i)..]
      == TokenText(l.token) + (Strip(data[l.end..QuoteFrom(data, l.end)]) + data[QuoteFrom(data, l.end)..])
  {
    var j := Classify(data, i).value.end;
    if data[i] == '"' {
      TextQuote(data, i, j);
    } else {
      TokenTextStripped(data, i);
      TextRun(data, i, j);
    }
  }

  lemma {:induction false} ScanFromText(data: string, i: nat)
    requires i <= |data|
    ensures ScanFrom(data, i).Ok? ==>
      Text(TokensOf(ScanFrom(data, i).value)) == Strip(data[i..QuoteFrom(data, i)]) + data[QuoteFrom(data, i)..]
    decreases |data| - i
  {
    if i < |data| && Classify(data, i).Ok? {
      var l := Classify(data, i).value;
      var j := l.end;
      ScanFromText(data, j);
      TextStep(data, i);
      if ScanFrom(data, j).Ok? && !l.token.Whitespace? {
        var rest := ScanFrom(data, j).value;
        TokensOfCons(l, rest);
        assert ([l.token] + TokensOf(rest))[1..] == TokensOf(rest);
      }
    } else if i == |data| {
      assert data[i..i] == [];
    }
  }

  /** Concatenating the token texts gives back the input with the blanks
      before the first quote removed: from the first quote on, every
      character lies inside a string token, and the closing quote of one
      string token opens the next. */
  lemma TokenizeCoversInput(data: string)
    ensures Tokenize(data).Ok? ==>
      Text(Tokenize(data).value) == Strip(data[..QuoteFrom(data, 0)]) + data[QuoteFrom(data, 0)..]
  {
    ScanFromText(data, 0);
  }

  // ---------------------------------------------------------------------
  // Counting string and parenthesis tokens

  function Count<T(==)>(s: seq<T>, x: T): nat {
    if s == [] then 0 else (if s[0] == x then 1 else 0) + Count(s[1..], x)
  }

  function CharTokens(ts: seq<Token>): nat {
    if ts == [] then 0 else (if ts[0].Char? then 1 else 0) + CharTokens(ts[1..])
  }

  lemma {:induction false} CountAppend<T>(a: seq<T>, b: seq<T>, x: T)
    ensures Count(a + b, x) == Count(a, x) + Count(b, x)
  {
    if a != [] {
      assert (a + b)[1..] == a[1..] + b;
      CountAppend(a[1..], b, x);
    } else {
      assert a + b == b;
    }
  }

  lemma {:induction false} CountAbsent<T>(s: seq<T>, x: T)
    requires forall k :: 0 <= k < |s| ==> s[k] != x
    ensures Count(s, x) == 0
  {
    if s != [] {
      CountAbsent(s[1..], x);
    }
  }

  /** Counting from `i` is counting in `[i, j)` and then from `j`. */
  lemma CountSplit(data: string, i: nat, j: nat, c: char)
    requires i <= j <= |data|
    ensures Count(data[i..], c) == Count(data[i..j], c) + Count(data[j..], c)
  {
    SliceJoin(data, i, j);
    CountAppend(data[i..j], data[j..], c);
  }

  /** The span of a string token holds exactly one quote, its first
      character. */
  lemma QuoteSpanCount(data: string, i: nat, j: nat)
    requires i < j <= |data| && data[i] == '"'
    requires forall k :: i < k < j ==> data[k] != '"'
    ensures Count(data[i..j], '"') == 1
  {
    var s := data[i..j];
    assert s[0] == '"' && s[1..] == data[i + 1..j];
    CountAbsent(data[i + 1..j], '"');
  }

  /** A string token holds exactly one quote, and no parenthesis lies
      between it and the first quote. */
  lemma CountQuote(data: string, i: nat, j: nat)
    requires i < |data| && data[i] == '"' && j == RunEnd(data, i + 1, NonQuote)
    ensures QuoteFrom(data, i) == i && QuoteFrom(data, j) == j
    ensures Count(data[i..], '"') == 1 + Count(data[j..], '"')
    ensures data[i..i] == [] && data[j..j] == []
  {
    QuoteEnds(data, i, j);
    QuoteSpanCount(data, i, j);
    CountSplit(data, i, j, '"');
  }

  /** A token that is not a string holds no quote and lies before the first
      quote, so its parentheses are counted among those before it. */
  lemma CountRun(data: string, i: nat, j: nat, c: char)
    requires i <= j <= |data|
    requires forall k :: i <= k < j ==> data[k] != '"'
    ensures QuoteFrom(data, i) == QuoteFrom(data, j)
    ensures Count(data[i..], '"') == Count(data[j..], '"')
    ensures Count(data[i..QuoteFrom(data, i)], c) == Count(data[i..j], c) + Count(data[j..QuoteFrom(data, j)], c)
  {
    CountSplit(data, i, j, '"');
    CountAbsent(data[i..j], '"');
    RunEndSkip(data, i, j, NonQuote);
    var q := QuoteFrom(data, i);
    assert data[i..q] == data[i..j] + data[j..q];
    CountAppend(data[i..j], data[j..q], c);
  }

  /** A parenthesis token is one parenthesis; other tokens hold none. */
  lemma CountParens(data: string, i: nat)
    requires i < |data| && Classify(data, i).Ok? && data[i] != '"'
    ensures var l := Classify(data, i).value;
      (forall k :: i <= k < l.end ==> data[k] != '"')
      && Count(data[i..l.end], '(') == (if l.token == Paren('(') then 1 else 0)
      && Count(data[i..l.end], ')') == (if l.token == Paren(')') then 1 else 0)
  {
    var j := Classify(data, i).value.end;
    if data[i] == '(' || data[i] == ')' || IsWhitespace(data[i]) {
      assert data[i..j] == [data[i]];
    } else {
      CountAbsent(data[i..j], '(');
      CountAbsent(data[i..j], ')');
    }
  }

  /** How many quotes and parentheses one token accounts for. */
  lemma CountStep(data: string, i: nat)
    requires i < |data| && Classify(data, i).Ok?
    ensures var l := Classify(data, i).value;
      var j, q := l.end, QuoteFrom(data, i);
      Count(data[i..], '"') == (if l.token.Char? then 1 else 0) + Count(data[j..], '"')
      && Count(data[i..q], '(') == (if l.token == Paren('(') then 1 else 0) + Count(data[j..QuoteFrom(data, j)], '(')
      && Count(data[i..q], ')') == (if l.token == Paren(')') then 1 else 0) + Count(data[j..QuoteFrom(data, j)], ')')
  {
    var j := Classify(data, i).value.end;
    if data[i] == '"' {
      CountQuote(data, i, j);
    } else {
      CountParens(data, i);
      CountRun(data, i, j, '(');
      CountRun(data, i, j, ')');
    }
  }

  lemma {:induction false} ScanFromCounts(data: string, i: nat)
    requires i <= |data|
    ensures ScanFrom(data, i).Ok? ==>
      var ts := TokensOf(ScanFrom(data, i).value);
      var q := QuoteFrom(data, i);
      CharTokens(ts) == Count(data[i..], '"')
      && Count(ts, Paren('(')) == Count(data[i..q], '(')
      && Count(ts, Paren(')')) == Count(data[i..q], ')')
    decreases |data| - i
  {
    if i == |data| {
      assert data[i..] == [];
    } else if Classify(data, i).Ok? {
      var l := Classify(data, i).value;
      var j := l.end;
      ScanFromCounts(data, j);
      CountStep(data, i);
      if ScanFrom(data, j).Ok? && !l.token.Whitespace? {
        var rest := ScanFrom(data, j).value;
        TokensOfCons(l, rest);
        assert ([l.token] + TokensOf(rest))[1..] == TokensOf(rest);
      }
    }
  }

  /** Every quote of the input opens its own string token, so there are as
      many string tokens as quotes; every parenthesis before the first quote
      gives one parenthesis token carrying that character. */
  lemma TokenizeCounts(data: string)
    ensures Tokenize(data).Ok? ==>
      CharTokens(Tokenize(data).value) == Count(data, '"')
      && Count(Tokenize(data).value, Paren('(')) == Count(data[..QuoteFrom(data, 0)], '(')
      && Count(Tokenize(data).value, Paren(')')) == Count(data[..QuoteFrom(data, 0)], ')')
  {
    ScanFromCounts(data, 0);
    assert data[0..] == data;
  }

  // ---------------------------------------------------------------------
  // Failure

  lemma {:induction false} ScanFromFails(data: string, i: nat)
    requires i <= |data|
    ensures (exists k :: i <= k < QuoteFrom(data, i) && IsOther(data[k])) ==> ScanFrom(data, i).Err?
    ensures ScanFrom(data, i).Err? ==>
      exists k :: i <= k < QuoteFrom(data, i) && IsOther(data[k])
        && (forall m :: i <= m < k ==> !IsOther(data[m]))
        && ScanFrom(data, i).error == UnexpectedCharacter(data[k])
    decreases |data| - i
  {
    if i < |data| {
      if IsOther(data[i]) {
        assert data[i] != '"';
        assert i < QuoteFrom(data, i);
      } else {
        var l := Classify(data, i).value;
        var j := l.end;
        ScanFromFails(data, j);
        var q := QuoteFrom(data, i);
        if data[i] == '"' {
          assert q == i && QuoteFrom(data, j) == j;
        } else {
          RunEndSkip(data, i, j, NonQuote);
          assert forall m :: i <= m < j ==> !IsOther(data[m]);
        }
      }
    }
  }

  /** Tokenizing fails exactly when some character before the first quote
      fits no rule, and then it reports the first such character. Quotes
      never make it fail: there is no unterminated-string error. */
  lemma TokenizeFails(data: string)
    ensures Tokenize(data).Err? <==> exists k :: 0 <= k < QuoteFrom(data, 0) && IsOther(data[k])
    ensures Tokenize(data).Err? ==>
      exists k :: 0 <= k < QuoteFrom(data, 0) && IsOther(data[k])
        && (forall m :: 0 <= m < k ==> !IsOther(data[m]))
        && Tokenize(data).error == UnexpectedCharacter(data[k])
  {
    ScanFromFails(data, 0);
  }
}
