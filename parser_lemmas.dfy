/** What the parser promises. Printing a tree back as tokens (`Flatten`) is
    its inverse: the parser reads every well-formed tree back from its
    tokens, and every successful parse prints back as the tokens it consumed
    (up to how integers are spelled). Around that: how each kind of token is
    read, the ways a call can fail, and that `walk` is never called with no
    token left. */
module ParserLemmas {
  import opened Syntax
  import opened Parser
  import Tokenizer

  // ---------------------------------------------------------------------
  // Printing integers

  function Digit(d: nat): char
    requires d < 10
  {
    ('0' as int + d) as char
  }

  /** The shortest decimal spelling of `n`. */
  function DecimalText(n: nat): string
    decreases n
  {
    if n < 10 then [Digit(n)] else DecimalText(n / 10) + [Digit(n % 10)]
  }

  lemma {:induction false} DecimalTextValue(n: nat)
    ensures |DecimalText(n)| > 0 && AllDigits(DecimalText(n))
    ensures DecimalValue(DecimalText(n)) == n
    decreases n
  {
    if n >= 10 {
      DecimalTextValue(n / 10);
      var s := DecimalText(n);
      assert s[..|s| - 1] == DecimalText(n / 10);
    }
  }

  /** How an `i64` is spelled: a `-` before the digits of a negative value. */
  function I64Text(v: int): string {
    if v < 0 then "-" + DecimalText(-v) else DecimalText(v)
  }

  /** Unsigned digits within range read as their value. */
  lemma ParseI64Unsigned(s: string)
    requires |s| > 0 && AllDigits(s) && DecimalValue(s) <= I64Max
    ensures ParseI64(s) == Some(DecimalValue(s) as int)
  {
    assert Tokenizer.IsDigit(s[0]);
  }

  /** A `-` before digits within range reads as the negated value. */
  lemma ParseI64Negative(s: string)
    requires |s| > 0 && AllDigits(s) && DecimalValue(s) <= -I64Min
    ensures ParseI64("-" + s) == Some(-(DecimalValue(s) as int))
  {
    var t := "-" + s;
    assert t[0] == '-' && |t| > 1 && t[1..] == s;
  }

  /** `from_str_radix` reads back every `i64` from its spelling. */
  lemma ParseI64Text(v: int)
    requires I64Min <= v <= I64Max
    ensures ParseI64(I64Text(v)) == Some(v)
  {
    if v < 0 {
      DecimalTextValue(-v);
      ParseI64Negative(DecimalText(-v));
    } else {
      DecimalTextValue(v);
      ParseI64Unsigned(DecimalText(v));
    }
  }

  // ---------------------------------------------------------------------
  // Printing trees

  /** A tree the parser can produce as one expression: no nested `Program`,
      and every integer within the `i64` range. */
  predicate IsExpr(a: Ast)
    decreases a
  {
    match a
    case Program(_) => false
    case IntegerLiteral(v) => I64Min <= v <= I64Max
    case StringLiteral(_) => true
    case CallExpression(_, ps) => forall k :: 0 <= k < |ps| ==> IsExpr(ps[k])
  }

  predicate AllExprs(es: seq<Ast>) {
    forall k :: 0 <= k < |es| ==> IsExpr(es[k])
  }

  /** The tokens that spell out a tree. */
  function Flatten(a: Ast): seq<Token>
    decreases a, 1
  {
    match a
    case Program(body) => FlattenAll(body)
    case IntegerLiteral(v) => [Integer(I64Text(v))]
    case StringLiteral(s) => [Char(s)]
    case CallExpression(name, ps) => [Paren('('), Name(name)] + FlattenAll(ps) + [Paren(')')]
  }

  function FlattenAll(es: seq<Ast>): seq<Token>
    decreases es, 0
  {
    if es == [] then [] else Flatten(es[0]) + FlattenAll(es[1..])
  }

  /** A token with its integer text, if it is a valid `i64`, respelled the
      way `Flatten` spells it. */
  function Canon(t: Token): Token {
    match t
    case Integer(text) =>
      (match ParseI64(text)
       case Some(v) => Integer(I64Text(v))
       case None => t)
    case _ => t
  }

  function CanonAll(ts: seq<Token>): seq<Token> {
    seq(|ts|, k requires 0 <= k < |ts| => Canon(ts[k]))
  }

  lemma CanonAllSplit(ts: seq<Token>, i: nat, m: nat, j: nat)
    requires i <= m <= j <= |ts|
    ensures CanonAll(ts[i..j]) == CanonAll(ts[i..m]) + CanonAll(ts[m..j])
  {
  }

  /** `f` stands in `toks` at `pos`. */
  predicate At(toks: seq<Token>, pos: nat, f: seq<Token>) {
    pos + |f| <= |toks| && forall k :: 0 <= k < |f| ==> toks[pos + k] == f[k]
  }

  lemma AtSplit(toks: seq<Token>, pos: nat, f: seq<Token>, g: seq<Token>)
    ensures At(toks, pos, f + g) <==> At(toks, pos, f) && At(toks, pos + |f|, g)
  {
    if At(toks, pos, f) && At(toks, pos + |f|, g) {
      forall k | 0 <= k < |f + g| ensures toks[pos + k] == (f + g)[k] {
        if k >= |f| {
          assert toks[pos + |f| + (k - |f|)] == g[k - |f|];
        }
      }
    }
    if At(toks, pos, f + g) {
      forall k | 0 <= k < |f| ensures toks[pos + k] == f[k] {
        assert toks[pos + k] == (f + g)[k];
      }
      forall k | 0 <= k < |g| ensures toks[pos + |f| + k] == g[k] {
        assert toks[pos + (|f| + k)] == (f + g)[|f| + k];
      }
    }
  }

  /** A list of expressions: its first spelled out, then the rest. */
  lemma FlattenAllCons(es: seq<Ast>)
    requires es != []
    ensures FlattenAll(es) == Flatten(es[0]) + FlattenAll(es[1..])
    ensures AllExprs(es) ==> IsExpr(es[0]) && AllExprs(es[1..])
  {
    if AllExprs(es) {
      forall k | 0 <= k < |es| - 1 ensures IsExpr(es[1..][k]) {
        assert es[1..][k] == es[k + 1];
      }
    }
  }

  /** A parse that read `e` after the expressions before position `n`. */
  lemma ExtendTail(es: seq<Ast>, n: nat, e: Ast, prefix: seq<Ast>)
    requires n < |es| && es[..n + 1] == prefix + [e] && |prefix| == n
    requires IsExpr(e) && AllExprs(es[n + 1..])
    ensures es[..n] == prefix
    ensures AllExprs(es[n..]) && FlattenAll(es[n..]) == Flatten(e) + FlattenAll(es[n + 1..])
  {
    assert es[..n] == es[..n + 1][..n];
    assert es[n] == es[..n + 1][n];
    FlattenAllCons(es[n..]);
    assert es[n..][1..] == es[n + 1..];
    forall k | 0 <= k < |es| - n ensures IsExpr(es[n..][k]) {
      if k > 0 {
        assert es[n..][k] == es[n + 1..][k - 1];
      }
    }
  }

  /** An expression's spelling is never empty and never starts with `)`. */
  lemma FlattenStart(a: Ast)
    requires IsExpr(a)
    ensures |Flatten(a)| > 0 && Flatten(a)[0] != Paren(')')
  {
    if a.IntegerLiteral? {
      DecimalTextValue(if a.number < 0 then -a.number else a.number);
    }
  }

  // ---------------------------------------------------------------------
  // The parser reads back every printed tree

  /** `(` and a name hand over to the parameter loop. */
  lemma CallOpens(toks: seq<Token>, pos: nat, name: string)
    requires pos + 2 <= |toks| && toks[pos] == Paren('(') && toks[pos + 1] == Name(name)
    ensures ParseExpr(toks, pos) == ParseParams(toks, pos + 2, name, [])
  {
  }

  /** The spelling of a call at `pos`: `(`, the name, then the parameters and `)`. */
  lemma CallSplit(a: Ast, toks: seq<Token>, pos: nat)
    requires a.CallExpression? && At(toks, pos, Flatten(a))
    ensures pos + 2 <= |toks| && toks[pos] == Paren('(') && toks[pos + 1] == Name(a.name)
    ensures At(toks, pos + 2, FlattenAll(a.params) + [Paren(')')])
    ensures |Flatten(a)| == 2 + |FlattenAll(a.params) + [Paren(')')]|
  {
    var open, rest := [Paren('('), Name(a.name)], FlattenAll(a.params) + [Paren(')')];
    assert Flatten(a) == open + rest;
    AtSplit(toks, pos, open, rest);
    assert toks[pos + 0] == open[0] && toks[pos + 1] == open[1];
  }

  /** A literal's single token reads back as that literal. */
  lemma LiteralFlatten(a: Ast, toks: seq<Token>, pos: nat)
    requires (a.IntegerLiteral? || a.StringLiteral?) && IsExpr(a) && At(toks, pos, Flatten(a))
    ensures ParseExpr(toks, pos) == Ok((a, pos + |Flatten(a)|))
  {
    assert toks[pos + 0] == Flatten(a)[0];
    if a.IntegerLiteral? {
      ParseI64Text(a.number);
    }
  }

  lemma {:induction false} ParseExprFlatten(a: Ast, toks: seq<Token>, pos: nat)
    requires IsExpr(a) && At(toks, pos, Flatten(a))
    ensures ParseExpr(toks, pos) == Ok((a, pos + |Flatten(a)|))
    decreases a, 1
  {
    match a
    case IntegerLiteral(_) =>
      LiteralFlatten(a, toks, pos);
    case StringLiteral(_) =>
      LiteralFlatten(a, toks, pos);
    case CallExpression(name, ps) =>
      CallSplit(a, toks, pos);
      CallOpens(toks, pos, name);
      ParseParamsFlatten(ps, toks, pos + 2, name, []);
      assert [] + ps == ps;
  }

  lemma {:induction false} ParseParamsFlatten(ps: seq<Ast>, toks: seq<Token>, pos: nat, name: string, acc: seq<Ast>)
    requires AllExprs(ps) && At(toks, pos, FlattenAll(ps) + [Paren(')')])
    ensures ParseParams(toks, pos, name, acc) == Ok((CallExpression(name, acc + ps), pos + |FlattenAll(ps)| + 1))
    decreases ps, 0
  {
    if ps == [] {
      assert toks[pos + 0] == ([] + [Paren(')')])[0];
      assert acc + ps == acc;
    } else {
      var f, rest := Flatten(ps[0]), FlattenAll(ps[1..]);
      FlattenAllCons(ps);
      assert f + rest + [Paren(')')] == f + (rest + [Paren(')')]);
      AtSplit(toks, pos, f, rest + [Paren(')')]);
      FlattenStart(ps[0]);
      assert toks[pos + 0] == f[0];
      ParseExprFlatten(ps[0], toks, pos);
      ParseParamsFlatten(ps[1..], toks, pos + |f|, name, acc + [ps[0]]);
      assert acc + [ps[0]] + ps[1..] == acc + ps;
    }
  }

  lemma {:induction false} ParseBodyFlatten(es: seq<Ast>, toks: seq<Token>, pos: nat, body: seq<Ast>)
    requires AllExprs(es) && At(toks, pos, FlattenAll(es)) && pos + |FlattenAll(es)| == |toks|
    ensures ParseBody(toks, pos, body) == Ok(Program(body + es))
    decreases es
  {
    if es == [] {
      assert body + es == body;
    } else {
      var f, rest := Flatten(es[0]), FlattenAll(es[1..]);
      FlattenAllCons(es);
      AtSplit(toks, pos, f, rest);
      ParseExprFlatten(es[0], toks, pos);
      ParseBodyFlatten(es[1..], toks, pos + |f|, body + [es[0]]);
      assert body + [es[0]] + es[1..] == body + es;
    }
  }

  /** Parsing the tokens that spell out a list of expressions gives back
      that list, in order and with its nesting. */
  lemma ParseFlatten(es: seq<Ast>)
    requires AllExprs(es)
    ensures Parse(FlattenAll(es)) == Ok(Program(es))
  {
    assert At(FlattenAll(es), 0, FlattenAll(es));
    ParseBodyFlatten(es, FlattenAll(es), 0, []);
    assert [] + es == es;
  }

  // ---------------------------------------------------------------------
  // Every successful parse prints back as the tokens it consumed

  lemma {:induction false} ParseExprCanon(toks: seq<Token>, pos: nat)
    requires pos <= |toks|
    ensures ParseExpr(toks, pos).Ok? ==>
      var (a, next) := ParseExpr(toks, pos).value;
      IsExpr(a) && Flatten(a) == CanonAll(toks[pos..next])
    decreases |toks| - pos, 0
  {
    if pos < |toks| && ParseExpr(toks, pos).Ok? {
      if toks[pos].Paren? {
        var name := toks[pos + 1].text;
        assert ParseExpr(toks, pos) == ParseParams(toks, pos + 2, name, []);
        ParseParamsCanon(toks, pos + 2, name, []);
        CallCanon(toks, pos, name);
      } else {
        LiteralCanon(toks, pos);
      }
    }
  }

  lemma LiteralCanon(toks: seq<Token>, pos: nat)
    requires pos < |toks| && !toks[pos].Paren? && ParseExpr(toks, pos).Ok?
    ensures var (a, next) := ParseExpr(toks, pos).value;
      IsExpr(a) && Flatten(a) == CanonAll(toks[pos..next])
  {
    assert toks[pos..pos + 1] == [toks[pos]];
  }

  lemma CallCanon(toks: seq<Token>, pos: nat, name: string)
    requires pos + 2 <= |toks| && toks[pos] == Paren('(') && toks[pos + 1] == Name(name)
    requires ParseParams(toks, pos + 2, name, []).Ok?
    requires var (a, next) := ParseParams(toks, pos + 2, name, []).value;
      a.CallExpression? && a.name == name && AllExprs(a.params[0..])
      && FlattenAll(a.params[0..]) + [Paren(')')] == CanonAll(toks[pos + 2..next])
    ensures var (a, next) := ParseParams(toks, pos + 2, name, []).value;
      IsExpr(a) && Flatten(a) == CanonAll(toks[pos..next])
  {
    var (a, next) := ParseParams(toks, pos + 2, name, []).value;
    assert a.params[0..] == a.params;
    var head := [Paren('('), Name(name)];
    assert Flatten(a) == head + (FlattenAll(a.params) + [Paren(')')]);
    CanonAllSplit(toks, pos, pos + 2, next);
    assert CanonAll(toks[pos..pos + 2]) == head by {
      assert toks[pos..pos + 2] == head;
    }
  }

  lemma {:induction false} ParseParamsCanon(toks: seq<Token>, pos: nat, name: string, acc: seq<Ast>)
    requires pos <= |toks|
    ensures ParseParams(toks, pos, name, acc).Ok? ==>
      var (a, next) := ParseParams(toks, pos, name, acc).value;
      a.CallExpression? && a.name == name && |acc| <= |a.params| && a.params[..|acc|] == acc
      && AllExprs(a.params[|acc|..])
      && FlattenAll(a.params[|acc|..]) + [Paren(')')] == CanonAll(toks[pos..next])
    decreases |toks| - pos, 1
  {
    if pos < |toks| && ParseParams(toks, pos, name, acc).Ok? {
      var (a, next) := ParseParams(toks, pos, name, acc).value;
      if toks[pos] == Paren(')') {
        assert a.params[|acc|..] == [];
        assert toks[pos..next] == [toks[pos]];
      } else {
        ParseExprCanon(toks, pos);
        var (param, mid) := ParseExpr(toks, pos).value;
        ParseParamsCanon(toks, mid, name, acc + [param]);
        CanonAllSplit(toks, pos, mid, next);
        ExtendTail(a.params, |acc|, param, acc);
      }
    }
  }

  lemma {:induction false} ParseBodyCanon(toks: seq<Token>, pos: nat, body: seq<Ast>)
    requires pos <= |toks|
    ensures ParseBody(toks, pos, body).Ok? ==>
      var p := ParseBody(toks, pos, body).value;
      p.Program? && |body| <= |p.body| && p.body[..|body|] == body
      && AllExprs(p.body[|body|..])
      && FlattenAll(p.body[|body|..]) == CanonAll(toks[pos..])
    decreases |toks| - pos
  {
    if ParseBody(toks, pos, body).Ok? {
      var p := ParseBody(toks, pos, body).value;
      if pos == |toks| {
        assert p.body[|body|..] == [];
      } else {
        ParseExprCanon(toks, pos);
        var (e, mid) := ParseExpr(toks, pos).value;
        ParseBodyCanon(toks, mid, body + [e]);
        assert p == ParseBody(toks, mid, body + [e]).value;
        CanonAllSplit(toks, pos, mid, |toks|);
        assert toks[pos..|toks|] == toks[pos..] && toks[mid..|toks|] == toks[mid..];
        ExtendTail(p.body, |body|, e, body);
      }
    }
  }

  /** A successful parse is a `Program` of expressions that consumed every
      token: printed back, it gives the tokens in order, with integers
      respelled. */
  lemma ParseConsumesAll(toks: seq<Token>)
    ensures Parse(toks).Ok? ==>
      Parse(toks).value.Program? && AllExprs(Parse(toks).value.body)
      && FlattenAll(Parse(toks).value.body) == CanonAll(toks)
  {
    ParseBodyCanon(toks, 0, []);
    if Parse(toks).Ok? {
      assert Parse(toks).value.body[0..] == Parse(toks).value.body;
      assert toks[0..] == toks;
    }
  }

  /** Respelling the integers of a parsable token sequence does not change
      what it parses to. */
  lemma ParseIgnoresIntegerSpelling(toks: seq<Token>)
    ensures Parse(toks).Ok? ==> Parse(CanonAll(toks)) == Parse(toks)
  {
    ParseConsumesAll(toks);
    if Parse(toks).Ok? {
      ParseFlatten(Parse(toks).value.body);
    }
  }

  // ---------------------------------------------------------------------
  // How single tokens are read, and how calls fail

  /** An integer token is read as its decimal value, and fails exactly when
      that value exceeds the `i64` maximum; a string token is read with its
      text unchanged, leading quote included. */
  lemma LiteralTokens(toks: seq<Token>, pos: nat)
    requires pos < |toks|
    ensures toks[pos].Integer? && |toks[pos].text| > 0 && AllDigits(toks[pos].text) ==>
      ParseExpr(toks, pos) ==
        if DecimalValue(toks[pos].text) <= I64Max
        then Ok((IntegerLiteral(DecimalValue(toks[pos].text)), pos + 1))
        else Err(InvalidInteger(toks[pos].text))
    ensures toks[pos].Char? ==> ParseExpr(toks, pos) == Ok((StringLiteral(toks[pos].text), pos + 1))
  {
    if toks[pos].Integer? && |toks[pos].text| > 0 && AllDigits(toks[pos].text) {
      assert Tokenizer.IsDigit(toks[pos].text[0]);
    }
  }

  /** `(` must be followed by a name, and nothing but an integer, a string or
      `(` can start an expression. */
  lemma CallShape(toks: seq<Token>, pos: nat)
    requires pos < |toks|
    ensures toks[pos] == Paren('(') && pos + 1 == |toks| ==> ParseExpr(toks, pos) == Err(MissingCallName)
    ensures toks[pos] == Paren('(') && pos + 1 < |toks| && !toks[pos + 1].Name? ==>
      ParseExpr(toks, pos) == Err(ExpectedName(toks[pos + 1]))
    ensures toks[pos].Name? || toks[pos].Whitespace? || (toks[pos].Paren? && toks[pos].c != '(') ==>
      ParseExpr(toks, pos) == Err(UnexpectedToken(toks[pos]))
  {
  }

  lemma {:induction false} ParseParamsRunsOut(ps: seq<Ast>, toks: seq<Token>, pos: nat, name: string, acc: seq<Ast>)
    requires AllExprs(ps) && At(toks, pos, FlattenAll(ps)) && pos + |FlattenAll(ps)| == |toks|
    ensures ParseParams(toks, pos, name, acc) == Err(UnterminatedCall)
    decreases ps
  {
    if ps != [] {
      var f, rest := Flatten(ps[0]), FlattenAll(ps[1..]);
      FlattenAllCons(ps);
      AtSplit(toks, pos, f, rest);
      FlattenStart(ps[0]);
      assert toks[pos + 0] == f[0];
      ParseExprFlatten(ps[0], toks, pos);
      ParseParamsRunsOut(ps[1..], toks, pos + |f|, name, acc + [ps[0]]);
    }
  }

  /** A call whose `)` never comes fails as unterminated, however many
      complete parameters precede the end. */
  lemma ParseUnterminated(name: string, ps: seq<Ast>)
    requires AllExprs(ps)
    ensures Parse([Paren('('), Name(name)] + FlattenAll(ps)) == Err(UnterminatedCall)
  {
    var head := [Paren('('), Name(name)];
    var toks := head + FlattenAll(ps);
    assert At(toks, 2, FlattenAll(ps)) by {
      forall k | 0 <= k < |FlattenAll(ps)|
        ensures toks[2 + k] == FlattenAll(ps)[k]
      {
      }
    }
    ParseParamsRunsOut(ps, toks, 2, name, []);
    assert toks[0] == Paren('(') && toks[1] == Name(name);
    assert ParseExpr(toks, 0) == Err(UnterminatedCall);
  }

  // ---------------------------------------------------------------------
  // The first `unwrap` of `walk` never fails

  lemma {:induction false} ParseExprHasToken(toks: seq<Token>, pos: nat)
    requires pos < |toks|
    ensures ParseExpr(toks, pos) != Err(MissingToken)
    decreases |toks| - pos, 0
  {
    if toks[pos] == Paren('(') && pos + 1 < |toks| && toks[pos + 1].Name? {
      ParseParamsHasToken(toks, pos + 2, toks[pos + 1].text, []);
    }
  }

  lemma {:induction false} ParseParamsHasToken(toks: seq<Token>, pos: nat, name: string, acc: seq<Ast>)
    requires pos <= |toks|
    ensures ParseParams(toks, pos, name, acc) != Err(MissingToken)
    decreases |toks| - pos, 1
  {
    if pos < |toks| && toks[pos] != Paren(')') {
      ParseExprHasToken(toks, pos);
      if ParseExpr(toks, pos).Ok? {
        var (param, next) := ParseExpr(toks, pos).value;
        ParseParamsHasToken(toks, next, name, acc + [param]);
      }
    }
  }

  lemma {:induction false} ParseBodyHasToken(toks: seq<Token>, pos: nat, body: seq<Ast>)
    requires pos <= |toks|
    ensures ParseBody(toks, pos, body) != Err(MissingToken)
    decreases |toks| - pos
  {
    if pos < |toks| {
      ParseExprHasToken(toks, pos);
      if ParseExpr(toks, pos).Ok? {
        var (e, next) := ParseExpr(toks, pos).value;
        ParseBodyHasToken(toks, next, body + [e]);
      }
    }
  }

  /** `parser` calls `walk` only when a token remains, and `walk` calls
      itself only after peeking a token, so reading the first token of an
      expression never fails. */
  lemma ParseHasToken(toks: seq<Token>)
    ensures Parse(toks) != Err(MissingToken)
  {
    ParseBodyHasToken(toks, 0, []);
  }
}
