/** The recursive-descent parser: `walk` reads one expression at the cursor,
    `parser` reads expressions until the tokens run out. The Rust iterator
    shared by the recursive calls is a cursor index into the token sequence,
    returned together with each result. */
module Parser {
  import opened Syntax
  import Tokenizer

  /** The panics and failed `unwrap`s of `walk`, one constructor each. */
  datatype ParseError =
    | MissingToken                  // `walk` called with no token left
    | InvalidInteger(text: string)  // `i64::from_str_radix` rejected the text
    | MissingCallName               // `(` is the last token
    | ExpectedName(found: Token)    // `(` followed by something other than a name
    | UnterminatedCall              // the tokens end before the call's `)`
    | UnexpectedToken(found: Token) // a token that cannot start an expression

  predicate AllDigits(s: string) {
    forall k :: 0 <= k < |s| ==> Tokenizer.IsDigit(s[k])
  }

  /** The number a string of decimal digits denotes. */
  function DecimalValue(s: string): nat
    requires AllDigits(s)
  {
    if s == [] then 0 else DecimalValue(s[..|s| - 1]) * 10 + (s[|s| - 1] as int - '0' as int)
  }

  /** `i64::from_str_radix(s, 10)`: an optional `+` or `-` (not alone), then
      one or more decimal digits whose signed value fits in an `i64`. */
  function ParseI64(s: string): (r: Option<int>)
    ensures r.Some? ==> I64Min <= r.value <= I64Max
  {
    if s == [] then None
    else if (s[0] == '+' || s[0] == '-') && |s| == 1 then None
    else
      var digits := if s[0] == '+' || s[0] == '-' then s[1..] else s;
      if !AllDigits(digits) then None
      else
        var v: int := if s[0] == '-' then -(DecimalValue(digits) as int) else DecimalValue(digits);
        if I64Min <= v <= I64Max then Some(v) else None
  }

  /** The expression that starts at `pos`, and the cursor just after it. */
  function ParseExpr(toks: seq<Token>, pos: nat): (r: Result<(Ast, nat), ParseError>)
    requires pos <= |toks|
    ensures r.Ok? ==> pos < r.value.1 <= |toks|
    decreases |toks| - pos, 0
  {
    if pos == |toks| then Err(MissingToken)
    else
      var token := toks[pos];
      match token
      case Integer(text) =>
        (match ParseI64(text)
         case Some(v) => Ok((IntegerLiteral(v), pos + 1))
         case None => Err(InvalidInteger(text)))
      case Char(text) => Ok((StringLiteral(text), pos + 1))
      case Paren(c) =>
        if c != '(' then Err(UnexpectedToken(token))
        else if pos + 1 == |toks| then Err(MissingCallName)
        else
          (match toks[pos + 1]
           case Name(name) => ParseParams(toks, pos + 2, name, [])
           case other => Err(ExpectedName(other)))
      case _ => Err(UnexpectedToken(token))
  }

  /** The parameters of the call `name` from `pos` up to and including its
      `)`, after the parameters `params` already read. */
  function ParseParams(toks: seq<Token>, pos: nat, name: string, params: seq<Ast>): (r: Result<(Ast, nat), ParseError>)
    requires pos <= |toks|
    ensures r.Ok? ==> pos < r.value.1 <= |toks|
    decreases |toks| - pos, 1
  {
    if pos == |toks| then Err(UnterminatedCall)
    else if toks[pos] == Paren(')') then Ok((CallExpression(name, params), pos + 1))
    else
      match ParseExpr(toks, pos)
      case Err(e) => Err(e)
      case Ok((param, next)) => ParseParams(toks, next, name, params + [param])
  }

  /** The top-level expressions from `pos` on, after those in `body`. */
  function ParseBody(toks: seq<Token>, pos: nat, body: seq<Ast>): Result<Ast, ParseError>
    requires pos <= |toks|
    decreases |toks| - pos
  {
    if pos == |toks| then Ok(Program(body))
    else
      match ParseExpr(toks, pos)
      case Err(e) => Err(e)
      case Ok((expr, next)) => ParseBody(toks, next, body + [expr])
  }

  function Parse(toks: seq<Token>): Result<Ast, ParseError> {
    ParseBody(toks, 0, [])
  }

  /** `walk`: consumes the expression at `pos` and returns it with the new
      cursor; a call collects parameters until it sees `)`. */
  method Walk(toks: seq<Token>, pos: nat) returns (r: Result<(Ast, nat), ParseError>)
    requires pos <= |toks|
    ensures r == ParseExpr(toks, pos)
    decreases |toks| - pos
  {
    if pos == |toks| {
      return Err(MissingToken);
    }
    var token := toks[pos];
    var cursor := pos + 1;
    match token {
      case Integer(text) =>
        var value := ParseI64(text);
        if value.None? {
          return Err(InvalidInteger(text));
        }
        return Ok((IntegerLiteral(value.value), cursor));
      case Char(text) =>
        return Ok((StringLiteral(text), cursor));
      case Paren(c) =>
        if c != '(' {
          return Err(UnexpectedToken(token));
        }
        if cursor == |toks| {
          return Err(MissingCallName);
        }
        var nameToken := toks[cursor];
        cursor := cursor + 1;
        if !nameToken.Name? {
          return Err(ExpectedName(nameToken));
        }
        var name := nameToken.text;
        var params: seq<Ast> := [];
        while true
          invariant pos + 2 <= cursor <= |toks|
          invariant ParseParams(toks, cursor, name, params) == ParseExpr(toks, pos)
          decreases |toks| - cursor
        {
          if cursor == |toks| {
            return Err(UnterminatedCall);
          }
          if toks[cursor] == Paren(')') {
            return Ok((CallExpression(name, params), cursor + 1));
          }
          var param := Walk(toks, cursor);
          if param.Err? {
            return Err(param.error);
          }
          params := params + [param.value.0];
          cursor := param.value.1;
        }
      case _ =>
        return Err(UnexpectedToken(token));
    }
  }

  /** `parser`: walks expressions while tokens remain and wraps them in a
      `Program`. */
  method Parser(toks: seq<Token>) returns (r: Result<Ast, ParseError>)
    ensures r == Parse(toks)
  {
    var cursor := 0;
    var body: seq<Ast> := [];
    while cursor < |toks|
      invariant cursor <= |toks|
      invariant ParseBody(toks, cursor, body) == Parse(toks)
      decreases |toks| - cursor
    {
      var expr := Walk(toks, cursor);
      if expr.Err? {
        return Err(expr.error);
      }
      body := body + [expr.value.0];
      cursor := expr.value.1;
    }
    return Ok(Program(body));
  }
}
