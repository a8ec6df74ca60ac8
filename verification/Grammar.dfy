/** The language `ExpressionParser` accepts (src/spotfire_expr_normalizer/parser.py), as functions on
    the tokens still to be read. */
module Grammar {
  import opened Wrappers
  import opened Text
  import opened Ast
  import opened Tokenizer

  /** `IndexError` is Python's own, raised when the parser steps past the end marker. */
  datatype ParseError = ValueError | IndexError | Lexical(cause: LexError)

  /** A value and the tokens left after it. */
  datatype Parsed<+T> = Parsed(value: T, rest: seq<Token>) | Refused(error: ParseError) {
    predicate IsFailure() { Refused? }

    function PropagateFailure<U>(): Parsed<U>
      requires Refused?
    {
      Refused(error)
    }

    function Extract(): (T, seq<Token>)
      requires Parsed?
    {
      (value, rest)
    }
  }

  // ----- tables

  function Precedence(op: string): Option<nat> {
    if op == "or" then Some(10)
    else if op == "and" then Some(20)
    else if op in ["=", "!=", "<>", "<", "<=", ">", ">=", "~="] then Some(30)
    else if op in ["+", "-", "&"] then Some(40)
    else if op in ["*", "/", "%"] then Some(50)
    else None
  }

  function Canonical(op: string): string {
    if op == "<>" then "!=" else if op == "~=" then "contains" else if op == "&" then "concat" else op
  }

  function CastFunction(name: string): Option<string> {
    if name == "boolean" then Some("bool")
    else if name == "integer" then Some("int32")
    else if name == "longinteger" then Some("int64")
    else if name in ["single", "singlereal"] then Some("float32")
    else if name == "real" then Some("float64")
    else if name in ["decimal", "currency"] then Some("decimal128_38_10")
    else if name == "string" then Some("string")
    else if name == "date" then Some("date32")
    else if name == "datetime" then Some("timestamp_us")
    else if name == "time" then Some("time64_us")
    else if name == "timespan" then Some("duration_us")
    else None
  }

  function CastTypeName(name: string): Option<string> {
    if name == "bigint" then Some("int64")
    else if name == "double" then Some("float64")
    else if name == "varchar" then Some("string")
    else if name == "timestamp" then Some("timestamp_us")
    else CastFunction(name)
  }

  // ----- the grammar

  predicate Matches(token: Token, lowered: string) { Lower(token.value) == lowered }

  predicate IsKeyword(token: Token, lowered: string) {
    token.kind == IdentifierTok && Matches(token, lowered)
  }

  function Expect(ts: seq<Token>, lowered: string): (r: Parsed<()>)
    ensures r.Parsed? ==> |r.rest| < |ts|
  {
    if ts == [] then Refused(IndexError)
    else if Matches(ts[0], lowered) then Parsed((), ts[1..])
    else Refused(ValueError)
  }

  predicate HasFloatMark(text: string) { '.' in text || 'e' in text || 'E' in text }

  function NumberLiteral(text: string, rest: seq<Token>, floats: FloatText): (r: Parsed<Node>)
    ensures r.Parsed? ==> r.rest == rest
  {
    if HasFloatMark(text) then Parsed(Literal("float64", FloatV(floats.read(text))), rest)
    else if text != "" && forall c :: c in text ==> IsDigit(c) then
      Parsed(Literal("int64", IntV(DecimalValue(text))), rest)
    else Refused(ValueError)
  }

  function KeywordLiteral(lowered: string): Node {
    if lowered == "null" then Literal("null", NoneV) else Literal("bool", BoolV(lowered == "true"))
  }

  function ParseExpr(ts: seq<Token>, minimum: nat, floats: FloatText): (r: Parsed<Node>)
    ensures r.Parsed? ==> |r.rest| < |ts|
    decreases |ts|, 3
  {
    var (left, rest) :- ParsePrefix(ts, floats);
    ParseLoop(left, rest, minimum, floats)
  }

  function ParseLoop(left: Node, ts: seq<Token>, minimum: nat, floats: FloatText): (r: Parsed<Node>)
    ensures r.Parsed? ==> |r.rest| <= |ts|
    decreases |ts|, 1
  {
    if ts == [] then Refused(IndexError)
    else
      var operator := Lower(ts[0].value);
      var precedence := Precedence(operator);
      if precedence.None? || precedence.value < minimum then Parsed(left, ts)
      else
        var (right, rest) :- ParseExpr(ts[1..], precedence.value + 1, floats);
        ParseLoop(Binary(Canonical(operator), left, right), rest, minimum, floats)
  }

  function ParsePrefix(ts: seq<Token>, floats: FloatText): (r: Parsed<Node>)
    ensures r.Parsed? ==> |r.rest| < |ts|
    decreases |ts|, 2
  {
    if ts == [] then Refused(IndexError)
    else
      var token, rest := ts[0], ts[1..];
      var lowered := Lower(token.value);
      if token.kind == OperatorTok && token.value in ["+", "-"] then
        var (operand, after) :- ParseExpr(rest, 60, floats);
        Parsed(Unary(if token.value == "+" then Positive else Negate, operand), after)
      else if token.kind == IdentifierTok && lowered == "not" then
        var (operand, after) :- ParseExpr(rest, 60, floats);
        Parsed(Unary(Not, operand), after)
      else if token.kind == ColumnTok then Parsed(Column(token.value), rest)
      else if token.kind == StringTok then Parsed(Literal("string", StringV(token.value)), rest)
      else if token.kind == NumberTok then NumberLiteral(token.value, rest, floats)
      else if token.kind == IdentifierTok then
        if lowered in ["null", "true", "false"] then Parsed(KeywordLiteral(lowered), rest)
        else if lowered == "case" then ParseCase([], rest, floats)
        else if rest == [] then Refused(IndexError)
        else if Matches(rest[0], "(") then ParseCall(lowered, rest[1..], floats)
        else Parsed(Column(token.value), rest)
      else if token.value == "(" then
        var (node, after) :- ParseExpr(rest, 0, floats);
        var (_, closed) :- Expect(after, ")");
        Parsed(node, closed)
      else Refused(ValueError)
  }

  function ParseCase(branches: seq<Branch>, ts: seq<Token>, floats: FloatText): (r: Parsed<Node>)
    ensures r.Parsed? ==> |r.rest| < |ts|
    decreases |ts|, 4
  {
    if ts == [] then Refused(IndexError)
    else if Matches(ts[0], "when") then
      var (condition, r1) :- ParseExpr(ts[1..], 0, floats);
      var (_, r2) :- Expect(r1, "then");
      var (value, r3) :- ParseExpr(r2, 0, floats);
      ParseCase(branches + [Branch(condition, value)], r3, floats)
    else
      var (otherwise, r1) :-
        if Matches(ts[0], "else") then ParseExpr(ts[1..], 0, floats)
        else Parsed(Literal("null", NoneV), ts);
      var (_, r2) :- Expect(r1, "end");
      if branches == [] then Refused(ValueError) else Parsed(Case(branches, otherwise), r2)
  }

  function ParseCall(lowered: string, ts: seq<Token>, floats: FloatText): (r: Parsed<Node>)
    ensures r.Parsed? ==> |r.rest| < |ts|
    decreases |ts|, 6
  {
    if lowered == "cast" then ParseCast(ts, floats)
    else
      var (arguments, rest) :- ParseArguments(ts, floats);
      ParseOver(CallNode(lowered, arguments), rest, floats)
  }

  function CallNode(lowered: string, arguments: seq<Node>): Node {
    if lowered == "if" && |arguments| == 3 then Case([Branch(arguments[0], arguments[1])], arguments[2])
    else if CastFunction(lowered).Some? && |arguments| == 1 then
      Cast(arguments[0], CastFunction(lowered).value)
    else Call(lowered, arguments)
  }

  function ParseCast(ts: seq<Token>, floats: FloatText): (r: Parsed<Node>)
    ensures r.Parsed? ==> |r.rest| < |ts|
    decreases |ts|, 4
  {
    var (expression, r1) :- ParseExpr(ts, 0, floats);
    if r1 == [] then Refused(IndexError)
    else if IsKeyword(r1[0], "as") then
      if r1[1..] == [] then Refused(IndexError)
      else
        var (_, r2) :- Expect(r1[2..], ")");
        CastTo(expression, Lower(r1[1].value), r2)
    else
      var (_, r2) :- Expect(r1, ",");
      var (target, r3) :- ParseExpr(r2, 0, floats);
      var (_, r4) :- Expect(r3, ")");
      if target.Literal? && target.dtype == "string" && target.value.StringV? then
        CastTo(expression, Lower(target.value.text), r4)
      else Refused(ValueError)
  }

  function CastTo(expression: Node, name: string, rest: seq<Token>): (r: Parsed<Node>)
    ensures r.Parsed? ==> r.rest == rest
  {
    match CastTypeName(name)
    case None => Refused(ValueError)
    case Some(target) => Parsed(Cast(expression, target), rest)
  }

  function ParseArguments(ts: seq<Token>, floats: FloatText): (r: Parsed<seq<Node>>)
    ensures r.Parsed? ==> |r.rest| < |ts|
    decreases |ts|, 5
  {
    if ts == [] then Refused(IndexError)
    else if Matches(ts[0], ")") then Parsed([], ts[1..])
    else ParseArgumentList([], ts, floats)
  }

  function ParseArgumentList(done: seq<Node>, ts: seq<Token>, floats: FloatText): (r: Parsed<seq<Node>>)
    ensures r.Parsed? ==> |r.rest| < |ts|
    decreases |ts|, 4
  {
    var (argument, r1) :- ParseExpr(ts, 0, floats);
    if r1 == [] then Refused(IndexError)
    else if Matches(r1[0], ")") then Parsed(done + [argument], r1[1..])
    else
      var (_, r2) :- Expect(r1, ",");
      ParseArgumentList(done + [argument], r2, floats)
  }

  function ParseOver(node: Node, ts: seq<Token>, floats: FloatText): (r: Parsed<Node>)
    ensures r.Parsed? ==> |r.rest| <= |ts|
    decreases |ts|, 6
  {
    if ts == [] then Refused(IndexError)
    else if !IsKeyword(ts[0], "over") then Parsed(node, ts)
    else
      var (_, r1) :- OpenWindow(ts[1..]);
      if r1 == [] then Refused(IndexError)
      else if Matches(r1[0], ")") then Parsed(Window(node, [], [], None), r1[1..])
      else
        var (items, r2) :- ParseWindowItems([], [], r1, floats);
        Parsed(Window(node, items.0, items.1, None), r2)
  }

  /** The opening parenthesis and an optional PARTITION BY. */
  function OpenWindow(ts: seq<Token>): (r: Parsed<()>)
    ensures r.Parsed? ==> |r.rest| < |ts|
  {
    var (_, rest) :- Expect(ts, "(");
    if rest == [] then Refused(IndexError)
    else if IsKeyword(rest[0], "partition") then Expect(rest[1..], "by")
    else Parsed((), rest)
  }

  /** Partition and order items of an OVER clause. An order item is followed by ")" or ","; after the
      comma another ORDER BY is expected, otherwise the next item counts as a partition. */
  function ParseWindowItems(
    partitions: seq<Node>, orders: seq<WindowOrder>, ts: seq<Token>, floats: FloatText)
    : (r: Parsed<(seq<Node>, seq<WindowOrder>)>)
    ensures r.Parsed? ==> |r.rest| < |ts|
    decreases |ts|, 5
  {
    if ts == [] then Refused(IndexError)
    else if IsKeyword(ts[0], "order") then
      var (order, r1) :- ParseOrder(ts[1..], floats);
      if r1 == [] then Refused(IndexError)
      else if Matches(r1[0], ",") then ParseWindowItems(partitions, orders + [order], r1[1..], floats)
      else
        var (_, r2) :- Expect(r1, ")");
        Parsed((partitions, orders + [order]), r2)
    else
      var (item, r1) :- ParseExpr(ts, 0, floats);
      if r1 == [] then Refused(IndexError)
      else if Matches(r1[0], ")") then Parsed((partitions + [item], orders), r1[1..])
      else if IsKeyword(r1[0], "order") then ParseWindowItems(partitions + [item], orders, r1, floats)
      else
        var (_, r2) :- Expect(r1, ",");
        ParseWindowItems(partitions + [item], orders, r2, floats)
  }

  function ParseOrder(ts: seq<Token>, floats: FloatText): (r: Parsed<WindowOrder>)
    ensures r.Parsed? ==> |r.rest| < |ts|
    decreases |ts|, 4
  {
    var (_, r1) :- Expect(ts, "by");
    var (expression, r2) :- ParseExpr(r1, 0, floats);
    if r2 == [] then Refused(IndexError)
    else
      var directed := IsKeyword(r2[0], "asc") || IsKeyword(r2[0], "desc");
      var direction := if directed then Lower(r2[0].value) else "asc";
      var r3 := if directed then r2[1..] else r2;
      if r3 == [] then Refused(IndexError)
      else if !IsKeyword(r3[0], "nulls") then Parsed(WindowOrder(expression, direction, "last"), r3)
      else if r3[1..] == [] then Refused(IndexError)
      else
        var nulls := Lower(r3[1].value);
        if nulls in ["first", "last"] then Parsed(WindowOrder(expression, direction, nulls), r3[2..])
        else Refused(ValueError)
  }

  function ParseTokens(ts: seq<Token>, floats: FloatText): Result<Node, ParseError> {
    match ParseExpr(ts, 0, floats)
    case Refused(error) => Failure(error)
    case Parsed(node, rest) =>
      if rest == [] then Failure(IndexError)
      else if rest[0].kind == EofTok then Success(node)
      else Failure(ValueError)
  }

  function ParseText(expression: string, floats: FloatText): Result<Node, ParseError> {
    match Lex(expression)
    case Failure(error) => Failure(Lexical(error))
    case Success(tokens) => ParseTokens(tokens, floats)
  }
}
