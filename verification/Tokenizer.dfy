/** `tokenize_expression` (src/spotfire_expr_normalizer/tokenizer.py). Token positions only feed error
    messages and are not kept. */
module Tokenizer {
  import opened Wrappers
  import opened Text

  datatype Kind = ColumnTok | StringTok | NumberTok | IdentifierTok | OperatorTok | PunctuationTok | EofTok

  datatype Token = Token(kind: Kind, value: string)

  datatype LexError = UnsupportedToken | UnclosedColumn | UnclosedString

  const EOF := Token(EofTok, "")

  /** Python's `isspace`: the separators below the blank count too. */
  predicate IsSpace(c: char) { IsWhiteSpace(c) || '\U{1C}' <= c <= '\U{1F}' }

  // ----- the specification: one token from the front of a text

  function WordRun(s: string): (n: nat)
    ensures n <= |s|
    ensures forall i :: 0 <= i < n ==> IsWord(s[i])
    ensures n < |s| ==> !IsWord(s[n])
  {
    if s == "" || !IsWord(s[0]) then 0 else 1 + WordRun(s[1..])
  }

  /** Length of `[eE][+-]?\d+` at the front, or 0. */
  function ExponentLength(s: string): (n: nat)
    ensures n <= |s|
  {
    if s == "" || (s[0] != 'e' && s[0] != 'E') then 0
    else
      var sign := if |s| > 1 && (s[1] == '+' || s[1] == '-') then 2 else 1;
      var digits := DigitRun(s[sign..]);
      if digits == 0 then 0 else sign + digits
  }

  /** Length of `\d+\.\d*|\.\d+|\d+` at the front, or 0. */
  function MantissaLength(s: string): (n: nat)
    ensures n <= |s|
  {
    var whole := DigitRun(s);
    if whole < |s| && s[whole] == '.' then
      var fraction := DigitRun(s[whole + 1..]);
      if whole + fraction == 0 then 0 else whole + 1 + fraction
    else whole
  }

  function NumberLength(s: string): (n: nat)
    ensures n <= |s|
  {
    var mantissa := MantissaLength(s);
    if mantissa == 0 then 0 else mantissa + ExponentLength(s[mantissa..])
  }

  /** The text up to an undoubled `close` with doubled ones halved, and the characters consumed. */
  function ReadDelimited(s: string, close: char): (r: Option<(string, nat)>)
    ensures r.Some? ==> 1 <= r.value.1 <= |s|
  {
    if s == "" then None
    else if s[0] == close then
      if |s| > 1 && s[1] == close then
        var (value, used) :- ReadDelimited(s[2..], close);
        Some(([close] + value, used + 2))
      else Some(("", 1))
    else
      var (value, used) :- ReadDelimited(s[1..], close);
      Some(([s[0]] + value, used + 1))
  }

  /** Characters up to and including the first newline, or all of them. */
  function LineLength(s: string): (n: nat)
    ensures n <= |s|
    ensures s != "" ==> n > 0
  {
    if s == "" then 0 else if s[0] == '\n' then 1 else 1 + LineLength(s[1..])
  }

  predicate IsTwoCharOperator(s: string) { s in [">=", "<=", "!=", "<>", "~="] }

  datatype Step = Skip(used: nat) | Emit(token: Token, used: nat) | Reject(error: LexError)

  function NextStep(s: string): (step: Step)
    requires s != ""
    ensures !step.Reject? ==> 1 <= step.used <= |s|
  {
    var c := s[0];
    if IsSpace(c) then Skip(1)
    else if |s| > 1 && s[..2] == "//" then Skip(LineLength(s))
    else if c == '[' then
      match ReadDelimited(s[1..], ']')
      case None => Reject(UnclosedColumn)
      case Some((value, used)) => Emit(Token(ColumnTok, value), used + 1)
    else if c == '\'' || c == '"' then
      match ReadDelimited(s[1..], c)
      case None => Reject(UnclosedString)
      case Some((value, used)) => Emit(Token(StringTok, value), used + 1)
    else if NumberLength(s) > 0 then Emit(Token(NumberTok, s[..NumberLength(s)]), NumberLength(s))
    else if IsWordStart(c) then Emit(Token(IdentifierTok, s[..WordRun(s)]), WordRun(s))
    else if |s| > 1 && IsTwoCharOperator(s[..2]) then Emit(Token(OperatorTok, s[..2]), 2)
    else if c in "()," then Emit(Token(PunctuationTok, [c]), 1)
    else if c in "+-*/%=<>&" then Emit(Token(OperatorTok, [c]), 1)
    else Reject(UnsupportedToken)
  }

  /** All tokens of a text, closed by the end marker. */
  function Lex(s: string): Result<seq<Token>, LexError>
    decreases |s|
  {
    if s == "" then Success([EOF])
    else
      match NextStep(s)
      case Reject(error) => Failure(error)
      case Skip(used) => Lex(s[used..])
      case Emit(token, used) => Prepend([token], Lex(s[used..]))
  }

  function Prepend(tokens: seq<Token>, r: Result<seq<Token>, LexError>): Result<seq<Token>, LexError> {
    match r
    case Success(rest) => Success(tokens + rest)
    case Failure(error) => Failure(error)
  }

  lemma PrependJoins(first: seq<Token>, second: seq<Token>, r: Result<seq<Token>, LexError>)
    ensures Prepend(first, Prepend(second, r)) == Prepend(first + second, r)
    ensures Prepend([], r) == r
  {
    if r.Success? {
      assert first + (second + r.value) == first + second + r.value;
      assert [] + r.value == r.value;
    }
  }

  // ----- the source's loops

  ghost function Shift(chars: string, offset: nat, r: Option<(string, nat)>): Option<(string, nat)> {
    match r
    case None => None
    case Some((value, used)) => Some((chars + value, offset + used))
  }

  lemma ShiftStep(chars: string, offset: nat, s: string, close: char, width: nat)
    requires s != ""
    requires width == if s[0] == close then 2 else 1
    requires s[0] == close ==> |s| > 1 && s[1] == close
    ensures Shift(chars, offset, ReadDelimited(s, close))
         == Shift(chars + [s[0]], offset + width, ReadDelimited(s[width..], close))
  {
    var inner := ReadDelimited(s[width..], close);
    if inner.Some? {
      assert chars + ([s[0]] + inner.value.0) == (chars + [s[0]]) + inner.value.0;
    }
  }

  lemma ShiftEnd(chars: string, offset: nat, s: string, close: char)
    requires s == "" || (s[0] == close && (|s| == 1 || s[1] != close))
    ensures Shift(chars, offset, ReadDelimited(s, close)) == if s == "" then None else Some((chars, offset + 1))
  {
    assert chars + "" == chars;
  }

  method ReadDelimitedText(expression: string, start: nat, close: char)
    returns (r: Option<(string, nat)>)
    requires start < |expression|
    ensures r == Shift("", start + 1, ReadDelimited(expression[start + 1..], close))
  {
    hide ReadDelimited;
    var chars: string := "";
    var index := start + 1;
    while index < |expression|
      invariant start < index <= |expression|
      invariant Shift("", start + 1, ReadDelimited(expression[start + 1..], close))
             == Shift(chars, index, ReadDelimited(expression[index..], close))
    {
      ghost var tail := expression[index..];
      var c := expression[index];
      if c == close {
        if index + 1 < |expression| && expression[index + 1] == close {
          ShiftStep(chars, index, tail, close, 2);
          assert tail[2..] == expression[index + 2..];
          chars := chars + [close];
          index := index + 2;
          continue;
        }
        ShiftEnd(chars, index, tail, close);
        return Some((chars, index + 1));
      }
      ShiftStep(chars, index, tail, close, 1);
      assert tail[1..] == expression[index + 1..];
      chars := chars + [c];
      index := index + 1;
    }
    ShiftEnd(chars, index, expression[index..], close);
    return None;
  }

  /** One turn of the tokenizer's loop: what stands at `index`, and how far it reaches. */
  method ReadStep(expression: string, index: nat) returns (step: Step)
    requires index < |expression|
    ensures step == NextStep(expression[index..])
  {
    var rest := expression[index..];
    var c := expression[index];
    if IsSpace(c) { return Skip(1); }
    if |rest| > 1 && rest[..2] == "//" { return Skip(LineLength(rest)); }
    if c == '[' || c == '\'' || c == '"' {
      var text := ReadDelimitedText(expression, index, if c == '[' then ']' else c);
      assert rest[1..] == expression[index + 1..];
      assert forall v: string :: "" + v == v;
      if text.None? { return Reject(if c == '[' then UnclosedColumn else UnclosedString); }
      var (value, next) := text.value;
      return Emit(Token(if c == '[' then ColumnTok else StringTok, value), next - index);
    }
    var number := NumberLength(rest);
    if number > 0 { return Emit(Token(NumberTok, rest[..number]), number); }
    if IsWordStart(c) { return Emit(Token(IdentifierTok, rest[..WordRun(rest)]), WordRun(rest)); }
    if |rest| > 1 && IsTwoCharOperator(rest[..2]) { return Emit(Token(OperatorTok, rest[..2]), 2); }
    if c in "+-*/%=<>&()," {
      return Emit(Token(if c in "()," then PunctuationTok else OperatorTok, [c]), 1);
    }
    return Reject(UnsupportedToken);
  }

  method TokenizeExpression(expression: string) returns (r: Result<seq<Token>, LexError>)
    ensures r == Lex(expression)
  {
    hide NextStep;
    var tokens: seq<Token> := [];
    var index := 0;
    assert expression[0..] == expression;
    PrependJoins([], [], Lex(expression));
    while index < |expression|
      invariant index <= |expression|
      invariant Lex(expression) == Prepend(tokens, Lex(expression[index..]))
    {
      var step := ReadStep(expression, index);
      if step.Reject? { return Failure(step.error); }
      assert expression[index..][step.used..] == expression[index + step.used..];
      if step.Emit? {
        PrependJoins(tokens, [step.token], Lex(expression[index + step.used..]));
        tokens := tokens + [step.token];
      }
      index := index + step.used;
    }
    return Success(tokens + [EOF]);
  }
}
