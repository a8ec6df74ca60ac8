/** Printing, tokenizing and parsing come back to the tree they started from. The proof follows the
    tree: its text and its tokens are written in front of a continuation, so every step peels one
    token off the front. */
module RoundTrip {
  import opened Wrappers
  import opened Text
  import opened Ast
  import opened Printer
  import opened Tokenizer
  import opened Grammar

  // ----- the fragment on which printer and parser agree

  const SYMBOL_OPERATORS := ["=", "!=", "<", "<=", ">", ">=", "+", "-", "*", "/", "%"]

  predicate PrintableOperator(op: string) {
    op in SYMBOL_OPERATORS || op in ["and", "or", "contains", "concat"]
  }

  predicate IsLowerName(name: string) {
    name != "" && IsWordStart(name[0])
    && forall c :: c in name ==> IsWord(c) && !('A' <= c <= 'Z')
  }

  predicate IsCallName(name: string, arity: nat) {
    IsLowerName(name)
    && name !in ["not", "null", "true", "false", "case", "cast"]
    && !(name == "if" && arity == 3)
    && !(CastFunction(name).Some? && arity == 1)
  }

  /** `match` looks at a token's text only, so a column or string `)` reads as the parenthesis. */
  predicate LooksClosed(node: Node) {
    node == Column(")") || node == Literal("string", StringV(")"))
  }

  /** The word an item starts with, when it starts with a function name. */
  predicate LeadsWith(node: Node, word: string) {
    (node.Call? && node.function_ == word)
    || (node.Window? && node.body.Call? && node.body.function_ == word)
  }

  predicate ReadsBack(bits: int, floats: FloatText) {
    var text := floats.show(bits);
    floats.read(text) == bits && HasFloatMark(text) && text != "" && NumberLength(text) == |text|
  }

  predicate PrintableLiteral(dtype: string, value: Value, floats: FloatText) {
    match value
    case NoneV => dtype == "null"
    case BoolV(_) => dtype == "bool"
    case IntV(n) => dtype == "int64" && n >= 0
    case FloatV(bits) => dtype == "float64" && ReadsBack(bits, floats)
    case StringV(_) => dtype == "string"
  }

  predicate CallLike(node: Node) {
    node.Call? || node.Cast? || (node.Case? && |node.branches| == 1)
  }

  predicate Printable(node: Node, floats: FloatText)
    decreases node, 0
  {
    match node
    case Column(name) => ']' !in name
    case Literal(dtype, value) => PrintableLiteral(dtype, value, floats)
    case Unary(_, operand) => Printable(operand, floats)
    case Binary(op, left, right) => PrintableOperator(op) && Printable(left, floats) && Printable(right, floats)
    case Call(name, arguments) =>
      IsCallName(name, |arguments|) && PrintableList(arguments, floats)
      && (arguments != [] ==> !LooksClosed(arguments[0]))
    case Case(branches, otherwise) =>
      branches != [] && PrintableBranches(branches, floats) && Printable(otherwise, floats)
      && (|branches| == 1 ==> !LooksClosed(branches[0].condition))
    case Cast(inner, target) =>
      target in ["bool", "int32", "int64", "float32", "float64", "string"]
      && Printable(inner, floats) && !LooksClosed(inner)
    case Window(body, partitions, orders, frame) =>
      orders == [] && frame == None && CallLike(body) && Printable(body, floats)
      && PrintableList(partitions, floats)
      && (partitions != [] ==> !LooksClosed(partitions[0]) && !LeadsWith(partitions[0], "partition"))
      && forall p :: p in partitions ==> !LeadsWith(p, "order")
    case Alias(_, _) => false
  }

  predicate PrintableList(items: seq<Node>, floats: FloatText)
    decreases items, 1
  {
    items == [] || (Printable(items[0], floats) && PrintableList(items[1..], floats))
  }

  predicate PrintableBranches(branches: seq<Branch>, floats: FloatText)
    decreases branches, 1
  {
    branches == [] || (PrintableBranch(branches[0], floats) && PrintableBranches(branches[1..], floats))
  }

  predicate PrintableBranch(branch: Branch, floats: FloatText)
    decreases branch, 1
  {
    Printable(branch.condition, floats) && Printable(branch.value, floats)
  }

  // ----- text in front of a continuation

  function TextThen(node: Node, floats: FloatText, rest: string): string
    decreases node, 0
  {
    match node
    case Column(name) => "[" + (name + ("]" + rest))
    case Literal(dtype, value) => LiteralText(dtype, value, floats) + rest
    case Unary(operator, operand) =>
      UnaryText(operator) + ("(" + TextThen(operand, floats, ")" + rest))
    case Binary(op, left, right) =>
      "(" + TextThen(left, floats, " " + (BinaryText(op) + (" " + TextThen(right, floats, ")" + rest))))
    case Call(name, arguments) => name + ("(" + ListTextThen(arguments, floats, ")" + rest))
    case Case(branches, otherwise) =>
      if |branches| == 1 then
        "If" + ("(" + BranchArgumentsTextThen(branches[0], floats, TextThen(otherwise, floats, ")" + rest)))
      else
        "CASE" + (" " + BranchesTextThen(branches, floats,
          "ELSE" + (" " + TextThen(otherwise, floats, " " + ("END" + rest)))))
    case Cast(inner, target) => CastText(target) + ("(" + TextThen(inner, floats, ")" + rest))
    case Window(body, partitions, _, _) =>
      TextThen(body, floats, " " + ("OVER" + (" " + ("(" + ListTextThen(partitions, floats, ")" + rest)))))
    case Alias(_, aliased) => TextThen(aliased, floats, rest)
  }

  function BranchArgumentsTextThen(branch: Branch, floats: FloatText, rest: string): string
    decreases branch, 1
  {
    TextThen(branch.condition, floats, "," + (" " + TextThen(branch.value, floats, "," + (" " + rest))))
  }

  function ListTextThen(items: seq<Node>, floats: FloatText, rest: string): string
    decreases items, 1
  {
    if items == [] then rest
    else if |items| == 1 then TextThen(items[0], floats, rest)
    else TextThen(items[0], floats, "," + (" " + ListTextThen(items[1..], floats, rest)))
  }

  function BranchesTextThen(branches: seq<Branch>, floats: FloatText, rest: string): string
    decreases branches, 1
  {
    if branches == [] then rest
    else BranchTextThen(branches[0], floats, BranchesTextThen(branches[1..], floats, rest))
  }

  function BranchTextThen(branch: Branch, floats: FloatText, rest: string): string
    decreases branch, 1
  {
    "WHEN" + (" " + TextThen(branch.condition, floats,
      " " + ("THEN" + (" " + TextThen(branch.value, floats, " " + rest)))))
  }

  lemma {:induction false} RenderThen(node: Node, floats: FloatText, rest: string)
    ensures Render(node, floats) + rest == TextThen(node, floats, rest)
    decreases node, 0
  {
    match node
    case Column(name) =>
    case Literal(dtype, value) =>
    case Unary(operator, operand) => RenderThen(operand, floats, ")" + rest);
    case Binary(op, left, right) =>
      var tail := TextThen(right, floats, ")" + rest);
      RenderThen(right, floats, ")" + rest);
      RenderThen(left, floats, " " + (BinaryText(op) + (" " + tail)));
      BinaryParts(Render(left, floats), BinaryText(op), Render(right, floats), rest);
    case Call(name, arguments) => RenderListThen(arguments, floats, ")" + rest);
    case Case(branches, otherwise) =>
      if |branches| == 1 {
        RenderThen(otherwise, floats, ")" + rest);
        RenderBranchArgumentsThen(branches[0], floats, TextThen(otherwise, floats, ")" + rest));
        IfParts(Render(branches[0].condition, floats), Render(branches[0].value, floats), Render(otherwise, floats), rest);
      } else {
        RenderThen(otherwise, floats, " " + ("END" + rest));
        var tail := "ELSE" + (" " + TextThen(otherwise, floats, " " + ("END" + rest)));
        RenderBranchesThen(branches, floats, tail);
        CaseParts(RenderBranches(branches, floats), Render(otherwise, floats), rest);
      }
    case Cast(inner, target) => RenderThen(inner, floats, ")" + rest);
    case Window(body, partitions, _, _) =>
      RenderListThen(partitions, floats, ")" + rest);
      RenderThen(body, floats, " " + ("OVER" + (" " + ("(" + ListTextThen(partitions, floats, ")" + rest)))));
      WindowParts(Render(body, floats), RenderList(partitions, floats), rest);
    case Alias(_, aliased) => RenderThen(aliased, floats, rest);
  }

  lemma BinaryParts(left: string, op: string, right: string, rest: string)
    ensures "(" + left + " " + op + " " + right + ")" + rest
         == "(" + (left + (" " + (op + (" " + (right + (")" + rest))))))
  {
  }

  lemma IfParts(condition: string, value: string, otherwise: string, rest: string)
    ensures "If(" + condition + ", " + value + ", " + otherwise + ")" + rest
         == "If" + ("(" + (condition + ", " + value + ", " + (otherwise + (")" + rest))))
  {
  }

  lemma CaseParts(branches: string, otherwise: string, rest: string)
    ensures "CASE " + branches + "ELSE " + otherwise + " END" + rest
         == "CASE" + (" " + (branches + ("ELSE" + (" " + (otherwise + (" " + ("END" + rest)))))))
  {
  }

  lemma WindowParts(body: string, partitions: string, rest: string)
    ensures body + " OVER (" + partitions + ")" + rest
         == body + (" " + ("OVER" + (" " + ("(" + (partitions + (")" + rest))))))
  {
  }

  lemma {:induction false} RenderBranchArgumentsThen(branch: Branch, floats: FloatText, rest: string)
    ensures Render(branch.condition, floats) + ", " + Render(branch.value, floats) + ", " + rest
         == BranchArgumentsTextThen(branch, floats, rest)
    decreases branch, 1
  {
    var tail := TextThen(branch.value, floats, "," + (" " + rest));
    RenderThen(branch.value, floats, "," + (" " + rest));
    RenderThen(branch.condition, floats, "," + (" " + tail));
  }

  lemma {:induction false} RenderListThen(items: seq<Node>, floats: FloatText, rest: string)
    ensures RenderList(items, floats) + rest == ListTextThen(items, floats, rest)
    decreases items, 1
  {
    if items == [] {
    } else if |items| == 1 {
      RenderThen(items[0], floats, rest);
    } else {
      var tail := ListTextThen(items[1..], floats, rest);
      RenderListThen(items[1..], floats, rest);
      RenderThen(items[0], floats, "," + (" " + tail));
    }
  }

  lemma {:induction false} RenderBranchesThen(branches: seq<Branch>, floats: FloatText, rest: string)
    ensures RenderBranches(branches, floats) + rest == BranchesTextThen(branches, floats, rest)
    decreases branches, 1
  {
    hide RenderBranch, BranchTextThen;
    if branches != [] {
      RenderBranchesThen(branches[1..], floats, rest);
      RenderBranchThen(branches[0], floats, BranchesTextThen(branches[1..], floats, rest));
      assert RenderBranches(branches, floats) + rest
          == RenderBranch(branches[0], floats) + (RenderBranches(branches[1..], floats) + rest);
    }
  }

  lemma {:induction false} RenderBranchThen(branch: Branch, floats: FloatText, rest: string)
    ensures RenderBranch(branch, floats) + rest == BranchTextThen(branch, floats, rest)
    decreases branch, 1
  {
    var tail := TextThen(branch.value, floats, " " + rest);
    RenderThen(branch.value, floats, " " + rest);
    RenderThen(branch.condition, floats, " " + ("THEN" + (" " + tail)));
  }

  // ----- tokens in front of a continuation

  function Word(text: string): Token { Token(IdentifierTok, text) }

  function Mark(text: string): Token { Token(PunctuationTok, text) }

  function LiteralToken(dtype: string, value: Value, floats: FloatText): Token {
    match value
    case StringV(text) => Token(StringTok, text)
    case NoneV => Word("Null")
    case BoolV(flag) => Word(if flag then "True" else "False")
    case _ => Token(NumberTok, LiteralText(dtype, value, floats))
  }

  function UnaryToken(operator: UnaryOp): Token {
    match operator
    case Negate => Token(OperatorTok, "-")
    case Positive => Token(OperatorTok, "+")
    case Not => Word("Not")
  }

  function OperatorToken(op: string): Token {
    if op in ["and", "or"] then Word(op) else Token(OperatorTok, BinaryText(op))
  }

  function TokensThen(node: Node, floats: FloatText, rest: seq<Token>): seq<Token>
    decreases node, 0
  {
    match node
    case Column(name) => [Token(ColumnTok, name)] + rest
    case Literal(dtype, value) => [LiteralToken(dtype, value, floats)] + rest
    case Unary(operator, operand) =>
      [UnaryToken(operator)] + ([Mark("(")] + TokensThen(operand, floats, [Mark(")")] + rest))
    case Binary(op, left, right) =>
      [Mark("(")] + TokensThen(left, floats, [OperatorToken(op)] + TokensThen(right, floats, [Mark(")")] + rest))
    case Call(name, arguments) =>
      [Word(name)] + ([Mark("(")] + ListTokensThen(arguments, floats, [Mark(")")] + rest))
    case Case(branches, otherwise) =>
      if |branches| == 1 then
        [Word("If")] + ([Mark("(")]
          + BranchArgumentsThen(branches[0], floats, TokensThen(otherwise, floats, [Mark(")")] + rest)))
      else
        [Word("CASE")] + BranchesTokensThen(branches, floats,
          [Word("ELSE")] + TokensThen(otherwise, floats, [Word("END")] + rest))
    case Cast(inner, target) =>
      [Word(CastText(target))] + ([Mark("(")] + TokensThen(inner, floats, [Mark(")")] + rest))
    case Window(body, partitions, _, _) =>
      TokensThen(body, floats,
        [Word("OVER")] + ([Mark("(")] + ListTokensThen(partitions, floats, [Mark(")")] + rest)))
    case Alias(_, aliased) => TokensThen(aliased, floats, rest)
  }

  function BranchArgumentsThen(branch: Branch, floats: FloatText, rest: seq<Token>): seq<Token>
    decreases branch, 1
  {
    TokensThen(branch.condition, floats, [Mark(",")] + TokensThen(branch.value, floats, [Mark(",")] + rest))
  }

  function ListTokensThen(items: seq<Node>, floats: FloatText, rest: seq<Token>): seq<Token>
    decreases items, 1
  {
    if items == [] then rest
    else if |items| == 1 then TokensThen(items[0], floats, rest)
    else TokensThen(items[0], floats, [Mark(",")] + ListTokensThen(items[1..], floats, rest))
  }

  function BranchesTokensThen(branches: seq<Branch>, floats: FloatText, rest: seq<Token>): seq<Token>
    decreases branches, 1
  {
    if branches == [] then rest
    else BranchTokensThen(branches[0], floats, BranchesTokensThen(branches[1..], floats, rest))
  }

  function BranchTokensThen(branch: Branch, floats: FloatText, rest: seq<Token>): seq<Token>
    decreases branch, 1
  {
    [Word("WHEN")] + TokensThen(branch.condition, floats, [Word("THEN")] + TokensThen(branch.value, floats, rest))
  }

  // ----- the tokenizer reads one token and goes on with the continuation

  /** What follows a complete node in printed text. */
  predicate Delimited(rest: string) { rest == "" || rest[0] in " ,)" }

  lemma LexSpace(rest: string, ts: seq<Token>)
    requires Lex(rest) == Success(ts)
    ensures Lex(" " + rest) == Success(ts)
  {
    assert (" " + rest)[1..] == rest;
  }

  /** A comment reaches to the end of its line and leaves no token. */
  lemma CommentIsSkipped(line: string, rest: string)
    requires '\n' !in line && (rest == "" || rest[0] == '\n')
    ensures Lex("//" + line + rest) == Lex(rest)
  {
    hide ReadDelimited, NumberLength, WordRun;
    var s := "//" + line + rest;
    var n := |line| + 2 + if rest == "" then 0 else 1;
    assert s[..2] == "//" && s[0] == '/';
    LineEnds("//" + line, rest);
    assert NextStep(s) == Skip(n);
    assert s[n..] == if rest == "" then "" else rest[1..];
    if rest != "" { assert NextStep(rest) == Skip(1); }
  }

  lemma {:induction false} LineEnds(line: string, rest: string)
    requires '\n' !in line && (rest == "" || rest[0] == '\n')
    ensures LineLength(line + rest) == |line| + if rest == "" then 0 else 1
  {
    if line == "" {
      assert line + rest == rest;
    } else {
      assert (line + rest)[1..] == line[1..] + rest;
      LineEnds(line[1..], rest);
    }
  }

  lemma NotANumber(s: string)
    requires s != "" && !IsDigit(s[0]) && s[0] != '.'
    ensures NumberLength(s) == 0
  {
  }

  lemma TwoCharOperators(s: string)
    requires |s| > 1
    ensures IsTwoCharOperator(s[..2])
        <==> (s[1] == '=' && s[0] in ">~<!") || (s[0] == '<' && s[1] == '>')
    ensures s[..2] == "//" <==> s[0] == '/' && s[1] == '/'
  {
    var two := s[..2];
    assert two == [s[0], s[1]];
    assert IsTwoCharOperator(two) <==> two == ">=" || two == "<=" || two == "!=" || two == "<>" || two == "~=";
  }

  lemma LexMark(c: char, rest: string, ts: seq<Token>)
    requires c in "()," && Lex(rest) == Success(ts)
    ensures Lex([c] + rest) == Success([Mark([c])] + ts)
  {
    hide NextStep;
    var s := [c] + rest;
    MarkStep(s);
    assert s[1..] == rest;
  }

  lemma MarkStep(s: string)
    requires s != "" && s[0] in "(),"
    ensures NextStep(s) == Emit(Mark([s[0]]), 1)
  {
    hide NumberLength;
    assert s[0] == '(' || s[0] == ')' || s[0] == ',';
    NotANumber(s);
    if |s| > 1 { TwoCharOperators(s); }
  }

  lemma LexOperator(op: string, rest: string, ts: seq<Token>)
    requires SymbolShape(op)
    requires rest != "" && rest[0] in " (" && Lex(rest) == Success(ts)
    ensures Lex(op + rest) == Success([Token(OperatorTok, op)] + ts)
  {
    var s := op + rest;
    assert s[0] == op[0] && s[1] == if |op| == 1 then rest[0] else op[1];
    OperatorStep(s, |op|);
    assert s[..|op|] == op && s[|op|..] == rest;
  }

  lemma OperatorStep(s: string, width: nat)
    requires |s| > 1
    requires width == 1 ==> s[0] in "+-*/%=<>&" && s[1] in " ("
    requires width == 2 ==> s[1] == '=' && s[0] in ">~<!"
    requires width == 1 || width == 2
    ensures NextStep(s) == Emit(Token(OperatorTok, s[..width]), width)
  {
    hide NextStep;
    if width == 1 { OneCharStep(s); } else { TwoCharStep(s); }
  }

  lemma OneCharStep(s: string)
    requires |s| > 1 && s[0] in "+-*/%=<>&" && s[1] in " ("
    ensures NextStep(s) == Emit(Token(OperatorTok, s[..1]), 1)
  {
    hide NumberLength, IsTwoCharOperator, ReadDelimited, LineLength, WordRun;
    NotANumber(s);
    TwoCharOperators(s);
    assert s[..1] == [s[0]];
  }

  lemma TwoCharStep(s: string)
    requires |s| > 1 && s[1] == '=' && s[0] in ">~<!"
    ensures NextStep(s) == Emit(Token(OperatorTok, s[..2]), 2)
  {
    hide NumberLength, IsTwoCharOperator, ReadDelimited, LineLength, WordRun;
    NotANumber(s);
    TwoCharOperators(s);
  }

  predicate SymbolShape(op: string) {
    (|op| == 1 && op[0] in "+-*/%=<>&") || (|op| == 2 && op[1] == '=' && op[0] in ">~<!")
  }

  lemma {:induction false} RunOfWord(word: string, rest: string)
    requires forall c :: c in word ==> IsWord(c)
    requires rest == "" || !IsWord(rest[0])
    ensures WordRun(word + rest) == |word|
  {
    if word == "" {
      assert word + rest == rest;
    } else {
      assert (word + rest)[1..] == word[1..] + rest;
      RunOfWord(word[1..], rest);
    }
  }

  lemma LexWord(word: string, rest: string, ts: seq<Token>)
    requires word != "" && IsWordStart(word[0]) && forall c :: c in word ==> IsWord(c)
    requires rest == "" || !IsWord(rest[0])
    requires Lex(rest) == Success(ts)
    ensures Lex(word + rest) == Success([Word(word)] + ts)
  {
    var s := word + rest;
    RunOfWord(word, rest);
    assert s[..|word|] == word && s[|word|..] == rest;
    assert s[0] == word[0];
    if |s| > 1 { assert s[..2][0] == s[0]; }
    assert NextStep(s) == Emit(Word(word), |word|);
  }

  lemma {:induction false} ReadPlain(name: string, close: char, rest: string)
    requires close !in name
    requires rest == "" || rest[0] != close
    ensures ReadDelimited(name + ([close] + rest), close) == Some((name, |name| + 1))
  {
    var s := name + ([close] + rest);
    if name == "" {
      assert s == [close] + rest;
    } else {
      assert s[1..] == name[1..] + ([close] + rest);
      ReadPlain(name[1..], close, rest);
      assert [name[0]] + name[1..] == name;
    }
  }

  lemma LexColumn(name: string, rest: string, ts: seq<Token>)
    requires ']' !in name
    requires Delimited(rest) && Lex(rest) == Success(ts)
    ensures Lex("[" + (name + ("]" + rest))) == Success([Token(ColumnTok, name)] + ts)
  {
    var s := "[" + (name + ("]" + rest));
    ReadPlain(name, ']', rest);
    assert s[1..] == name + ("]" + rest);
    assert s[..2][0] == '[';
    assert NextStep(s) == Emit(Token(ColumnTok, name), |name| + 2);
    assert s[|name| + 2..] == rest;
  }

  lemma {:induction false} ReadEscaped(text: string, rest: string)
    requires rest == "" || rest[0] != '"'
    ensures ReadDelimited(EscapeQuotes(text) + ("\"" + rest), '"')
         == Some((text, |EscapeQuotes(text)| + 1))
  {
    var s := EscapeQuotes(text) + ("\"" + rest);
    if text == "" {
      assert s == "\"" + rest;
    } else {
      var head := if text[0] == '"' then 2 else 1;
      assert s[head..] == EscapeQuotes(text[1..]) + ("\"" + rest);
      ReadEscaped(text[1..], rest);
      assert s[0] == text[0];
      assert [text[0]] + text[1..] == text;
    }
  }

  /** Single quotes make the same strings. */
  lemma LexSingleQuoted(text: string, rest: string)
    requires '\'' !in text && (rest == "" || rest[0] != '\'')
    ensures Lex("'" + (text + ("'" + rest))) == Prepend([Token(StringTok, text)], Lex(rest))
  {
    hide NumberLength, WordRun;
    var s := "'" + (text + ("'" + rest));
    ReadPlain(text, '\'', rest);
    assert s[1..] == text + ("'" + rest);
    assert s[..2][0] == '\'';
    assert NextStep(s) == Emit(Token(StringTok, text), |text| + 2);
    assert s[|text| + 2..] == rest;
  }

  lemma LexString(text: string, rest: string, ts: seq<Token>)
    requires Delimited(rest) && Lex(rest) == Success(ts)
    ensures Lex("\"" + EscapeQuotes(text) + "\"" + rest) == Success([Token(StringTok, text)] + ts)
  {
    hide EscapeQuotes, NumberLength, WordRun;
    var s := "\"" + EscapeQuotes(text) + "\"" + rest;
    ReadEscaped(text, rest);
    assert s == "\"" + (EscapeQuotes(text) + ("\"" + rest));
    assert s[1..] == EscapeQuotes(text) + ("\"" + rest);
    assert s[0] == '"' && s[..2][0] == '"';
    assert NextStep(s) == Emit(Token(StringTok, text), |EscapeQuotes(text)| + 2);
    assert s[|EscapeQuotes(text)| + 2..] == rest;
  }

  lemma MantissaBeforeDelimiter(s: string, rest: string)
    requires MantissaLength(s) > 0 && (MantissaLength(s) == |s| ==> Delimited(rest))
    ensures MantissaLength(s + rest) == MantissaLength(s)
  {
    var t := s + rest;
    var whole := DigitRun(s);
    DigitRunStops(s, rest);
    if whole < |s| && s[whole] == '.' {
      assert t[whole + 1..] == s[whole + 1..] + rest;
      DigitRunStops(s[whole + 1..], rest);
    }
  }

  lemma ExponentBeforeDelimiter(e: string, rest: string)
    requires ExponentLength(e) == |e| && Delimited(rest)
    ensures ExponentLength(e + rest) == |e|
  {
    if e == "" {
      assert e + rest == rest;
    } else {
      var sign := if |e| > 1 && (e[1] == '+' || e[1] == '-') then 2 else 1;
      DigitRunStops(e[sign..], rest);
      assert (e + rest)[sign..] == e[sign..] + rest;
    }
  }

  /** A number that fills a text still ends there when a delimiter follows. */
  lemma NumberBeforeDelimiter(s: string, rest: string)
    requires s != "" && NumberLength(s) == |s| && Delimited(rest)
    ensures NumberLength(s + rest) == |s|
  {
    var mantissa := MantissaLength(s);
    MantissaBeforeDelimiter(s, rest);
    ExponentBeforeDelimiter(s[mantissa..], rest);
    assert (s + rest)[mantissa..] == s[mantissa..] + rest;
  }

  lemma DigitsAreANumber(s: string)
    requires forall c :: c in s ==> IsDigit(c)
    ensures NumberLength(s) == |s|
  {
    DigitsRun(s);
  }

  lemma LexNumber(text: string, rest: string, ts: seq<Token>)
    requires text != "" && NumberLength(text) == |text|
    requires Delimited(rest) && Lex(rest) == Success(ts)
    ensures Lex(text + rest) == Success([Token(NumberTok, text)] + ts)
  {
    hide NextStep, NumberLength;
    var s := text + rest;
    NumberBeforeDelimiter(text, rest);
    assert s[..|text|] == text && s[|text|..] == rest;
    NumberStep(s);
  }

  lemma NumberStep(s: string)
    requires s != "" && NumberLength(s) > 0
    ensures NextStep(s) == Emit(Token(NumberTok, s[..NumberLength(s)]), NumberLength(s))
  {
    NumberStarts(s);
    hide NumberLength, IsWordStart;
    if |s| > 1 { assert s[..2][0] == s[0]; }
  }

  lemma NumberStarts(s: string)
    requires s != "" && NumberLength(s) > 0
    ensures IsDigit(s[0]) || s[0] == '.'
  {
    if !IsDigit(s[0]) && s[0] != '.' { NotANumber(s); }
  }

  // ----- the text of a printable tree lexes to its tokens

  lemma CastTextIsAWord(target: string)
    ensures CastText(target) != "" && IsWordStart(CastText(target)[0])
    ensures forall c :: c in CastText(target) ==> IsWord(c)
  {
  }

  lemma LexLiteral(dtype: string, value: Value, floats: FloatText, rest: string, ts: seq<Token>)
    requires PrintableLiteral(dtype, value, floats)
    requires Delimited(rest) && Lex(rest) == Success(ts)
    ensures Lex(LiteralText(dtype, value, floats) + rest) == Success([LiteralToken(dtype, value, floats)] + ts)
  {
    match value
    case NoneV => LexWord("Null", rest, ts);
    case BoolV(flag) => LexWord(if flag then "True" else "False", rest, ts);
    case StringV(text) => LexString(text, rest, ts);
    case FloatV(bits) => LexNumber(floats.show(bits), rest, ts);
    case IntV(n) =>
      DecimalReadsBack(n);
      DigitsAreANumber(Decimal(n));
      LexNumber(Decimal(n), rest, ts);
  }

  lemma {:induction false} LexThen(node: Node, floats: FloatText, rest: string, ts: seq<Token>)
    requires Printable(node, floats) && Delimited(rest) && Lex(rest) == Success(ts)
    ensures Lex(TextThen(node, floats, rest)) == Success(TokensThen(node, floats, ts))
    decreases node, 2
  {
    match node
    case Column(name) => LexColumn(name, rest, ts);
    case Literal(dtype, value) => LexLiteral(dtype, value, floats, rest, ts);
    case Unary(operator, operand) => LexUnary(node, floats, rest, ts);
    case Binary(op, left, right) => LexBinary(node, floats, rest, ts);
    case Call(name, arguments) => LexCall(node, floats, rest, ts);
    case Case(branches, otherwise) =>
      if |branches| == 1 { LexIf(node, floats, rest, ts); } else { LexCase(node, floats, rest, ts); }
    case Cast(inner, target) =>
      LexParenthesised(inner, floats, rest, ts);
      CastTextIsAWord(target);
      LexWord(CastText(target), "(" + TextThen(inner, floats, ")" + rest),
        [Mark("(")] + TokensThen(inner, floats, [Mark(")")] + ts));
    case Window(body, partitions, _, _) => LexWindow(node, floats, rest, ts);
  }

  lemma {:induction false} LexParenthesised(node: Node, floats: FloatText, rest: string, ts: seq<Token>)
    requires Printable(node, floats) && Lex(rest) == Success(ts)
    ensures Lex("(" + TextThen(node, floats, ")" + rest))
         == Success([Mark("(")] + TokensThen(node, floats, [Mark(")")] + ts))
    decreases node, 3
  {
    LexMark(')', rest, ts);
    LexThen(node, floats, ")" + rest, [Mark(")")] + ts);
    LexMark('(', TextThen(node, floats, ")" + rest), TokensThen(node, floats, [Mark(")")] + ts));
  }

  lemma LexUnaryOperator(operator: UnaryOp, rest: string, ts: seq<Token>)
    requires rest != "" && rest[0] == '(' && Lex(rest) == Success(ts)
    ensures Lex(UnaryText(operator) + rest) == Success([UnaryToken(operator)] + ts)
  {
    match operator
    case Not =>
      LexSpace(rest, ts);
      LexWord("Not", " " + rest, ts);
      assert "Not" + (" " + rest) == "Not " + rest;
    case Negate => LexOperator("-", rest, ts);
    case Positive => LexOperator("+", rest, ts);
  }

  lemma {:induction false} LexUnary(node: Node, floats: FloatText, rest: string, ts: seq<Token>)
    requires node.Unary? && Printable(node, floats) && Lex(rest) == Success(ts)
    ensures Lex(TextThen(node, floats, rest)) == Success(TokensThen(node, floats, ts))
    decreases node, 0
  {
    hide Lex;
    var Unary(operator, operand) := node;
    LexParenthesised(operand, floats, rest, ts);
    var text := "(" + TextThen(operand, floats, ")" + rest);
    var tokens := [Mark("(")] + TokensThen(operand, floats, [Mark(")")] + ts);
    LexUnaryOperator(operator, text, tokens);
  }

  lemma {:induction false} LexCall(node: Node, floats: FloatText, rest: string, ts: seq<Token>)
    requires node.Call? && IsCallName(node.function_, |node.arguments|) && PrintableList(node.arguments, floats)
    requires Lex(rest) == Success(ts)
    ensures Lex(TextThen(node, floats, rest)) == Success(TokensThen(node, floats, ts))
    decreases node, 0
  {
    hide Lex;
    var Call(name, arguments) := node;
    LexMark(')', rest, ts);
    LexListThen(arguments, floats, ")" + rest, [Mark(")")] + ts);
    var text := ListTextThen(arguments, floats, ")" + rest);
    var tokens := ListTokensThen(arguments, floats, [Mark(")")] + ts);
    LexMark('(', text, tokens);
    LexWord(name, "(" + text, [Mark("(")] + tokens);
  }

  lemma {:induction false} LexBinary(node: Node, floats: FloatText, rest: string, ts: seq<Token>)
    requires node.Binary? && Printable(node, floats) && Lex(rest) == Success(ts)
    ensures Lex(TextThen(node, floats, rest)) == Success(TokensThen(node, floats, ts))
    decreases node, 0
  {
    hide Lex;
    var Binary(op, left, right) := node;
    LexMark(')', rest, ts);
    LexThen(right, floats, ")" + rest, [Mark(")")] + ts);
    var text := TextThen(right, floats, ")" + rest);
    var tokens := TokensThen(right, floats, [Mark(")")] + ts);
    LexSpace(text, tokens);
    if op in ["and", "or"] {
      LexWord(op, " " + text, tokens);
    } else {
      LexOperator(BinaryText(op), " " + text, tokens);
    }
    var after := BinaryText(op) + (" " + text);
    LexSpace(after, [OperatorToken(op)] + tokens);
    LexThen(left, floats, " " + after, [OperatorToken(op)] + tokens);
    LexMark('(', TextThen(left, floats, " " + after), TokensThen(left, floats, [OperatorToken(op)] + tokens));
  }

  lemma {:induction false} LexIf(node: Node, floats: FloatText, rest: string, ts: seq<Token>)
    requires node.Case? && |node.branches| == 1 && Printable(node, floats) && Lex(rest) == Success(ts)
    ensures Lex(TextThen(node, floats, rest)) == Success(TokensThen(node, floats, ts))
    decreases node, 0
  {
    hide Lex;
    var Case(branches, otherwise) := node;
    LexMark(')', rest, ts);
    LexThen(otherwise, floats, ")" + rest, [Mark(")")] + ts);
    var text := TextThen(otherwise, floats, ")" + rest);
    var tokens := TokensThen(otherwise, floats, [Mark(")")] + ts);
    LexBranchArguments(branches[0], floats, text, tokens);
    var text' := BranchArgumentsTextThen(branches[0], floats, text);
    var tokens' := BranchArgumentsThen(branches[0], floats, tokens);
    LexMark('(', text', tokens');
    LexWord("If", "(" + text', [Mark("(")] + tokens');
  }

  lemma {:induction false} LexBranchArguments(branch: Branch, floats: FloatText, rest: string, ts: seq<Token>)
    requires PrintableBranch(branch, floats) && Lex(rest) == Success(ts)
    ensures Lex(BranchArgumentsTextThen(branch, floats, rest)) == Success(BranchArgumentsThen(branch, floats, ts))
    decreases branch, 1
  {
    hide Lex;
    LexSpace(rest, ts);
    LexMark(',', " " + rest, ts);
    LexThen(branch.value, floats, "," + (" " + rest), [Mark(",")] + ts);
    var text := TextThen(branch.value, floats, "," + (" " + rest));
    var tokens := TokensThen(branch.value, floats, [Mark(",")] + ts);
    LexSpace(text, tokens);
    LexMark(',', " " + text, tokens);
    LexThen(branch.condition, floats, "," + (" " + text), [Mark(",")] + tokens);
  }

  lemma {:induction false} LexCase(node: Node, floats: FloatText, rest: string, ts: seq<Token>)
    requires node.Case? && |node.branches| > 1 && Printable(node, floats)
    requires Delimited(rest) && Lex(rest) == Success(ts)
    ensures Lex(TextThen(node, floats, rest)) == Success(TokensThen(node, floats, ts))
    decreases node, 0
  {
    hide Lex;
    var Case(branches, otherwise) := node;
    LexWord("END", rest, ts);
    LexSpace("END" + rest, [Word("END")] + ts);
    LexThen(otherwise, floats, " " + ("END" + rest), [Word("END")] + ts);
    var text := TextThen(otherwise, floats, " " + ("END" + rest));
    var tokens := TokensThen(otherwise, floats, [Word("END")] + ts);
    LexSpace(text, tokens);
    LexWord("ELSE", " " + text, tokens);
    LexBranchesThen(branches, floats, "ELSE" + (" " + text), [Word("ELSE")] + tokens);
    var text' := BranchesTextThen(branches, floats, "ELSE" + (" " + text));
    var tokens' := BranchesTokensThen(branches, floats, [Word("ELSE")] + tokens);
    LexSpace(text', tokens');
    LexWord("CASE", " " + text', tokens');
  }

  lemma {:induction false} LexBranchesThen(branches: seq<Branch>, floats: FloatText, rest: string, ts: seq<Token>)
    requires PrintableBranches(branches, floats) && Lex(rest) == Success(ts)
    ensures Lex(BranchesTextThen(branches, floats, rest)) == Success(BranchesTokensThen(branches, floats, ts))
    decreases branches, 1
  {
    if branches != [] {
      LexBranchesThen(branches[1..], floats, rest, ts);
      LexBranchThen(branches[0], floats,
        BranchesTextThen(branches[1..], floats, rest), BranchesTokensThen(branches[1..], floats, ts));
    }
  }

  lemma {:induction false} LexBranchThen(branch: Branch, floats: FloatText, rest: string, ts: seq<Token>)
    requires PrintableBranch(branch, floats) && Lex(rest) == Success(ts)
    ensures Lex(BranchTextThen(branch, floats, rest)) == Success(BranchTokensThen(branch, floats, ts))
    decreases branch, 1
  {
    hide Lex;
    LexSpace(rest, ts);
    LexThen(branch.value, floats, " " + rest, ts);
    var text := TextThen(branch.value, floats, " " + rest);
    var tokens := TokensThen(branch.value, floats, ts);
    LexSpace(text, tokens);
    LexWord("THEN", " " + text, tokens);
    var text' := "THEN" + (" " + text);
    LexSpace(text', [Word("THEN")] + tokens);
    LexThen(branch.condition, floats, " " + text', [Word("THEN")] + tokens);
    var text'' := TextThen(branch.condition, floats, " " + text');
    var tokens'' := TokensThen(branch.condition, floats, [Word("THEN")] + tokens);
    LexSpace(text'', tokens'');
    LexWord("WHEN", " " + text'', tokens'');
  }

  lemma {:induction false} LexWindow(node: Node, floats: FloatText, rest: string, ts: seq<Token>)
    requires node.Window? && Printable(node, floats) && Lex(rest) == Success(ts)
    ensures Lex(TextThen(node, floats, rest)) == Success(TokensThen(node, floats, ts))
    decreases node, 0
  {
    hide Lex;
    var Window(body, partitions, _, _) := node;
    LexMark(')', rest, ts);
    LexListThen(partitions, floats, ")" + rest, [Mark(")")] + ts);
    var text := ListTextThen(partitions, floats, ")" + rest);
    var tokens := ListTokensThen(partitions, floats, [Mark(")")] + ts);
    LexMark('(', text, tokens);
    LexSpace("(" + text, [Mark("(")] + tokens);
    LexWord("OVER", " " + ("(" + text), [Mark("(")] + tokens);
    var text' := "OVER" + (" " + ("(" + text));
    LexSpace(text', [Word("OVER")] + ([Mark("(")] + tokens));
    LexThen(body, floats, " " + text', [Word("OVER")] + ([Mark("(")] + tokens));
  }

  lemma {:induction false} LexListThen(items: seq<Node>, floats: FloatText, rest: string, ts: seq<Token>)
    requires PrintableList(items, floats) && Delimited(rest) && Lex(rest) == Success(ts)
    ensures Lex(ListTextThen(items, floats, rest)) == Success(ListTokensThen(items, floats, ts))
    decreases items, 1
  {
    if items == [] {
    } else if |items| == 1 {
      LexThen(items[0], floats, rest, ts);
    } else {
      LexListThen(items[1..], floats, rest, ts);
      var text := ListTextThen(items[1..], floats, rest);
      var tokens := ListTokensThen(items[1..], floats, ts);
      LexSpace(text, tokens);
      LexMark(',', " " + text, tokens);
      LexThen(items[0], floats, "," + (" " + text), [Mark(",")] + tokens);
    }
  }

  // ----- the parser reads the tokens of a printable tree and goes on with the continuation

  lemma LowerOfLowerName(name: string)
    requires IsLowerName(name)
    ensures Lower(name) == name
  {
    assert forall i :: 0 <= i < |name| ==> name[i] in name;
  }

  lemma Keywords()
    ensures Lower("Not") == "not" && Lower("Null") == "null" && Lower("True") == "true" && Lower("False") == "false"
    ensures Lower("If") == "if" && Lower("OVER") == "over"
    ensures Lower("(") == "(" && Lower(")") == ")" && Lower(",") == "," && Lower("") == ""
  {
    assert Lower("Not") == "not" && Lower("Null") == "null" && Lower("True") == "true" && Lower("False") == "false";
    assert Lower("If") == "if" && Lower("OVER") == "over";
    assert Lower("(") == "(" && Lower(")") == ")" && Lower(",") == "," && Lower("") == "";
  }

  lemma CaseKeywords()
    ensures Lower("CASE") == "case" && Lower("WHEN") == "when" && Lower("THEN") == "then"
    ensures Lower("ELSE") == "else" && Lower("END") == "end"
  {
    assert Lower("CASE") == "case" && Lower("WHEN") == "when" && Lower("THEN") == "then";
    assert Lower("ELSE") == "else" && Lower("END") == "end";
  }

  lemma CastNames(target: string)
    requires target in ["bool", "int32", "int64", "float32", "float64", "string"]
    ensures CastFunction(Lower(CastText(target))) == Some(target)
    ensures Lower(CastText(target)) !in ["not", "null", "true", "false", "case", "cast", "if"]
  {
    assert Lower("Boolean") == "boolean" && Lower("Integer") == "integer" && Lower("LongInteger") == "longinteger";
    assert Lower("SingleReal") == "singlereal" && Lower("Real") == "real" && Lower("String") == "string";
  }

  /** A token after which a complete expression ends, whatever binding strength is asked for. */
  predicate Ends(token: Token) {
    Precedence(Lower(token.value)).None? && !IsKeyword(token, "over")
  }

  lemma Terminators()
    ensures Ends(Mark(")")) && Ends(Mark(",")) && Ends(EOF)
    ensures Ends(Word("THEN")) && Ends(Word("WHEN")) && Ends(Word("ELSE")) && Ends(Word("END"))
  {
    Keywords();
    CaseKeywords();
  }

  lemma OperatorReads(op: string)
    requires PrintableOperator(op)
    ensures var token := OperatorToken(op);
      Precedence(Lower(token.value)).Some? && Canonical(Lower(token.value)) == op && !IsKeyword(token, "over")
      && Precedence(Lower(token.value)).value < 60
  {
    var text := BinaryText(op);
    assert Lower(text) == text;
  }

  /** The first token of an item decides how the parser's lookahead treats it. */
  function Head(node: Node, floats: FloatText): Token {
    match node
    case Column(name) => Token(ColumnTok, name)
    case Literal(dtype, value) => LiteralToken(dtype, value, floats)
    case Unary(operator, _) => UnaryToken(operator)
    case Binary(_, _, _) => Mark("(")
    case Call(name, _) => Word(name)
    case Case(branches, _) => Word(if |branches| == 1 then "If" else "CASE")
    case Cast(_, target) => Word(CastText(target))
    case Window(body, _, _, _) => Head(body, floats)
    case Alias(_, aliased) => Head(aliased, floats)
  }

  lemma {:induction false} HeadLeads(node: Node, floats: FloatText, rest: seq<Token>)
    ensures TokensThen(node, floats, rest) != [] && TokensThen(node, floats, rest)[0] == Head(node, floats)
  {
    match node
    case Window(body, partitions, _, _) =>
      HeadLeads(body, floats, [Word("OVER")] + ([Mark("(")] + ListTokensThen(partitions, floats, [Mark(")")] + rest)));
    case Alias(_, aliased) => HeadLeads(aliased, floats, rest);
    case _ =>
  }

  lemma {:induction false} HeadOpens(node: Node, floats: FloatText)
    requires Printable(node, floats)
    ensures !LooksClosed(node) ==> !Matches(Head(node, floats), ")")
    ensures !LeadsWith(node, "order") ==> !IsKeyword(Head(node, floats), "order")
    ensures !LeadsWith(node, "partition") ==> !IsKeyword(Head(node, floats), "partition")
  {
    Keywords();
    CaseKeywords();
    var head := Head(node, floats);
    if |head.value| == |")"| { assert Matches(head, ")") ==> head.value[0] == Lower(head.value)[0] == ')'; }
    match node
    case Call(name, _) => LowerOfLowerName(name);
    case Cast(_, target) => CastNames(target);
    case Window(body, _, _, _) =>
      HeadOpens(body, floats);
    case Literal(dtype, value) =>
      if value.IntV? { DecimalReadsBack(value.number); }
    case _ =>
  }

  lemma PrefixReadsLiteral(dtype: string, value: Value, floats: FloatText, rest: seq<Token>)
    requires PrintableLiteral(dtype, value, floats)
    ensures ParsePrefix([LiteralToken(dtype, value, floats)] + rest, floats) == Parsed(Literal(dtype, value), rest)
  {
    Keywords();
    var ts := [LiteralToken(dtype, value, floats)] + rest;
    assert ts[1..] == rest;
    if value.IntV? { DecimalReadsBack(value.number); }
  }

  lemma NamedCallReads(name: string, inside: seq<Token>, arguments: seq<Node>, rest: seq<Token>, floats: FloatText)
    requires Lower(name) !in ["not", "null", "true", "false", "case", "cast"]
    requires ParseArguments(inside, floats) == Parsed(arguments, rest)
    ensures ParsePrefix([Word(name)] + ([Mark("(")] + inside), floats)
         == ParseOver(CallNode(Lower(name), arguments), rest, floats)
  {
    hide ParseArguments, ParseOver, CallNode, ParseExpr;
    Keywords();
    var ts := [Word(name)] + ([Mark("(")] + inside);
    assert ts[1..] == [Mark("(")] + inside && ts[1..][1..] == inside;
    assert Matches(ts[1..][0], "(");
  }

  /** A call, cast function or `If` up to its closing parenthesis; what comes next may be OVER. */
  lemma {:induction false} CallReads(node: Node, floats: FloatText, rest: seq<Token>)
    requires Printable(node, floats) && CallLike(node)
    ensures ParsePrefix(TokensThen(node, floats, rest), floats) == ParseOver(node, rest, floats)
    decreases node, 1
  {
    hide ParsePrefix, ParseOver, ParseArguments, CastFunction;
    match node
    case Call(name, arguments) =>
      LowerOfLowerName(name);
      ArgumentsRead(arguments, floats, rest);
      NamedCallReads(name, ListTokensThen(arguments, floats, [Mark(")")] + rest), arguments, rest, floats);
    case Cast(inner, target) =>
      CastNames(target);
      CastArgumentReads(inner, floats, rest);
      NamedCallReads(CastText(target), TokensThen(inner, floats, [Mark(")")] + rest), [inner], rest, floats);
    case Case(branches, otherwise) =>
      Keywords();
      assert branches == [branches[0]];
      IfArgumentsRead(node, branches[0], otherwise, floats, rest);
      var arguments := [branches[0].condition, branches[0].value, otherwise];
      NamedCallReads("If",
        BranchArgumentsThen(branches[0], floats, TokensThen(otherwise, floats, [Mark(")")] + rest)),
        arguments, rest, floats);
      assert CallNode("if", arguments) == node;
  }

  /** One turn of the argument loop. */
  lemma ArgumentTurn(done: seq<Node>, argument: Node, ts: seq<Token>, tail: seq<Token>, floats: FloatText)
    ensures ParseExpr(ts, 0, floats) == Parsed(argument, [Mark(")")] + tail)
        ==> ParseArgumentList(done, ts, floats) == Parsed(done + [argument], tail)
    ensures ParseExpr(ts, 0, floats) == Parsed(argument, [Mark(",")] + tail)
        ==> ParseArgumentList(done, ts, floats) == ParseArgumentList(done + [argument], tail, floats)
  {
    Keywords();
    assert ([Mark(")")] + tail)[1..] == tail;
    assert ([Mark(",")] + tail)[1..] == tail;
  }

  lemma ArgumentsOpen(first: Node, ts: seq<Token>, floats: FloatText)
    requires Printable(first, floats) && !LooksClosed(first)
    requires ts != [] && ts[0] == Head(first, floats)
    ensures ParseArguments(ts, floats) == ParseArgumentList([], ts, floats)
  {
    HeadOpens(first, floats);
  }

  lemma {:induction false} ArgumentsRead(items: seq<Node>, floats: FloatText, rest: seq<Token>)
    requires PrintableList(items, floats) && (items != [] ==> !LooksClosed(items[0]))
    ensures ParseArguments(ListTokensThen(items, floats, [Mark(")")] + rest), floats) == Parsed(items, rest)
    decreases items, 3
  {
    var tokens := ListTokensThen(items, floats, [Mark(")")] + rest);
    if items == [] {
      Keywords();
      assert tokens[1..] == rest;
    } else {
      ArgumentListReads([], items, floats, rest);
      ListHead(items, floats, [Mark(")")] + rest);
      ArgumentsOpen(items[0], tokens, floats);
      assert [] + items == items;
    }
  }

  lemma {:induction false} CastArgumentReads(inner: Node, floats: FloatText, rest: seq<Token>)
    requires Printable(inner, floats) && !LooksClosed(inner)
    ensures ParseArguments(TokensThen(inner, floats, [Mark(")")] + rest), floats) == Parsed([inner], rest)
    decreases inner, 5
  {
    Terminators();
    var tokens := TokensThen(inner, floats, [Mark(")")] + rest);
    ExprReads(inner, floats, [Mark(")")] + rest, 0);
    HeadLeads(inner, floats, [Mark(")")] + rest);
    ArgumentsOpen(inner, tokens, floats);
    ArgumentTurn([], inner, tokens, rest, floats);
    assert [] + [inner] == [inner];
  }

  lemma {:induction false} IfArgumentsRead(node: Node, branch: Branch, otherwise: Node, floats: FloatText, rest: seq<Token>)
    requires node == Case([branch], otherwise) && Printable(node, floats)
    ensures ParseArguments(
              BranchArgumentsThen(branch, floats, TokensThen(otherwise, floats, [Mark(")")] + rest)), floats)
         == Parsed([branch.condition, branch.value, otherwise], rest)
    decreases node, 0
  {
    hide ParseExpr, ParseArgumentList, ParseArguments, TokensThen, Ends, Head, LooksClosed;
    assert node.branches[0] == branch && branch in node.branches;
    assert PrintableBranch(branch, floats);
    Terminators();
    var third := TokensThen(otherwise, floats, [Mark(")")] + rest);
    var second := TokensThen(branch.value, floats, [Mark(",")] + third);
    var first := TokensThen(branch.condition, floats, [Mark(",")] + second);
    ExprReads(branch.condition, floats, [Mark(",")] + second, 0);
    ExprReads(branch.value, floats, [Mark(",")] + third, 0);
    ExprReads(otherwise, floats, [Mark(")")] + rest, 0);
    HeadLeads(branch.condition, floats, [Mark(",")] + second);
    ArgumentsOpen(branch.condition, first, floats);
    ArgumentTurn([], branch.condition, first, second, floats);
    ArgumentTurn([branch.condition], branch.value, second, third, floats);
    ArgumentTurn([branch.condition, branch.value], otherwise, third, rest, floats);
    assert [] + [branch.condition] == [branch.condition];
    assert [branch.condition] + [branch.value] == [branch.condition, branch.value];
    assert [branch.condition, branch.value] + [otherwise] == [branch.condition, branch.value, otherwise];
    assert BranchArgumentsThen(branch, floats, third) == first;
  }

  lemma ListHead(items: seq<Node>, floats: FloatText, rest: seq<Token>)
    requires items != []
    ensures ListTokensThen(items, floats, rest) != [] && ListTokensThen(items, floats, rest)[0] == Head(items[0], floats)
  {
    if |items| == 1 {
      HeadLeads(items[0], floats, rest);
    } else {
      HeadLeads(items[0], floats, [Mark(",")] + ListTokensThen(items[1..], floats, rest));
    }
  }

  lemma {:induction false} ArgumentListReads(done: seq<Node>, items: seq<Node>, floats: FloatText, rest: seq<Token>)
    requires items != [] && PrintableList(items, floats)
    ensures ParseArgumentList(done, ListTokensThen(items, floats, [Mark(")")] + rest), floats)
         == Parsed(done + items, rest)
    decreases items, 2
  {
    hide ParseExpr, ParseArgumentList;
    Terminators();
    var tokens := ListTokensThen(items, floats, [Mark(")")] + rest);
    if |items| == 1 {
      ExprReads(items[0], floats, [Mark(")")] + rest, 0);
      ArgumentTurn(done, items[0], tokens, rest, floats);
      assert done + [items[0]] == done + items;
    } else {
      var tail := ListTokensThen(items[1..], floats, [Mark(")")] + rest);
      ExprReads(items[0], floats, [Mark(",")] + tail, 0);
      ArgumentTurn(done, items[0], tokens, tail, floats);
      ArgumentListReads(done + [items[0]], items[1..], floats, rest);
      assert done + [items[0]] + items[1..] == done + items;
    }
  }

  lemma {:induction false} ExprReads(node: Node, floats: FloatText, rest: seq<Token>, minimum: nat)
    requires Printable(node, floats) && rest != [] && Ends(rest[0])
    ensures ParseExpr(TokensThen(node, floats, rest), minimum, floats) == Parsed(node, rest)
    decreases node, 4
  {
    PrefixReads(node, floats, rest);
  }

  lemma {:induction false} PrefixReads(node: Node, floats: FloatText, rest: seq<Token>)
    requires Printable(node, floats) && rest != [] && !IsKeyword(rest[0], "over")
    ensures ParsePrefix(TokensThen(node, floats, rest), floats) == Parsed(node, rest)
    decreases node, 3
  {
    match node
    case Column(name) => assert ([Token(ColumnTok, name)] + rest)[1..] == rest;
    case Literal(dtype, value) => PrefixReadsLiteral(dtype, value, floats, rest);
    case Unary(_, _) => UnaryReads(node, floats, rest);
    case Binary(_, _, _) => BinaryReads(node, floats, rest);
    case Window(_, _, _, _) => WindowReads(node, floats, rest);
    case Case(branches, _) =>
      if |branches| == 1 { CallReads(node, floats, rest); } else { CaseReads(node, floats, rest); }
    case Call(_, _) => CallReads(node, floats, rest);
    case Cast(_, _) => CallReads(node, floats, rest);
    case Alias(_, _) =>
  }

  /** Reading a parenthesised expression once the inside is known. */
  lemma ParenthesesRead(node: Node, inside: seq<Token>, rest: seq<Token>, floats: FloatText)
    requires ParseExpr(inside, 0, floats) == Parsed(node, [Mark(")")] + rest)
    ensures ParsePrefix([Mark("(")] + inside, floats) == Parsed(node, rest)
  {
    Keywords();
    var ts := [Mark("(")] + inside;
    assert ts[1..] == inside;
    assert ([Mark(")")] + rest)[1..] == rest;
  }

  lemma {:induction false} UnaryReads(node: Node, floats: FloatText, rest: seq<Token>)
    requires node.Unary? && Printable(node, floats) && rest != [] && !IsKeyword(rest[0], "over")
    ensures ParsePrefix(TokensThen(node, floats, rest), floats) == Parsed(node, rest)
    decreases node, 0
  {
    hide ParsePrefix, ParseExpr;
    ParenthesisedReads(node.operand, floats, rest);
    UnaryOperatorReads(node.operator, node.operand,
      [Mark("(")] + TokensThen(node.operand, floats, [Mark(")")] + rest), rest, floats);
  }

  lemma {:induction false} ParenthesisedReads(node: Node, floats: FloatText, rest: seq<Token>)
    requires Printable(node, floats)
    ensures ParsePrefix([Mark("(")] + TokensThen(node, floats, [Mark(")")] + rest), floats) == Parsed(node, rest)
    decreases node, 5
  {
    Terminators();
    ExprReads(node, floats, [Mark(")")] + rest, 0);
    ParenthesesRead(node, TokensThen(node, floats, [Mark(")")] + rest), rest, floats);
  }

  lemma UnaryOperatorReads(operator: UnaryOp, operand: Node, inside: seq<Token>, rest: seq<Token>, floats: FloatText)
    requires ParsePrefix(inside, floats) == Parsed(operand, rest)
    requires rest != [] && (Precedence(Lower(rest[0].value)).None? || Precedence(Lower(rest[0].value)).value < 60)
    ensures ParsePrefix([UnaryToken(operator)] + inside, floats) == Parsed(Unary(operator, operand), rest)
  {
    Keywords();
    assert ([UnaryToken(operator)] + inside)[1..] == inside;
    assert Lower("+") == "+" && Lower("-") == "-";
    assert ParseExpr(inside, 60, floats) == Parsed(operand, rest);
  }

  lemma {:induction false} BinaryReads(node: Node, floats: FloatText, rest: seq<Token>)
    requires node.Binary? && Printable(node, floats)
    ensures ParsePrefix(TokensThen(node, floats, rest), floats) == Parsed(node, rest)
    decreases node, 0
  {
    hide ParsePrefix, TokensThen;
    Keywords();
    Terminators();
    var Binary(op, left, right) := node;
    var second := TokensThen(right, floats, [Mark(")")] + rest);
    var first := TokensThen(left, floats, [OperatorToken(op)] + second);
    OperatorReads(op);
    PrefixReads(left, floats, [OperatorToken(op)] + second);
    ExprReads(right, floats, [Mark(")")] + rest, Precedence(Lower(OperatorToken(op).value)).value + 1);
    assert ([OperatorToken(op)] + second)[1..] == second;
    assert ParseExpr(first, 0, floats) == ParseLoop(left, [OperatorToken(op)] + second, 0, floats);
    assert ParseLoop(left, [OperatorToken(op)] + second, 0, floats)
        == ParseLoop(node, [Mark(")")] + rest, 0, floats);
    ParenthesesRead(node, first, rest, floats);
    assert TokensThen(node, floats, rest) == [Mark("(")] + first by { BinaryTokens(node, floats, rest); }
  }

  lemma BinaryTokens(node: Node, floats: FloatText, rest: seq<Token>)
    requires node.Binary?
    ensures TokensThen(node, floats, rest)
         == [Mark("(")] + TokensThen(node.left, floats,
              [OperatorToken(node.op)] + TokensThen(node.right, floats, [Mark(")")] + rest))
  {
  }

  // OVER

  lemma {:induction false} WindowReads(node: Node, floats: FloatText, rest: seq<Token>)
    requires node.Window? && Printable(node, floats)
    ensures ParsePrefix(TokensThen(node, floats, rest), floats) == Parsed(node, rest)
    decreases node, 0
  {
    hide ParsePrefix, ParseOver;
    var Window(body, partitions, _, _) := node;
    var inside := ListTokensThen(partitions, floats, [Mark(")")] + rest);
    CallReads(body, floats, [Word("OVER")] + ([Mark("(")] + inside));
    if partitions == [] {
      EmptyOverReads(body, rest, floats);
    } else {
      WindowItemsRead([], partitions, floats, rest);
      assert [] + partitions == partitions;
      ListHead(partitions, floats, [Mark(")")] + rest);
      OverReads(body, partitions, inside, rest, floats);
    }
  }

  lemma EmptyOverReads(body: Node, rest: seq<Token>, floats: FloatText)
    ensures ParseOver(body, [Word("OVER")] + ([Mark("(")] + ([Mark(")")] + rest)), floats)
         == Parsed(Window(body, [], [], None), rest)
  {
    Keywords();
    var inside := [Mark(")")] + rest;
    var ts := [Word("OVER")] + ([Mark("(")] + inside);
    assert ts[1..] == [Mark("(")] + inside && ts[1..][1..] == inside && inside[1..] == rest;
  }

  lemma OverReads(body: Node, partitions: seq<Node>, inside: seq<Token>, rest: seq<Token>, floats: FloatText)
    requires partitions != [] && Printable(partitions[0], floats)
    requires !LooksClosed(partitions[0]) && !LeadsWith(partitions[0], "partition")
    requires inside != [] && inside[0] == Head(partitions[0], floats)
    requires ParseWindowItems([], [], inside, floats) == Parsed((partitions, []), rest)
    ensures ParseOver(body, [Word("OVER")] + ([Mark("(")] + inside), floats)
         == Parsed(Window(body, partitions, [], None), rest)
  {
    hide ParseWindowItems;
    Keywords();
    HeadOpens(partitions[0], floats);
    var ts := [Word("OVER")] + ([Mark("(")] + inside);
    assert ts[1..] == [Mark("(")] + inside && ts[1..][1..] == inside;
    assert OpenWindow(ts[1..]) == Parsed((), inside);
  }

  /** One turn of the OVER loop that reads a partition. */
  lemma WindowTurn(done: seq<Node>, item: Node, ts: seq<Token>, tail: seq<Token>, floats: FloatText)
    requires ts != [] && !IsKeyword(ts[0], "order")
    ensures ParseExpr(ts, 0, floats) == Parsed(item, [Mark(")")] + tail)
        ==> ParseWindowItems(done, [], ts, floats) == Parsed((done + [item], []), tail)
    ensures ParseExpr(ts, 0, floats) == Parsed(item, [Mark(",")] + tail)
        ==> ParseWindowItems(done, [], ts, floats) == ParseWindowItems(done + [item], [], tail, floats)
  {
    hide ParseExpr;
    Keywords();
    assert ([Mark(")")] + tail)[1..] == tail;
    assert ([Mark(",")] + tail)[1..] == tail;
  }

  lemma {:induction false} WindowItemsRead(done: seq<Node>, items: seq<Node>, floats: FloatText, rest: seq<Token>)
    requires items != [] && PrintableList(items, floats)
    requires forall p :: p in items ==> !LeadsWith(p, "order")
    ensures ParseWindowItems(done, [], ListTokensThen(items, floats, [Mark(")")] + rest), floats)
         == Parsed((done + items, []), rest)
    decreases items, 2
  {
    hide ParseExpr, ParseWindowItems, TokensThen, Ends, Head;
    Terminators();
    var tokens := ListTokensThen(items, floats, [Mark(")")] + rest);
    ListHead(items, floats, [Mark(")")] + rest);
    HeadOpens(items[0], floats);
    if |items| == 1 {
      ExprReads(items[0], floats, [Mark(")")] + rest, 0);
      WindowTurn(done, items[0], tokens, rest, floats);
      assert done + [items[0]] == done + items;
    } else {
      var tail := ListTokensThen(items[1..], floats, [Mark(")")] + rest);
      ExprReads(items[0], floats, [Mark(",")] + tail, 0);
      WindowTurn(done, items[0], tokens, tail, floats);
      WindowItemsRead(done + [items[0]], items[1..], floats, rest);
      assert done + [items[0]] + items[1..] == done + items;
    }
  }

  // CASE

  lemma {:induction false} CaseReads(node: Node, floats: FloatText, rest: seq<Token>)
    requires node.Case? && |node.branches| > 1 && Printable(node, floats)
    ensures ParsePrefix(TokensThen(node, floats, rest), floats) == Parsed(node, rest)
    decreases node, 0
  {
    hide ParseExpr, ParseCase, Ends, Precedence;
    CaseKeywords();
    var Case(branches, otherwise) := node;
    var tail := TokensThen(otherwise, floats, [Word("END")] + rest);
    Terminators();
    ExprReads(otherwise, floats, [Word("END")] + rest, 0);
    ElseEnds(branches, otherwise, tail, rest, floats);
    BranchesRead([], branches, [Word("ELSE")] + tail, floats);
    assert [] + branches == branches;
    var inside := BranchesTokensThen(branches, floats, [Word("ELSE")] + tail);
    assert ([Word("CASE")] + inside)[1..] == inside;
  }

  /** One turn of the WHEN loop. */
  lemma WhenTurn(
    done: seq<Branch>, branch: Branch, ts1: seq<Token>, ts2: seq<Token>, tail: seq<Token>, floats: FloatText)
    requires ParseExpr(ts1, 0, floats) == Parsed(branch.condition, [Word("THEN")] + ts2)
    requires ParseExpr(ts2, 0, floats) == Parsed(branch.value, tail)
    ensures ParseCase(done, [Word("WHEN")] + ts1, floats) == ParseCase(done + [branch], tail, floats)
  {
    hide ParseExpr;
    CaseKeywords();
    assert ([Word("WHEN")] + ts1)[1..] == ts1;
    assert ([Word("THEN")] + ts2)[1..] == ts2;
    assert Branch(branch.condition, branch.value) == branch;
  }

  lemma ElseEnds(branches: seq<Branch>, otherwise: Node, ts: seq<Token>, rest: seq<Token>, floats: FloatText)
    requires branches != [] && ParseExpr(ts, 0, floats) == Parsed(otherwise, [Word("END")] + rest)
    ensures ParseCase(branches, [Word("ELSE")] + ts, floats) == Parsed(Case(branches, otherwise), rest)
  {
    hide ParseExpr;
    CaseKeywords();
    assert ([Word("ELSE")] + ts)[1..] == ts;
    assert ([Word("END")] + rest)[1..] == rest;
  }

  lemma {:induction false} BranchesRead(
    done: seq<Branch>, branches: seq<Branch>, tail: seq<Token>, floats: FloatText)
    requires PrintableBranches(branches, floats) && tail != [] && Ends(tail[0])
    ensures ParseCase(done, BranchesTokensThen(branches, floats, tail), floats)
         == ParseCase(done + branches, tail, floats)
    decreases branches, 2
  {
    hide ParseExpr, ParseCase, TokensThen, Ends;
    if branches == [] {
      assert done + branches == done;
    } else {
      var rest := BranchesTokensThen(branches[1..], floats, tail);
      Terminators();
      if |branches| > 1 {
        assert rest == BranchTokensThen(branches[1], floats, BranchesTokensThen(branches[1..][1..], floats, tail));
        assert rest[0] == Word("WHEN");
      }
      BranchReads(done, branches[0], rest, floats);
      BranchesRead(done + [branches[0]], branches[1..], tail, floats);
      assert done + [branches[0]] + branches[1..] == done + branches;
    }
  }

  lemma {:induction false} BranchReads(done: seq<Branch>, branch: Branch, tail: seq<Token>, floats: FloatText)
    requires PrintableBranch(branch, floats) && tail != [] && Ends(tail[0])
    ensures ParseCase(done, BranchTokensThen(branch, floats, tail), floats)
         == ParseCase(done + [branch], tail, floats)
    decreases branch, 1
  {
    hide ParseExpr, ParseCase, TokensThen, Ends;
    Terminators();
    var ts2 := TokensThen(branch.value, floats, tail);
    var ts1 := TokensThen(branch.condition, floats, [Word("THEN")] + ts2);
    ExprReads(branch.value, floats, tail, 0);
    ExprReads(branch.condition, floats, [Word("THEN")] + ts2, 0);
    WhenTurn(done, branch, ts1, ts2, tail, floats);
  }

  // ----- the round trip

  lemma TextRoundTrip(node: Node, floats: FloatText)
    requires Printable(node, floats)
    ensures Lex(Render(node, floats)) == Success(TokensThen(node, floats, [EOF]))
    ensures ParseExpr(TokensThen(node, floats, [EOF]), 0, floats) == Parsed(node, [EOF])
    ensures ParseText(Render(node, floats), floats) == Success(node)
  {
    hide ParseExpr, TokensThen, TextThen, Render, Ends;
    RenderThen(node, floats, "");
    assert Render(node, floats) + "" == Render(node, floats);
    LexThen(node, floats, "", [EOF]);
    Terminators();
    ExprReads(node, floats, [EOF], 0);
  }

  // ----- where the fragment ends: the two conditions the printer does not enforce are exact

  lemma {:induction false} BracketsCost(s: string, close: char)
    ensures var r := ReadDelimited(s, close);
      r.Some? ==> r.value.1 > |r.value.0| && (close in r.value.0 ==> r.value.1 > |r.value.0| + 1)
  {
    if s == "" {
    } else if s[0] == close {
      if |s| > 1 && s[1] == close { BracketsCost(s[2..], close); }
    } else {
      BracketsCost(s[1..], close);
    }
  }

  lemma {:induction false} LoopKeepsOrCombines(left: Node, ts: seq<Token>, minimum: nat, floats: FloatText)
    ensures var r := ParseLoop(left, ts, minimum, floats); r.Parsed? ==> r.value == left || r.value.Binary?
    decreases |ts|
  {
    hide ParseExpr;
    if ts != [] {
      var operator := Lower(ts[0].value);
      var precedence := Precedence(operator);
      if precedence.Some? && precedence.value >= minimum {
        var right := ParseExpr(ts[1..], precedence.value + 1, floats);
        if right.Parsed? {
          LoopKeepsOrCombines(Binary(Canonical(operator), left, right.value), right.rest, minimum, floats);
        }
      }
    }
  }

  lemma ColumnRoundTripsExactly(name: string, floats: FloatText)
    ensures ParseText(Render(Column(name), floats), floats) == Success(Column(name)) <==> ']' !in name
  {
    if ']' !in name {
      TextRoundTrip(Column(name), floats);
    } else if ParseText(Render(Column(name), floats), floats) == Success(Column(name)) {
      var s := "[" + name + "]";
      var read := ReadDelimited(s[1..], ']');
      BracketsCost(s[1..], ']');
      assert s[..2][0] == '[';
      assert Lex(s).Success? && read.Some?;
      var ts := Lex(s).value;
      assert ts[0] == Token(ColumnTok, read.value.0);
      assert ParsePrefix(ts, floats) == Parsed(Column(read.value.0), ts[1..]);
      LoopKeepsOrCombines(Column(read.value.0), ts[1..], 0, floats);
      assert false;
    }
  }

  lemma CallRoundTripsExactly(name: string, arguments: seq<Node>, floats: FloatText)
    requires IsCallName(name, |arguments|) && arguments != [] && PrintableList(arguments, floats)
    ensures ParseText(Render(Call(name, arguments), floats), floats) == Success(Call(name, arguments))
        <==> !LooksClosed(arguments[0])
  {
    var node := Call(name, arguments);
    if LooksClosed(arguments[0]) {
      RenderThen(node, floats, "");
      assert Render(node, floats) + "" == Render(node, floats);
      LexCall(node, floats, "", [EOF]);
      ClosedCallFails(name, arguments, floats);
    } else {
      TextRoundTrip(node, floats);
    }
  }

  lemma ClosedCallFails(name: string, arguments: seq<Node>, floats: FloatText)
    requires IsCallName(name, |arguments|) && arguments != [] && LooksClosed(arguments[0])
    ensures ParseTokens(TokensThen(Call(name, arguments), floats, [EOF]), floats) == Failure(ValueError)
  {
    hide ParseTokens, IsCallName;
    Terminators();
    var tail := if |arguments| == 1 then [Mark(")")] + [EOF]
                else [Mark(",")] + ListTokensThen(arguments[1..], floats, [Mark(")")] + [EOF]);
    assert ListTokensThen(arguments, floats, [Mark(")")] + [EOF]) == [Head(arguments[0], floats)] + tail;
    ClosedHeadFails(name, |arguments|, Head(arguments[0], floats), tail, floats);
  }

  lemma ClosedHeadFails(name: string, arity: nat, head: Token, tail: seq<Token>, floats: FloatText)
    requires IsCallName(name, arity)
    requires head.value == ")" && tail != [] && Ends(tail[0]) && tail[0].kind != EofTok
    ensures ParseTokens([Word(name)] + ([Mark("(")] + ([head] + tail)), floats) == Failure(ValueError)
  {
    hide ParseExpr, CastFunction;
    Keywords();
    LowerOfLowerName(name);
    var inside := [head] + tail;
    var ts := [Word(name)] + ([Mark("(")] + inside);
    assert ts[1..] == [Mark("(")] + inside && ts[1..][1..] == inside && inside[1..] == tail;
    assert ParseArguments(inside, floats) == Parsed([], tail);
    assert ParseOver(CallNode(name, []), tail, floats) == Parsed(CallNode(name, []), tail);
    assert ParseCall(name, inside, floats) == Parsed(CallNode(name, []), tail);
    assert Matches(ts[1..][0], "(");
    assert ParsePrefix(ts, floats) == Parsed(CallNode(name, []), tail);
    PrefixThenEnd(ts, CallNode(name, []), tail, floats);
  }

  lemma PrefixThenEnd(ts: seq<Token>, node: Node, rest: seq<Token>, floats: FloatText)
    requires ParsePrefix(ts, floats) == Parsed(node, rest) && rest != [] && Ends(rest[0])
    ensures ParseExpr(ts, 0, floats) == Parsed(node, rest)
  {
  }
}
