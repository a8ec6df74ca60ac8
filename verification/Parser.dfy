/** `ExpressionParser` (src/spotfire_expr_normalizer/parser.py): the object whose methods advance
    `index` through the token list, each proved against the grammar. */
module Parser {
  import opened Wrappers
  import opened Text
  import opened Ast
  import opened Tokenizer
  import opened Grammar

  class ExpressionParser {
    const tokens: seq<Token>
    const floats: FloatText
    var index: nat

    constructor (tokens: seq<Token>, floats: FloatText)
      ensures this.tokens == tokens && this.floats == floats && index == 0
    {
      this.tokens, this.floats, index := tokens, floats, 0;
    }

    ghost predicate Valid()
      reads this
    {
      index <= |tokens|
    }

    /** The tokens still to be read. */
    ghost function Rest(): seq<Token>
      reads this
      requires Valid()
    {
      tokens[index..]
    }

    /** A method's outcome is what the grammar says, and `index` stands where the grammar left off. */
    ghost predicate Follows<T>(r: Result<T, ParseError>, parsed: Parsed<T>)
      reads this
    {
      Valid()
      && match parsed
         case Parsed(value, rest) => r == Success(value) && Rest() == rest
         case Refused(error) => r == Failure(error)
    }

    method Current() returns (r: Result<Token, ParseError>)
      requires Valid()
      ensures r == if Rest() == [] then Failure(IndexError) else Success(Rest()[0])
    {
      return if index < |tokens| then Success(tokens[index]) else Failure(IndexError);
    }

    method Advance() returns (r: Result<Token, ParseError>)
      requires Valid()
      modifies this
      ensures Follows(r, if old(Rest()) == [] then Refused(IndexError)
                         else Parsed(old(Rest())[0], old(Rest())[1..]))
    {
      var token :- Current();
      index := index + 1;
      return Success(token);
    }

    method Match(lowered: string) returns (r: Result<bool, ParseError>)
      requires Valid()
      modifies this
      ensures Follows(r, if old(Rest()) == [] then Refused(IndexError)
                         else if Matches(old(Rest())[0], lowered) then Parsed(true, old(Rest())[1..])
                         else Parsed(false, old(Rest())))
    {
      var token :- Current();
      if Lower(token.value) != lowered { return Success(false); }
      index := index + 1;
      return Success(true);
    }

    method Expect(lowered: string) returns (r: Result<(), ParseError>)
      requires Valid()
      modifies this
      ensures Follows(r, Grammar.Expect(old(Rest()), lowered))
    {
      var matched :- Match(lowered);
      return if matched then Success(()) else Failure(ValueError);
    }

    method Parse() returns (r: Result<Node, ParseError>)
      requires Valid()
      modifies this
      ensures r == ParseTokens(old(Rest()), floats)
    {
      var node :- ParseExpression(0);
      var token :- Current();
      return if token.kind != EofTok then Failure(ValueError) else Success(node);
    }

    method ParseExpression(minimum: nat) returns (r: Result<Node, ParseError>)
      requires Valid()
      modifies this
      ensures Follows(r, ParseExpr(old(Rest()), minimum, floats))
      decreases |tokens| - index, 3
    {
      hide Grammar.ParsePrefix, Precedence, Canonical;
      ghost var start := index;
      ghost var whole := ParseExpr(Rest(), minimum, floats);
      var left :- ParsePrefix();
      while true
        invariant Valid() && start < index
        invariant whole == ParseLoop(left, Rest(), minimum, floats)
        decreases |tokens| - index
      {
        var token :- Current();
        var operator := Lower(token.value);
        var precedence := Precedence(operator);
        if precedence.None? || precedence.value < minimum { break; }
        index := index + 1;
        var right :- ParseExpression(precedence.value + 1);
        left := Binary(Canonical(operator), left, right);
      }
      return Success(left);
    }

    method ParsePrefix() returns (r: Result<Node, ParseError>)
      requires Valid()
      modifies this
      ensures Follows(r, Grammar.ParsePrefix(old(Rest()), floats))
      decreases |tokens| - index, 2
    {
      hide ParseExpr, Grammar.ParseCase, Grammar.ParseCast, Grammar.ParseArguments, Grammar.ParseOver, CallNode;
      var token :- Advance();
      var lowered := Lower(token.value);
      if token.kind == OperatorTok && token.value in ["+", "-"] {
        var operand :- ParseExpression(60);
        return Success(Unary(if token.value == "+" then Positive else Negate, operand));
      }
      if token.kind == IdentifierTok && lowered == "not" {
        var operand :- ParseExpression(60);
        return Success(Unary(Not, operand));
      }
      if token.kind == ColumnTok { return Success(Column(token.value)); }
      if token.kind == StringTok { return Success(Literal("string", StringV(token.value))); }
      if token.kind == NumberTok {
        var number := NumberLiteral(token.value, [], floats);
        return if number.Parsed? then Success(number.value) else Failure(number.error);
      }
      if token.kind == IdentifierTok {
        if lowered in ["null", "true", "false"] { return Success(KeywordLiteral(lowered)); }
        if lowered == "case" {
          r := ParseCase();
          return;
        }
        var called :- Match("(");
        if !called { return Success(Column(token.value)); }
        if lowered == "cast" {
          r := ParseCast();
          return;
        }
        var arguments :- ParseArguments();
        r := ParseOver(CallNode(lowered, arguments));
        return;
      }
      if token.value == "(" {
        var node :- ParseExpression(0);
        var _ :- Expect(")");
        return Success(node);
      }
      return Failure(ValueError);
    }

    method ParseCase() returns (r: Result<Node, ParseError>)
      requires Valid()
      modifies this
      ensures Follows(r, Grammar.ParseCase([], old(Rest()), floats))
      decreases |tokens| - index, 4
    {
      hide ParseExpr;
      ghost var whole := Grammar.ParseCase([], Rest(), floats);
      ghost var start := index;
      var branches: seq<Branch> := [];
      while true
        invariant Valid() && start <= index
        invariant whole == Grammar.ParseCase(branches, Rest(), floats)
        decreases |tokens| - index
      {
        var another :- Match("when");
        if !another { break; }
        var condition :- ParseExpression(0);
        var _ :- Expect("then");
        var value :- ParseExpression(0);
        branches := branches + [Branch(condition, value)];
      }
      var otherwise := Literal("null", NoneV);
      var hasElse :- Match("else");
      if hasElse { otherwise :- ParseExpression(0); }
      var _ :- Expect("end");
      return if branches == [] then Failure(ValueError) else Success(Case(branches, otherwise));
    }

    method ParseCast() returns (r: Result<Node, ParseError>)
      requires Valid()
      modifies this
      ensures Follows(r, Grammar.ParseCast(old(Rest()), floats))
      decreases |tokens| - index, 4
    {
      hide ParseExpr, CastTypeName;
      var expression :- ParseExpression(0);
      var token :- Current();
      var name: string;
      if IsKeyword(token, "as") {
        index := index + 1;
        var target :- Advance();
        name := Lower(target.value);
        var _ :- Expect(")");
      } else {
        var _ :- Expect(",");
        var target :- ParseExpression(0);
        var _ :- Expect(")");
        if !(target.Literal? && target.dtype == "string" && target.value.StringV?) {
          return Failure(ValueError);
        }
        name := Lower(target.value.text);
      }
      var target := CastTypeName(name);
      return if target.None? then Failure(ValueError) else Success(Cast(expression, target.value));
    }

    method ParseArguments() returns (r: Result<seq<Node>, ParseError>)
      requires Valid()
      modifies this
      ensures Follows(r, Grammar.ParseArguments(old(Rest()), floats))
      decreases |tokens| - index, 5
    {
      hide ParseExpr;
      var arguments: seq<Node> := [];
      var empty :- Match(")");
      if empty { return Success([]); }
      ghost var whole := ParseArgumentList([], Rest(), floats);
      ghost var start := index;
      while true
        invariant Valid() && start <= index
        invariant whole == ParseArgumentList(arguments, Rest(), floats)
        decreases |tokens| - index
      {
        var argument :- ParseExpression(0);
        arguments := arguments + [argument];
        var closed :- Match(")");
        if closed { break; }
        var _ :- Expect(",");
      }
      return Success(arguments);
    }

    method ParseOver(node: Node) returns (r: Result<Node, ParseError>)
      requires Valid()
      modifies this
      ensures Follows(r, Grammar.ParseOver(node, old(Rest()), floats))
      decreases |tokens| - index, 6
    {
      hide Grammar.ParseWindowItems, Grammar.OpenWindow;
      var over :- Current();
      if !IsKeyword(over, "over") { return Success(node); }
      index := index + 1;
      var _ :- OpenWindow();
      var empty :- Match(")");
      if empty { return Success(Window(node, [], [], None)); }
      var items :- ParseWindowItems();
      return Success(Window(node, items.0, items.1, None));
    }

    method OpenWindow() returns (r: Result<(), ParseError>)
      requires Valid()
      modifies this
      ensures Follows(r, Grammar.OpenWindow(old(Rest())))
    {
      var _ :- Expect("(");
      var token :- Current();
      if !IsKeyword(token, "partition") { return Success(()); }
      index := index + 1;
      r := Expect("by");
    }

    method ParseWindowItems() returns (r: Result<(seq<Node>, seq<WindowOrder>), ParseError>)
      requires Valid()
      modifies this
      ensures Follows(r, Grammar.ParseWindowItems([], [], old(Rest()), floats))
      decreases |tokens| - index, 5
    {
      hide ParseExpr, Grammar.ParseOrder;
      ghost var whole := Grammar.ParseWindowItems([], [], Rest(), floats);
      ghost var start := index;
      var partitions: seq<Node> := [];
      var orders: seq<WindowOrder> := [];
      while true
        invariant Valid() && start <= index
        invariant whole == Grammar.ParseWindowItems(partitions, orders, Rest(), floats)
        decreases |tokens| - index
      {
        var token :- Current();
        if IsKeyword(token, "order") {
          index := index + 1;
          var order :- ParseOrder();
          orders := orders + [order];
          var more :- Match(",");
          if more { continue; }
          var _ :- Expect(")");
          break;
        }
        var item :- ParseExpression(0);
        partitions := partitions + [item];
        var closed :- Match(")");
        if closed { break; }
        if IsKeyword(tokens[index], "order") { continue; }
        var _ :- Expect(",");
      }
      return Success((partitions, orders));
    }

    method ParseOrder() returns (r: Result<WindowOrder, ParseError>)
      requires Valid()
      modifies this
      ensures Follows(r, Grammar.ParseOrder(old(Rest()), floats))
      decreases |tokens| - index, 4
    {
      hide ParseExpr, Lower;
      var _ :- Expect("by");
      var expression :- ParseExpression(0);
      var direction, nulls := "asc", "last";
      var token :- Current();
      if IsKeyword(token, "asc") || IsKeyword(token, "desc") {
        direction := Lower(token.value);
        index := index + 1;
      }
      token :- Current();
      if IsKeyword(token, "nulls") {
        index := index + 1;
        var placement :- Advance();
        nulls := Lower(placement.value);
        if nulls !in ["first", "last"] { return Failure(ValueError); }
      }
      return Success(WindowOrder(expression, direction, nulls));
    }
  }

  /** `parse_expression`: tokenize the text, then parse all of it. */
  method ParseExpressionText(expression: string, floats: FloatText) returns (r: Result<Node, ParseError>)
    ensures r == ParseText(expression, floats)
  {
    var tokens := TokenizeExpression(expression);
    if tokens.Failure? { return Failure(Lexical(tokens.error)); }
    var parser := new ExpressionParser(tokens.value, floats);
    r := parser.Parse();
  }
}
