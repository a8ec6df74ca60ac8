/** Reading windows with an order (src/spotfire_expr_normalizer/parser.py). The printer writes none, so
    these are read from tokens as a user may spell them. */
module OrderedWindows {
  import opened Wrappers
  import opened Text
  import opened Ast
  import opened Tokenizer
  import opened Grammar
  import opened RoundTrip

  /** ORDER BY, the expression and, if they are spelled out, the direction and the place of nulls. */
  datatype Spelled = Spelled(expression: Node, direction: Option<string>, nulls: Option<string>)

  predicate WellSpelled(o: Spelled, floats: FloatText) {
    && Printable(o.expression, floats)
    && (o.direction.Some? ==> Lower(o.direction.value) in ["asc", "desc"])
    && (o.nulls.Some? ==> Lower(o.nulls.value) in ["first", "last"])
  }

  /** Ascending and nulls last unless it says otherwise. */
  function Meant(o: Spelled): WindowOrder {
    WindowOrder(
      o.expression,
      if o.direction.Some? && Lower(o.direction.value) == "desc" then "desc" else "asc",
      if o.nulls.Some? && Lower(o.nulls.value) == "first" then "first" else "last")
  }

  function NullsThen(nulls: Option<string>, rest: seq<Token>): seq<Token> {
    if nulls.Some? then [Word("NULLS"), Word(nulls.value)] + rest else rest
  }

  function DirectionThen(o: Spelled, rest: seq<Token>): seq<Token> {
    (if o.direction.Some? then [Word(o.direction.value)] else []) + NullsThen(o.nulls, rest)
  }

  function OrderThen(o: Spelled, floats: FloatText, rest: seq<Token>): seq<Token> {
    [Word("ORDER")] + ([Word("BY")] + TokensThen(o.expression, floats, DirectionThen(o, rest)))
  }

  lemma OrderWords()
    ensures Lower("ORDER") == "order" && Lower("BY") == "by" && Lower("NULLS") == "nulls"
    ensures Lower(")") == ")" && Lower(",") == "," && Lower("PARTITION") == "partition" && Lower("(") == "("
    ensures Lower("OVER") == "over"
  {
  }

  /** What follows an order item. */
  predicate Follows(token: Token) { token == Mark(")") || token == Mark(",") }

  lemma DirectionEnds(o: Spelled, floats: FloatText, rest: seq<Token>)
    requires WellSpelled(o, floats) && rest != [] && Follows(rest[0])
    ensures DirectionThen(o, rest) != [] && Ends(DirectionThen(o, rest)[0])
  {
    hide Printable, Lower, Precedence;
    OrderWords();
    Terminators();
    NoOperator("asc");
    NoOperator("desc");
    NoOperator("nulls");
  }

  lemma NoOperator(word: string)
    requires word in ["asc", "desc", "nulls"]
    ensures Precedence(word).None? && word != "over"
  {
  }

  /** What the reader finds behind the expression. */
  lemma DirectionFound(o: Spelled, floats: FloatText, rest: seq<Token>)
    requires WellSpelled(o, floats) && rest != [] && Follows(rest[0])
    ensures var tail, after := DirectionThen(o, rest), NullsThen(o.nulls, rest);
      tail != [] && after != []
      && (o.direction.None? ==> tail == after && !IsKeyword(tail[0], "asc") && !IsKeyword(tail[0], "desc"))
      && (o.direction.Some? ==>
            tail[1..] == after && Lower(tail[0].value) == Meant(o).direction
            && (IsKeyword(tail[0], "asc") || IsKeyword(tail[0], "desc")))
  {
    hide Printable, Lower;
    OrderWords();
    var tail, after := DirectionThen(o, rest), NullsThen(o.nulls, rest);
    if o.direction.Some? { assert tail[1..] == after; } else { assert tail == after; }
  }

  lemma NullsFound(o: Spelled, floats: FloatText, rest: seq<Token>)
    requires WellSpelled(o, floats) && rest != [] && Follows(rest[0])
    ensures var after := NullsThen(o.nulls, rest);
      after != []
      && (o.nulls.None? ==> after == rest && !IsKeyword(after[0], "nulls"))
      && (o.nulls.Some? ==>
            |after| > 1 && IsKeyword(after[0], "nulls") && Lower(after[1].value) == Meant(o).nulls
            && Meant(o).nulls in ["first", "last"] && after[2..] == rest)
  {
    hide Printable, Lower;
    OrderWords();
  }

  /** The tail of an order item reads as it is spelled. */
  lemma OrderReads(o: Spelled, floats: FloatText, rest: seq<Token>)
    requires WellSpelled(o, floats) && rest != [] && Follows(rest[0])
    ensures ParseOrder([Word("BY")] + TokensThen(o.expression, floats, DirectionThen(o, rest)), floats)
         == Parsed(Meant(o), rest)
  {
    var tail := DirectionThen(o, rest);
    DirectionEnds(o, floats, rest);
    ExprReads(o.expression, floats, tail, 0);
    hide ParseExpr, Printable, TokensThen, Lower, Ends, DirectionThen, NullsThen, IsKeyword, WellSpelled;
    OrderWords();
    DirectionFound(o, floats, rest);
    NullsFound(o, floats, rest);
    var ts := [Word("BY")] + TokensThen(o.expression, floats, tail);
    assert ts[1..] == TokensThen(o.expression, floats, tail);
    var after := NullsThen(o.nulls, rest);
    if o.nulls.Some? { assert after[1..][0] == after[1]; }
  }

  // ----- the items of a window

  function OrdersThen(orders: seq<Spelled>, floats: FloatText, rest: seq<Token>): seq<Token>
    requires orders != []
  {
    if |orders| == 1 then OrderThen(orders[0], floats, [Mark(")")] + rest)
    else OrderThen(orders[0], floats, [Mark(",")] + OrdersThen(orders[1..], floats, rest))
  }

  function AllMeant(orders: seq<Spelled>): (r: seq<WindowOrder>)
    ensures |r| == |orders| && forall i :: 0 <= i < |r| ==> r[i] == Meant(orders[i])
  {
    seq(|orders|, i requires 0 <= i < |orders| => Meant(orders[i]))
  }

  predicate AllSpelled(orders: seq<Spelled>, floats: FloatText) {
    forall i :: 0 <= i < |orders| ==> WellSpelled(orders[i], floats)
  }

  /** One turn of the OVER loop that reads an order. */
  lemma OrderTurn(partitions: seq<Node>, done: seq<WindowOrder>, o: Spelled, next: Token, tail: seq<Token>, floats: FloatText)
    requires WellSpelled(o, floats) && Follows(next)
    ensures ParseWindowItems(partitions, done, OrderThen(o, floats, [next] + tail), floats)
         == if next == Mark(",") then ParseWindowItems(partitions, done + [Meant(o)], tail, floats)
            else Parsed((partitions, done + [Meant(o)]), tail)
  {
    hide ParseOrder, TokensThen, DirectionThen, Meant, WellSpelled;
    OrderWords();
    var rest := [next] + tail;
    OrderReads(o, floats, rest);
    var ts := OrderThen(o, floats, rest);
    assert ts[1..] == [Word("BY")] + TokensThen(o.expression, floats, DirectionThen(o, rest)) && rest[1..] == tail;
  }

  lemma {:induction false} OrdersRead(
    partitions: seq<Node>, done: seq<WindowOrder>, orders: seq<Spelled>, floats: FloatText, rest: seq<Token>)
    requires orders != [] && AllSpelled(orders, floats)
    ensures ParseWindowItems(partitions, done, OrdersThen(orders, floats, rest), floats)
         == Parsed((partitions, done + AllMeant(orders)), rest)
    decreases |orders|
  {
    hide ParseWindowItems, OrderThen, WellSpelled, Meant;
    assert WellSpelled(orders[0], floats);
    if |orders| == 1 {
      OrderTurn(partitions, done, orders[0], Mark(")"), rest, floats);
      assert AllMeant(orders) == [Meant(orders[0])];
    } else {
      OrderTurn(partitions, done, orders[0], Mark(","), OrdersThen(orders[1..], floats, rest), floats);
      OrdersRead(partitions, done + [Meant(orders[0])], orders[1..], floats, rest);
      assert done + [Meant(orders[0])] + AllMeant(orders[1..]) == done + AllMeant(orders);
    }
  }

  /** The partitions, separated by commas, and behind them the orders. */
  function ItemsThen(partitions: seq<Node>, orders: seq<Spelled>, floats: FloatText, rest: seq<Token>): seq<Token>
    requires orders != []
  {
    if partitions == [] then OrdersThen(orders, floats, rest)
    else ListTokensThen(partitions, floats, OrdersThen(orders, floats, rest))
  }

  /** One turn of the OVER loop that reads a partition with orders to come. */
  lemma PartitionTurn(done: seq<Node>, item: Node, ts: seq<Token>, tail: seq<Token>, floats: FloatText)
    requires ts != [] && !IsKeyword(ts[0], "order")
    ensures ParseExpr(ts, 0, floats) == Parsed(item, tail) && tail != [] && IsKeyword(tail[0], "order")
        ==> ParseWindowItems(done, [], ts, floats) == ParseWindowItems(done + [item], [], tail, floats)
  {
    hide ParseExpr;
    OrderWords();
  }

  lemma OrderStarts(orders: seq<Spelled>, floats: FloatText, rest: seq<Token>)
    requires orders != []
    ensures var ts := OrdersThen(orders, floats, rest); ts != [] && ts[0] == Word("ORDER") && Ends(ts[0]) && IsKeyword(ts[0], "order")
  {
    OrderWords();
    hide TokensThen;
  }

  lemma {:induction false} ItemsRead(done: seq<Node>, partitions: seq<Node>, orders: seq<Spelled>, floats: FloatText, rest: seq<Token>)
    requires orders != [] && AllSpelled(orders, floats) && PrintableList(partitions, floats)
    requires forall p :: p in partitions ==> !LeadsWith(p, "order")
    ensures ParseWindowItems(done, [], ItemsThen(partitions, orders, floats, rest), floats)
         == Parsed((done + partitions, AllMeant(orders)), rest)
    decreases |partitions|
  {
    hide ParseExpr, ParseWindowItems, TokensThen, OrdersThen, Ends, Head, AllSpelled, Lower, IsKeyword, Printable, LeadsWith,
      AllMeant, LooksClosed, OrderThen;
    var behind := OrdersThen(orders, floats, rest);
    OrderStarts(orders, floats, rest);
    if partitions == [] {
      OrdersRead(done, [], orders, floats, rest);
      assert [] + AllMeant(orders) == AllMeant(orders) && done + [] == done;
    } else {
      Terminators();
      ListHead(partitions, floats, behind);
      HeadOpens(partitions[0], floats);
      var tokens := ListTokensThen(partitions, floats, behind);
      if |partitions| == 1 {
        ExprReads(partitions[0], floats, behind, 0);
        PartitionTurn(done, partitions[0], tokens, behind, floats);
        OrdersRead(done + [partitions[0]], [], orders, floats, rest);
        assert [] + AllMeant(orders) == AllMeant(orders) && done + [partitions[0]] == done + partitions;
      } else {
        var tail := ListTokensThen(partitions[1..], floats, behind);
        ExprReads(partitions[0], floats, [Mark(",")] + tail, 0);
        WindowTurn(done, partitions[0], tokens, tail, floats);
        ItemsRead(done + [partitions[0]], partitions[1..], orders, floats, rest);
        assert done + [partitions[0]] + partitions[1..] == done + partitions;
      }
    }
  }

  // ----- the whole clause

  /** OVER ( PARTITION BY partitions ORDER BY ... ) reads as the window it spells. */
  lemma OrderedWindowReads(
    body: Node, partitions: seq<Node>, orders: seq<Spelled>, floats: FloatText, rest: seq<Token>)
    requires orders != [] && AllSpelled(orders, floats) && PrintableList(partitions, floats)
    requires forall p :: p in partitions ==> !LeadsWith(p, "order")
    requires partitions != [] ==> !LooksClosed(partitions[0])
    ensures ParseOver(body,
              [Word("OVER")] + ([Mark("(")] + ([Word("PARTITION")] + ([Word("BY")] + ItemsThen(partitions, orders, floats, rest)))),
              floats)
         == Parsed(Window(body, partitions, AllMeant(orders), None), rest)
  {
    hide ParseWindowItems, AllMeant, PrintableList, OrdersThen, AllSpelled;
    ItemsRead([], partitions, orders, floats, rest);
    assert [] + partitions == partitions;
    var items := ItemsThen(partitions, orders, floats, rest);
    ItemsOpen(partitions, orders, floats, rest);
    OrderWords();
    var clause := [Word("PARTITION")] + ([Word("BY")] + items);
    var inside := [Mark("(")] + clause;
    var ts := [Word("OVER")] + inside;
    assert ts[1..] == inside && inside[1..] == clause && clause[1..] == [Word("BY")] + items && ([Word("BY")] + items)[1..] == items;
    assert OpenWindow(inside) == Parsed((), items);
  }

  lemma ItemsOpen(partitions: seq<Node>, orders: seq<Spelled>, floats: FloatText, rest: seq<Token>)
    requires orders != [] && PrintableList(partitions, floats)
    requires partitions != [] ==> !LooksClosed(partitions[0])
    ensures var ts := ItemsThen(partitions, orders, floats, rest); ts != [] && !Matches(ts[0], ")")
  {
    hide OrdersThen, TokensThen, Head, LooksClosed;
    OrderStarts(orders, floats, rest);
    OrderWords();
    if partitions != [] {
      ListHead(partitions, floats, OrdersThen(orders, floats, rest));
      HeadOpens(partitions[0], floats);
    }
  }
}
