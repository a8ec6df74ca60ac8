/** What the precedence-climbing loop builds (src/spotfire_expr_normalizer/parser.py): for a chain of
    operands joined by binary operators, the one tree that reads back as the chain and binds as the
    precedence table says. */
module Pratt {
  import opened Wrappers
  import opened Text
  import opened Ast
  import opened Tokenizer
  import opened Grammar

  /** An operator, lowered as the loop sees it, and the operand after it. */
  datatype Link = Link(op: string, operand: Node)

  datatype Tree = Leaf(operand: Node) | Join(op: string, left: Tree, right: Tree)

  // ----- how tightly operators bind

  /** The binary operators, class by class, from the loosest to the tightest. */
  const CLASSES: seq<seq<string>> := [
    ["or"], ["and"], ["=", "!=", "<>", "<", "<=", ">", ">=", "~="], ["+", "-", "&"], ["*", "/", "%"]]

  predicate IsOperator(op: string) { exists c :: 0 <= c < |CLASSES| && op in CLASSES[c] }

  /** The class an operator belongs to. */
  function Strength(op: string): (c: nat)
    requires IsOperator(op)
    ensures c < |CLASSES| && op in CLASSES[c]
  {
    if op in CLASSES[0] then 0 else if op in CLASSES[1] then 1 else if op in CLASSES[2] then 2
    else if op in CLASSES[3] then 3 else 4
  }

  /** An operator belongs to one class. */
  lemma OneClass(op: string, c: nat)
    requires c < |CLASSES| && op in CLASSES[c]
    ensures IsOperator(op) && Strength(op) == c
  {
  }

  /** The parser's numbers order the operators as the classes do. */
  lemma PrecedenceFollowsClasses(op: string)
    ensures Precedence(op).Some? <==> IsOperator(op)
    ensures IsOperator(op) ==> Precedence(op).value == 10 * Strength(op) + 10
  {
    if op in CLASSES[0] { OneClass(op, 0); }
    if op in CLASSES[1] { OneClass(op, 1); }
    if op in CLASSES[2] { OneClass(op, 2); }
    if op in CLASSES[3] { OneClass(op, 3); }
    if op in CLASSES[4] { OneClass(op, 4); }
  }

  predicate Operators(links: seq<Link>) { forall link :: link in links ==> IsOperator(link.op) }

  // ----- trees read from left to right

  function First(tree: Tree): Node {
    if tree.Leaf? then tree.operand else First(tree.left)
  }

  function Links(tree: Tree): seq<Link> {
    if tree.Leaf? then [] else Links(tree.left) + [Link(tree.op, First(tree.right))] + Links(tree.right)
  }

  function ToNode(tree: Tree): Node {
    if tree.Leaf? then tree.operand else Binary(Canonical(tree.op), ToNode(tree.left), ToNode(tree.right))
  }

  /** A left child binds at least as tightly as its parent, a right child strictly tighter. */
  predicate WellBound(tree: Tree) {
    tree.Join? ==>
      IsOperator(tree.op) && WellBound(tree.left) && WellBound(tree.right)
      && (tree.left.Join? ==> Strength(tree.left.op) >= Strength(tree.op))
      && (tree.right.Join? ==> Strength(tree.right.op) > Strength(tree.op))
  }

  // ----- the chain in the token stream

  /** From `ts` on stand the links, then a token that is no binary operator, where `rest` begins. */
  predicate ReadsLinks(ts: seq<Token>, links: seq<Link>, rest: seq<Token>, floats: FloatText)
    decreases |links|
  {
    ts != []
    && if links == [] then ts == rest && !IsOperator(Lower(ts[0].value))
       else
         Lower(ts[0].value) == links[0].op && IsOperator(links[0].op)
         && match ParsePrefix(ts[1..], floats)
            case Refused(_) => false
            case Parsed(operand, after) => operand == links[0].operand && ReadsLinks(after, links[1..], rest, floats)
  }

  predicate ReadsChain(ts: seq<Token>, first: Node, links: seq<Link>, rest: seq<Token>, floats: FloatText) {
    match ParsePrefix(ts, floats)
    case Refused(_) => false
    case Parsed(operand, after) => operand == first && ReadsLinks(after, links, rest, floats)
  }

  // ----- what the loop does to a chain

  /** The loop stops at a link that binds less tightly than `minimum`; `left` ends up leftmost. */
  ghost predicate Climbed(left: Tree, links: seq<Link>, minimum: nat, tree: Tree, remaining: seq<Link>)
    requires Operators(links)
  {
    && |remaining| <= |links| && Operators(remaining)
    && First(tree) == First(left)
    && Links(tree) + remaining == Links(left) + links
    && WellBound(tree)
    && (tree == left || (tree.Join? && Strength(tree.op) >= minimum))
    && (remaining != [] ==> Strength(remaining[0].op) < minimum)
  }

  /** The number the loop compares precedences with, for operators of class `minimum` and above. */
  function Bound(minimum: nat): nat { if minimum == 0 then 0 else 10 * minimum + 1 }

  lemma LoopStops(op: string, minimum: nat)
    ensures Precedence(op).None? <==> !IsOperator(op)
    ensures IsOperator(op) ==>
      (Precedence(op).value < Bound(minimum) <==> Strength(op) < minimum)
      && Precedence(op).value + 1 == Bound(Strength(op) + 1)
  {
    hide Precedence, IsOperator, Strength;
    PrecedenceFollowsClasses(op);
  }

  lemma {:induction false} LoopClimbs(
    left: Tree, ts: seq<Token>, links: seq<Link>, minimum: nat, rest: seq<Token>, floats: FloatText)
    returns (tree: Tree, remaining: seq<Link>, after: seq<Token>)
    requires Operators(links) && ReadsLinks(ts, links, rest, floats)
    requires WellBound(left)
    requires left.Join? && links != [] ==> Strength(links[0].op) <= Strength(left.op)
    ensures Climbed(left, links, minimum, tree, remaining)
    ensures ParseLoop(ToNode(left), ts, Bound(minimum), floats) == Parsed(ToNode(tree), after)
    ensures ReadsLinks(after, remaining, rest, floats)
    decreases |links|
  {
    hide ParsePrefix, Precedence, Canonical, Climbed, WellBound, IsOperator, Strength, Bound;
    LoopStops(Lower(ts[0].value), minimum);
    if links == [] || Strength(links[0].op) < minimum {
      ClimbStops(left, links, minimum);
      return left, links, ts;
    }
    var op := links[0].op;
    var Parsed(operand, next) := ParsePrefix(ts[1..], floats);
    LeafIsWellBound(operand);
    var right, middle, between := LoopClimbs(Leaf(operand), next, links[1..], Strength(op) + 1, rest, floats);
    assert links[0] == Link(op, operand);
    JoinClimbs(left, links, right, middle);
    tree, remaining, after := LoopClimbs(Join(op, left, right), between, middle, minimum, rest, floats);
    ClimbContinues(left, links, minimum, right, middle, tree, remaining);
  }

  lemma LeafIsWellBound(operand: Node)
    ensures WellBound(Leaf(operand))
  {
  }

  lemma ClimbStops(left: Tree, links: seq<Link>, minimum: nat)
    requires Operators(links) && WellBound(left)
    requires links == [] || Strength(links[0].op) < minimum
    ensures Climbed(left, links, minimum, left, links)
  {
  }

  /** After the right operand has been climbed, the joined tree may be climbed further. */
  lemma JoinClimbs(left: Tree, links: seq<Link>, right: Tree, middle: seq<Link>)
    requires links != [] && Operators(links) && WellBound(left)
    requires left.Join? ==> Strength(links[0].op) <= Strength(left.op)
    requires Climbed(Leaf(links[0].operand), links[1..], Strength(links[0].op) + 1, right, middle)
    ensures Operators(middle) && |middle| < |links|
    ensures WellBound(Join(links[0].op, left, right))
    ensures middle != [] ==> Strength(middle[0].op) <= Strength(links[0].op)
  {
    hide Strength, IsOperator;
  }

  lemma ClimbContinues(
    left: Tree, links: seq<Link>, minimum: nat, right: Tree, middle: seq<Link>, tree: Tree, remaining: seq<Link>)
    requires links != [] && Operators(links) && Operators(middle) && Strength(links[0].op) >= minimum
    requires Climbed(Leaf(links[0].operand), links[1..], Strength(links[0].op) + 1, right, middle)
    requires Climbed(Join(links[0].op, left, right), middle, minimum, tree, remaining)
    ensures Climbed(left, links, minimum, tree, remaining)
  {
    hide Strength, IsOperator, WellBound;
    var joined := Join(links[0].op, left, right);
    assert links[0] == Link(links[0].op, First(right));
    ChainSplit(Links(left), links, Links(right), middle);
  }

  lemma ChainSplit(left: seq<Link>, links: seq<Link>, right: seq<Link>, middle: seq<Link>)
    requires links != [] && right + middle == [] + links[1..]
    ensures left + [links[0]] + right + middle == left + links
  {
    assert left + [links[0]] + right + middle == left + ([links[0]] + (right + middle));
    assert [links[0]] + ([] + links[1..]) == links;
  }

  // ----- uniqueness

  lemma {:induction false} SubtreeStrengths(tree: Tree, bound: nat, strict: bool)
    requires WellBound(tree)
    requires tree.Join? ==> Strength(tree.op) >= bound && (strict ==> Strength(tree.op) > bound)
    ensures forall link :: link in Links(tree) ==>
              IsOperator(link.op) && Strength(link.op) >= bound && (strict ==> Strength(link.op) > bound)
  {
    if tree.Join? {
      SubtreeStrengths(tree.left, bound, strict);
      SubtreeStrengths(tree.right, bound, strict);
    }
  }

  ghost predicate LastWeakest(links: seq<Link>, i: nat) {
    i < |links| && Operators(links)
    && (forall k :: 0 <= k < i ==> Strength(links[k].op) >= Strength(links[i].op))
    && (forall k :: i < k < |links| ==> Strength(links[k].op) > Strength(links[i].op))
  }

  lemma LastWeakestBetween(left: seq<Link>, root: Link, right: seq<Link>)
    requires IsOperator(root.op)
    requires forall link :: link in left ==> IsOperator(link.op) && Strength(link.op) >= Strength(root.op)
    requires forall link :: link in right ==> IsOperator(link.op) && Strength(link.op) > Strength(root.op)
    ensures LastWeakest(left + [root] + right, |left|)
  {
    hide Strength, IsOperator;
    var links := left + [root] + right;
    forall k | |left| < k < |links| ensures links[k] in right {
      assert links[k] == right[k - |left| - 1];
    }
  }

  /** The root is the last of the weakest links. */
  lemma RootIsLastWeakest(tree: Tree)
    requires tree.Join? && WellBound(tree)
    ensures LastWeakest(Links(tree), |Links(tree.left)|)
  {
    hide Strength, IsOperator, First;
    SubtreeStrengths(tree.left, Strength(tree.op), false);
    SubtreeStrengths(tree.right, Strength(tree.op), true);
    LastWeakestBetween(Links(tree.left), Link(tree.op, First(tree.right)), Links(tree.right));
  }

  lemma SameLastWeakest(links: seq<Link>, i: nat, j: nat)
    requires LastWeakest(links, i) && LastWeakest(links, j)
    ensures i == j
  {
    hide Strength, IsOperator;
    var strengths := (Strength(links[i].op), Strength(links[j].op));
  }

  lemma SamePosition(l: seq<Link>, x: Link, r: seq<Link>, l': seq<Link>, x': Link, r': seq<Link>)
    requires |l| == |l'| && l + [x] + r == l' + [x'] + r'
    ensures l == l' && x == x' && r == r'
  {
    var s, s' := l + [x] + r, l' + [x'] + r';
    assert s[..|l|] == l && s'[..|l|] == l' && s[|l|] == x && s'[|l|] == x';
    assert s[|l| + 1..] == r && s'[|l| + 1..] == r';
  }

  lemma {:induction false} ChainFixesTree(a: Tree, b: Tree)
    requires WellBound(a) && WellBound(b) && First(a) == First(b) && Links(a) == Links(b)
    ensures a == b
  {
    hide Strength, IsOperator;
    if a.Join? && b.Join? {
      RootIsLastWeakest(a);
      RootIsLastWeakest(b);
      SameLastWeakest(Links(a), |Links(a.left)|, |Links(b.left)|);
      SamePosition(Links(a.left), Link(a.op, First(a.right)), Links(a.right),
                   Links(b.left), Link(b.op, First(b.right)), Links(b.right));
      ChainFixesTree(a.left, b.left);
      ChainFixesTree(a.right, b.right);
    }
  }

  // ----- the theorem

  /** The expression parser turns a chain into the only well-bound tree that reads as the chain, and
      stops at the first token that is not a binary operator. */
  lemma PrattBuildsTheTree(ts: seq<Token>, first: Node, links: seq<Link>, rest: seq<Token>, floats: FloatText)
    returns (tree: Tree)
    requires ReadsChain(ts, first, links, rest, floats)
    ensures First(tree) == first && Links(tree) == links && WellBound(tree)
    ensures ParseExpr(ts, 0, floats) == Parsed(ToNode(tree), rest)
    ensures forall other: Tree ::
              WellBound(other) && First(other) == first && Links(other) == links ==> other == tree
  {
    hide ParsePrefix;
    var after := ParsePrefix(ts, floats).rest;
    ReadLinksAreOperators(after, links, rest, floats);
    var remaining, final;
    tree, remaining, final := LoopClimbs(Leaf(first), after, links, 0, rest, floats);
    assert Bound(0) == 0;
    assert remaining == [];
    assert Links(tree) + [] == Links(tree) && [] + links == links;
    forall other: Tree | WellBound(other) && First(other) == first && Links(other) == links
      ensures other == tree
    {
      ChainFixesTree(other, tree);
    }
  }

  lemma {:induction false} ReadLinksAreOperators(ts: seq<Token>, links: seq<Link>, rest: seq<Token>, floats: FloatText)
    requires ReadsLinks(ts, links, rest, floats)
    ensures Operators(links)
    decreases |links|
  {
    if links != [] {
      hide ParsePrefix;
      ReadLinksAreOperators(ParsePrefix(ts[1..], floats).rest, links[1..], rest, floats);
    }
  }

  // ----- what that means for three operands, and for prefix operators

  /** In `x op1 y op2 z` the second operator takes `y` exactly when its class is the tighter one. */
  lemma ThreeOperands(ts: seq<Token>, x: Node, op1: string, y: Node, op2: string, z: Node, rest: seq<Token>, floats: FloatText)
    requires ReadsChain(ts, x, [Link(op1, y), Link(op2, z)], rest, floats)
    ensures IsOperator(op1) && IsOperator(op2)
    ensures ParseExpr(ts, 0, floats) ==
      if Strength(op2) > Strength(op1)
      then Parsed(Binary(Canonical(op1), x, Binary(Canonical(op2), y, z)), rest)
      else Parsed(Binary(Canonical(op2), Binary(Canonical(op1), x, y), z), rest)
  {
    hide Strength, IsOperator, ReadsChain, ParseExpr, Canonical;
    var links := [Link(op1, y), Link(op2, z)];
    ChainOperators(ts, x, links, rest, floats);
    assert links[0] in links && links[1] in links;
    assert links[0].op == op1 && links[1].op == op2;
    var xy, yz := Join(op1, Leaf(x), Leaf(y)), Join(op2, Leaf(y), Leaf(z));
    TwoOperands(op1, x, y);
    TwoOperands(op2, y, z);
    var right, left := Join(op1, Leaf(x), yz), Join(op2, xy, Leaf(z));
    assert Links(right) == [] + [links[0]] + [links[1]] && Links(left) == [links[0]] + [links[1]] + [];
    var tree := PrattBuildsTheTree(ts, x, links, rest, floats);
    if Strength(op2) > Strength(op1) { assert WellBound(right) && tree == right; } else { assert WellBound(left) && tree == left; }
  }

  lemma TwoOperands(op: string, a: Node, b: Node)
    requires IsOperator(op)
    ensures var tree := Join(op, Leaf(a), Leaf(b));
      First(tree) == a && Links(tree) == [Link(op, b)] && WellBound(tree) && ToNode(tree) == Binary(Canonical(op), a, b)
  {
    hide IsOperator, Canonical;
    assert Links(Leaf(a)) == [] && Links(Leaf(b)) == [] && [] + [Link(op, b)] + [] == [Link(op, b)];
  }

  /** Both spellings of "not equal" build the same node. */
  lemma NotEqual(ts: seq<Token>, x: Node, op: string, y: Node, rest: seq<Token>, floats: FloatText)
    requires ReadsChain(ts, x, [Link(op, y)], rest, floats) && op in ["<>", "!="]
    ensures ParseExpr(ts, 0, floats) == Parsed(Binary("!=", x, y), rest)
  {
    hide Strength, ReadsChain, ParseExpr;
    assert op in CLASSES[2];
    TwoOperands(op, x, y);
    var tree := PrattBuildsTheTree(ts, x, [Link(op, y)], rest, floats);
    assert tree == Join(op, Leaf(x), Leaf(y));
  }

  lemma ChainOperators(ts: seq<Token>, first: Node, links: seq<Link>, rest: seq<Token>, floats: FloatText)
    requires ReadsChain(ts, first, links, rest, floats)
    ensures Operators(links)
  {
    hide ParsePrefix, ReadsLinks;
    ReadLinksAreOperators(ParsePrefix(ts, floats).rest, links, rest, floats);
  }

  /** A sign and `Not` take the one operand that follows and nothing behind it, whatever operator stands there. */
  lemma PrefixTakesOneOperand(sign: Token, ts: seq<Token>, operand: Node, after: seq<Token>, floats: FloatText)
    requires sign == Token(OperatorTok, "-") || sign == Token(OperatorTok, "+")
          || (sign.kind == IdentifierTok && Lower(sign.value) == "not")
    requires ParsePrefix(ts, floats) == Parsed(operand, after) && after != []
    ensures var op := if sign.value == "-" then Negate else if sign.value == "+" then Positive else Not;
      ParsePrefix([sign] + ts, floats) == Parsed(Unary(op, operand), after)
  {
    var all := [sign] + ts;
    assert all[0] == sign && all[1..] == ts;
    PrefixStops(ts, operand, after, floats);
    hide ParseExpr;
    if sign.kind == IdentifierTok { assert |Lower(sign.value)| == 3; }
  }

  lemma PrefixStops(ts: seq<Token>, operand: Node, after: seq<Token>, floats: FloatText)
    requires ParsePrefix(ts, floats) == Parsed(operand, after) && after != []
    ensures ParseExpr(ts, 60, floats) == Parsed(operand, after)
  {
    hide ParsePrefix, IsOperator, Strength;
    PrecedenceFollowsClasses(Lower(after[0].value));
  }
}
