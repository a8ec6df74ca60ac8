/** An expression's value depends only on the columns it refers to and on the row count. */
module References {
  import opened Wrappers
  import opened Ast
  import opened Columns
  import opened ListRows
  import opened Evaluator

  predicate Mentions(node: Node, name: string)
    decreases node, 1
  {
    match node
    case Column(n) => n == name
    case Literal(_, _) => false
    case Alias(_, aliased) => Mentions(aliased, name)
    case Unary(_, operand) => Mentions(operand, name)
    case Cast(inner, _) => Mentions(inner, name)
    case Binary(_, left, right) => Mentions(left, name) || Mentions(right, name)
    case Call(_, arguments) => AnyMentions(arguments, name)
    case Case(branches, otherwise) => BranchesMention(branches, name) || Mentions(otherwise, name)
    case Window(body, partitions, orders, _) =>
      Mentions(body, name) || AnyMentions(partitions, name) || OrdersMention(orders, name)
  }

  predicate AnyMentions(nodes: seq<Node>, name: string)
    decreases nodes, 0
  {
    nodes != [] && (Mentions(nodes[0], name) || AnyMentions(nodes[1..], name))
  }

  predicate BranchesMention(branches: seq<Branch>, name: string)
    decreases branches, 0
  {
    branches != [] && (BranchMentions(branches[0], name) || BranchesMention(branches[1..], name))
  }

  predicate BranchMentions(branch: Branch, name: string)
    decreases branch, 0
  {
    Mentions(branch.condition, name) || Mentions(branch.value, name)
  }

  predicate OrdersMention(orders: seq<WindowOrder>, name: string)
    decreases orders, 0
  {
    orders != [] && (OrderMentions(orders[0], name) || OrdersMention(orders[1..], name))
  }

  predicate OrderMentions(order: WindowOrder, name: string)
    decreases order, 0
  {
    Mentions(order.expression, name)
  }

  // ----- `collect_node_columns` collects exactly the mentioned names, each once

  predicate NoRepeats(names: seq<string>) { forall i, j :: 0 <= i < j < |names| ==> names[i] != names[j] }

  /** `after` is `before` with the names of a part added. */
  ghost predicate Adds(before: seq<string>, after: seq<string>, mentioned: string -> bool) {
    (NoRepeats(before) ==> NoRepeats(after))
    && forall name :: name in after <==> name in before || mentioned(name)
  }

  lemma {:induction false} CollectAdds(node: Node, names: seq<string>)
    ensures Adds(names, Collect(node, names), name => Mentions(node, name))
    decreases node, 1
  {
    match node
    case Column(_) =>
    case Literal(_, _) =>
    case Alias(_, aliased) => CollectAdds(aliased, names);
    case Unary(_, operand) => CollectAdds(operand, names);
    case Cast(inner, _) => CollectAdds(inner, names);
    case Binary(_, left, right) =>
      CollectAdds(left, names);
      CollectAdds(right, Collect(left, names));
    case Call(_, arguments) => CollectAllAdds(arguments, names);
    case Case(branches, otherwise) =>
      CollectBranchesAdds(branches, names);
      CollectAdds(otherwise, CollectBranches(branches, names));
    case Window(body, partitions, orders, _) =>
      CollectAdds(body, names);
      CollectAllAdds(partitions, Collect(body, names));
      CollectOrdersAdds(orders, CollectAll(partitions, Collect(body, names)));
  }

  lemma {:induction false} CollectAllAdds(nodes: seq<Node>, names: seq<string>)
    ensures Adds(names, CollectAll(nodes, names), name => AnyMentions(nodes, name))
    decreases nodes, 0
  {
    if nodes != [] {
      CollectAdds(nodes[0], names);
      CollectAllAdds(nodes[1..], Collect(nodes[0], names));
    }
  }

  lemma {:induction false} CollectBranchesAdds(branches: seq<Branch>, names: seq<string>)
    ensures Adds(names, CollectBranches(branches, names), name => BranchesMention(branches, name))
    decreases branches, 0
  {
    if branches != [] {
      CollectBranchAdds(branches[0], names);
      CollectBranchesAdds(branches[1..], CollectBranch(branches[0], names));
    }
  }

  lemma {:induction false} CollectBranchAdds(branch: Branch, names: seq<string>)
    ensures Adds(names, CollectBranch(branch, names), name => BranchMentions(branch, name))
    decreases branch, 0
  {
    CollectAdds(branch.condition, names);
    CollectAdds(branch.value, Collect(branch.condition, names));
  }

  lemma {:induction false} CollectOrdersAdds(orders: seq<WindowOrder>, names: seq<string>)
    ensures Adds(names, CollectOrders(orders, names), name => OrdersMention(orders, name))
    decreases orders, 0
  {
    if orders != [] {
      CollectOrderAdds(orders[0], names);
      CollectOrdersAdds(orders[1..], CollectOrder(orders[0], names));
    }
  }

  lemma {:induction false} CollectOrderAdds(order: WindowOrder, names: seq<string>)
    ensures Adds(names, CollectOrder(order, names), name => OrderMentions(order, name))
    decreases order, 0
  {
    CollectAdds(order.expression, names);
  }

  /** The collected names are the mentioned names, each once. */
  lemma RefsAreMentions(node: Node)
    ensures NoRepeats(Refs(node)) && forall name :: name in Refs(node) <==> Mentions(node, name)
  {
    hide Collect, Mentions;
    CollectAdds(node, []);
  }

  // ----- evaluation

  ghost predicate Agree(a: Batch, b: Batch, mentioned: string -> bool) {
    a.rows == b.rows && forall name :: mentioned(name) ==> Lookup(a, name) == Lookup(b, name)
  }

  lemma {:induction false} EvalDependsOnMentions(k: Kernels, node: Node, a: Batch, b: Batch)
    requires ValidBatch(a) && ValidBatch(b) && Agree(a, b, name => Mentions(node, name))
    ensures Eval(k, node, a) == Eval(k, node, b)
    decreases node, 1
  {
    hide EvalUnary, EvalBinary, ValidBatch, Lookup, OfLength;
    match node
    case Column(name) =>
    case Literal(_, _) =>
    case Alias(_, aliased) => EvalDependsOnMentions(k, aliased, a, b);
    case Unary(_, operand) => EvalDependsOnMentions(k, operand, a, b);
    case Cast(inner, _) => EvalDependsOnMentions(k, inner, a, b);
    case Binary(_, left, right) =>
      EvalDependsOnMentions(k, left, a, b);
      EvalDependsOnMentions(k, right, a, b);
    case Call(_, arguments) => EvalAllDepends(k, arguments, a, b);
    case Case(branches, otherwise) =>
      EvalDependsOnMentions(k, otherwise, a, b);
      var last := Eval(k, otherwise, a);
      if last.Success? { EvalBranchesDepends(k, branches, last.value, a, b); }
    case Window(body, partitions, orders, _) =>
      if body.Call? {
        assert forall name :: AnyMentions(body.arguments, name) ==> Mentions(body, name);
        EvalAllDepends(k, body.arguments, a, b);
      }
      EvalAllDepends(k, partitions, a, b);
      EvalOrdersDepends(k, orders, a, b);
  }

  lemma {:induction false} EvalAllDepends(k: Kernels, nodes: seq<Node>, a: Batch, b: Batch)
    requires ValidBatch(a) && ValidBatch(b) && Agree(a, b, name => AnyMentions(nodes, name))
    ensures EvalAll(k, nodes, a) == EvalAll(k, nodes, b)
    decreases nodes, 0
  {
    hide Eval, ValidBatch, Lookup;
    if nodes != [] {
      EvalDependsOnMentions(k, nodes[0], a, b);
      EvalAllDepends(k, nodes[1..], a, b);
    }
  }

  lemma {:induction false} EvalBranchesDepends(k: Kernels, branches: seq<Branch>, result: Array, a: Batch, b: Batch)
    requires ValidBatch(a) && ValidBatch(b) && Agree(a, b, name => BranchesMention(branches, name))
    requires Proper(result) && Len(result) == a.rows
    ensures EvalBranches(k, branches, result, a) == EvalBranches(k, branches, result, b)
    decreases branches, 0
  {
    hide EvalOne, ValidBatch, Lookup, Proper;
    if branches != [] {
      var last := |branches| - 1;
      LastBranchMentions(branches);
      EvalOneDepends(k, branches[last], result, a, b);
      var chosen := EvalOne(k, branches[last], result, a);
      if chosen.Success? { EvalBranchesDepends(k, branches[..last], chosen.value, a, b); }
    }
  }

  lemma {:induction false} LastBranchMentions(branches: seq<Branch>)
    requires branches != []
    ensures forall name :: BranchesMention(branches, name) <==>
              BranchesMention(branches[..|branches| - 1], name) || BranchMentions(branches[|branches| - 1], name)
  {
    if |branches| > 1 {
      LastBranchMentions(branches[1..]);
      assert branches[1..][..|branches| - 2] == branches[..|branches| - 1][1..];
    }
  }

  lemma {:induction false} EvalOneDepends(k: Kernels, branch: Branch, result: Array, a: Batch, b: Batch)
    requires ValidBatch(a) && ValidBatch(b) && Agree(a, b, name => BranchMentions(branch, name))
    requires Proper(result) && Len(result) == a.rows
    ensures EvalOne(k, branch, result, a) == EvalOne(k, branch, result, b)
    decreases branch, 0
  {
    hide Eval, EvalBranch, ValidBatch, Lookup;
    EvalDependsOnMentions(k, branch.condition, a, b);
    EvalDependsOnMentions(k, branch.value, a, b);
  }

  lemma {:induction false} EvalOrdersDepends(k: Kernels, orders: seq<WindowOrder>, a: Batch, b: Batch)
    requires ValidBatch(a) && ValidBatch(b) && Agree(a, b, name => OrdersMention(orders, name))
    ensures EvalOrders(k, orders, a) == EvalOrders(k, orders, b)
    decreases orders, 0
  {
    hide Eval, ValidBatch, Lookup;
    if orders != [] {
      EvalOrderDepends(k, orders[0], a, b);
      EvalOrdersDepends(k, orders[1..], a, b);
    }
  }

  lemma {:induction false} EvalOrderDepends(k: Kernels, order: WindowOrder, a: Batch, b: Batch)
    requires ValidBatch(a) && ValidBatch(b) && Agree(a, b, name => OrderMentions(order, name))
    ensures EvalOrder(k, order, a) == EvalOrder(k, order, b)
    decreases order, 0
  {
    EvalDependsOnMentions(k, order.expression, a, b);
  }

  // ----- the list paths

  lemma {:induction false} ListRefsAgree(names: seq<string>, a: Batch, b: Batch)
    requires forall i :: 0 <= i < |names| ==> Lookup(a, names[i]) == Lookup(b, names[i])
    ensures ListRefs(names, a) == ListRefs(names, b)
  {
    hide Lookup;
    if names != [] { ListRefsAgree(names[..|names| - 1], a, b); }
  }

  lemma {:induction false} ListRefsRepeatNothing(names: seq<string>, batch: Batch)
    requires NoRepeats(names)
    ensures NoRepeats(ListRefs(names, batch))
  {
    hide IsList;
    if names != [] {
      var last := |names| - 1;
      ListRefsRepeatNothing(names[..last], batch);
      var before := ListRefs(names[..last], batch);
      forall i | 0 <= i < |before| ensures before[i] != names[last] { assert before[i] in names[..last]; }
    }
  }

  /** `Evaluate` too looks at the mentioned columns only, whichever list path it takes. */
  lemma EvaluateDependsOnMentions(k: Kernels, node: Node, a: Batch, b: Batch)
    requires ValidBatch(a) && ValidBatch(b) && Agree(a, b, name => Mentions(node, name))
    ensures Evaluate(k, node, a).Success? == Evaluate(k, node, b).Success?
    ensures Evaluate(k, node, a).Success? ==> Evaluate(k, node, a) == Evaluate(k, node, b)
  {
    hide Eval, Mentions, Lookup, SupportsNative, ContainsWindow, EvalExpanded, ValidBatch, Refs;
    RefsAreMentions(node);
    forall i | 0 <= i < |Refs(node)| ensures Lookup(a, Refs(node)[i]) == Lookup(b, Refs(node)[i]) {
      assert Refs(node)[i] in Refs(node);
    }
    ListRefsAgree(Refs(node), a, b);
    EvalDependsOnMentions(k, node, a, b);
    if ListRefs(Refs(node), a) != [] { EvalExpandedDepends(k, node, a, b); }
  }

  lemma EvalExpandedDepends(k: Kernels, node: Node, a: Batch, b: Batch)
    requires ValidBatch(a) && ValidBatch(b) && Agree(a, b, name => Mentions(node, name))
    requires ListRefs(Refs(node), a) == ListRefs(Refs(node), b) != []
    ensures EvalExpanded(k, node, a).Success? == EvalExpanded(k, node, b).Success?
    ensures EvalExpanded(k, node, a).Success? ==> EvalExpanded(k, node, a) == EvalExpanded(k, node, b)
  {
    hide Eval, Mentions, Lookup, ValidBatch, Refs, Expand;
    var names := ListRefs(Refs(node), a);
    RefsAreMentions(node);
    BoundAgree(names, a, b);
    ExpandSucceeds(a, names);
    ExpandSucceeds(b, names);
    if Expand(a, names).Success? {
      ExpandedAgree(names, a, b, name => Mentions(node, name));
      EvalDependsOnMentions(k, node, Expand(a, names).value.0, Expand(b, names).value.0);
    }
  }

  lemma BoundAgree(names: seq<string>, a: Batch, b: Batch)
    requires forall i :: 0 <= i < |names| ==> Lookup(a, names[i]) == Lookup(b, names[i])
    ensures Bound(a, names) == Bound(b, names)
    ensures forall i | 0 <= i < |names| && Bound(a, names) :: ListAt(a, names[i]) == ListAt(b, names[i])
  {
    hide Lookup;
    forall i | 0 <= i < |names| ensures BindingError(a, names[i]) == BindingError(b, names[i]) { }
  }

  lemma ExpandedAgree(names: seq<string>, a: Batch, b: Batch, mentioned: string -> bool)
    requires ValidBatch(a) && ValidBatch(b) && Agree(a, b, mentioned)
    requires forall i :: 0 <= i < |names| ==> mentioned(names[i])
    requires Expand(a, names).Success? && Expand(b, names).Success?
    ensures Expand(a, names).value.1 == Expand(b, names).value.1
    ensures Agree(Expand(a, names).value.0, Expand(b, names).value.0, mentioned)
  {
    hide Lookup, ParentsOf, Take, Find;
    ExpandSucceeds(a, names);
    ExpandSucceeds(b, names);
    assert ListAt(a, names[0]) == ListAt(b, names[0]);
    ExpandedFit(a, names);
    ExpandedFit(b, names);
    forall name | mentioned(name)
      ensures Lookup(Expand(a, names).value.0, name) == Lookup(Expand(b, names).value.0, name)
    {
      ExpandedLookup(a, names, name);
      ExpandedLookup(b, names, name);
      FindIsLookup(Expand(a, names).value.0, name);
      FindIsLookup(Expand(b, names).value.0, name);
    }
  }

  lemma FindIsLookup(batch: Batch, name: string)
    ensures Lookup(batch, name) == Find(batch.entries, name)
  {
  }
}
