/** The native list path and the expand, evaluate, compact path compute the same column
    (native/engine/src/expression_executor.rs, native/engine/src/list_executor.rs). */
module NativeLists {
  import opened Wrappers
  import opened Ast
  import opened Columns
  import opened ListRows
  import opened Evaluator
  import opened References

  // ----- a native result has the shape of every list it was made from

  ghost predicate ShapedBy(batch: Batch, mentioned: string -> bool, r: Array) {
    (forall name | mentioned(name) && IsList(batch, name) :: r.ListOf? && SameShape(Lookup(batch, name).value, r))
    && (r.ListOf? ==> exists name :: mentioned(name) && IsList(batch, name))
  }

  lemma BinaryShape(k: Kernels, op: string, a: Array, b: Array)
    requires Proper(a) && Proper(b) && Len(a) == Len(b) && EvalBinary(k, op, a, b).Success?
    ensures var r := EvalBinary(k, op, a, b).value;
      (r.ListOf? <==> a.ListOf? || b.ListOf?) && (a.ListOf? ==> SameShape(a, r)) && (b.ListOf? ==> SameShape(b, r))
  {
    if a.ListOf? || b.ListOf? {
      assert a in [a, b] && b in [a, b];
      var template := Template([a, b]);
    }
  }

  lemma BranchShape(k: Kernels, c: Array, t: Array, f: Array)
    requires Proper(c) && Proper(t) && Proper(f) && Len(c) == Len(t) == Len(f) && EvalBranch(k, c, t, f).Success?
    ensures var r := EvalBranch(k, c, t, f).value;
      (r.ListOf? <==> c.ListOf? || t.ListOf? || f.ListOf?)
      && (c.ListOf? ==> SameShape(c, r)) && (t.ListOf? ==> SameShape(t, r)) && (f.ListOf? ==> SameShape(f, r))
  {
    if c.ListOf? || t.ListOf? || f.ListOf? {
      assert c in [c, t, f] && t in [c, t, f] && f in [c, t, f];
      var template := Template([c, t, f]);
    }
  }

  predicate NativeBranches(branches: seq<Branch>) {
    forall branch :: branch in branches ==> SupportsNative(branch.condition) && SupportsNative(branch.value)
  }

  lemma {:induction false} ResultShape(k: Kernels, node: Node, batch: Batch)
    requires ValidBatch(batch) && SupportsNative(node) && Eval(k, node, batch).Success?
    ensures ShapedBy(batch, name => Mentions(node, name), Eval(k, node, batch).value)
    decreases node, 1
  {
    hide EvalBinary, EvalBranches, Lookup, ValidBatch;
    match node
    case Column(name) => assert Mentions(node, name); LookupOfColumn(k, name, batch);
    case Literal(_, _) =>
    case Alias(_, aliased) => ResultShape(k, aliased, batch);
    case Binary(op, left, right) =>
      ResultShape(k, left, batch);
      ResultShape(k, right, batch);
      BinaryShape(k, op, Eval(k, left, batch).value, Eval(k, right, batch).value);
    case Case(branches, otherwise) =>
      ResultShape(k, otherwise, batch);
      BranchesShape(k, branches, Eval(k, otherwise, batch).value, batch, name => Mentions(otherwise, name));
  }

  lemma LookupOfColumn(k: Kernels, name: string, batch: Batch)
    requires ValidBatch(batch) && Eval(k, Column(name), batch).Success?
    ensures Lookup(batch, name) == Some(Eval(k, Column(name), batch).value)
  {
  }

  lemma {:induction false} BranchesShape(
    k: Kernels, branches: seq<Branch>, result: Array, batch: Batch, mentioned: string -> bool)
    requires ValidBatch(batch) && NativeBranches(branches) && Proper(result) && Len(result) == batch.rows
    requires ShapedBy(batch, mentioned, result) && EvalBranches(k, branches, result, batch).Success?
    ensures ShapedBy(batch, name => BranchesMention(branches, name) || mentioned(name),
                     EvalBranches(k, branches, result, batch).value)
    decreases branches, 0
  {
    hide EvalOne, Lookup, ValidBatch, SupportsNative, IsList;
    if branches != [] {
      var last := |branches| - 1;
      LastBranchMentions(branches);
      assert branches[last] in branches;
      OneShape(k, branches[last], result, batch, mentioned);
      var chosen := EvalOne(k, branches[last], result, batch).value;
      BranchesShape(k, branches[..last], chosen, batch, name => BranchMentions(branches[last], name) || mentioned(name));
    }
  }

  lemma {:induction false} OneShape(k: Kernels, branch: Branch, result: Array, batch: Batch, mentioned: string -> bool)
    requires ValidBatch(batch) && SupportsNative(branch.condition) && SupportsNative(branch.value)
    requires Proper(result) && Len(result) == batch.rows
    requires ShapedBy(batch, mentioned, result) && EvalOne(k, branch, result, batch).Success?
    ensures ShapedBy(batch, name => BranchMentions(branch, name) || mentioned(name), EvalOne(k, branch, result, batch).value)
    decreases branch, 0
  {
    hide Eval, EvalBranch, Lookup, ValidBatch, SupportsNative, IsList;
    ResultShape(k, branch.condition, batch);
    ResultShape(k, branch.value, batch);
    BranchShape(k, Eval(k, branch.condition, batch).value, Eval(k, branch.value, batch).value, result);
  }

  // ----- evaluating on the expanded batch spreads the result

  /** What a column of the batch becomes, value by value, under the template. */
  predicate Spreads(r: Array, template: Array) {
    Proper(r) && Proper(template) && template.ListOf? && Len(r) == Len(template)
    && (r.ListOf? ==> SameShape(r, template) && r.items.Flat?)
  }

  function Spread(r: Array, template: Array): (s: Array)
    requires Spreads(r, template)
    ensures s.Flat? && Proper(s) && Len(s) == Len(template.items)
  {
    OperandValues(r, template)
  }

  lemma ApplyPicks(kernel: Elementwise, rows: seq<seq<Value>>, picked: seq<nat>)
    requires Indexes(picked, |rows|) && Apply(kernel, rows).Success?
    ensures Apply(kernel, Pick(rows, picked)) == Success(Flat(kernel.dtype, Pick(Apply(kernel, rows).value.cells, picked)))
  {
    var all, some := Apply(kernel, rows), Apply(kernel, Pick(rows, picked));
    forall i | 0 <= i < |picked| ensures kernel.apply(Pick(rows, picked)[i]) == Some(all.value.cells[picked[i]]) { }
    assert some.Success?;
    assert some.value.cells == Pick(all.value.cells, picked);
  }

  lemma SameSpread(a: Array, x: Array, y: Array)
    requires Spreads(a, x) && Proper(y) && y.ListOf? && SameShape(x, y)
    ensures Spreads(a, y) && OperandValues(a, y) == OperandValues(a, x)
  {
  }

  lemma BinarySpreads(k: Kernels, op: string, a: Array, b: Array, template: Array)
    requires Spreads(a, template) && Spreads(b, template) && EvalBinary(k, op, a, b).Success?
    ensures Spreads(EvalBinary(k, op, a, b).value, template)
    ensures EvalBinary(k, op, Spread(a, template), Spread(b, template))
         == Success(Spread(EvalBinary(k, op, a, b).value, template))
  {
    hide Apply, ParentsOf, Take;
    if a.Flat? && b.Flat? {
      var kernel := k.binary(op, a.dtype, b.dtype).value;
      var parents := ParentsOf(template);
      ApplyPicks(kernel, Zip2(a.cells, b.cells), parents);
      assert Pick(Zip2(a.cells, b.cells), parents) == Zip2(Pick(a.cells, parents), Pick(b.cells, parents));
    } else {
      assert a in [a, b] && b in [a, b];
      var own := Template([a, b]).value;
      SameSpread(a, template, own);
      SameSpread(b, template, own);
    }
  }

  lemma ChooseSpreads(k: Kernels, c: Array, t: Array, f: Array, template: Array)
    requires Spreads(c, template) && Spreads(t, template) && Spreads(f, template) && EvalBranch(k, c, t, f).Success?
    ensures Spreads(EvalBranch(k, c, t, f).value, template)
    ensures EvalBranch(k, Spread(c, template), Spread(t, template), Spread(f, template))
         == Success(Spread(EvalBranch(k, c, t, f).value, template))
  {
    hide Apply, ParentsOf, Take;
    if c.Flat? && t.Flat? && f.Flat? {
      var kernel := k.choose(c.dtype, t.dtype, f.dtype).value;
      var parents := ParentsOf(template);
      ApplyPicks(kernel, Zip3(c.cells, t.cells, f.cells), parents);
      assert Pick(Zip3(c.cells, t.cells, f.cells), parents)
          == Zip3(Pick(c.cells, parents), Pick(t.cells, parents), Pick(f.cells, parents));
    } else {
      assert c in [c, t, f] && t in [c, t, f] && f in [c, t, f];
      var own := Template([c, t, f]).value;
      SameSpread(c, template, own);
      SameSpread(t, template, own);
      SameSpread(f, template, own);
    }
  }

  /** The mentioned columns stand in `expanded` as their spread under the template. */
  ghost predicate Expanded(batch: Batch, expanded: Batch, template: Array, mentioned: string -> bool) {
    && ValidBatch(batch) && ValidBatch(expanded)
    && template.ListOf? && Proper(template) && Len(template) == batch.rows && Len(template.items) == expanded.rows
    && forall name | mentioned(name) && Lookup(batch, name).Some? ::
         Spreads(Lookup(batch, name).value, template)
         && Lookup(expanded, name) == Some(Spread(Lookup(batch, name).value, template))
  }

  lemma {:induction false} EvalSpreads(k: Kernels, node: Node, batch: Batch, expanded: Batch, template: Array)
    requires Expanded(batch, expanded, template, name => Mentions(node, name))
    requires SupportsNative(node) && Eval(k, node, batch).Success?
    ensures Spreads(Eval(k, node, batch).value, template)
    ensures Eval(k, node, expanded) == Success(Spread(Eval(k, node, batch).value, template))
    decreases node, 1
  {
    hide EvalBinary, EvalBranches, Lookup, ValidBatch, Take, ParentsOf, Spreads, OperandValues, Spread;
    match node
    case Column(name) => assert Mentions(node, name); ColumnSpreads(k, name, batch, expanded, template);
    case Literal(dtype, value) => LiteralSpreads(k, dtype, value, batch, expanded, template);
    case Alias(_, aliased) => EvalSpreads(k, aliased, batch, expanded, template);
    case Binary(op, left, right) =>
      EvalSpreads(k, left, batch, expanded, template);
      EvalSpreads(k, right, batch, expanded, template);
      BinarySpreads(k, op, Eval(k, left, batch).value, Eval(k, right, batch).value, template);
    case Case(branches, otherwise) =>
      EvalSpreads(k, otherwise, batch, expanded, template);
      BranchesSpread(k, branches, Eval(k, otherwise, batch).value, batch, expanded, template);
  }

  lemma ColumnSpreads(k: Kernels, name: string, batch: Batch, expanded: Batch, template: Array)
    requires Expanded(batch, expanded, template, n => n == name) && Eval(k, Column(name), batch).Success?
    ensures Spreads(Eval(k, Column(name), batch).value, template)
    ensures Eval(k, Column(name), expanded) == Success(Spread(Eval(k, Column(name), batch).value, template))
  {
    hide Spread, Spreads;
  }

  lemma LiteralSpreads(k: Kernels, dtype: string, value: Value, batch: Batch, expanded: Batch, template: Array)
    requires Expanded(batch, expanded, template, _ => false) && Eval(k, Literal(dtype, value), batch).Success?
    ensures Spreads(Eval(k, Literal(dtype, value), batch).value, template)
    ensures Eval(k, Literal(dtype, value), expanded) == Success(Spread(Eval(k, Literal(dtype, value), batch).value, template))
  {
    var cell := k.literal(dtype, value).value;
    assert Pick(seq(batch.rows, _ => cell.1), ParentsOf(template)) == seq(expanded.rows, _ => cell.1);
  }

  lemma {:induction false} BranchesSpread(
    k: Kernels, branches: seq<Branch>, result: Array, batch: Batch, expanded: Batch, template: Array)
    requires Expanded(batch, expanded, template, name => BranchesMention(branches, name))
    requires NativeBranches(branches) && Spreads(result, template) && EvalBranches(k, branches, result, batch).Success?
    ensures Spreads(EvalBranches(k, branches, result, batch).value, template)
    ensures EvalBranches(k, branches, Spread(result, template), expanded)
         == Success(Spread(EvalBranches(k, branches, result, batch).value, template))
    decreases branches, 0
  {
    hide EvalOne, Lookup, ValidBatch, SupportsNative, OperandValues, Spread;
    if branches != [] {
      var last := |branches| - 1;
      LastBranchMentions(branches);
      assert branches[last] in branches;
      OneSpreads(k, branches[last], result, batch, expanded, template);
      var chosen := EvalOne(k, branches[last], result, batch).value;
      BranchesSpread(k, branches[..last], chosen, batch, expanded, template);
    }
  }

  lemma {:induction false} OneSpreads(
    k: Kernels, branch: Branch, result: Array, batch: Batch, expanded: Batch, template: Array)
    requires Expanded(batch, expanded, template, name => BranchMentions(branch, name))
    requires SupportsNative(branch.condition) && SupportsNative(branch.value)
    requires Spreads(result, template) && EvalOne(k, branch, result, batch).Success?
    ensures Spreads(EvalOne(k, branch, result, batch).value, template)
    ensures EvalOne(k, branch, Spread(result, template), expanded)
         == Success(Spread(EvalOne(k, branch, result, batch).value, template))
    decreases branch, 0
  {
    hide Eval, EvalBranch, Lookup, ValidBatch, SupportsNative, OperandValues, Spread;
    EvalSpreads(k, branch.condition, batch, expanded, template);
    EvalSpreads(k, branch.value, batch, expanded, template);
    ChooseSpreads(k, Eval(k, branch.condition, batch).value, Eval(k, branch.value, batch).value, result, template);
  }

  // ----- the two paths

  /** Some referenced column is a list of lists. */
  ghost predicate RefersToNested(node: Node, batch: Batch) {
    exists name :: Mentions(node, name) && Lookup(batch, name).Some? && Nested(Lookup(batch, name).value)
  }

  lemma ExpandSucceedsUnlessNested(k: Kernels, node: Node, batch: Batch)
    requires ValidBatch(batch) && SupportsNative(node) && Eval(k, node, batch).Success?
    requires ListRefs(Refs(node), batch) != []
    ensures Expand(batch, ListRefs(Refs(node), batch)).Success? <==> !RefersToNested(node, batch)
  {
    hide Eval, Mentions, Refs, ListRefs, ValidBatch, Expand, Lookup;
    var names := ListRefs(Refs(node), batch);
    RefsAreMentions(node);
    ListRefsRepeatNothing(Refs(node), batch);
    ResultShape(k, node, batch);
    ExpandSucceeds(batch, names);
    var r := Eval(k, node, batch).value;
    if !RefersToNested(node, batch) {
      forall i | 0 <= i < |names| ensures BindingError(batch, names[i]).None? { assert names[i] in names; }
      forall i | 0 <= i < |names| ensures ListAt(batch, names[i]).offsets == r.offsets {
        assert names[i] in names && IsList(batch, names[i]);
      }
    } else {
      var name :| Mentions(node, name) && Lookup(batch, name).Some? && Nested(Lookup(batch, name).value);
      var i :| 0 <= i < |names| && names[i] == name;
      assert BindingError(batch, names[i]).Some?;
    }
  }

  lemma ExpandedBatch(k: Kernels, node: Node, batch: Batch)
    requires ValidBatch(batch) && SupportsNative(node) && Eval(k, node, batch).Success?
    requires ListRefs(Refs(node), batch) != [] && Expand(batch, ListRefs(Refs(node), batch)).Success?
    ensures var names := ListRefs(Refs(node), batch);
      var (expanded, shape) := Expand(batch, names).value;
      BindingError(batch, names[0]).None?
      && Expanded(batch, expanded, ListAt(batch, names[0]), name => Mentions(node, name))
      && shape == ListShape(ListAt(batch, names[0]).offsets, ListAt(batch, names[0]).valid, expanded.rows)
  {
    hide Eval, Mentions, Refs, ListRefs, ValidBatch, Lookup, ParentsOf, Take;
    var names := ListRefs(Refs(node), batch);
    RefsAreMentions(node);
    ResultShape(k, node, batch);
    ExpandSucceeds(batch, names);
    ExpandedFit(batch, names);
    var template, r := ListAt(batch, names[0]), Eval(k, node, batch).value;
    var expanded := Expand(batch, names).value.0;
    assert names[0] in names;
    forall name | Mentions(node, name) && Lookup(batch, name).Some?
      ensures Spreads(Lookup(batch, name).value, template)
           && Lookup(expanded, name) == Some(Spread(Lookup(batch, name).value, template))
    {
      ExpandedLookup(batch, names, name);
      FindIsLookup(expanded, name);
      if name in names {
        var i :| 0 <= i < |names| && names[i] == name;
        assert BindingError(batch, names[i]).None?;
      }
    }
  }

  /** For an expression the executor evaluates natively on lists: if that succeeds, expanding, evaluating
      and compacting succeeds too exactly when no referenced column is a list of lists (which expanding
      refuses), and then gives the same offsets, null rows and values. */
  lemma NativeIsExpandEvaluateCompact(k: Kernels, node: Node, batch: Batch)
    requires ValidBatch(batch) && SupportsNative(node) && ListRefs(Refs(node), batch) != []
    requires Eval(k, node, batch).Success?
    ensures EvalExpanded(k, node, batch).Success? <==> !RefersToNested(node, batch)
    ensures EvalExpanded(k, node, batch).Success? ==> EvalExpanded(k, node, batch) == Eval(k, node, batch)
  {
    var names := ListRefs(Refs(node), batch);
    ExpandSucceedsUnlessNested(k, node, batch);
    if Expand(batch, names).Success? {
      var (expanded, shape) := Expand(batch, names).value;
      ExpandedBatch(k, node, batch);
      EvalSpreads(k, node, batch, expanded, ListAt(batch, names[0]));
      ResultShape(k, node, batch);
      RefsAreMentions(node);
      assert names[0] in names;
      hide Eval, Mentions, Refs, ListRefs, ValidBatch, Expand, Lookup, Expanded;
    }
  }

  // ----- a list of lists

  /** One row holding a list that holds the list [7]. */
  function NestedColumn(): Array { ListOf([0, 1], [true], ListOf([0, 1], [true], Flat("int64", [IntV(7)]))) }

  /** A mere reference to such a column evaluates natively, and expanding refuses it. */
  lemma NestedListDisagrees(k: Kernels)
    ensures var batch := Batch(1, [Entry("nested", true, NestedColumn())]);
      ValidBatch(batch)
      && Evaluate(k, Column("nested"), batch) == Success(NestedColumn())
      && EvalExpanded(k, Column("nested"), batch).Failure?
  {
    hide Expand;
    var batch, node := Batch(1, [Entry("nested", true, NestedColumn())]), Column("nested");
    assert Proper(NestedColumn().items) && EntryFits(batch.entries[0], 1);
    assert Lookup(batch, "nested") == Some(NestedColumn());
    assert Refs(node) == ["nested"] && ["nested"][..0] == [];
    assert ListRefs([], batch) == [] && ListRefs(["nested"], batch) == ["nested"];
    assert Mentions(node, "nested");
    NativeIsExpandEvaluateCompact(k, node, batch);
  }
}
