/** What single values an evaluated expression holds (native/engine/src/expression_executor.rs): operators
    and CASE row by row, and element by element under lists. */
module RowMeaning {
  import opened Wrappers
  import opened Ast
  import opened Columns
  import opened ListRows
  import opened Evaluator
  import opened NativeLists

  // ----- the values of an operand beside a result

  /** A column of scalars or of lists of scalars. */
  predicate OneDeep(a: Array) { a.ListOf? ==> a.items.Flat? }

  /** The values of a result: its rows, or the elements of its lists. */
  function Slots(r: Array): nat { if r.Flat? then |r.cells| else Len(r.items) }

  /** `a` stands beside `r`: as long, scalars beside scalars, and lists of the same shape beside lists. */
  predicate Beside(a: Array, r: Array) {
    && Proper(a) && Proper(r) && OneDeep(a) && OneDeep(r) && Len(a) == Len(r)
    && (a.ListOf? ==> r.ListOf? && SameShape(a, r))
  }

  /** The value of `a` at a value of `r`: that row or element, or the scalar of the row the element is in. */
  function At(a: Array, r: Array, e: nat): Value
    requires Beside(a, r) && e < Slots(r)
  {
    if r.Flat? then a.cells[e]
    else if a.ListOf? then a.items.cells[e]
    else
      ParentsFit(r);
      a.cells[ParentsOf(r)[e]]
  }

  lemma ParentsFit(r: Array)
    requires Proper(r) && r.ListOf?
    ensures |ParentsOf(r)| == Len(r.items) && forall e :: 0 <= e < |ParentsOf(r)| ==> ParentsOf(r)[e] < Len(r)
  {
  }

  /** The element's row is the one whose range holds it. */
  lemma ElementRow(r: Array, e: nat)
    requires Proper(r) && r.ListOf? && e < Len(r.items)
    ensures |ParentsOf(r)| == Len(r.items) && ParentsOf(r)[e] < Len(r)
    ensures r.offsets[ParentsOf(r)[e]] <= e < r.offsets[ParentsOf(r)[e] + 1]
  {
    ParentHoldsValue(r.offsets, |r.valid|, e);
  }

  /** The type of the values. */
  function ValueType(a: Array): string
    requires OneDeep(a)
  {
    if a.Flat? then a.dtype else a.items.dtype
  }

  // ----- kernels under lists

  lemma FlatOperand(a: Array, template: Array, r: Array, e: nat)
    requires Proper(a) && OneDeep(a) && Proper(template) && template.ListOf? && Len(a) == Len(template)
    requires a.ListOf? ==> SameShape(a, template)
    requires Proper(r) && r.ListOf? && r.items.Flat? && SameShape(template, r) && e < Len(r.items)
    ensures Beside(a, r) && OperandValues(a, template).Flat? && OperandValues(a, template).dtype == ValueType(a)
    ensures Len(OperandValues(a, template)) == Len(r.items) && OperandValues(a, template).cells[e] == At(a, r, e)
  {
    assert ParentsOf(template) == ParentsOf(r);
  }

  lemma FlatOperandType(a: Array, template: Array)
    requires Proper(a) && OneDeep(a) && Proper(template) && template.ListOf? && Len(a) == Len(template)
    requires a.ListOf? ==> SameShape(a, template)
    ensures OperandValues(a, template).Flat? && OperandValues(a, template).dtype == ValueType(a)
    ensures Len(OperandValues(a, template)) == Len(template.items)
  {
  }

  /** A binary operator: the kernel of the operand types, on the left value and the right one. */
  ghost predicate BinaryHolds(k: Kernels, op: string, a: Array, b: Array, r: Array) {
    && Beside(a, r) && Beside(b, r)
    && var kernel := k.binary(op, ValueType(a), ValueType(b));
      kernel.Success?
      && forall e: nat | e < Slots(r) :: kernel.value.apply([At(a, r, e), At(b, r, e)]) == Some(At(r, r, e))
  }

  lemma BinaryMeaning(k: Kernels, op: string, a: Array, b: Array)
    requires Proper(a) && Proper(b) && Len(a) == Len(b) && OneDeep(a) && OneDeep(b) && EvalBinary(k, op, a, b).Success?
    ensures BinaryHolds(k, op, a, b, EvalBinary(k, op, a, b).value)
  {
    hide ParentsOf, Apply, Proper;
    var r := EvalBinary(k, op, a, b).value;
    if a.Flat? && b.Flat? {
      FlatBinary(k, op, a, b);
    } else {
      assert a in [a, b] && b in [a, b];
      var template := Template([a, b]).value;
      FlatOperandType(a, template);
      FlatOperandType(b, template);
      var x, y := OperandValues(a, template), OperandValues(b, template);
      FlatBinary(k, op, x, y);
      assert r == Rebuild(template, EvalBinary(k, op, x, y).value);
      ListBinary(k, op, a, b, template, r);
    }
  }

  lemma FlatBinary(k: Kernels, op: string, a: Array, b: Array)
    requires a.Flat? && b.Flat? && Len(a) == Len(b) && EvalBinary(k, op, a, b).Success?
    ensures EvalBinary(k, op, a, b).value.Flat? && BinaryHolds(k, op, a, b, EvalBinary(k, op, a, b).value)
    ensures var kernel, r := k.binary(op, a.dtype, b.dtype), EvalBinary(k, op, a, b).value;
      |r.cells| == |a.cells| && kernel.Success?
      && forall e :: 0 <= e < |r.cells| ==> kernel.value.apply([a.cells[e], b.cells[e]]) == Some(r.cells[e])
  {
    var kernel := k.binary(op, a.dtype, b.dtype).value;
    var rows := Zip2(a.cells, b.cells);
    var r := Apply(kernel, rows).value;
    hide Apply;
    forall e | 0 <= e < |r.cells| ensures kernel.apply([a.cells[e], b.cells[e]]) == Some(r.cells[e]) {
      assert rows[e] == [a.cells[e], b.cells[e]];
    }
  }

  lemma ListBinary(k: Kernels, op: string, a: Array, b: Array, template: Array, r: Array)
    requires Proper(a) && Proper(b) && Proper(template) && template.ListOf? && OneDeep(a) && OneDeep(b)
    requires Len(a) == Len(b) == Len(template) && (a.ListOf? ==> SameShape(a, template)) && (b.ListOf? ==> SameShape(b, template))
    requires Proper(r) && r.ListOf? && r.items.Flat? && SameShape(template, r) && Len(r) == Len(template)
    requires var x, y := OperandValues(a, template), OperandValues(b, template);
      x.Flat? && y.Flat? && Len(x) == Len(y) && EvalBinary(k, op, x, y) == Success(r.items)
    ensures BinaryHolds(k, op, a, b, r)
  {
    hide EvalBinary, OperandValues, At;
    FlatOperandType(a, template);
    FlatOperandType(b, template);
    FlatBinary(k, op, OperandValues(a, template), OperandValues(b, template));
    assert Beside(a, r) && Beside(b, r);
    forall e: nat | e < Slots(r)
      ensures k.binary(op, ValueType(a), ValueType(b)).value.apply([At(a, r, e), At(b, r, e)]) == Some(At(r, r, e))
    {
      FlatOperand(a, template, r, e);
      FlatOperand(b, template, r, e);
      AtOwn(r, e);
    }
  }

  lemma AtOwn(r: Array, e: nat)
    requires Proper(r) && OneDeep(r) && e < Slots(r)
    ensures At(r, r, e) == if r.Flat? then r.cells[e] else r.items.cells[e]
  {
  }

  // ----- one branch of a CASE

  ghost predicate ChooseHolds(k: Kernels, c: Array, t: Array, f: Array, r: Array) {
    && Beside(c, r) && Beside(t, r) && Beside(f, r)
    && var kernel := k.choose(ValueType(c), ValueType(t), ValueType(f));
      kernel.Success?
      && forall e: nat | e < Slots(r) :: kernel.value.apply([At(c, r, e), At(t, r, e), At(f, r, e)]) == Some(At(r, r, e))
  }

  lemma ChooseMeaning(k: Kernels, c: Array, t: Array, f: Array)
    requires Proper(c) && Proper(t) && Proper(f) && Len(c) == Len(t) == Len(f) && OneDeep(c) && OneDeep(t) && OneDeep(f)
    requires EvalBranch(k, c, t, f).Success?
    ensures ChooseHolds(k, c, t, f, EvalBranch(k, c, t, f).value)
  {
    hide ParentsOf, Apply, Proper;
    var r := EvalBranch(k, c, t, f).value;
    if c.Flat? && t.Flat? && f.Flat? {
      FlatChoose(k, c, t, f);
    } else {
      assert c in [c, t, f] && t in [c, t, f] && f in [c, t, f];
      var template := Template([c, t, f]).value;
      FlatOperandType(c, template);
      FlatOperandType(t, template);
      FlatOperandType(f, template);
      var x, y, z := OperandValues(c, template), OperandValues(t, template), OperandValues(f, template);
      FlatChoose(k, x, y, z);
      assert r == Rebuild(template, Choose(k, x, y, z).value);
      ListChoose(k, c, t, f, template, r);
    }
  }

  lemma FlatChoose(k: Kernels, c: Array, t: Array, f: Array)
    requires c.Flat? && t.Flat? && f.Flat? && Len(c) == Len(t) == Len(f) && Choose(k, c, t, f).Success?
    ensures EvalBranch(k, c, t, f) == Choose(k, c, t, f)
    ensures Choose(k, c, t, f).value.Flat? && ChooseHolds(k, c, t, f, Choose(k, c, t, f).value)
    ensures var kernel, r := k.choose(c.dtype, t.dtype, f.dtype), Choose(k, c, t, f).value;
      |r.cells| == |c.cells| && kernel.Success?
      && forall e :: 0 <= e < |r.cells| ==> kernel.value.apply([c.cells[e], t.cells[e], f.cells[e]]) == Some(r.cells[e])
  {
    var kernel := k.choose(c.dtype, t.dtype, f.dtype).value;
    var rows := Zip3(c.cells, t.cells, f.cells);
    var r := Apply(kernel, rows).value;
    hide Apply;
    forall e | 0 <= e < |r.cells| ensures kernel.apply([c.cells[e], t.cells[e], f.cells[e]]) == Some(r.cells[e]) {
      assert rows[e] == [c.cells[e], t.cells[e], f.cells[e]];
    }
  }

  lemma ListChoose(k: Kernels, c: Array, t: Array, f: Array, template: Array, r: Array)
    requires Proper(c) && Proper(t) && Proper(f) && Proper(template) && template.ListOf?
    requires OneDeep(c) && OneDeep(t) && OneDeep(f) && Len(c) == Len(t) == Len(f) == Len(template)
    requires (c.ListOf? ==> SameShape(c, template)) && (t.ListOf? ==> SameShape(t, template))
    requires f.ListOf? ==> SameShape(f, template)
    requires Proper(r) && r.ListOf? && r.items.Flat? && SameShape(template, r) && Len(r) == Len(template)
    requires var x, y, z := OperandValues(c, template), OperandValues(t, template), OperandValues(f, template);
      x.Flat? && y.Flat? && z.Flat? && Len(x) == Len(y) == Len(z) && Choose(k, x, y, z) == Success(r.items)
    ensures ChooseHolds(k, c, t, f, r)
  {
    hide Choose, OperandValues, At;
    FlatOperandType(c, template);
    FlatOperandType(t, template);
    FlatOperandType(f, template);
    FlatChoose(k, OperandValues(c, template), OperandValues(t, template), OperandValues(f, template));
    assert Beside(c, r) && Beside(t, r) && Beside(f, r);
    forall e: nat | e < Slots(r)
      ensures k.choose(ValueType(c), ValueType(t), ValueType(f)).value.apply([At(c, r, e), At(t, r, e), At(f, r, e)])
           == Some(At(r, r, e))
    {
      FlatOperand(c, template, r, e);
      FlatOperand(t, template, r, e);
      FlatOperand(f, template, r, e);
      AtOwn(r, e);
    }
  }

  // ----- values seen through an intermediate result

  /** The value of `m` that stands at a value of `r`. */
  function SlotIn(m: Array, r: Array, e: nat): (s: nat)
    requires Beside(m, r) && e < Slots(r)
    ensures s < Slots(m)
  {
    if m.Flat? && r.ListOf? then
      ParentsFit(r);
      ParentsOf(r)[e]
    else e
  }

  lemma BesideThrough(a: Array, m: Array, r: Array)
    requires Beside(a, m) && Beside(m, r)
    ensures Beside(a, r)
  {
  }

  lemma AtThrough(a: Array, m: Array, r: Array, e: nat)
    requires Beside(a, m) && Beside(m, r) && e < Slots(r)
    ensures Beside(a, r) && At(a, r, e) == At(a, m, SlotIn(m, r, e))
  {
    if m.ListOf? { assert ParentsOf(m) == ParentsOf(r); }
  }

  // ----- a whole CASE

  /** The kernels choose the second value where the first is true and the third everywhere else, up to what
      bringing both to one type does to a value. */
  ghost predicate Chooses(k: Kernels, same: (Value, Value) -> bool) {
    forall x, y, z, c, t, f |
      k.choose(x, y, z).Success? && k.choose(x, y, z).value.apply([c, t, f]).Some? ::
      same(if c == BoolV(true) then t else f, k.choose(x, y, z).value.apply([c, t, f]).value)
  }

  ghost predicate Equates(same: (Value, Value) -> bool) {
    (forall v :: same(v, v)) && forall u, v, w :: same(u, v) && same(v, w) ==> same(u, w)
  }

  ghost predicate BranchFits(k: Kernels, branch: Branch, batch: Batch)
    requires ValidBatch(batch)
  {
    && (Eval(k, branch.condition, batch).Success? ==> OneDeep(Eval(k, branch.condition, batch).value))
    && (Eval(k, branch.value, batch).Success? ==> OneDeep(Eval(k, branch.value, batch).value))
  }

  ghost predicate BranchBeside(k: Kernels, branch: Branch, batch: Batch, r: Array)
    requires ValidBatch(batch)
  {
    && Eval(k, branch.condition, batch).Success? && Beside(Eval(k, branch.condition, batch).value, r)
    && Eval(k, branch.value, batch).Success? && Beside(Eval(k, branch.value, batch).value, r)
  }

  ghost predicate AllBeside(k: Kernels, branches: seq<Branch>, batch: Batch, r: Array)
    requires ValidBatch(batch)
  {
    forall j :: 0 <= j < |branches| ==> BranchBeside(k, branches[j], batch, r)
  }

  ghost predicate TrueAt(k: Kernels, branch: Branch, batch: Batch, r: Array, e: nat)
    requires ValidBatch(batch) && BranchBeside(k, branch, batch, r) && e < Slots(r)
  {
    At(Eval(k, branch.condition, batch).value, r, e) == BoolV(true)
  }

  ghost function ValueAt(k: Kernels, branch: Branch, batch: Batch, r: Array, e: nat): Value
    requires ValidBatch(batch) && BranchBeside(k, branch, batch, r) && e < Slots(r)
  {
    At(Eval(k, branch.value, batch).value, r, e)
  }

  /** Every value is that of the first branch whose condition is true there, else that of the ELSE. */
  ghost predicate CaseHolds(
    k: Kernels, branches: seq<Branch>, otherwise: Array, batch: Batch, r: Array, same: (Value, Value) -> bool)
    requires ValidBatch(batch)
  {
    && Beside(otherwise, r) && AllBeside(k, branches, batch, r)
    && forall e: nat | e < Slots(r) :: CaseHoldsAt(k, branches, otherwise, batch, r, same, e)
  }

  ghost predicate CaseHoldsAt(
    k: Kernels, branches: seq<Branch>, otherwise: Array, batch: Batch, r: Array, same: (Value, Value) -> bool, e: nat)
    requires ValidBatch(batch) && Beside(otherwise, r) && e < Slots(r)
    requires AllBeside(k, branches, batch, r)
  {
    && (forall j | 0 <= j < |branches| && FirstTrue(k, branches, batch, r, e, j) ::
          same(ValueAt(k, branches[j], batch, r, e), At(r, r, e)))
    && ((forall j :: 0 <= j < |branches| ==> !TrueAt(k, branches[j], batch, r, e)) ==> same(At(otherwise, r, e), At(r, r, e)))
  }

  ghost predicate FirstTrue(k: Kernels, branches: seq<Branch>, batch: Batch, r: Array, e: nat, j: nat)
    requires ValidBatch(batch) && e < Slots(r) && j < |branches|
    requires AllBeside(k, branches, batch, r)
  {
    TrueAt(k, branches[j], batch, r, e) && forall i :: 0 <= i < j ==> !TrueAt(k, branches[i], batch, r, e)
  }

  lemma {:induction false} BranchesMeaning(
    k: Kernels, branches: seq<Branch>, result: Array, batch: Batch, same: (Value, Value) -> bool)
    requires ValidBatch(batch) && Proper(result) && Len(result) == batch.rows && OneDeep(result)
    requires EvalBranches(k, branches, result, batch).Success? && Chooses(k, same) && Equates(same)
    requires forall j :: 0 <= j < |branches| ==> BranchFits(k, branches[j], batch)
    ensures CaseHolds(k, branches, result, batch, EvalBranches(k, branches, result, batch).value, same)
    decreases |branches|
  {
    hide EvalOne, CaseHolds, ValidBatch, Proper, Chooses, Equates, BranchFits;
    if branches == [] {
      NoBranches(k, result, batch, same);
    } else {
      var last := |branches| - 1;
      var chosen := EvalOne(k, branches[last], result, batch).value;
      OneBranch(k, branches[last], result, batch);
      BranchesMeaning(k, branches[..last], chosen, batch, same);
      var r := EvalBranches(k, branches, result, batch).value;
      BranchBehind(k, branches, result, chosen, batch, r, same);
    }
  }

  lemma NoBranches(k: Kernels, result: Array, batch: Batch, same: (Value, Value) -> bool)
    requires ValidBatch(batch) && Proper(result) && OneDeep(result) && Equates(same)
    ensures CaseHolds(k, [], result, batch, result, same)
  {
  }

  /** One branch in front of what was chosen so far. */
  ghost predicate OneHolds(k: Kernels, branch: Branch, result: Array, batch: Batch, chosen: Array)
    requires ValidBatch(batch)
  {
    && BranchBeside(k, branch, batch, chosen) && OneDeep(chosen)
    && ChooseHolds(k, Eval(k, branch.condition, batch).value, Eval(k, branch.value, batch).value, result, chosen)
  }

  lemma OneBranch(k: Kernels, branch: Branch, result: Array, batch: Batch)
    requires ValidBatch(batch) && Proper(result) && Len(result) == batch.rows && OneDeep(result)
    requires EvalOne(k, branch, result, batch).Success? && BranchFits(k, branch, batch)
    ensures OneHolds(k, branch, result, batch, EvalOne(k, branch, result, batch).value)
  {
    hide Eval, EvalBranch, ValidBatch, Proper;
    ChooseMeaning(k, Eval(k, branch.condition, batch).value, Eval(k, branch.value, batch).value, result);
  }

  lemma BranchBehind(
    k: Kernels, branches: seq<Branch>, result: Array, chosen: Array, batch: Batch, r: Array, same: (Value, Value) -> bool)
    requires ValidBatch(batch) && branches != [] && Chooses(k, same) && Equates(same)
    requires OneHolds(k, branches[|branches| - 1], result, batch, chosen)
    requires CaseHolds(k, branches[..|branches| - 1], chosen, batch, r, same)
    ensures CaseHolds(k, branches, result, batch, r, same)
  {
    hide Eval, ValidBatch, At, Beside, Slots, Chooses, Equates, CaseHoldsAt;
    var last := |branches| - 1;
    BesideThrough(result, chosen, r);
    BesideThrough(Eval(k, branches[last].condition, batch).value, chosen, r);
    BesideThrough(Eval(k, branches[last].value, batch).value, chosen, r);
    assert forall j :: 0 <= j < last ==> branches[..last][j] == branches[j];
    forall j | 0 <= j < |branches| ensures BranchBeside(k, branches[j], batch, r) {
      if j < last { assert BranchBeside(k, branches[..last][j], batch, r); }
    }
    forall e: nat | e < Slots(r) ensures CaseHoldsAt(k, branches, result, batch, r, same, e) {
      ChosenBehind(k, branches, result, chosen, batch, r, same, e);
    }
  }

  lemma ChosenBehind(
    k: Kernels, branches: seq<Branch>, result: Array, chosen: Array, batch: Batch, r: Array, same: (Value, Value) -> bool, e: nat)
    requires ValidBatch(batch) && branches != [] && Chooses(k, same) && Equates(same) && e < Slots(r)
    requires OneHolds(k, branches[|branches| - 1], result, batch, chosen)
    requires Beside(chosen, r) && Beside(result, r) && AllBeside(k, branches, batch, r)
    requires AllBeside(k, branches[..|branches| - 1], batch, r)
    requires CaseHoldsAt(k, branches[..|branches| - 1], chosen, batch, r, same, e)
    ensures CaseHoldsAt(k, branches, result, batch, r, same, e)
  {
    hide Eval, ValidBatch, At, Beside, Slots, Chooses, Equates, SlotIn;
    var last := |branches| - 1;
    var init := branches[..last];
    assert forall j :: 0 <= j < last ==> init[j] == branches[j];
    StepChooses(k, branches[last], result, batch, chosen, r, same, e);
    BesideItself(chosen, r);
    forall j | 0 <= j < last ensures FirstTrue(k, init, batch, r, e, j) <==> FirstTrue(k, branches, batch, r, e, j) {
      assert init[j] == branches[j] && forall i :: 0 <= i < j ==> init[i] == branches[i];
    }
    if forall j :: 0 <= j < last ==> !TrueAt(k, init[j], batch, r, e) {
      var target := if TrueAt(k, branches[last], batch, r, e) then ValueAt(k, branches[last], batch, r, e) else At(result, r, e);
      assert same(target, At(chosen, r, e)) && same(At(chosen, r, e), At(r, r, e));
      SameThrough(same, target, At(chosen, r, e), At(r, r, e));
    }
  }

  lemma SameThrough(same: (Value, Value) -> bool, u: Value, v: Value, w: Value)
    requires Equates(same) && same(u, v) && same(v, w)
    ensures same(u, w)
  {
  }

  /** What stands in front of a value of the final result. */
  lemma StepChooses(
    k: Kernels, branch: Branch, result: Array, batch: Batch, chosen: Array, r: Array, same: (Value, Value) -> bool, e: nat)
    requires ValidBatch(batch) && Chooses(k, same) && e < Slots(r) && Beside(chosen, r) && Beside(result, r)
    requires OneHolds(k, branch, result, batch, chosen) && BranchBeside(k, branch, batch, r)
    ensures same(if TrueAt(k, branch, batch, r, e) then ValueAt(k, branch, batch, r, e) else At(result, r, e), At(chosen, r, e))
  {
    hide Eval, ValidBatch, At, Beside, Slots, SlotIn;
    var c, t := Eval(k, branch.condition, batch).value, Eval(k, branch.value, batch).value;
    var s := SlotIn(chosen, r, e);
    AtThrough(c, chosen, r, e);
    AtThrough(t, chosen, r, e);
    AtThrough(result, chosen, r, e);
    BesideItself(chosen, r);
    AtThrough(chosen, chosen, r, e);
    var kernel := k.choose(ValueType(c), ValueType(t), ValueType(result)).value;
    assert kernel.apply([At(c, chosen, s), At(t, chosen, s), At(result, chosen, s)]) == Some(At(chosen, chosen, s));
  }

  lemma BesideItself(m: Array, r: Array)
    requires Beside(m, r)
    ensures Beside(m, m) && Beside(r, r)
  {
  }

  // ----- expressions

  /** A CASE over scalars and lists of scalars: every value, of a row or of a list element, is that of the
      first branch whose condition is true there, and of the ELSE where none is. */
  lemma CaseMeaning(k: Kernels, branches: seq<Branch>, otherwise: Node, batch: Batch, same: (Value, Value) -> bool)
    requires ValidBatch(batch) && Eval(k, Case(branches, otherwise), batch).Success? && Chooses(k, same) && Equates(same)
    requires Eval(k, otherwise, batch).Success? ==> OneDeep(Eval(k, otherwise, batch).value)
    requires forall j :: 0 <= j < |branches| ==> BranchFits(k, branches[j], batch)
    ensures Eval(k, otherwise, batch).Success?
    ensures CaseHolds(k, branches, Eval(k, otherwise, batch).value, batch, Eval(k, Case(branches, otherwise), batch).value, same)
  {
    hide EvalBranches, ValidBatch, Chooses, Equates, CaseHolds, BranchFits;
    BranchesMeaning(k, branches, Eval(k, otherwise, batch).value, batch, same);
  }

  /** A binary operation over scalars and lists of scalars: every value is the kernel's on the left value and
      the right value, in that order. */
  lemma BinaryNodeMeaning(k: Kernels, op: string, left: Node, right: Node, batch: Batch)
    requires ValidBatch(batch) && Eval(k, Binary(op, left, right), batch).Success?
    requires Eval(k, left, batch).Success? ==> OneDeep(Eval(k, left, batch).value)
    requires Eval(k, right, batch).Success? ==> OneDeep(Eval(k, right, batch).value)
    ensures Eval(k, left, batch).Success? && Eval(k, right, batch).Success?
    ensures BinaryHolds(k, op, Eval(k, left, batch).value, Eval(k, right, batch).value, Eval(k, Binary(op, left, right), batch).value)
  {
    hide EvalBinary, ValidBatch;
    BinaryMeaning(k, op, Eval(k, left, batch).value, Eval(k, right, batch).value);
  }

  /** A unary operation over scalars: `+` keeps the values, the others are the kernel's, row by row. */
  lemma UnaryNodeMeaning(k: Kernels, op: UnaryOp, operand: Node, batch: Batch)
    requires ValidBatch(batch) && Eval(k, Unary(op, operand), batch).Success?
    ensures Eval(k, operand, batch).Success?
    ensures var a, r := Eval(k, operand, batch).value, Eval(k, Unary(op, operand), batch).value;
      if op == Positive then r == a
      else
        a.Flat? && r.Flat? && |r.cells| == |a.cells| && k.unary(op, a.dtype).Success?
        && forall e :: 0 <= e < |r.cells| ==> k.unary(op, a.dtype).value.apply([a.cells[e]]) == Some(r.cells[e])
  {
    hide ValidBatch, Apply;
    var a := Eval(k, operand, batch).value;
    if op != Positive {
      var rows := seq(|a.cells|, i requires 0 <= i < |a.cells| => [a.cells[i]]);
      assert forall e :: 0 <= e < |a.cells| ==> rows[e] == [a.cells[e]];
    }
  }

  /** A call hands its function the values of its arguments, each in its place. */
  lemma CallNodeMeaning(k: Kernels, name: string, arguments: seq<Node>, batch: Batch) returns (values: seq<Array>)
    requires ValidBatch(batch) && Eval(k, Call(name, arguments), batch).Success?
    ensures |values| == |arguments|
    ensures forall i :: 0 <= i < |arguments| ==> Eval(k, arguments[i], batch) == Success(values[i])
    ensures Eval(k, Call(name, arguments), batch) == k.call(name, values, batch.rows)
  {
    hide ValidBatch;
    values := EvalAll(k, arguments, batch).value;
    AllMeaning(k, arguments, batch);
  }

  lemma {:induction false} AllMeaning(k: Kernels, nodes: seq<Node>, batch: Batch)
    requires ValidBatch(batch) && EvalAll(k, nodes, batch).Success?
    ensures var values := EvalAll(k, nodes, batch).value;
      |values| == |nodes| && forall i :: 0 <= i < |nodes| ==> Eval(k, nodes[i], batch) == Success(values[i])
    decreases |nodes|
  {
    hide Eval, ValidBatch;
    if nodes != [] {
      AllMeaning(k, nodes[1..], batch);
      var rest := EvalAll(k, nodes[1..], batch).value;
      forall i | 0 < i < |nodes| ensures Eval(k, nodes[i], batch) == Success(rest[i - 1]) { assert nodes[i] == nodes[1..][i - 1]; }
    }
  }
}
