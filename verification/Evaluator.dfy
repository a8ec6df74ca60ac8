/** Evaluating an expression over a record batch (native/engine/src/expression_executor.rs). What Arrow and
    the function library do to single values is left to `Kernels`; the executor's own walk over the
    expression, its list broadcasting and its error cases are modelled. */
module Evaluator {
  import opened Wrappers
  import opened Ast
  import opened Columns
  import opened ListRows

  /** A kernel that works row by row: the result type, and the value of a row or no value when the row
      makes the whole kernel fail. */
  datatype Elementwise = Elementwise(dtype: string, apply: seq<Value> -> Option<Value>)

  /** Kernels by operator and operand types. The whole-column ones see their arguments and the row count;
      a window's order columns are passed as results because only some functions look at them. */
  datatype Kernels = Kernels(
    literal: (string, Value) -> Result<(string, Value), EvalError>,
    unary: (UnaryOp, string) -> Result<Elementwise, EvalError>,
    binary: (string, string, string) -> Result<Elementwise, EvalError>,
    choose: (string, string, string) -> Result<Elementwise, EvalError>,
    chooseLists: (Array, Array, Array) -> Result<Array, EvalError>,
    cast: (Array, string) -> Result<Array, EvalError>,
    call: (string, seq<Array>, nat) -> Result<Array, EvalError>,
    window: (string, seq<Array>, seq<Array>, seq<Result<Array, EvalError>>, seq<(string, string)>, Option<string>, nat)
      -> Result<Array, EvalError>)

  // ----- row-wise kernels

  function Apply(kernel: Elementwise, rows: seq<seq<Value>>): (r: Result<Array, EvalError>)
    ensures r.Success? ==> r.value.Flat? && |r.value.cells| == |rows| && r.value.dtype == kernel.dtype
    ensures r.Success? ==> forall i :: 0 <= i < |rows| ==> kernel.apply(rows[i]) == Some(r.value.cells[i])
    ensures r.Success? <==> forall i :: 0 <= i < |rows| ==> kernel.apply(rows[i]).Some?
  {
    if exists i :: 0 <= i < |rows| && kernel.apply(rows[i]).None? then Failure(KernelFailed)
    else Success(Flat(kernel.dtype, seq(|rows|, i requires 0 <= i < |rows| => kernel.apply(rows[i]).value)))
  }

  function Zip2(a: seq<Value>, b: seq<Value>): (rows: seq<seq<Value>>)
    requires |a| == |b|
    ensures |rows| == |a| && forall i :: 0 <= i < |a| ==> rows[i] == [a[i], b[i]]
  {
    seq(|a|, i requires 0 <= i < |a| => [a[i], b[i]])
  }

  function Zip3(a: seq<Value>, b: seq<Value>, c: seq<Value>): (rows: seq<seq<Value>>)
    requires |a| == |b| == |c|
    ensures |rows| == |a| && forall i :: 0 <= i < |a| ==> rows[i] == [a[i], b[i], c[i]]
  {
    seq(|a|, i requires 0 <= i < |a| => [a[i], b[i], c[i]])
  }

  /** A whole-column kernel's result, which must be as long as the batch. */
  function OfLength(r: Result<Array, EvalError>, rows: nat): (checked: Result<Array, EvalError>)
    ensures checked.Success? ==> Proper(checked.value) && Len(checked.value) == rows && r == checked
  {
    if r.Success? && !(Proper(r.value) && Len(r.value) == rows) then Failure(LengthMismatch) else r
  }

  function EvalUnary(k: Kernels, op: UnaryOp, a: Array): (r: Result<Array, EvalError>)
    requires Proper(a)
    ensures r.Success? ==> Proper(r.value) && Len(r.value) == Len(a)
  {
    if op == Positive then Success(a)
    else if a.ListOf? then Failure(Unsupported)
    else
      var kernel :- k.unary(op, a.dtype);
      Apply(kernel, seq(|a.cells|, i requires 0 <= i < |a.cells| => [a.cells[i]]))
  }

  // ----- list broadcasting

  /** `list_template`: the first list, after checking that all lists have its offsets and null rows. */
  function Template(operands: seq<Array>): (r: Result<Array, EvalError>)
    requires exists a :: a in operands && a.ListOf?
    ensures r.Success? ==> r.value.ListOf? && r.value in operands
    ensures r.Success? ==> forall a :: a in operands && a.ListOf? ==> SameShape(a, r.value)
    ensures r.Success? || exists a, b :: a in operands && b in operands && a.ListOf? && b.ListOf? && !SameShape(a, b)
  {
    var first := FirstList(operands);
    if forall a :: a in operands && a.ListOf? ==> SameShape(a, first) then Success(first) else Failure(ShapeMismatch)
  }

  function FirstList(operands: seq<Array>): (r: Array)
    requires exists a :: a in operands && a.ListOf?
    ensures r in operands && r.ListOf?
  {
    if operands[0].ListOf? then operands[0] else FirstList(operands[1..])
  }

  /** `list_operand_values`: a list's values, or a scalar column repeated for each value of its row. Every
      operand is as long as the batch, so the source's length check cannot fail. */
  function OperandValues(a: Array, template: Array): (r: Array)
    requires Proper(a) && Proper(template) && template.ListOf? && Len(a) == Len(template)
    requires a.ListOf? ==> SameShape(a, template)
    ensures Proper(r) && Len(r) == Len(template.items)
  {
    if a.ListOf? then a.items else Take(a, ParentsOf(template))
  }

  /** `rebuild_list`. */
  function Rebuild(template: Array, values: Array): (r: Array)
    requires Proper(template) && template.ListOf? && Proper(values) && Len(values) == Len(template.items)
    ensures Proper(r) && Len(r) == Len(template)
  {
    ListOf(template.offsets, template.valid, values)
  }

  /** `evaluate_binary` and `evaluate_list_binary`. */
  function EvalBinary(k: Kernels, op: string, a: Array, b: Array): (r: Result<Array, EvalError>)
    requires Proper(a) && Proper(b) && Len(a) == Len(b)
    ensures r.Success? ==> Proper(r.value) && Len(r.value) == Len(a)
    decreases Depth(a) + Depth(b)
  {
    if a.Flat? && b.Flat? then
      var kernel :- k.binary(op, a.dtype, b.dtype);
      Apply(kernel, Zip2(a.cells, b.cells))
    else
      assert a in [a, b] && b in [a, b];
      var template :- Template([a, b]);
      var values :- EvalBinary(k, op, OperandValues(a, template), OperandValues(b, template));
      Success(Rebuild(template, values))
  }

  /** The condition must be Boolean; the branches are brought to one type. */
  function Choose(k: Kernels, condition: Array, truthy: Array, falsy: Array): (r: Result<Array, EvalError>)
    requires Proper(condition) && Proper(truthy) && Proper(falsy) && Len(condition) == Len(truthy) == Len(falsy)
    ensures r.Success? ==> Proper(r.value) && Len(r.value) == Len(condition)
  {
    if condition.Flat? && truthy.Flat? && falsy.Flat? then
      var kernel :- k.choose(condition.dtype, truthy.dtype, falsy.dtype);
      Apply(kernel, Zip3(condition.cells, truthy.cells, falsy.cells))
    else OfLength(k.chooseLists(condition, truthy, falsy), Len(condition))
  }

  /** `evaluate_case_branch`. */
  function EvalBranch(k: Kernels, condition: Array, truthy: Array, falsy: Array): (r: Result<Array, EvalError>)
    requires Proper(condition) && Proper(truthy) && Proper(falsy) && Len(condition) == Len(truthy) == Len(falsy)
    ensures r.Success? ==> Proper(r.value) && Len(r.value) == Len(condition)
  {
    if condition.Flat? && truthy.Flat? && falsy.Flat? then Choose(k, condition, truthy, falsy)
    else
      var all := [condition, truthy, falsy];
      assert condition in all && truthy in all && falsy in all;
      var template :- Template(all);
      var values :- Choose(k, OperandValues(condition, template), OperandValues(truthy, template), OperandValues(falsy, template));
      Success(Rebuild(template, values))
  }

  // ----- evaluation

  predicate Fits(r: Result<Array, EvalError>, rows: nat) { r.Success? ==> Proper(r.value) && Len(r.value) == rows }

  /** `evaluate_node`. */
  function Eval(k: Kernels, node: Node, batch: Batch): (r: Result<Array, EvalError>)
    requires ValidBatch(batch)
    ensures Fits(r, batch.rows)
    decreases node, 1
  {
    match node
    case Column(name) =>
      LookupFits(batch, name);
      var found := Lookup(batch, name);
      if found.None? then Failure(MissingColumn) else Success(found.value)
    case Literal(dtype, value) =>
      var cell :- k.literal(dtype, value);
      Success(Flat(cell.0, seq(batch.rows, _ => cell.1)))
    case Alias(_, aliased) => Eval(k, aliased, batch)
    case Unary(operator, operand) =>
      var value :- Eval(k, operand, batch);
      EvalUnary(k, operator, value)
    case Binary(op, left, right) =>
      var a :- Eval(k, left, batch);
      var b :- Eval(k, right, batch);
      EvalBinary(k, op, a, b)
    case Call(name, arguments) =>
      var values :- EvalAll(k, arguments, batch);
      OfLength(k.call(name, values, batch.rows), batch.rows)
    case Case(branches, otherwise) =>
      var last :- Eval(k, otherwise, batch);
      EvalBranches(k, branches, last, batch)
    case Cast(inner, target) =>
      var value :- Eval(k, inner, batch);
      OfLength(k.cast(value, target), batch.rows)
    case Window(body, partitions, orders, frame) =>
      if !body.Call? then Failure(Unsupported)
      else
        var values :- EvalAll(k, body.arguments, batch);
        var groups :- EvalAll(k, partitions, batch);
        OfLength(
          k.window(body.function_, values, groups, EvalOrders(k, orders, batch), Directions(orders), frame, batch.rows),
          batch.rows)
  }

  function EvalAll(k: Kernels, nodes: seq<Node>, batch: Batch): (r: Result<seq<Array>, EvalError>)
    requires ValidBatch(batch)
    decreases nodes, 0
  {
    if nodes == [] then Success([])
    else
      var first :- Eval(k, nodes[0], batch);
      var rest :- EvalAll(k, nodes[1..], batch);
      Success([first] + rest)
  }

  /** The branches from the last to the first. */
  function EvalBranches(k: Kernels, branches: seq<Branch>, result: Array, batch: Batch): (r: Result<Array, EvalError>)
    requires ValidBatch(batch) && Proper(result) && Len(result) == batch.rows
    ensures Fits(r, batch.rows)
    decreases branches, 0
  {
    if branches == [] then Success(result)
    else
      var chosen :- EvalOne(k, branches[|branches| - 1], result, batch);
      EvalBranches(k, branches[..|branches| - 1], chosen, batch)
  }

  function EvalOne(k: Kernels, branch: Branch, result: Array, batch: Batch): (r: Result<Array, EvalError>)
    requires ValidBatch(batch) && Proper(result) && Len(result) == batch.rows
    ensures Fits(r, batch.rows)
    decreases branch, 0
  {
    var condition :- Eval(k, branch.condition, batch);
    var truthy :- Eval(k, branch.value, batch);
    EvalBranch(k, condition, truthy, result)
  }

  function EvalOrders(k: Kernels, orders: seq<WindowOrder>, batch: Batch): (r: seq<Result<Array, EvalError>>)
    requires ValidBatch(batch)
    decreases orders, 0
  {
    if orders == [] then [] else [EvalOrder(k, orders[0], batch)] + EvalOrders(k, orders[1..], batch)
  }

  function EvalOrder(k: Kernels, order: WindowOrder, batch: Batch): Result<Array, EvalError>
    requires ValidBatch(batch)
    decreases order, 0
  {
    Eval(k, order.expression, batch)
  }

  function Directions(orders: seq<WindowOrder>): seq<(string, string)> {
    seq(|orders|, i requires 0 <= i < |orders| => (orders[i].direction, orders[i].nulls))
  }

  // ----- the columns an expression refers to

  function PushNew(names: seq<string>, name: string): seq<string> { if name in names then names else names + [name] }

  /** `collect_node_columns`. */
  function Collect(node: Node, names: seq<string>): seq<string>
    decreases node, 1
  {
    match node
    case Column(name) => PushNew(names, name)
    case Literal(_, _) => names
    case Alias(_, aliased) => Collect(aliased, names)
    case Unary(_, operand) => Collect(operand, names)
    case Cast(inner, _) => Collect(inner, names)
    case Binary(_, left, right) => Collect(right, Collect(left, names))
    case Call(_, arguments) => CollectAll(arguments, names)
    case Case(branches, otherwise) => Collect(otherwise, CollectBranches(branches, names))
    case Window(body, partitions, orders, _) => CollectOrders(orders, CollectAll(partitions, Collect(body, names)))
  }

  function CollectAll(nodes: seq<Node>, names: seq<string>): seq<string>
    decreases nodes, 0
  {
    if nodes == [] then names else CollectAll(nodes[1..], Collect(nodes[0], names))
  }

  function CollectBranches(branches: seq<Branch>, names: seq<string>): seq<string>
    decreases branches, 0
  {
    if branches == [] then names
    else CollectBranches(branches[1..], CollectBranch(branches[0], names))
  }

  function CollectBranch(branch: Branch, names: seq<string>): seq<string>
    decreases branch, 0
  {
    Collect(branch.value, Collect(branch.condition, names))
  }

  function CollectOrders(orders: seq<WindowOrder>, names: seq<string>): seq<string>
    decreases orders, 0
  {
    if orders == [] then names else CollectOrders(orders[1..], CollectOrder(orders[0], names))
  }

  function CollectOrder(order: WindowOrder, names: seq<string>): seq<string>
    decreases order, 0
  {
    Collect(order.expression, names)
  }

  function Refs(node: Node): seq<string> { Collect(node, []) }

  // ----- list paths

  const NATIVE_OPERATORS := {"+", "-", "*", "/", "%", "=", "!=", "<", "<=", ">", ">=", "and", "or"}

  /** `node_supports_list_native`. */
  predicate SupportsNative(node: Node) {
    match node
    case Column(_) => true
    case Literal(_, _) => true
    case Alias(_, aliased) => SupportsNative(aliased)
    case Binary(op, left, right) => op in NATIVE_OPERATORS && SupportsNative(left) && SupportsNative(right)
    case Case(branches, otherwise) =>
      (forall branch :: branch in branches ==> SupportsNative(branch.condition) && SupportsNative(branch.value))
      && SupportsNative(otherwise)
    case _ => false
  }

  /** `node_contains_window`. */
  predicate ContainsWindow(node: Node) {
    match node
    case Window(_, _, _, _) => true
    case Alias(_, aliased) => ContainsWindow(aliased)
    case Unary(_, operand) => ContainsWindow(operand)
    case Cast(inner, _) => ContainsWindow(inner)
    case Binary(_, left, right) => ContainsWindow(left) || ContainsWindow(right)
    case Call(_, arguments) => exists argument :: argument in arguments && ContainsWindow(argument)
    case Case(branches, otherwise) =>
      (exists branch :: branch in branches && (ContainsWindow(branch.condition) || ContainsWindow(branch.value)))
      || ContainsWindow(otherwise)
    case _ => false
  }

  /** The referenced columns that are lists, in order of first mention. */
  function ListRefs(names: seq<string>, batch: Batch): (r: seq<string>)
    ensures forall name :: name in r <==> name in names && IsList(batch, name)
  {
    if names == [] then []
    else
      var last := |names| - 1;
      ListRefs(names[..last], batch) + if IsList(batch, names[last]) then [names[last]] else []
  }

  predicate IsList(batch: Batch, name: string) {
    Lookup(batch, name).Some? && Lookup(batch, name).value.ListOf?
  }

  /** Expand, evaluate, compact. */
  function EvalExpanded(k: Kernels, node: Node, batch: Batch): (r: Result<Array, EvalError>)
    requires ValidBatch(batch)
  {
    var (expanded, shape) :- Expand(batch, ListRefs(Refs(node), batch));
    var values :- Eval(k, node, expanded);
    Compact(values, shape)
  }

  /** `evaluate_expression`. */
  function Evaluate(k: Kernels, node: Node, batch: Batch): Result<Array, EvalError>
    requires ValidBatch(batch)
  {
    if ListRefs(Refs(node), batch) == [] || SupportsNative(node) then Eval(k, node, batch)
    else if ContainsWindow(node) then Failure(WindowOverList)
    else EvalExpanded(k, node, batch)
  }
}
