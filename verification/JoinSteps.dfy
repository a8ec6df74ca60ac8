/** Everything a join task does to its left rows, as a list of steps. A step is resolved against the
    schema once and then acts on each row by itself, so a list of steps may be run batch by batch. */
module JoinSteps {
  import opened Wrappers
  import opened Tables
  import opened HashJoin
  import opened JoinRows

  /** A column policy; `matches` is the list of regular expressions, taken together. */
  datatype ColumnPolicy = ColumnPolicy(included: seq<string>, excluded: set<string>, regex: Option<string -> bool>)

  /** A JSON key value: null, or the text it is compared by. */
  datatype Json = JsonNull | JsonText(text: string)

  type KeyRecord = map<string, Json>

  datatype Step =
    | Select(policy: ColumnPolicy, required: seq<string>)
    | FilterValue(column: string, value: string)
    | FilterKeys(columns: seq<string>, records: seq<KeyRecord>)
    | JoinWith(source: Source, right: Table, helper: Option<string>)
    | IncludeColumns(names: seq<string>)
    | ExcludeColumns(excluded: set<string>)
    | RenameColumns(mapping: map<string, string>)
    | SetPartition(partition: string, stamp: string)

  predicate StepValid(step: Step) {
    step.JoinWith? ==> HasKeys(step.source) && step.right.Valid() && !KeepsRight(step.source.how)
  }

  // ----- what a step does to a row

  datatype Action =
    | Keep(columns: seq<nat>)
    | KeepIfText(column: nat, value: string)
    | KeepIfKey(keyColumns: seq<nat>, allowed: set<string>)
    | JoinEach(plan: Plan, right: seq<Row>)
    | Overwrite(target: nat, stamp: string)
    | Append(tail: string)

  predicate Acts(action: Action, width: nat, width': nat) {
    match action
    case Keep(columns) => Within(columns, width) && width' == |columns|
    case KeepIfText(column, _) => column < width && width' == width
    case KeepIfKey(columns, _) => Within(columns, width) && width' == width
    case JoinEach(plan, right) =>
      Fits(plan) && plan.leftWidth == width && |plan.schema| == width' && AllWide(right, plan.rightWidth)
    case Overwrite(target, _) => target < width && width' == width
    case Append(_) => width' == width + 1
  }

  function Act(action: Action, row: Row, ghost width': nat): (rows: seq<Row>)
    requires Acts(action, |row|, width')
    ensures AllWide(rows, width')
  {
    match action
    case Keep(columns) => [Gather(row, columns)]
    case KeepIfText(column, value) => if row[column] == Val(value) then [row] else []
    case KeepIfKey(columns, allowed) => if RowKey(Gather(row, columns)) in allowed then [row] else []
    case JoinEach(plan, right) => JoinRow(plan, row, right)
    case Overwrite(target, stamp) => [row[target := Val(stamp)]]
    case Append(tail) => [row + [Val(tail)]]
  }

  function ActAll(action: Action, rows: seq<Row>, width: nat, ghost width': nat): (out: seq<Row>)
    requires AllWide(rows, width) && Acts(action, width, width')
    ensures AllWide(out, width')
  {
    if rows == [] then []
    else ActAll(action, rows[..|rows| - 1], width, width') + Act(action, rows[|rows| - 1], width')
  }

  lemma {:induction false} ActAllConcat(action: Action, xs: seq<Row>, ys: seq<Row>, width: nat, width': nat)
    requires AllWide(xs, width) && AllWide(ys, width) && Acts(action, width, width')
    ensures AllWide(xs + ys, width)
    ensures ActAll(action, xs + ys, width, width') == ActAll(action, xs, width, width') + ActAll(action, ys, width, width')
  {
    hide Act, Acts;
    if ys == [] {
      assert xs + ys == xs;
    } else {
      var last := |ys| - 1;
      assert (xs + ys)[..|xs + ys| - 1] == xs + ys[..last];
      ActAllConcat(action, xs, ys[..last], width, width');
    }
  }

  // ----- resolving a step against a schema

  function Names(schema: Schema): (names: seq<string>)
    ensures |names| == |schema|
    ensures forall i :: 0 <= i < |schema| ==> names[i] == schema[i].name
  {
    seq(|schema|, i requires 0 <= i < |schema| => schema[i].name)
  }

  predicate RegexMatches(policy: ColumnPolicy, name: string) {
    policy.regex.Some? && policy.regex.value(name)
  }

  /** The names matched by the regular expressions that are not chosen yet, in order. */
  function Matching(policy: ColumnPolicy, names: seq<string>, chosen: seq<string>): (r: seq<string>)
    decreases |names|
  {
    if names == [] then chosen
    else if RegexMatches(policy, names[0]) && names[0] !in chosen then
      Matching(policy, names[1..], chosen + [names[0]])
    else Matching(policy, names[1..], chosen)
  }

  function Without(names: seq<string>, excluded: set<string>): (r: seq<string>)
    ensures forall name :: name in r <==> name in names && name !in excluded
  {
    if names == [] then []
    else (if names[0] in excluded then [] else [names[0]]) + Without(names[1..], excluded)
  }

  function WithRequired(names: seq<string>, required: seq<string>): (r: seq<string>)
    ensures forall name :: name in r <==> name in names || name in required
    decreases |required|
  {
    if required == [] then names
    else WithRequired(if required[0] in names then names else names + [required[0]], required[1..])
  }

  /** `selected_column_names`. */
  function SelectedNames(names: seq<string>, policy: ColumnPolicy, required: seq<string>): Result<seq<string>, JoinError> {
    if exists name :: name in required && name !in names then Failure(ColumnNotFound)
    else if exists name :: name in required && name in policy.excluded then Failure(RequiredExcluded)
    else
      var chosen :=
        if policy.included == [] && policy.regex.None? then names else Matching(policy, names, policy.included);
      if exists name :: name in chosen && name !in names then Failure(ColumnNotFound)
      else Success(WithRequired(Without(chosen, policy.excluded), required))
  }

  function KeepNames(schema: Schema, names: seq<string>): (r: Result<(Action, Schema), JoinError>)
    ensures r.Success? ==> Acts(r.value.0, |schema|, |r.value.1|) && |r.value.1| == |names|
  {
    match IndexesOf(schema, names)
    case None => Failure(ColumnNotFound)
    case Some(columns) =>
      if columns == [] then Failure(NoColumns)
      else
        assert forall i :: 0 <= i < |columns| ==> IndexOf(schema, names[i]) == Some(columns[i]);
        Success((Keep(columns), seq(|columns|, i requires 0 <= i < |columns| => schema[columns[i]])))
  }

  /** Positions of the fields whose name is not excluded. */
  function Remaining(schema: Schema, excluded: set<string>, k: nat): (columns: seq<nat>)
    requires k <= |schema|
    ensures Within(columns, |schema|)
    decreases |schema| - k
  {
    if k == |schema| then []
    else (if schema[k].name in excluded then [] else [k]) + Remaining(schema, excluded, k + 1)
  }

  function Renamed(mapping: map<string, string>, name: string): string {
    if name in mapping then mapping[name] else name
  }

  function AllowedKeys(columns: seq<string>, records: seq<KeyRecord>): set<string> {
    set i | 0 <= i < |records| :: RowKey(KeyCells(columns, records[i]))
  }

  /** A key record's values, as cells that print like the values they are compared with. */
  function KeyCells(columns: seq<string>, record: KeyRecord): (cells: seq<Cell>)
    ensures |cells| == |columns|
  {
    seq(|columns|, i requires 0 <= i < |columns| => KeyCell(record, columns[i]))
  }

  function KeyCell(record: KeyRecord, column: string): Cell {
    if column in record && record[column].JsonText? then Val(record[column].text) else Null
  }

  function Resolve(step: Step, schema: Schema): (r: Result<(Action, Schema), JoinError>)
    requires StepValid(step)
    ensures r.Success? ==> Acts(r.value.0, |schema|, |r.value.1|)
  {
    match step
    case Select(policy, required) =>
      var names :- SelectedNames(Names(schema), policy, required);
      KeepNames(schema, names)
    case FilterValue(column, value) =>
      (match IndexOf(schema, column)
       case None => Failure(ColumnNotFound)
       case Some(c) => Success((KeepIfText(c, value), schema)))
    case FilterKeys(columns, records) =>
      (match IndexesOf(schema, columns)
       case None => Failure(ColumnNotFound)
       case Some(cs) =>
         assert forall i :: 0 <= i < |cs| ==> IndexOf(schema, columns[i]) == Some(cs[i]);
         Success((KeepIfKey(cs, AllowedKeys(columns, records)), schema)))
    case JoinWith(source, right, helper) =>
      var plan :- PlanJoin(schema, right.schema, source, helper);
      Success((JoinEach(plan, right.rows), plan.schema))
    case IncludeColumns(names) => KeepNames(schema, names)
    case ExcludeColumns(excluded) =>
      var columns := Remaining(schema, excluded, 0);
      if columns == [] then Failure(NoColumns)
      else Success((Keep(columns), seq(|columns|, i requires 0 <= i < |columns| => schema[columns[i]])))
    case RenameColumns(mapping) =>
      var renamed := seq(|schema|, i requires 0 <= i < |schema| => Field(Renamed(mapping, schema[i].name), schema[i].dtype));
      if exists i, j :: 0 <= i < j < |schema| && renamed[i].name == renamed[j].name then Failure(NameCollision)
      else if schema == [] then Failure(NoColumns)
      else Success((Keep(seq(|schema|, i => i)), renamed))
    case SetPartition(column, stamp) =>
      (match IndexOf(schema, column)
       case None => Success((Append(stamp), schema + [Field(column, "string")]))
       case Some(c) => Success((Overwrite(c, stamp), schema[c := Field(column, "string")])))
  }

  // ----- running steps

  function RunStep(step: Step, table: Table): (r: Result<Table, JoinError>)
    requires StepValid(step) && table.Valid()
    ensures r.Success? ==> r.value.Valid()
  {
    var (action, schema) :- Resolve(step, table.schema);
    Success(Table(schema, ActAll(action, table.rows, |table.schema|, |schema|)))
  }

  predicate StepsValid(steps: seq<Step>) { forall i :: 0 <= i < |steps| ==> StepValid(steps[i]) }

  function RunSteps(steps: seq<Step>, table: Table): (r: Result<Table, JoinError>)
    requires StepsValid(steps) && table.Valid()
    ensures r.Success? ==> r.value.Valid()
    decreases |steps|
  {
    if steps == [] then Success(table)
    else
      var next :- RunStep(steps[0], table);
      RunSteps(steps[1..], next)
  }

  /** Two tables of one schema, one after the other. */
  function Stacked(a: Result<Table, JoinError>, b: Result<Table, JoinError>): Result<Table, JoinError> {
    match (a, b)
    case (Success(x), Success(y)) =>
      if x.schema == y.schema then Success(Table(x.schema, x.rows + y.rows)) else Failure(NoInput)
    case (Failure(e), _) => Failure(e)
    case (_, Failure(e)) => Failure(e)
  }

  lemma RunStepStacks(step: Step, schema: Schema, xs: seq<Row>, ys: seq<Row>)
    requires StepValid(step) && Table(schema, xs).Valid() && Table(schema, ys).Valid()
    ensures Table(schema, xs + ys).Valid()
    ensures RunStep(step, Table(schema, xs + ys))
         == Stacked(RunStep(step, Table(schema, xs)), RunStep(step, Table(schema, ys)))
  {
    var resolved := Resolve(step, schema);
    if resolved.Success? {
      ActAllConcat(resolved.value.0, xs, ys, |schema|, |resolved.value.1|);
    }
  }

  /** Running steps over a table cut in two gives the two results stacked, and fails for the whole
      exactly when it fails for a part. */
  lemma {:induction false} RunStepsStack(steps: seq<Step>, schema: Schema, xs: seq<Row>, ys: seq<Row>)
    requires StepsValid(steps) && Table(schema, xs).Valid() && Table(schema, ys).Valid()
    ensures Table(schema, xs + ys).Valid()
    ensures RunSteps(steps, Table(schema, xs + ys))
         == Stacked(RunSteps(steps, Table(schema, xs)), RunSteps(steps, Table(schema, ys)))
    ensures RunSteps(steps, Table(schema, xs)).Success? == RunSteps(steps, Table(schema, ys)).Success?
    decreases |steps|
  {
    if steps != [] {
      RunStepStacks(steps[0], schema, xs, ys);
      var resolved := Resolve(steps[0], schema);
      if resolved.Success? {
        hide RunStep;
        var (action, schema') := resolved.value;
        var xs' := ActAll(action, xs, |schema|, |schema'|);
        var ys' := ActAll(action, ys, |schema|, |schema'|);
        StepIsAction(steps[0], schema, xs);
        StepIsAction(steps[0], schema, ys);
        RunStepsStack(steps[1..], schema', xs', ys');
      }
    }
  }

  lemma StepIsAction(step: Step, schema: Schema, rows: seq<Row>)
    requires StepValid(step) && Table(schema, rows).Valid() && Resolve(step, schema).Success?
    ensures var (action, schema') := Resolve(step, schema).value;
      RunStep(step, Table(schema, rows)) == Success(Table(schema', ActAll(action, rows, |schema|, |schema'|)))
  {
  }

  // ----- an inner or left join is such a step

  lemma {:induction false} FlatJoinIsAction(plan: Plan, left: seq<Row>, right: seq<Row>)
    requires Fits(plan) && AllWide(left, plan.leftWidth) && AllWide(right, plan.rightWidth)
    ensures FlatJoin(plan, left, right) == ActAll(JoinEach(plan, right), left, plan.leftWidth, |plan.schema|)
  {
    if left != [] { FlatJoinIsAction(plan, left[..|left| - 1], right); }
  }

  lemma JoinIsStep(left: Table, right: Table, source: Source, helper: Option<string>)
    requires HasKeys(source) && left.Valid() && right.Valid() && !KeepsRight(source.how)
    ensures var joined, step := JoinSpec(left, right, source, helper), RunStep(JoinWith(source, right, helper), left);
      if joined.Success? then step == Success(joined.value.table) else step == Failure(joined.error)
  {
    hide PlanJoin, JoinedRows, ActAll, FlatJoin, NestedLoop;
    var planned := PlanJoin(left.schema, right.schema, source, helper);
    if planned.Success? {
      JoinedRowsAreFlat(planned.value, left.rows, right.rows);
      FlatJoinIsAction(planned.value, left.rows, right.rows);
    }
  }
}
