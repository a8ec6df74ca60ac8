/** The eager and the bounded join task (native/engine/src/join.rs). Files are given as tables: the left
    side as the row batches a reader hands out, each right side as read with all its columns. */
module JoinTask {
  import opened Wrappers
  import opened Tables
  import opened HashJoin
  import opened JoinRows
  import opened JoinSteps

  datatype StagingMode = Off | Auto | Force

  datatype TaskSource = TaskSource(join: Source, columns: ColumnPolicy, estimatedMatchRows: Option<nat>)

  datatype Task = Task(
    leftColumns: ColumnPolicy, leftPartitionKey: string, partitionValue: string,
    records: seq<KeyRecord>, leftKeyFilterRequired: bool,
    sources: seq<TaskSource>, rightPartitionKey: string,
    postOperations: seq<Step>, outputPartitionColumn: string,
    inputBatchRows: nat, staging: StagingMode)

  predicate IsColumnStep(step: Step) { step.IncludeColumns? || step.ExcludeColumns? || step.RenameColumns? }

  /** What `validate_task` and the operation list guarantee. */
  predicate ValidTask(task: Task) {
    task.sources != []
    && (forall i :: 0 <= i < |task.sources| ==> HasKeys(task.sources[i].join))
    && (forall i :: 0 <= i < |task.postOperations| ==> IsColumnStep(task.postOperations[i]))
  }

  /** `supports_bounded_join` for the native backend and column operations. */
  predicate SupportsBounded(task: Task) {
    forall i :: 0 <= i < |task.sources| ==> !KeepsRight(task.sources[i].join.how)
  }

  // ----- a task as steps

  function FirstKeys(task: Task): seq<string>
    requires ValidTask(task)
  {
    task.sources[0].join.leftOn
  }

  predicate FiltersKeys(task: Task) { task.records != [] && task.leftKeyFilterRequired }

  function LeftSteps(task: Task): (steps: seq<Step>)
    requires ValidTask(task)
    ensures StepsValid(steps)
  {
    [Select(task.leftColumns, [task.leftPartitionKey])] + LeftFilters(task)
  }

  function LeftFilters(task: Task): (steps: seq<Step>)
    requires ValidTask(task)
    ensures StepsValid(steps)
  {
    [FilterValue(task.leftPartitionKey, task.partitionValue)]
    + if FiltersKeys(task) then [FilterKeys(FirstKeys(task), task.records)] else []
  }

  function RightSteps(task: Task, source: TaskSource): (steps: seq<Step>)
    ensures StepsValid(steps)
  {
    if task.rightPartitionKey == "" then [Select(source.columns, source.join.rightOn)]
    else [Select(source.columns, source.join.rightOn + [task.rightPartitionKey]),
          FilterValue(task.rightPartitionKey, task.partitionValue)]
  }

  function Helper(task: Task, source: Source): Option<string> {
    if !source.keepRightPartitionColumn && task.rightPartitionKey != "" then Some(task.rightPartitionKey) else None
  }

  function LastSteps(task: Task): (steps: seq<Step>)
    requires ValidTask(task)
    ensures StepsValid(steps)
  {
    task.postOperations + [SetPartition(task.outputPartitionColumn, task.partitionValue)]
  }

  predicate TablesValid(tables: seq<Table>) { forall i :: 0 <= i < |tables| ==> tables[i].Valid() }

  /** The first `n` right sides, selected and cut to the partition. */
  function ReadRights(task: Task, rights: seq<Table>, n: nat): (r: Result<seq<Table>, JoinError>)
    requires ValidTask(task) && |rights| == |task.sources| && TablesValid(rights) && n <= |rights|
    ensures r.Success? ==> |r.value| == n && TablesValid(r.value)
  {
    if n == 0 then Success([])
    else
      var before :- ReadRights(task, rights, n - 1);
      var right :- RunSteps(RightSteps(task, task.sources[n - 1]), rights[n - 1]);
      Success(before + [right])
  }

  function Joins(task: Task, rights: seq<Table>): (steps: seq<Step>)
    requires ValidTask(task) && SupportsBounded(task) && |rights| == |task.sources| && TablesValid(rights)
    ensures StepsValid(steps) && |steps| == |rights|
  {
    seq(|rights|, i requires 0 <= i < |rights| => JoinOf(task, i, rights[i]))
  }

  function JoinOf(task: Task, i: nat, right: Table): (step: Step)
    requires ValidTask(task) && SupportsBounded(task) && i < |task.sources| && right.Valid()
    ensures StepValid(step)
  {
    var source := task.sources[i].join;
    JoinWith(source, right, Helper(task, source))
  }

  // ----- what the eager task computes

  /** Joining the sources from the `i`-th on, one after the other. */
  function JoinFrom(task: Task, i: nat, current: Table, rights: seq<Table>): (r: Result<Table, JoinError>)
    requires ValidTask(task) && |rights| == |task.sources| && TablesValid(rights) && current.Valid()
    requires i <= |rights|
    ensures r.Success? ==> r.value.Valid()
    decreases |rights| - i
  {
    if i == |rights| then Success(current)
    else
      var source := task.sources[i];
      var right :- RunSteps(RightSteps(task, source), rights[i]);
      var joined :- JoinSpec(current, right, source.join, Helper(task, source.join));
      JoinFrom(task, i + 1, joined.table, rights)
  }

  function EagerSpec(task: Task, left: Table, rights: seq<Table>): Result<Table, JoinError>
    requires ValidTask(task) && |rights| == |task.sources| && TablesValid(rights) && left.Valid()
  {
    var current :- RunSteps(LeftSteps(task), left);
    var joined :- JoinFrom(task, 0, current, rights);
    RunSteps(LastSteps(task), joined)
  }

  ghost predicate EncodesKeys(task: Task, encode: Key -> seq<nat>) {
    forall i :: 0 <= i < |task.sources| ==> Injective(encode, |task.sources[i].join.leftOn|)
  }

  /** One step over all rows of a table. */
  method ApplyStep(step: Step, table: Table) returns (r: Result<Table, JoinError>)
    requires StepValid(step) && table.Valid()
    ensures r == RunStep(step, table)
  {
    hide Act, Resolve, Acts;
    var resolved :- Resolve(step, table.schema);
    var (action, schema) := resolved;
    var rows: seq<Row> := [];
    for index := 0 to |table.rows|
      invariant rows == ActAll(action, table.rows[..index], |table.schema|, |schema|)
    {
      rows := rows + Act(action, table.rows[index], |schema|);
      assert table.rows[..index + 1][..index] == table.rows[..index];
    }
    assert table.rows[..|table.rows|] == table.rows;
    return Success(Table(schema, rows));
  }

  method ApplySteps(steps: seq<Step>, table: Table) returns (r: Result<Table, JoinError>)
    requires StepsValid(steps) && table.Valid()
    ensures r == RunSteps(steps, table)
  {
    hide RunStep;
    var current := table;
    for k := 0 to |steps|
      invariant current.Valid()
      invariant RunSteps(steps[k..], current) == RunSteps(steps, table)
    {
      assert steps[k..][1..] == steps[k + 1..];
      current :- ApplyStep(steps[k], current);
    }
    return Success(current);
  }

  /** `execute_join_task_eager`. */
  method ExecuteEager(task: Task, left: Table, rights: seq<Table>, encode: Key -> seq<nat>)
    returns (r: Result<Table, JoinError>)
    requires ValidTask(task) && |rights| == |task.sources| && TablesValid(rights) && left.Valid()
    requires EncodesKeys(task, encode)
    ensures r == EagerSpec(task, left, rights)
  {
    hide RunSteps, JoinSpec, LeftSteps, LastSteps, RightSteps, Helper, Injective;
    var current :- ApplySteps(LeftSteps(task), left);
    ghost var start := current;
    for i := 0 to |rights|
      invariant current.Valid()
      invariant JoinFrom(task, i, current, rights) == JoinFrom(task, 0, start, rights)
    {
      var source := task.sources[i];
      var right :- ApplySteps(RightSteps(task, source), rights[i]);
      var joined :- JoinBatches(current, right, source.join, Helper(task, source.join), encode);
      current := joined.table;
    }
    r := ApplySteps(LastSteps(task), current);
  }

  // ----- for inner and left joins the eager task is one list of steps

  lemma {:induction false} RunStepsAppend(first: seq<Step>, second: seq<Step>, table: Table)
    requires StepsValid(first) && StepsValid(second) && table.Valid()
    ensures StepsValid(first + second)
    ensures RunSteps(first + second, table)
         == match RunSteps(first, table)
            case Failure(error) => Failure(error)
            case Success(middle) => RunSteps(second, middle)
    decreases |first|
  {
    hide RunStep;
    if first == [] {
      assert first + second == second;
    } else {
      assert (first + second)[1..] == first[1..] + second;
      var next := RunStep(first[0], table);
      if next.Success? { RunStepsAppend(first[1..], second, next.value); }
    }
  }

  function AllSteps(task: Task, rights: seq<Table>): (steps: seq<Step>)
    requires ValidTask(task) && SupportsBounded(task) && |rights| == |task.sources| && TablesValid(rights)
    ensures StepsValid(steps)
  {
    LeftSteps(task) + (Joins(task, rights) + LastSteps(task))
  }

  lemma {:induction false} ReadRightAt(task: Task, rights: seq<Table>, n: nat, i: nat)
    requires ValidTask(task) && |rights| == |task.sources| && TablesValid(rights) && i < n <= |rights|
    requires ReadRights(task, rights, n).Success?
    ensures RunSteps(RightSteps(task, task.sources[i]), rights[i]) == Success(ReadRights(task, rights, n).value[i])
  {
    hide RunSteps, RightSteps, ValidTask, StepsValid;
    if i < n - 1 { ReadRightAt(task, rights, n - 1, i); }
  }

  lemma {:induction false} UnreadRight(task: Task, rights: seq<Table>, n: nat) returns (i: nat)
    requires ValidTask(task) && |rights| == |task.sources| && TablesValid(rights) && n <= |rights|
    requires ReadRights(task, rights, n).Failure?
    ensures i < n && RunSteps(RightSteps(task, task.sources[i]), rights[i]).Failure?
  {
    hide RunSteps, RightSteps;
    if ReadRights(task, rights, n - 1).Failure? { i := UnreadRight(task, rights, n - 1); } else { i := n - 1; }
  }

  lemma {:induction false} UnreadRightFails(task: Task, i: nat, current: Table, rights: seq<Table>, bad: nat)
    requires ValidTask(task) && |rights| == |task.sources| && TablesValid(rights) && current.Valid()
    requires i <= bad < |rights| && RunSteps(RightSteps(task, task.sources[bad]), rights[bad]).Failure?
    ensures JoinFrom(task, i, current, rights).Failure?
    decreases |rights| - i
  {
    hide RunSteps, RightSteps, JoinSpec;
    if i < bad {
      var source := task.sources[i];
      var right := RunSteps(RightSteps(task, source), rights[i]);
      if right.Success? {
        var joined := JoinSpec(current, right.value, source.join, Helper(task, source.join));
        if joined.Success? { UnreadRightFails(task, i + 1, joined.value.table, rights, bad); }
      }
    }
  }

  lemma {:induction false} JoinFromIsSteps(task: Task, i: nat, current: Table, rights: seq<Table>, parts: seq<Table>)
    requires ValidTask(task) && SupportsBounded(task) && |rights| == |task.sources| && TablesValid(rights) && current.Valid()
    requires ReadRights(task, rights, |rights|) == Success(parts) && i <= |rights|
    ensures StepsValid(Joins(task, parts)[i..])
    ensures JoinFrom(task, i, current, rights) == RunSteps(Joins(task, parts)[i..], current)
    decreases |rights| - i
  {
    hide RightSteps, JoinSpec, RunStep, ReadRights;
    if i < |rights| {
      ReadRightAt(task, rights, |rights|, i);
      var source := task.sources[i].join;
      var steps := Joins(task, parts)[i..];
      assert steps[0] == JoinOf(task, i, parts[i]) && steps[1..] == Joins(task, parts)[i + 1..];
      JoinIsStep(current, parts[i], source, Helper(task, source));
      var joined := JoinSpec(current, parts[i], source, Helper(task, source));
      if joined.Success? { JoinFromIsSteps(task, i + 1, joined.value.table, rights, parts); }
    }
  }

  lemma EagerIsSteps(task: Task, left: Table, rights: seq<Table>)
    requires ValidTask(task) && SupportsBounded(task)
    requires |rights| == |task.sources| && TablesValid(rights) && left.Valid()
    ensures ReadRights(task, rights, |rights|).Failure? ==> EagerSpec(task, left, rights).Failure?
    ensures ReadRights(task, rights, |rights|).Success? ==>
              EagerSpec(task, left, rights) == RunSteps(AllSteps(task, ReadRights(task, rights, |rights|).value), left)
  {
    hide RunSteps, ReadRights, JoinFrom, LeftSteps, Joins, LastSteps;
    var parts := ReadRights(task, rights, |rights|);
    var current := RunSteps(LeftSteps(task), left);
    if parts.Failure? {
      var bad := UnreadRight(task, rights, |rights|);
      if current.Success? { UnreadRightFails(task, 0, current.value, rights, bad); }
    } else {
      RunStepsAppend(LeftSteps(task), Joins(task, parts.value) + LastSteps(task), left);
      if current.Success? {
        RunStepsAppend(Joins(task, parts.value), LastSteps(task), current.value);
        JoinFromIsSteps(task, 0, current.value, rights, parts.value);
        assert Joins(task, parts.value)[0..] == Joins(task, parts.value);
      }
    }
  }
}
