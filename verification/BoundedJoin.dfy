/** The bounded join task (native/engine/src/join.rs): right sides read once and perhaps staged, the left
    side read as a projection and joined batch by batch with reused key maps. Proved to equal the eager
    task. */
module BoundedJoin {
  import opened Wrappers
  import opened Tables
  import opened HashJoin
  import opened JoinRows
  import opened JoinSteps
  import opened JoinTask
  import opened RightStaging
  import opened ColumnProjection

  // ----- the bounded task

  function AddKeys(required: seq<string>, leftOn: seq<string>, first: bool, names: seq<string>): (r: seq<string>)
    ensures forall name :: name in r <==> name in required || (name in leftOn && (first || name in names))
    decreases |leftOn|
  {
    if leftOn == [] then required
    else
      AddKeys(if (first || leftOn[0] in names) && leftOn[0] !in required then required + [leftOn[0]] else required,
              leftOn[1..], first, names)
  }

  /** The left columns the projected read must keep: the partition key, the first source's keys, and
      later keys that name a left column. */
  function RequiredLeft(task: Task, names: seq<string>, n: nat): (r: seq<string>)
    requires n <= |task.sources|
    ensures task.leftPartitionKey in r
  {
    if n == 0 then [task.leftPartitionKey]
    else AddKeys(RequiredLeft(task, names, n - 1), task.sources[n - 1].join.leftOn, n == 1, names)
  }

  /** `should_stage_right_source`. */
  function StagingRecords(task: Task, source: TaskSource, candidateRows: nat): Option<seq<KeyRecord>> {
    if task.staging == Off then None
    else
      var mapped :- MappedRightKeyRows(source.join, task.records);
      if task.staging == Force then Some(mapped)
      else
        var estimated :- source.estimatedMatchRows;
        if candidateRows > task.inputBatchRows && estimated * 2 <= candidateRows then Some(mapped) else None
  }

  /** How a right side is read: staging adds a filter by the mapped key records. */
  function BoundedRightSteps(task: Task, source: TaskSource, candidateRows: nat): (steps: seq<Step>)
    ensures StepsValid(steps)
  {
    RightSteps(task, source)
    + match StagingRecords(task, source, candidateRows)
      case None => []
      case Some(mapped) => [FilterKeys(source.join.rightOn, mapped)]
  }

  function BoundedRights(task: Task, rights: seq<Table>, n: nat): (r: Result<seq<Table>, JoinError>)
    requires ValidTask(task) && |rights| == |task.sources| && TablesValid(rights) && n <= |rights|
    ensures r.Success? ==> |r.value| == n && TablesValid(r.value)
  {
    if n == 0 then Success([])
    else
      var before :- BoundedRights(task, rights, n - 1);
      var right :- RunSteps(BoundedRightSteps(task, task.sources[n - 1], |rights[n - 1].rows|), rights[n - 1]);
      Success(before + [right])
  }

  function ProjectedNames(task: Task, schema: Schema): (r: Result<seq<string>, JoinError>)
    ensures r.Success? ==> AllIn(r.value, Names(schema))
  {
    var required := RequiredLeft(task, Names(schema), |task.sources|);
    var names := SelectedNames(Names(schema), task.leftColumns, required);
    SelectedWithin(schema, task.leftColumns, required);
    names
  }

  lemma SelectedWithin(schema: Schema, policy: ColumnPolicy, required: seq<string>)
    ensures var names := SelectedNames(Names(schema), policy, required);
      names.Success? ==> AllIn(names.value, Names(schema))
  {
    hide SelectedNames;
    var names := SelectedNames(Names(schema), policy, required);
    if names.Success? {
      forall i | 0 <= i < |names.value| ensures names.value[i] in Names(schema) {
        SelectedAreNames(schema, policy, required, names.value[i]);
      }
    }
  }

  predicate BatchesFit(schema: Schema, batches: seq<seq<Row>>) {
    forall k :: 0 <= k < |batches| ==> AllWide(batches[k], |schema|)
  }

  /** The outputs of the first `n` batches. */
  function BatchOutputs(
    task: Task, schema: Schema, names: seq<string>, batches: seq<seq<Row>>, rights: seq<Table>, n: nat)
    : (r: Result<seq<Table>, JoinError>)
    requires ValidTask(task) && SupportsBounded(task) && |rights| == |task.sources| && TablesValid(rights)
    requires BatchesFit(schema, batches) && AllIn(names, Names(schema)) && n <= |batches|
    ensures r.Success? ==> |r.value| == n
  {
    if n == 0 then Success([])
    else
      var before :- BatchOutputs(task, schema, names, batches, rights, n - 1);
      var output :- RunSteps(AllSteps(task, rights), Projection(Table(schema, batches[n - 1]), names));
      Success(before + [output])
  }

  /** What the bounded task writes, batch by batch. A task without a left row writes no batch, and the
      writer then has no schema to close a file with. */
  function BoundedSpec(task: Task, schema: Schema, batches: seq<seq<Row>>, rights: seq<Table>): Result<seq<Table>, JoinError>
    requires ValidTask(task) && SupportsBounded(task) && |rights| == |task.sources| && TablesValid(rights)
    requires BatchesFit(schema, batches)
  {
    var parts :- BoundedRights(task, rights, |rights|);
    var names :- ProjectedNames(task, schema);
    if batches == [] then Failure(NoInput)
    else BatchOutputs(task, schema, names, batches, parts, |batches|)
  }

  /** The right-side loop of `execute_join_task_bounded`. */
  method ReadBoundedRights(task: Task, rights: seq<Table>) returns (r: Result<seq<Table>, JoinError>)
    requires ValidTask(task) && |rights| == |task.sources| && TablesValid(rights)
    ensures r == BoundedRights(task, rights, |rights|)
  {
    hide RunSteps, BoundedRightSteps, ValidTask, StepsValid, RunStep, StepValid;
    var parts: seq<Table> := [];
    for i := 0 to |rights|
      invariant BoundedRights(task, rights, i) == Success(parts)
    {
      var right := ApplySteps(BoundedRightSteps(task, task.sources[i], |rights[i].rows|), rights[i]);
      if right.Failure? {
        FailedRightStops(task, rights, i + 1, |rights|);
        return Failure(right.error);
      }
      parts := parts + [right.value];
    }
    r := Success(parts);
  }

  lemma {:induction false} FailedRightStops(task: Task, rights: seq<Table>, bad: nat, n: nat)
    requires ValidTask(task) && |rights| == |task.sources| && TablesValid(rights) && bad <= n <= |rights|
    requires BoundedRights(task, rights, bad).Failure?
    ensures BoundedRights(task, rights, n) == BoundedRights(task, rights, bad)
  {
    hide RunSteps, BoundedRightSteps, ValidTask, StepsValid;
    if bad < n { FailedRightStops(task, rights, bad, n - 1); }
  }

  ghost function RightKeys(task: Task, i: nat, right: Table): seq<Key>
    requires ValidTask(task) && i < |task.sources| && right.Valid()
  {
    match IndexesOf(right.schema, task.sources[i].join.rightOn)
    case None => []
    case Some(columns) => if Within(columns, |right.schema|) then KeysOf(right.rows, columns, |right.schema|) else []
  }

  ghost predicate MapsPrepared(task: Task, rights: seq<Table>, maps: seq<PreparedRightKeyMap>, encode: Key -> seq<nat>)
    requires ValidTask(task) && |rights| == |task.sources| && TablesValid(rights)
  {
    |maps| == |rights| && forall i :: 0 <= i < |rights| ==>
      Prepares(maps[i], encode, RightKeys(task, i, rights[i]), |task.sources[i].join.leftOn|)
  }

  lemma JoinsFrom(task: Task, rights: seq<Table>, i: nat, current: Table)
    requires ValidTask(task) && SupportsBounded(task) && |rights| == |task.sources| && TablesValid(rights)
    requires current.Valid() && i <= |rights|
    ensures StepsValid(Joins(task, rights)[i..])
    ensures i == |rights| ==> RunSteps(Joins(task, rights)[i..], current) == Success(current)
    ensures i < |rights| ==>
      var source := task.sources[i].join;
      var joined := JoinSpec(current, rights[i], source, Helper(task, source));
      StepsValid(Joins(task, rights)[i + 1..])
      && RunSteps(Joins(task, rights)[i..], current)
         == if joined.Failure? then Failure(joined.error)
            else RunSteps(Joins(task, rights)[i + 1..], joined.value.table)
  {
    hide RunStep, JoinSpec;
    if i < |rights| {
      var source := task.sources[i].join;
      JoinIsStep(current, rights[i], source, Helper(task, source));
      var steps := Joins(task, rights)[i..];
      assert steps[0] == JoinOf(task, i, rights[i]) && steps[1..] == Joins(task, rights)[i + 1..];
    }
  }

  /** The joins of one left batch. The key maps are built by the first batch that needs them and reused. */
  method JoinBatch(
    task: Task, batch: Table, rights: seq<Table>, maps: seq<PreparedRightKeyMap>, encode: Key -> seq<nat>)
    returns (r: Result<Table, JoinError>, maps': seq<PreparedRightKeyMap>)
    requires ValidTask(task) && SupportsBounded(task) && |rights| == |task.sources| && TablesValid(rights)
    requires batch.Valid() && EncodesKeys(task, encode) && MapsPrepared(task, rights, maps, encode)
    ensures MapsPrepared(task, rights, maps', encode)
    ensures r == RunSteps(Joins(task, rights), batch)
  {
    hide RunSteps, JoinSpec, Prepares, Joins, Injective;
    maps' := maps;
    var current := batch;
    assert Joins(task, rights)[0..] == Joins(task, rights);
    for i := 0 to |rights|
      invariant current.Valid() && MapsPrepared(task, rights, maps', encode)
      invariant StepsValid(Joins(task, rights)[i..])
      invariant RunSteps(Joins(task, rights)[i..], current) == RunSteps(Joins(task, rights), batch)
    {
      JoinsFrom(task, rights, i, current);
      var source := task.sources[i].join;
      var joined, map_ := JoinBatchesWithRightKeyMap(
        current, rights[i], source, Helper(task, source), maps'[i], encode, RightKeys(task, i, rights[i]));
      maps' := maps'[i := map_];
      if joined.Failure? { return Failure(joined.error), maps'; }
      current := joined.value.table;
    }
    JoinsFrom(task, rights, |rights|, current);
    r := Success(current);
  }

  /** One left batch from the reader to the writer. */
  method RunBatch(
    task: Task, batch: Table, rights: seq<Table>, maps: seq<PreparedRightKeyMap>, encode: Key -> seq<nat>)
    returns (r: Result<Table, JoinError>, maps': seq<PreparedRightKeyMap>)
    requires ValidTask(task) && SupportsBounded(task) && |rights| == |task.sources| && TablesValid(rights)
    requires batch.Valid() && EncodesKeys(task, encode) && MapsPrepared(task, rights, maps, encode)
    ensures MapsPrepared(task, rights, maps', encode)
    ensures r == RunSteps(AllSteps(task, rights), batch)
  {
    hide RunSteps, LeftSteps, LastSteps, Joins, MapsPrepared, EncodesKeys, ValidTask, SupportsBounded;
    RunStepsAppend(LeftSteps(task), Joins(task, rights) + LastSteps(task), batch);
    maps' := maps;
    var current := ApplySteps(LeftSteps(task), batch);
    if current.Failure? { return current, maps'; }
    RunStepsAppend(Joins(task, rights), LastSteps(task), current.value);
    current, maps' := JoinBatch(task, current.value, rights, maps, encode);
    if current.Failure? { return current, maps'; }
    r := ApplySteps(LastSteps(task), current.value);
  }

  lemma PendingIsPrepared(task: Task, rights: seq<Table>, encode: Key -> seq<nat>)
    requires ValidTask(task) && |rights| == |task.sources| && TablesValid(rights)
    ensures MapsPrepared(task, rights, seq(|rights|, _ => Pending), encode)
  {
    hide RightKeys;
  }

  /** `execute_join_task_bounded`. */
  method ExecuteBounded(
    task: Task, schema: Schema, batches: seq<seq<Row>>, rights: seq<Table>, encode: Key -> seq<nat>)
    returns (r: Result<seq<Table>, JoinError>)
    requires ValidTask(task) && SupportsBounded(task) && |rights| == |task.sources| && TablesValid(rights)
    requires BatchesFit(schema, batches) && EncodesKeys(task, encode)
    ensures r == BoundedSpec(task, schema, batches, rights)
  {
    hide AllSteps, RunSteps, Projection, ProjectedNames, MapsPrepared, EncodesKeys, ValidTask, SupportsBounded, BoundedRights;
    var parts :- ReadBoundedRights(task, rights);
    var names :- ProjectedNames(task, schema);
    if batches == [] { return Failure(NoInput); }
    var maps := seq(|parts|, _ => Pending);
    PendingIsPrepared(task, parts, encode);
    var written: seq<Table> := [];
    for k := 0 to |batches|
      invariant BatchOutputs(task, schema, names, batches, parts, k) == Success(written)
      invariant MapsPrepared(task, parts, maps, encode)
    {
      var output;
      output, maps := RunBatch(task, Projection(Table(schema, batches[k]), names), parts, maps, encode);
      if output.Failure? {
        FailedBatchStops(task, schema, names, batches, parts, k + 1, |batches|);
        return Failure(output.error);
      }
      written := written + [output.value];
    }
    r := Success(written);
  }

  lemma {:induction false} FailedBatchStops(
    task: Task, schema: Schema, names: seq<string>, batches: seq<seq<Row>>, rights: seq<Table>, bad: nat, n: nat)
    requires ValidTask(task) && SupportsBounded(task) && |rights| == |task.sources| && TablesValid(rights)
    requires BatchesFit(schema, batches) && AllIn(names, Names(schema)) && bad <= n <= |batches|
    requires BatchOutputs(task, schema, names, batches, rights, bad).Failure?
    ensures BatchOutputs(task, schema, names, batches, rights, n) == BatchOutputs(task, schema, names, batches, rights, bad)
  {
    hide RunSteps, AllSteps, Projection, ValidTask, SupportsBounded, TablesValid, AllIn, Names, StepsValid, AllWide;
    if bad < n { FailedBatchStops(task, schema, names, batches, rights, bad, n - 1); }
  }
}
