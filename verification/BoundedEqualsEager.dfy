/** The bounded join task writes, batch after batch, the rows the eager task computes. */
module BoundedEqualsEager {
  import opened Wrappers
  import opened Tables
  import opened JoinRows
  import opened JoinSteps
  import opened JoinTask
  import opened BoundedJoin
  import opened RightStaging
  import opened ColumnProjection

  // ----- when the two tasks do the same

  /** The left rows that reach the joins all have a key record. */
  ghost predicate PartitionListed(task: Task, left: Table)
    requires ValidTask(task) && left.Valid()
  {
    var current := RunSteps(LeftSteps(task), left);
    current.Success? ==> AllListed(current.value.schema, FirstKeys(task), task.records, current.value.rows)
  }

  /** Staging is sound for sources keyed by (some of) the first source's keys, on left rows that are
      filtered by the key records or all have one anyway. */
  ghost predicate StagesSafely(task: Task, left: Table, rights: seq<Table>)
    requires ValidTask(task) && |rights| == |task.sources| && left.Valid()
  {
    forall i | 0 <= i < |rights| && IsStaged(task, rights, i) ::
      KeysAmong(task.sources[i].join, FirstKeys(task)) && (FiltersKeys(task) || PartitionListed(task, left))
  }

  predicate IsStaged(task: Task, rights: seq<Table>, i: nat)
    requires i < |rights| == |task.sources|
  {
    StagingRecords(task, task.sources[i], |rights[i].rows|).Some?
  }

  /** The two tasks select the same left columns: nothing is both included and excluded, and no later
      join key that names a left column is excluded. */
  predicate PoliciesAgree(task: Task, names: seq<string>) {
    NoneExcluded(task.leftColumns.included, task.leftColumns.excluded)
    && forall i | 1 <= i < |task.sources| :: LaterKeysKept(task, i, names)
  }

  predicate LaterKeysKept(task: Task, i: nat, names: seq<string>)
    requires i < |task.sources|
  {
    forall name :: name in task.sources[i].join.leftOn && name in names ==> name !in task.leftColumns.excluded
  }

  // ----- batches

  function Concat(batches: seq<seq<Row>>): (rows: seq<Row>) {
    if batches == [] then [] else Concat(batches[..|batches| - 1]) + batches[|batches| - 1]
  }

  lemma {:induction false} ConcatFits(schema: Schema, batches: seq<seq<Row>>)
    requires BatchesFit(schema, batches)
    ensures AllWide(Concat(batches), |schema|) && Table(schema, Concat(batches)).Valid()
  {
    if batches != [] { ConcatFits(schema, batches[..|batches| - 1]); }
  }

  function RowsOf(tables: seq<Table>): (batches: seq<seq<Row>>)
    ensures |batches| == |tables|
  {
    seq(|tables|, k requires 0 <= k < |tables| => tables[k].rows)
  }

  ghost predicate OneSchema(tables: seq<Table>, schema: Schema) {
    forall k :: 0 <= k < |tables| ==> tables[k].schema == schema
  }

  /** The outputs taken together are the whole result, and they exist exactly when it does. */
  ghost predicate Together(outputs: Result<seq<Table>, JoinError>, whole: Result<Table, JoinError>) {
    outputs.Success? == whole.Success?
    && (outputs.Success? ==> OneSchema(outputs.value, whole.value.schema) && Concat(RowsOf(outputs.value)) == whole.value.rows)
  }

  ghost predicate SeesThrough(steps: seq<Step>, schema: Schema, names: seq<string>)
    requires StepsValid(steps) && AllIn(names, Names(schema))
  {
    forall rows | AllWide(rows, |schema|) :: SeesThroughOn(steps, schema, names, rows)
  }

  ghost predicate SeesThroughOn(steps: seq<Step>, schema: Schema, names: seq<string>, rows: seq<Row>)
    requires StepsValid(steps) && AllIn(names, Names(schema)) && AllWide(rows, |schema|)
  {
    RunSteps(steps, Projection(Table(schema, rows), names)) == RunSteps(steps, Table(schema, rows))
  }

  /** The outputs of a list of steps over the first `n` batches. */
  function StepOutputs(steps: seq<Step>, schema: Schema, batches: seq<seq<Row>>, n: nat): (r: Result<seq<Table>, JoinError>)
    requires StepsValid(steps) && BatchesFit(schema, batches) && n <= |batches|
    ensures r.Success? ==> |r.value| == n
  {
    if n == 0 then Success([])
    else
      var before :- StepOutputs(steps, schema, batches, n - 1);
      var output :- RunSteps(steps, Table(schema, batches[n - 1]));
      Success(before + [output])
  }

  function Grown(before: Result<seq<Table>, JoinError>, one: Result<Table, JoinError>): Result<seq<Table>, JoinError> {
    var tables :- before;
    var table :- one;
    Success(tables + [table])
  }

  lemma TogetherGrows(before: Result<seq<Table>, JoinError>, whole: Result<Table, JoinError>, one: Result<Table, JoinError>)
    requires Together(before, whole) && whole.Success? == one.Success?
    requires whole.Success? ==> whole.value.schema == one.value.schema
    ensures Together(Grown(before, one), Stacked(whole, one))
  {
    if whole.Success? {
      assert RowsOf(before.value + [one.value]) == RowsOf(before.value) + [one.value.rows];
      assert (RowsOf(before.value) + [one.value.rows])[..|before.value|] == RowsOf(before.value);
    }
  }

  lemma OneTogether(one: Result<Table, JoinError>)
    ensures Together(Grown(Success([]), one), one)
  {
    if one.Success? {
      assert [one.value][..0] == [] && RowsOf([one.value]) == [one.value.rows];
    }
  }

  lemma OutputsGrow(steps: seq<Step>, schema: Schema, batches: seq<seq<Row>>, n: nat)
    requires StepsValid(steps) && BatchesFit(schema, batches) && 0 < n <= |batches|
    ensures Table(schema, batches[n - 1]).Valid()
    ensures StepOutputs(steps, schema, batches, n)
         == Grown(StepOutputs(steps, schema, batches, n - 1), RunSteps(steps, Table(schema, batches[n - 1])))
  {
    hide RunSteps, StepsValid;
  }

  lemma {:induction false} OutputsStack(steps: seq<Step>, schema: Schema, batches: seq<seq<Row>>, n: nat)
    requires StepsValid(steps) && BatchesFit(schema, batches) && 0 < n <= |batches|
    ensures Table(schema, Concat(batches[..n])).Valid()
    ensures Together(StepOutputs(steps, schema, batches, n), RunSteps(steps, Table(schema, Concat(batches[..n]))))
  {
    hide RunSteps, StepsValid, Together, AllWide, Concat, Grown, Stacked, StepOutputs;
    OutputsGrow(steps, schema, batches, n);
    ConcatFits(schema, batches[..n]);
    FirstBatches(batches, n);
    var one := RunSteps(steps, Table(schema, batches[n - 1]));
    if n == 1 {
      NoOutputs(steps, schema, batches);
      OneTogether(one);
    } else {
      OutputsStack(steps, schema, batches, n - 1);
      var before := Concat(batches[..n - 1]);
      RunStepsStack(steps, schema, before, batches[n - 1]);
      var whole := RunSteps(steps, Table(schema, before));
      if whole.Success? { SameSchema(steps, schema, before, batches[n - 1]); }
      TogetherGrows(StepOutputs(steps, schema, batches, n - 1), whole, one);
    }
  }

  lemma NoOutputs(steps: seq<Step>, schema: Schema, batches: seq<seq<Row>>)
    requires StepsValid(steps) && BatchesFit(schema, batches)
    ensures StepOutputs(steps, schema, batches, 0) == Success([])
  {
  }

  lemma FirstBatches(batches: seq<seq<Row>>, n: nat)
    requires 0 < n <= |batches|
    ensures Concat(batches[..n]) == Concat(batches[..n - 1]) + batches[n - 1]
    ensures n == 1 ==> Concat(batches[..n]) == batches[0]
  {
    assert batches[..n][..n - 1] == batches[..n - 1];
    if n == 1 { assert batches[..0] == []; }
  }

  lemma SeesOne(steps: seq<Step>, schema: Schema, names: seq<string>, rows: seq<Row>)
    requires StepsValid(steps) && AllIn(names, Names(schema)) && AllWide(rows, |schema|)
    requires SeesThrough(steps, schema, names)
    ensures RunSteps(steps, Projection(Table(schema, rows), names)) == RunSteps(steps, Table(schema, rows))
  {
    assert SeesThroughOn(steps, schema, names, rows);
  }

  lemma {:induction false} OutputsSeeThrough(
    task: Task, schema: Schema, names: seq<string>, batches: seq<seq<Row>>, rights: seq<Table>, n: nat)
    requires ValidTask(task) && SupportsBounded(task) && |rights| == |task.sources| && TablesValid(rights)
    requires BatchesFit(schema, batches) && AllIn(names, Names(schema)) && n <= |batches|
    requires SeesThrough(AllSteps(task, rights), schema, names)
    ensures BatchOutputs(task, schema, names, batches, rights, n) == StepOutputs(AllSteps(task, rights), schema, batches, n)
  {
    hide RunSteps, AllSteps, Projection, ValidTask, SupportsBounded, SeesThrough, StepsValid, TablesValid, AllIn, AllWide, StepOutputs, Names;
    if n == 0 {
      NoOutputs(AllSteps(task, rights), schema, batches);
    } else {
      OutputsGrow(AllSteps(task, rights), schema, batches, n);
      SeesOne(AllSteps(task, rights), schema, names, batches[n - 1]);
      OutputsSeeThrough(task, schema, names, batches, rights, n - 1);
    }
  }

  lemma SameSchema(steps: seq<Step>, schema: Schema, xs: seq<Row>, ys: seq<Row>)
    requires StepsValid(steps) && Table(schema, xs).Valid() && Table(schema, ys).Valid()
    requires RunSteps(steps, Table(schema, xs)).Success? && RunSteps(steps, Table(schema, ys)).Success?
    ensures RunSteps(steps, Table(schema, xs)).value.schema == RunSteps(steps, Table(schema, ys)).value.schema
    decreases |steps|
  {
    if steps != [] {
      var (action, schema') := Resolve(steps[0], schema).value;
      StepIsAction(steps[0], schema, xs);
      StepIsAction(steps[0], schema, ys);
      hide Resolve, RunStep;
      SameSchema(steps[1..], schema', ActAll(action, xs, |schema|, |schema'|), ActAll(action, ys, |schema|, |schema'|));
    }
  }

  // ----- staged right sides

  /** How a right side read by the bounded task relates to the same side read by the eager one. */
  ghost predicate RightRelated(task: Task, rights: seq<Table>, i: nat, full: Table, staged: Table)
    requires i < |rights| == |task.sources| && full.Valid()
  {
    var source := task.sources[i].join;
    if IsStaged(task, rights, i) then
      var columns := IndexesOf(full.schema, source.rightOn);
      columns.Some? && Within(columns.value, |full.schema|)
      && staged == Table(full.schema, ActAll(
           KeepIfKey(columns.value, AllowedKeys(source.rightOn, StagingRecords(task, task.sources[i], |rights[i].rows|).value)),
           full.rows, |full.schema|, |full.schema|))
    else staged == full
  }

  lemma SelectKeepsRequired(policy: ColumnPolicy, required: seq<string>, table: Table)
    requires table.Valid() && required != []
    ensures var out := RunStep(Select(policy, required), table);
      out.Success? ==> forall name :: name in required ==> name in Names(out.value.schema)
  {
    hide RunStep, SelectedNames, Projection, WithRequired;
    SelectProjects(table, policy, required);
    SelectedNamesSucceeds(Names(table.schema), policy, required);
  }

  lemma RightHasKeys(task: Task, i: nat, right: Table)
    requires ValidTask(task) && i < |task.sources| && right.Valid()
    ensures var out := RunSteps(RightSteps(task, task.sources[i]), right);
      out.Success? ==>
        IndexesOf(out.value.schema, task.sources[i].join.rightOn).Some?
        && Within(IndexesOf(out.value.schema, task.sources[i].join.rightOn).value, |out.value.schema|)
  {
    hide IndexesOf, RunStep;
    var source := task.sources[i];
    var steps := RightSteps(task, source);
    var required := steps[0].required;
    SelectKeepsRequired(source.columns, required, right);
    var selected := RunStep(steps[0], right);
    if selected.Success? {
      FirstStepRuns(steps, right);
      OnlyFilters(steps[1..], selected.value);
      forall k | 0 <= k < |source.join.rightOn| ensures source.join.rightOn[k] in Names(selected.value.schema) {
        assert source.join.rightOn[k] == required[k];
      }
      ColumnsOf(selected.value.schema, source.join.rightOn);
    }
  }

  lemma FirstStepRuns(steps: seq<Step>, table: Table)
    requires StepsValid(steps) && steps != [] && table.Valid()
    ensures StepsValid(steps[1..])
    ensures RunSteps(steps, table)
         == match RunStep(steps[0], table)
            case Failure(error) => Failure(error)
            case Success(next) => RunSteps(steps[1..], next)
  {
  }

  lemma OnlyFilters(steps: seq<Step>, table: Table)
    requires StepsValid(steps) && table.Valid() && |steps| <= 1
    requires forall i :: 0 <= i < |steps| ==> steps[i].FilterValue?
    ensures var out := RunSteps(steps, table); out.Success? ==> out.value.schema == table.schema
  {
    hide ActAll;
    if steps != [] {
      FirstStepRuns(steps, table);
      assert steps[1..] == [];
    }
  }

  lemma KeyFilterRuns(names: seq<string>, records: seq<KeyRecord>, table: Table)
    requires table.Valid() && IndexesOf(table.schema, names).Some?
    requires Within(IndexesOf(table.schema, names).value, |table.schema|)
    ensures RunSteps([FilterKeys(names, records)], table)
         == Success(Table(table.schema, ActAll(
              KeepIfKey(IndexesOf(table.schema, names).value, AllowedKeys(names, records)),
              table.rows, |table.schema|, |table.schema|)))
  {
    hide ActAll, AllowedKeys, IndexesOf;
    var steps := [FilterKeys(names, records)];
    FirstStepRuns(steps, table);
    assert steps[1..] == [];
  }

  lemma BoundedRightRelated(task: Task, rights: seq<Table>, i: nat)
    requires ValidTask(task) && |rights| == |task.sources| && TablesValid(rights) && i < |rights|
    ensures var full := RunSteps(RightSteps(task, task.sources[i]), rights[i]);
      var staged := RunSteps(BoundedRightSteps(task, task.sources[i], |rights[i].rows|), rights[i]);
      full.Success? == staged.Success? && (full.Success? ==> RightRelated(task, rights, i, full.value, staged.value))
  {
    hide RunSteps, RightSteps, StagingRecords, ActAll, AllowedKeys, IndexesOf;
    var source := task.sources[i];
    var records := StagingRecords(task, source, |rights[i].rows|);
    if records.Some? {
      RunStepsAppend(RightSteps(task, source), [FilterKeys(source.join.rightOn, records.value)], rights[i]);
      RightHasKeys(task, i, rights[i]);
      var full := RunSteps(RightSteps(task, source), rights[i]);
      if full.Success? { KeyFilterRuns(source.join.rightOn, records.value, full.value); }
    } else {
      assert RightSteps(task, source) + [] == RightSteps(task, source);
    }
  }

  ghost predicate RightsRelated(task: Task, rights: seq<Table>, full: seq<Table>, staged: seq<Table>)
    requires |rights| == |task.sources| && TablesValid(full)
  {
    |full| == |staged| <= |rights| && forall i :: 0 <= i < |full| ==> RightRelated(task, rights, i, full[i], staged[i])
  }

  lemma RightsGrow(task: Task, rights: seq<Table>, n: nat)
    requires ValidTask(task) && |rights| == |task.sources| && TablesValid(rights) && 0 < n <= |rights|
    ensures ReadRights(task, rights, n)
         == Grown(ReadRights(task, rights, n - 1), RunSteps(RightSteps(task, task.sources[n - 1]), rights[n - 1]))
    ensures BoundedRights(task, rights, n)
         == Grown(BoundedRights(task, rights, n - 1),
                  RunSteps(BoundedRightSteps(task, task.sources[n - 1], |rights[n - 1].rows|), rights[n - 1]))
  {
    hide RunSteps, RightSteps, BoundedRightSteps, ValidTask;
  }

  lemma NoRights(task: Task, rights: seq<Table>)
    requires ValidTask(task) && |rights| == |task.sources| && TablesValid(rights)
    ensures ReadRights(task, rights, 0) == Success([]) && BoundedRights(task, rights, 0) == Success([])
  {
  }

  lemma {:induction false} BoundedRightsRelated(task: Task, rights: seq<Table>, n: nat)
    requires ValidTask(task) && |rights| == |task.sources| && TablesValid(rights) && n <= |rights|
    ensures var full, staged := ReadRights(task, rights, n), BoundedRights(task, rights, n);
      full.Success? == staged.Success? && (full.Success? ==> RightsRelated(task, rights, full.value, staged.value))
  {
    hide RunSteps, RightSteps, BoundedRightSteps, RightRelated, ValidTask, ReadRights, BoundedRights, StepsValid;
    if n == 0 {
      NoRights(task, rights);
    } else {
      RightsGrow(task, rights, n);
      BoundedRightsRelated(task, rights, n - 1);
      BoundedRightRelated(task, rights, n - 1);
    }
  }

  lemma MappedWhenStaged(task: Task, rights: seq<Table>, i: nat)
    requires i < |rights| == |task.sources| && IsStaged(task, rights, i)
    ensures MappedRightKeyRows(task.sources[i].join, task.records)
         == StagingRecords(task, task.sources[i], |rights[i].rows|)
  {
    hide MappedRightKeyRows;
  }

  lemma JoinsStaged(task: Task, left: Table, rights: seq<Table>, full: seq<Table>, staged: seq<Table>)
    requires ValidTask(task) && SupportsBounded(task) && |rights| == |task.sources| && left.Valid()
    requires |full| == |rights| && TablesValid(full) && TablesValid(staged)
    requires RightsRelated(task, rights, full, staged) && StagesSafely(task, left, rights)
    ensures ChainStaged(Joins(task, full), Joins(task, staged), FirstKeys(task), task.records)
  {
    hide ActAll, AllowedKeys, IndexesOf, StagingRecords, MappedRightKeyRows, KeysAmong, PartitionListed;
    var x, y := Joins(task, full), Joins(task, staged);
    forall i | 0 <= i < |x|
      ensures y[i] == x[i] || (Staged(x[i], y[i], task.records) && KeysAmong(x[i].source, FirstKeys(task)))
    {
      assert RightRelated(task, rights, i, full[i], staged[i]);
      if IsStaged(task, rights, i) { MappedWhenStaged(task, rights, i); }
    }
  }

  /** Left rows that passed the key filter all have a key record. */
  lemma FilteredIsListed(task: Task, left: Table)
    requires ValidTask(task) && left.Valid() && FiltersKeys(task)
    ensures PartitionListed(task, left)
  {
    hide RunSteps, RunStep, ValidTask;
    var last := FilterKeys(FirstKeys(task), task.records);
    var before := [Select(task.leftColumns, [task.leftPartitionKey]), FilterValue(task.leftPartitionKey, task.partitionValue)];
    assert LeftSteps(task) == before + [last];
    RunStepsAppend(before, [last], left);
    var current := RunSteps(before, left);
    if current.Success? {
      FirstStepRuns([last], current.value);
      NoSteps(current.value);
      assert [last][1..] == [];
      if RunStep(last, current.value).Success? { KeyFilterLists(last, current.value); }
    }
  }

  lemma NoSteps(table: Table)
    requires table.Valid()
    ensures forall next: Table :: next.Valid() ==> RunSteps([], next) == Success(next)
  {
  }

  lemma KeyFilterLists(step: Step, table: Table)
    requires step.FilterKeys? && table.Valid() && RunStep(step, table).Success?
    ensures var out := RunStep(step, table).value; AllListed(out.schema, step.columns, step.records, out.rows)
  {
    hide Listed, AllowedKeys, IndexesOf;
    var columns := IndexesOf(table.schema, step.columns).value;
    KeptAreListed(table.schema, columns, step.columns, step.records, table.rows);
  }

  lemma {:induction false} KeptAreListed(
    schema: Schema, columns: seq<nat>, names: seq<string>, records: seq<KeyRecord>, rows: seq<Row>)
    requires IndexesOf(schema, names) == Some(columns) && Within(columns, |schema|) && AllWide(rows, |schema|)
    ensures AllListed(schema, names, records, ActAll(KeepIfKey(columns, AllowedKeys(names, records)), rows, |schema|, |schema|))
  {
    hide Listed, AllowedKeys, IndexesOf, RowKey, Gather;
    if rows != [] {
      KeptAreListed(schema, columns, names, records, rows[..|rows| - 1]);
      AllowedMeansListed(schema, names, records, rows[|rows| - 1]);
    }
  }

  /** Whatever sources are staged, the chain of steps computes the same table. */
  lemma StagedStepsAgree(task: Task, left: Table, rights: seq<Table>, full: seq<Table>, staged: seq<Table>)
    requires ValidTask(task) && SupportsBounded(task) && |rights| == |task.sources| && left.Valid()
    requires |full| == |rights| && TablesValid(full) && TablesValid(staged)
    requires RightsRelated(task, rights, full, staged) && StagesSafely(task, left, rights)
    ensures RunSteps(AllSteps(task, staged), left) == RunSteps(AllSteps(task, full), left)
  {
    if forall i :: 0 <= i < |rights| ==> !IsStaged(task, rights, i) {
      SameRights(task, rights, full, staged);
    } else {
      SomeStaged(task, left, rights);
      JoinsStaged(task, left, rights, full, staged);
      hide RunSteps, LeftSteps, Joins, LastSteps, ValidTask, SupportsBounded, StagesSafely, RightsRelated, TablesValid, ChainStaged, AllListed;
      RunStepsAppend(LeftSteps(task), Joins(task, full) + LastSteps(task), left);
      RunStepsAppend(LeftSteps(task), Joins(task, staged) + LastSteps(task), left);
      var current := RunSteps(LeftSteps(task), left);
      if current.Success? {
        RunStepsAppend(Joins(task, full), LastSteps(task), current.value);
        RunStepsAppend(Joins(task, staged), LastSteps(task), current.value);
        StagingIsSound(Joins(task, full), Joins(task, staged), current.value, FirstKeys(task), task.records);
      }
    }
  }

  lemma SameRights(task: Task, rights: seq<Table>, full: seq<Table>, staged: seq<Table>)
    requires |rights| == |task.sources| && |full| == |rights| && TablesValid(full)
    requires RightsRelated(task, rights, full, staged)
    requires forall i :: 0 <= i < |rights| ==> !IsStaged(task, rights, i)
    ensures staged == full
  {
    forall i | 0 <= i < |rights| ensures staged[i] == full[i] {
      assert RightRelated(task, rights, i, full[i], staged[i]);
    }
  }

  lemma SomeStaged(task: Task, left: Table, rights: seq<Table>)
    requires ValidTask(task) && |rights| == |task.sources| && left.Valid() && StagesSafely(task, left, rights)
    requires exists i :: 0 <= i < |rights| && IsStaged(task, rights, i)
    ensures PartitionListed(task, left)
  {
    hide PartitionListed, IsStaged;
    if FiltersKeys(task) { FilteredIsListed(task, left); }
  }

  // ----- the projected read

  lemma {:induction false} RequiredLeftMeans(task: Task, names: seq<string>, n: nat, name: string)
    requires n <= |task.sources|
    ensures name in RequiredLeft(task, names, n) <==>
              name == task.leftPartitionKey
              || exists i :: 0 <= i < n && name in task.sources[i].join.leftOn && (i == 0 || name in names)
  {
    if n > 0 { RequiredLeftMeans(task, names, n - 1, name); }
  }

  /** A full run that gets past the left selection and the first join has the first source's keys. */
  lemma FirstKeysSelected(task: Task, left: Table, rights: seq<Table>)
    requires ValidTask(task) && SupportsBounded(task) && |rights| == |task.sources| && TablesValid(rights) && left.Valid()
    requires RunSteps(AllSteps(task, rights), left).Success?
    ensures SelectedNames(Names(left.schema), task.leftColumns, [task.leftPartitionKey]).Success?
    ensures AllIn(FirstKeys(task), SelectedNames(Names(left.schema), task.leftColumns, [task.leftPartitionKey]).value)
  {
    hide RunSteps, LastSteps, SelectedNames, RunStep, Projection, LeftFilters, Joins;
    var policy, key := task.leftColumns, task.leftPartitionKey;
    var tail := LeftFilters(task) + (Joins(task, rights) + LastSteps(task));
    assert AllSteps(task, rights) == [Select(policy, [key])] + tail;
    assert ([Select(policy, [key])] + tail)[1..] == tail;
    FirstStepRuns([Select(policy, [key])] + tail, left);
    SelectProjects(left, policy, [key]);
    var selected := RunStep(Select(policy, [key]), left).value;
    FiltersThenJoin(task, selected, rights);
  }

  lemma FiltersThenJoin(task: Task, selected: Table, rights: seq<Table>)
    requires ValidTask(task) && SupportsBounded(task) && |rights| == |task.sources| && TablesValid(rights) && selected.Valid()
    requires RunSteps(LeftFilters(task) + (Joins(task, rights) + LastSteps(task)), selected).Success?
    ensures AllIn(FirstKeys(task), Names(selected.schema))
  {
    hide RunSteps, LastSteps, RunStep;
    RunStepsAppend(LeftFilters(task), Joins(task, rights) + LastSteps(task), selected);
    var filtered := RunSteps(LeftFilters(task), selected).value;
    RunStepsAppend(Joins(task, rights), LastSteps(task), filtered);
    FirstStepRuns(Joins(task, rights), filtered);
    JoinFindsKeys(Joins(task, rights)[0], filtered);
    FiltersKeepSchema(LeftFilters(task), selected);
  }

  lemma JoinFindsKeys(step: Step, table: Table)
    requires step.JoinWith? && StepValid(step) && table.Valid() && RunStep(step, table).Success?
    ensures AllIn(step.source.leftOn, Names(table.schema))
  {
    hide ActAll, KeepRight;
    var columns := IndexesOf(table.schema, step.source.leftOn);
    forall i | 0 <= i < |step.source.leftOn| ensures step.source.leftOn[i] in Names(table.schema) {
      assert IndexOf(table.schema, step.source.leftOn[i]) == Some(columns.value[i]);
      assert Names(table.schema)[columns.value[i]] == step.source.leftOn[i];
    }
  }

  lemma {:induction false} FiltersKeepSchema(steps: seq<Step>, table: Table)
    requires StepsValid(steps) && table.Valid() && RunSteps(steps, table).Success?
    requires forall i :: 0 <= i < |steps| ==> steps[i].FilterValue? || steps[i].FilterKeys?
    ensures RunSteps(steps, table).value.schema == table.schema
    decreases |steps|
  {
    hide ActAll, AllowedKeys, IndexesOf, IndexOf;
    if steps != [] { FiltersKeepSchema(steps[1..], RunStep(steps[0], table).value); }
  }

  /** The projected read succeeds whenever the eager task does and the policies agree. */
  lemma ProjectionSucceeds(task: Task, left: Table, rights: seq<Table>)
    requires ValidTask(task) && SupportsBounded(task) && |rights| == |task.sources| && TablesValid(rights) && left.Valid()
    requires RunSteps(AllSteps(task, rights), left).Success? && PoliciesAgree(task, Names(left.schema))
    ensures ProjectedNames(task, left.schema).Success?
  {
    var names, policy := Names(left.schema), task.leftColumns;
    FirstKeysSelected(task, left, rights);
    SelectedNamesSucceeds(names, policy, [task.leftPartitionKey]);
    var required := RequiredLeft(task, names, |task.sources|);
    hide RunSteps, AllSteps, Chosen, Without, RequiredLeft, Names;
    forall k | 0 <= k < |required| ensures required[k] in names && required[k] !in policy.excluded {
      RequiredIsKept(task, left, required[k]);
    }
    SelectedNamesSucceeds(names, policy, required);
  }

  lemma RequiredIsKept(task: Task, left: Table, name: string)
    requires ValidTask(task) && PoliciesAgree(task, Names(left.schema))
    requires var selected := SelectedNames(Names(left.schema), task.leftColumns, [task.leftPartitionKey]);
      selected.Success? && AllIn(FirstKeys(task), selected.value)
    requires name in RequiredLeft(task, Names(left.schema), |task.sources|)
    ensures name in Names(left.schema) && name !in task.leftColumns.excluded
  {
    var names, policy, key := Names(left.schema), task.leftColumns, task.leftPartitionKey;
    SelectedNamesSucceeds(names, policy, [key]);
    RequiredLeftMeans(task, names, |task.sources|, name);
    hide SelectedNames, RequiredLeft;
    assert [key][0] == key;
    if name != key {
      var i :| 0 <= i < |task.sources| && name in task.sources[i].join.leftOn && (i == 0 || name in names);
      if i == 0 {
        SelectedAreNames(left.schema, policy, [key], name);
      } else {
        assert LaterKeysKept(task, i, names);
      }
    }
  }

  lemma ProjectionMeansLaterKeysKept(task: Task, schema: Schema)
    requires ProjectedNames(task, schema).Success?
    ensures forall i | 1 <= i < |task.sources| :: LaterKeysKept(task, i, Names(schema))
  {
    var required := RequiredLeft(task, Names(schema), |task.sources|);
    SelectedNamesSucceeds(Names(schema), task.leftColumns, required);
    hide RequiredLeft, SelectedNames, Names;
    forall i, name | 1 <= i < |task.sources| && name in task.sources[i].join.leftOn && name in Names(schema)
      ensures name !in task.leftColumns.excluded
    {
      RequiredLeftMeans(task, Names(schema), |task.sources|, name);
      var k :| 0 <= k < |required| && required[k] == name;
    }
  }

  lemma StepsSeeThrough(task: Task, schema: Schema, rights: seq<Table>)
    requires ValidTask(task) && SupportsBounded(task) && |rights| == |task.sources| && TablesValid(rights)
    requires ProjectedNames(task, schema).Success? && NoneExcluded(task.leftColumns.included, task.leftColumns.excluded)
    ensures SeesThrough(AllSteps(task, rights), schema, ProjectedNames(task, schema).value)
  {
    var names := ProjectedNames(task, schema).value;
    var policy, key := task.leftColumns, task.leftPartitionKey;
    var required := RequiredLeft(task, Names(schema), |task.sources|);
    var steps := AllSteps(task, rights);
    forall rows | AllWide(rows, |schema|) ensures SeesThroughOn(steps, schema, names, rows) {
      hide RunSteps, RunStep, Projection, SelectedNames, RequiredLeft, Joins, LastSteps, LeftFilters;
      SelectSeesThrough(Table(schema, rows), policy, required, key);
      FirstStepRuns(steps, Table(schema, rows));
      FirstStepRuns(steps, Projection(Table(schema, rows), names));
    }
  }

  lemma DoublySelectedFails(task: Task, schema: Schema, rows: seq<Row>, rights: seq<Table>)
    requires ValidTask(task) && SupportsBounded(task) && |rights| == |task.sources| && TablesValid(rights)
    requires ProjectedNames(task, schema).Success? && !NoneExcluded(task.leftColumns.included, task.leftColumns.excluded)
    requires AllWide(rows, |schema|)
    ensures RunSteps(AllSteps(task, rights), Projection(Table(schema, rows), ProjectedNames(task, schema).value)).Failure?
  {
    var policy, key := task.leftColumns, task.leftPartitionKey;
    var required := RequiredLeft(task, Names(schema), |task.sources|);
    IncludedAndExcluded(Names(schema), policy, required, key);
    var steps := AllSteps(task, rights);
    hide RunSteps, RunStep, Projection, SelectedNames, RequiredLeft, Joins, LastSteps, LeftFilters;
    var projected := Projection(Table(schema, rows), ProjectedNames(task, schema).value);
    FirstStepRuns(steps, projected);
    SelectProjects(projected, policy, [key]);
  }

  // ----- the main result

  /** With inner and left joins the bounded task succeeds exactly when the eager task succeeds and the
      column policies agree. Its outputs then have the eager schema and, written one after the other,
      are the eager rows: for every split of the left rows into batches, whichever right sides are
      staged and whichever key encoding the first batch selects. */
  lemma BoundedEqualsEager(task: Task, schema: Schema, batches: seq<seq<Row>>, rights: seq<Table>)
    requires ValidTask(task) && SupportsBounded(task) && |rights| == |task.sources| && TablesValid(rights)
    requires BatchesFit(schema, batches) && batches != [] && Table(schema, Concat(batches)).Valid()
    requires StagesSafely(task, Table(schema, Concat(batches)), rights)
    ensures var bounded := BoundedSpec(task, schema, batches, rights);
      var eager := EagerSpec(task, Table(schema, Concat(batches)), rights);
      bounded.Success? == (eager.Success? && PoliciesAgree(task, Names(schema)))
      && (bounded.Success? ==>
            OneSchema(bounded.value, eager.value.schema) && Concat(RowsOf(bounded.value)) == eager.value.rows)
  {
    hide ReadRights, BoundedRights, EagerSpec, RunSteps, AllSteps, StagesSafely, RightsRelated, ValidTask, SupportsBounded,
      TablesValid, BatchesFit, Concat, PoliciesAgree, ProjectedNames, BatchOutputs, Names, NoneExcluded;
    var left := Table(schema, Concat(batches));
    EagerIsSteps(task, left, rights);
    BoundedRightsRelated(task, rights, |rights|);
    var full, staged := ReadRights(task, rights, |rights|), BoundedRights(task, rights, |rights|);
    if full.Success? {
      StagedStepsAgree(task, left, rights, full.value, staged.value);
      BatchesAgree(task, schema, batches, staged.value);
    }
  }

  lemma BatchesAgree(task: Task, schema: Schema, batches: seq<seq<Row>>, rights: seq<Table>)
    requires ValidTask(task) && SupportsBounded(task) && |rights| == |task.sources| && TablesValid(rights)
    requires BatchesFit(schema, batches) && batches != [] && Table(schema, Concat(batches)).Valid()
    ensures var names := ProjectedNames(task, schema);
      var whole := RunSteps(AllSteps(task, rights), Table(schema, Concat(batches)));
      if names.Success? then
        var outputs := BatchOutputs(task, schema, names.value, batches, rights, |batches|);
        outputs.Success? == (whole.Success? && PoliciesAgree(task, Names(schema)))
        && (outputs.Success? ==> Together(outputs, whole))
      else !(whole.Success? && PoliciesAgree(task, Names(schema)))
  {
    hide ProjectedNames, BatchOutputs, RunSteps, AllSteps, PoliciesAgree, Names;
    var left := Table(schema, Concat(batches));
    var names := ProjectedNames(task, schema);
    var whole := RunSteps(AllSteps(task, rights), left);
    if names.Failure? {
      if whole.Success? && PoliciesAgree(task, Names(schema)) { ProjectionSucceeds(task, left, rights); }
    } else if NoneExcluded(task.leftColumns.included, task.leftColumns.excluded) {
      PoliciesAgreeAfterProjection(task, schema);
      StepsSeeThrough(task, schema, rights);
      OutputsSeeThrough(task, schema, names.value, batches, rights, |batches|);
      OutputsStack(AllSteps(task, rights), schema, batches, |batches|);
      assert batches[..|batches|] == batches;
    } else {
      PoliciesDisagree(task, Names(schema));
      DoublySelectedFails(task, schema, batches[0], rights);
      NoFirstOutput(task, schema, names.value, batches, rights);
    }
  }

  lemma PoliciesAgreeAfterProjection(task: Task, schema: Schema)
    requires ProjectedNames(task, schema).Success? && NoneExcluded(task.leftColumns.included, task.leftColumns.excluded)
    ensures PoliciesAgree(task, Names(schema))
  {
    hide ProjectedNames, LaterKeysKept;
    ProjectionMeansLaterKeysKept(task, schema);
  }

  lemma PoliciesDisagree(task: Task, names: seq<string>)
    requires !NoneExcluded(task.leftColumns.included, task.leftColumns.excluded)
    ensures !PoliciesAgree(task, names)
  {
  }

  lemma NoFirstOutput(task: Task, schema: Schema, names: seq<string>, batches: seq<seq<Row>>, rights: seq<Table>)
    requires ValidTask(task) && SupportsBounded(task) && |rights| == |task.sources| && TablesValid(rights)
    requires BatchesFit(schema, batches) && AllIn(names, Names(schema)) && batches != []
    requires RunSteps(AllSteps(task, rights), Projection(Table(schema, batches[0]), names)).Failure?
    ensures BatchOutputs(task, schema, names, batches, rights, |batches|).Failure?
  {
    hide RunSteps, AllSteps, Projection, ValidTask, SupportsBounded, TablesValid, AllIn, StepsValid, AllWide;
    assert BatchOutputs(task, schema, names, batches, rights, 1).Failure?;
    FailedBatchStops(task, schema, names, batches, rights, 1, |batches|);
  }
}
