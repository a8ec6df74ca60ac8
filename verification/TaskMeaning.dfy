/** Which input rows a join works on: the left and right rows of its partition
    (native/engine/src/join.rs). */
module TaskMeaning {
  import opened Wrappers
  import opened Tables
  import opened HashJoin
  import opened JoinRows
  import opened JoinSteps
  import opened JoinMeaning
  import opened JoinTask
  import opened BoundedJoin
  import opened StepMeaning
  import opened RightStaging
  import opened BoundedEqualsEager

  // ----- steps row by row

  lemma {:induction false} EmptyGivesNothing(steps: seq<Step>, schema: Schema)
    requires StepsValid(steps) && RunSteps(steps, Table(schema, [])).Success?
    ensures RunSteps(steps, Table(schema, [])).value.rows == []
    decreases |steps|
  {
    if steps != [] {
      hide StepValid;
      var next := RunStep(steps[0], Table(schema, [])).value;
      assert next.rows == [];
      assert next == Table(next.schema, []);
      EmptyGivesNothing(steps[1..], next.schema);
    }
  }

  /** Whether steps succeed, and with which columns or error, is a matter of the schema. */
  lemma SchemaDecides(steps: seq<Step>, schema: Schema, rows: seq<Row>)
    requires StepsValid(steps) && Table(schema, rows).Valid()
    ensures var none, some := RunSteps(steps, Table(schema, [])), RunSteps(steps, Table(schema, rows));
      if none.Success? then some.Success? && some.value.schema == none.value.schema else some == none
  {
    hide RunSteps, StepsValid;
    RunStepsStack(steps, schema, [], rows);
    assert [] + rows == rows;
  }

  /** What a single row becomes. */
  function Solo(steps: seq<Step>, schema: Schema, row: Row): seq<Row>
    requires StepsValid(steps) && |row| == |schema|
  {
    var out := RunSteps(steps, Table(schema, [row]));
    if out.Success? then out.value.rows else []
  }

  function Solos(steps: seq<Step>, schema: Schema, rows: seq<Row>): seq<Row>
    requires StepsValid(steps) && AllWide(rows, |schema|)
  {
    if rows == [] then []
    else Solos(steps, schema, rows[..|rows| - 1]) + Solo(steps, schema, rows[|rows| - 1])
  }

  lemma SolosStep(steps: seq<Step>, schema: Schema, rows: seq<Row>)
    requires StepsValid(steps) && AllWide(rows, |schema|)
    ensures rows == [] ==> Solos(steps, schema, rows) == []
    ensures rows != [] ==>
      Solos(steps, schema, rows) == Solos(steps, schema, rows[..|rows| - 1]) + Solo(steps, schema, rows[|rows| - 1])
  {
    hide Solo, StepsValid;
  }

  lemma WideIsTable(schema: Schema, rows: seq<Row>)
    requires AllWide(rows, |schema|)
    ensures Table(schema, rows).Valid()
  {
  }

  lemma {:induction false} RowByRow(steps: seq<Step>, schema: Schema, rows: seq<Row>)
    requires StepsValid(steps) && AllWide(rows, |schema|) && Table(schema, rows).Valid()
    requires RunSteps(steps, Table(schema, [])).Success?
    ensures RunSteps(steps, Table(schema, rows))
         == Success(Table(RunSteps(steps, Table(schema, [])).value.schema, Solos(steps, schema, rows)))
  {
    hide RunSteps, StepsValid;
    if rows == [] {
      EmptyGivesNothing(steps, schema);
    } else {
      var last := |rows| - 1;
      WideIsTable(schema, rows[..last]);
      WideIsTable(schema, [rows[last]]);
      RowByRow(steps, schema, rows[..last]);
      RunStepsStack(steps, schema, rows[..last], [rows[last]]);
      SchemaDecides(steps, schema, [rows[last]]);
      assert rows[..last] + [rows[last]] == rows;
    }
  }

  /** Rows that become nothing may be left out. */
  lemma {:induction false} PickedSolos(steps: seq<Step>, schema: Schema, rows: seq<Row>, kept: seq<nat>, picked: seq<Row>)
    requires StepsValid(steps) && AllWide(rows, |schema|) && AllWide(picked, |schema|) && |picked| == |kept| && Climbs(kept)
    requires forall n :: 0 <= n < |kept| ==> kept[n] < |rows| && picked[n] == rows[kept[n]]
    requires forall i: nat :: i < |rows| && i !in kept ==> Solo(steps, schema, rows[i]) == []
    ensures Solos(steps, schema, picked) == Solos(steps, schema, rows)
  {
    hide Solo, StepsValid, Climbs, Solos;
    SolosStep(steps, schema, rows);
    SolosStep(steps, schema, picked);
    assert kept == [] || kept[0] < |rows|;
    if rows != [] {
      var last := |rows| - 1;
      if last in kept {
        var m := |kept| - 1;
        LastIsLast(kept, last);
        assert forall i: nat :: i < last && i !in kept[..m] ==> i !in kept;
        PickedSolos(steps, schema, rows[..last], kept[..m], picked[..m]);
      } else {
        assert forall n :: 0 <= n < |kept| ==> kept[n] in kept;
        PickedSolos(steps, schema, rows[..last], kept, picked);
      }
    }
  }

  lemma LastIsLast(kept: seq<nat>, last: nat)
    requires Climbs(kept) && last in kept && forall n :: 0 <= n < |kept| ==> kept[n] <= last
    ensures kept != [] && kept[|kept| - 1] == last && Climbs(kept[..|kept| - 1])
    ensures forall n :: 0 <= n < |kept| - 1 ==> kept[n] < last
    ensures forall i :: i in kept <==> i in kept[..|kept| - 1] || i == last
  {
    var n :| 0 <= n < |kept| && kept[n] == last;
    assert kept == kept[..|kept| - 1] + [kept[|kept| - 1]];
  }

  lemma PickedRunSame(steps: seq<Step>, table: Table, picked: Table, kept: seq<nat>)
    requires StepsValid(steps) && table.Valid() && picked.Valid() && picked.schema == table.schema
    requires |picked.rows| == |kept| && Climbs(kept)
    requires forall n :: 0 <= n < |kept| ==> kept[n] < |table.rows| && picked.rows[n] == table.rows[kept[n]]
    requires AllWide(table.rows, |table.schema|)
    requires forall i: nat :: i < |table.rows| && i !in kept ==> Solo(steps, table.schema, table.rows[i]) == []
    ensures RunSteps(steps, picked) == RunSteps(steps, table)
  {
    hide RunSteps, StepsValid, Solo;
    ValidIsWide(picked);
    SchemaDecides(steps, table.schema, table.rows);
    SchemaDecides(steps, table.schema, picked.rows);
    assert table == Table(table.schema, table.rows) && picked == Table(table.schema, picked.rows);
    if RunSteps(steps, Table(table.schema, [])).Success? {
      RowByRow(steps, table.schema, table.rows);
      RowByRow(steps, table.schema, picked.rows);
      PickedSolos(steps, table.schema, table.rows, kept, picked.rows);
    }
  }

  // ----- select, then filter by the partition

  ghost predicate SelectsAndFilters(steps: seq<Step>, key: string, value: string) {
    |steps| >= 2 && steps[0].Select? && key in steps[0].required && steps[1] == FilterValue(key, value)
  }

  /** A row outside the partition becomes nothing. */
  lemma OutsideBecomesNothing(steps: seq<Step>, schema: Schema, row: Row, key: string, value: string)
    requires StepsValid(steps) && |row| == |schema| && SelectsAndFilters(steps, key, value)
    requires !CellIs(Table(schema, [row]), 0, key, Val(value))
    ensures Solo(steps, schema, row) == []
  {
    hide RunStep, RunSteps, Projects, CellIs, StepsValid;
    var table := Table(schema, [row]);
    if RunSteps(steps, table).Success? {
      TwoStepsRun(steps, table);
      var selected := RunStep(steps[0], table).value;
      SelectProjectsByName(table, steps[0].policy, steps[0].required);
      FilteredAway(table, selected, key, value);
      var filtered := RunStep(steps[1], selected).value;
      assert filtered == Table(filtered.schema, []);
      EmptyGivesNothing(steps[2..], filtered.schema);
    }
  }

  lemma TwoStepsRun(steps: seq<Step>, table: Table)
    requires StepsValid(steps) && table.Valid() && |steps| >= 2 && RunSteps(steps, table).Success?
    ensures StepValid(steps[0]) && StepValid(steps[1]) && StepsValid(steps[2..])
    ensures RunStep(steps[0], table).Success? && RunStep(steps[1], RunStep(steps[0], table).value).Success?
    ensures RunSteps(steps, table) == RunSteps(steps[2..], RunStep(steps[1], RunStep(steps[0], table).value).value)
  {
    hide RunStep;
    assert steps[1..][1..] == steps[2..] && steps[1..][0] == steps[1];
    assert RunSteps(steps, table) == RunSteps(steps[1..], RunStep(steps[0], table).value);
  }

  lemma FilteredAway(table: Table, selected: Table, key: string, value: string)
    requires selected.Valid() && |table.rows| == 1 && Projects(table, selected) && !CellIs(table, 0, key, Val(value))
    ensures RunStep(FilterValue(key, value), selected).Success? ==> RunStep(FilterValue(key, value), selected).value.rows == []
  {
    hide RunStep, CellIs, Projects;
    var kept := FilterValueKeeps(selected, key, value);
    SelectedCell(table, selected, key, Val(value));
    assert |selected.rows| == 1 by { ProjectsRows(table, selected); }
    assert kept == [] || kept[0] in kept;
  }

  lemma ProjectsRows(table: Table, selected: Table)
    requires Projects(table, selected)
    ensures |selected.rows| == |table.rows|
  {
  }

  lemma SelectedCell(table: Table, selected: Table, name: string, cell: Cell)
    requires selected.Valid() && |table.rows| == 1 && Projects(table, selected)
    ensures CellIs(selected, 0, name, cell) ==> CellIs(table, 0, name, cell)
  {
    if CellIs(selected, 0, name, cell) {
      assert selected.rows[0] in selected.rows;
      var c :| 0 <= c < |selected.rows[0]| && FirstNamed(selected.schema, name, c) && selected.rows[0][c] == cell;
      assert CellIs(table, 0, selected.schema[c].name, selected.rows[0][c]);
    }
  }

  // ----- the left side

  /** What one left row contributes. */
  function Contribution(task: Task, schema: Schema, row: Row, rights: seq<Table>): seq<Row>
    requires ValidTask(task) && |rights| == |task.sources| && TablesValid(rights) && |row| == |schema|
  {
    var out := EagerSpec(task, Table(schema, [row]), rights);
    if out.Success? then out.value.rows else []
  }

  function Contributions(task: Task, schema: Schema, rows: seq<Row>, rights: seq<Table>): seq<Row>
    requires ValidTask(task) && |rights| == |task.sources| && TablesValid(rights) && AllWide(rows, |schema|)
  {
    if rows == [] then []
    else Contributions(task, schema, rows[..|rows| - 1], rights) + Contribution(task, schema, rows[|rows| - 1], rights)
  }

  lemma ContributionIsSolo(task: Task, schema: Schema, row: Row, rights: seq<Table>, parts: seq<Table>)
    requires ValidTask(task) && SupportsBounded(task) && |rights| == |task.sources| && TablesValid(rights) && |row| == |schema|
    requires ReadRights(task, rights, |rights|) == Success(parts)
    ensures Contribution(task, schema, row, rights) == Solo(AllSteps(task, parts), schema, row)
  {
    hide RunSteps, ReadRights, EagerSpec, AllSteps;
    EagerIsSteps(task, Table(schema, [row]), rights);
  }

  lemma {:induction false} ContributionsAreSolos(task: Task, schema: Schema, rows: seq<Row>, rights: seq<Table>, parts: seq<Table>)
    requires ValidTask(task) && SupportsBounded(task) && |rights| == |task.sources| && TablesValid(rights) && AllWide(rows, |schema|)
    requires ReadRights(task, rights, |rights|) == Success(parts)
    ensures Contributions(task, schema, rows, rights) == Solos(AllSteps(task, parts), schema, rows)
  {
    hide ReadRights, Contribution, Solo, AllSteps, ValidTask, SupportsBounded;
    if rows != [] {
      ContributionsAreSolos(task, schema, rows[..|rows| - 1], rights, parts);
      ContributionIsSolo(task, schema, rows[|rows| - 1], rights, parts);
    }
  }

  /** With inner and left joins the output is what the left rows contribute, one after the other, and a
      left row outside the partition contributes nothing. */
  lemma EagerIsContributions(task: Task, left: Table, rights: seq<Table>)
    requires ValidTask(task) && SupportsBounded(task) && |rights| == |task.sources| && TablesValid(rights) && left.Valid()
    requires EagerSpec(task, left, rights).Success? && AllWide(left.rows, |left.schema|)
    ensures EagerSpec(task, left, rights).value.rows == Contributions(task, left.schema, left.rows, rights)
    ensures forall i: nat | i < |left.rows| && !CellIs(left, i, task.leftPartitionKey, Val(task.partitionValue)) ::
              Contribution(task, left.schema, left.rows[i], rights) == []
  {
    hide RunSteps, ReadRights, EagerSpec, AllSteps, Contribution, ValidTask, SupportsBounded, CellIs, SelectsAndFilters, Solo;
    EagerIsSteps(task, left, rights);
    var parts := ReadRights(task, rights, |rights|).value;
    var steps := AllSteps(task, parts);
    SchemaDecides(steps, left.schema, left.rows);
    assert left == Table(left.schema, left.rows);
    RowByRow(steps, left.schema, left.rows);
    ContributionsAreSolos(task, left.schema, left.rows, rights, parts);
    AllStepsFilter(task, parts);
    forall i: nat | i < |left.rows| && !CellIs(left, i, task.leftPartitionKey, Val(task.partitionValue))
      ensures Contribution(task, left.schema, left.rows[i], rights) == []
    {
      SameCell(left, i, task.leftPartitionKey, Val(task.partitionValue));
      OutsideBecomesNothing(steps, left.schema, left.rows[i], task.leftPartitionKey, task.partitionValue);
      ContributionIsSolo(task, left.schema, left.rows[i], rights, parts);
    }
  }

  lemma SameCell(table: Table, i: nat, name: string, cell: Cell)
    requires i < |table.rows|
    ensures CellIs(Table(table.schema, [table.rows[i]]), 0, name, cell) <==> CellIs(table, i, name, cell)
  {
  }

  lemma AllStepsFilter(task: Task, parts: seq<Table>)
    requires ValidTask(task) && SupportsBounded(task) && |parts| == |task.sources| && TablesValid(parts)
    ensures SelectsAndFilters(AllSteps(task, parts), task.leftPartitionKey, task.partitionValue)
  {
    hide Joins, LastSteps;
    assert LeftSteps(task)[0] == Select(task.leftColumns, [task.leftPartitionKey]);
    assert LeftSteps(task)[1] == FilterValue(task.leftPartitionKey, task.partitionValue);
    assert AllSteps(task, parts)[0] == LeftSteps(task)[0] && AllSteps(task, parts)[1] == LeftSteps(task)[1];
    assert task.leftPartitionKey in [task.leftPartitionKey];
  }

  /** Every output row is contributed by a left row of the partition. */
  lemma RowsComeFromPartition(task: Task, left: Table, rights: seq<Table>, out: Row) returns (i: nat)
    requires ValidTask(task) && SupportsBounded(task) && |rights| == |task.sources| && TablesValid(rights) && left.Valid()
    requires EagerSpec(task, left, rights).Success? && out in EagerSpec(task, left, rights).value.rows
    ensures i < |left.rows| && |left.rows[i]| == |left.schema|
    ensures CellIs(left, i, task.leftPartitionKey, Val(task.partitionValue))
    ensures out in Contribution(task, left.schema, left.rows[i], rights)
  {
    hide EagerSpec, Contribution, ValidTask, SupportsBounded, CellIs;
    ValidIsWide(left);
    EagerIsContributions(task, left, rights);
    i := ContributedBy(task, left.schema, left.rows, rights, out);
  }

  lemma {:induction false} ContributedBy(task: Task, schema: Schema, rows: seq<Row>, rights: seq<Table>, out: Row) returns (i: nat)
    requires ValidTask(task) && |rights| == |task.sources| && TablesValid(rights) && AllWide(rows, |schema|)
    requires out in Contributions(task, schema, rows, rights)
    ensures i < |rows| && out in Contribution(task, schema, rows[i], rights)
  {
    hide Contribution, ValidTask;
    var last := |rows| - 1;
    if out in Contribution(task, schema, rows[last], rights) {
      i := last;
    } else {
      i := ContributedBy(task, schema, rows[..last], rights, out);
    }
  }

  // ----- the right sides

  /** `cut` holds the rows of the partition. */
  ghost predicate CutToPartition(right: Table, cut: Table, key: string, value: string) {
    exists kept :: CutBy(right, cut, kept, key, value)
  }

  ghost predicate CutBy(right: Table, cut: Table, kept: seq<nat>, key: string, value: string) {
    KeepsRows(right, cut, kept, (i: nat) => CellIs(right, i, key, Val(value)))
  }

  lemma RightRunSame(task: Task, source: TaskSource, right: Table, cut: Table)
    requires task.rightPartitionKey != "" && right.Valid() && cut.Valid()
    requires CutToPartition(right, cut, task.rightPartitionKey, task.partitionValue)
    ensures RunSteps(RightSteps(task, source), cut) == RunSteps(RightSteps(task, source), right)
  {
    hide RunSteps, CellIs, Solo, SelectsAndFilters;
    var key, value := task.rightPartitionKey, task.partitionValue;
    var steps := RightSteps(task, source);
    var kept :| CutBy(right, cut, kept, key, value);
    ValidIsWide(right);
    RightStepsFilter(task, source);
    forall i: nat | i < |right.rows| && i !in kept ensures Solo(steps, right.schema, right.rows[i]) == [] {
      SameCell(right, i, key, Val(value));
      OutsideBecomesNothing(steps, right.schema, right.rows[i], key, value);
    }
    PickedRunSame(steps, right, cut, kept);
  }

  lemma RightStepsFilter(task: Task, source: TaskSource)
    requires task.rightPartitionKey != ""
    ensures SelectsAndFilters(RightSteps(task, source), task.rightPartitionKey, task.partitionValue)
  {
    assert (source.join.rightOn + [task.rightPartitionKey])[|source.join.rightOn|] == task.rightPartitionKey;
  }

  ghost predicate AllCut(task: Task, rights: seq<Table>, cuts: seq<Table>) {
    && |rights| == |cuts|
    && forall k :: 0 <= k < |rights| ==> CutToPartition(rights[k], cuts[k], task.rightPartitionKey, task.partitionValue)
  }

  lemma JoinFromEnd(task: Task, current: Table, rights: seq<Table>)
    requires ValidTask(task) && |rights| == |task.sources| && TablesValid(rights) && current.Valid()
    ensures JoinFrom(task, |rights|, current, rights) == Success(current)
  {
  }

  lemma JoinFromStep(task: Task, i: nat, current: Table, rights: seq<Table>)
    requires ValidTask(task) && |rights| == |task.sources| && TablesValid(rights) && current.Valid() && i < |rights|
    ensures var source := task.sources[i];
      var right := RunSteps(RightSteps(task, source), rights[i]);
      if right.Failure? then JoinFrom(task, i, current, rights) == Failure(right.error)
      else
        var joined := JoinSpec(current, right.value, source.join, Helper(task, source.join));
        if joined.Failure? then JoinFrom(task, i, current, rights) == Failure(joined.error)
        else JoinFrom(task, i, current, rights) == JoinFrom(task, i + 1, joined.value.table, rights)
  {
    hide RunSteps, RightSteps, JoinSpec, Helper, HasKeys;
  }

  lemma {:induction false} JoinFromSame(task: Task, i: nat, current: Table, rights: seq<Table>, cuts: seq<Table>)
    requires ValidTask(task) && |rights| == |task.sources| && TablesValid(rights) && TablesValid(cuts) && current.Valid()
    requires task.rightPartitionKey != "" && AllCut(task, rights, cuts) && i <= |rights|
    ensures JoinFrom(task, i, current, cuts) == JoinFrom(task, i, current, rights)
    decreases |rights| - i
  {
    hide RunSteps, RightSteps, JoinSpec, JoinFrom, CutToPartition, Helper, HasKeys;
    if i == |rights| {
      JoinFromEnd(task, current, rights);
      JoinFromEnd(task, current, cuts);
    } else {
      var source := task.sources[i];
      RightRunSame(task, source, rights[i], cuts[i]);
      JoinFromStep(task, i, current, rights);
      JoinFromStep(task, i, current, cuts);
      var right := RunSteps(RightSteps(task, source), rights[i]);
      if right.Success? {
        var joined := JoinSpec(current, right.value, source.join, Helper(task, source.join));
        if joined.Success? { JoinFromSame(task, i + 1, joined.value.table, rights, cuts); }
      }
    }
  }

  /** With a right partition key, right rows outside the partition are of no matter to any join. */
  lemma RightsOutsideAreUnused(task: Task, left: Table, rights: seq<Table>, cuts: seq<Table>)
    requires ValidTask(task) && |rights| == |task.sources| && TablesValid(rights) && TablesValid(cuts) && left.Valid()
    requires task.rightPartitionKey != "" && AllCut(task, rights, cuts)
    ensures EagerSpec(task, left, cuts) == EagerSpec(task, left, rights)
  {
    hide RunSteps, JoinFrom, LeftSteps, LastSteps, AllCut, ValidTask;
    var current := RunSteps(LeftSteps(task), left);
    if current.Success? {
      AllCutLength(task, rights, cuts);
      JoinFromSame(task, 0, current.value, rights, cuts);
    }
  }

  lemma AllCutLength(task: Task, rights: seq<Table>, cuts: seq<Table>)
    requires AllCut(task, rights, cuts)
    ensures |rights| == |cuts|
  {
  }

  /** Every output row comes from a left row of the partition joined with right rows of the partition. */
  lemma OutputComesFromPartition(task: Task, left: Table, rights: seq<Table>, cuts: seq<Table>, out: Row) returns (i: nat)
    requires ValidTask(task) && SupportsBounded(task) && |rights| == |task.sources| && left.Valid()
    requires TablesValid(rights) && TablesValid(cuts) && task.rightPartitionKey != "" && AllCut(task, rights, cuts)
    requires EagerSpec(task, left, rights).Success? && out in EagerSpec(task, left, rights).value.rows
    ensures |cuts| == |task.sources| && i < |left.rows| && |left.rows[i]| == |left.schema|
    ensures CellIs(left, i, task.leftPartitionKey, Val(task.partitionValue))
    ensures out in Contribution(task, left.schema, left.rows[i], cuts)
  {
    hide EagerSpec, AllCut, Contribution, ValidTask, SupportsBounded, CellIs;
    AllCutLength(task, rights, cuts);
    RightsOutsideAreUnused(task, left, rights, cuts);
    i := RowsComeFromPartition(task, left, cuts, out);
  }

  /** When the key filter is asked for, every left row that reaches the joins has a key record. */
  lemma KeyFilterApplies(task: Task, left: Table)
    requires ValidTask(task) && left.Valid() && task.records != [] && task.leftKeyFilterRequired
    ensures var current := RunSteps(LeftSteps(task), left);
      current.Success? ==>
        AllListed(current.value.schema, task.sources[0].join.leftOn, task.records, current.value.rows)
  {
    hide RunSteps, LeftSteps, AllListed;
    FilteredIsListed(task, left);
  }

  /** The right partition column comes along exactly when that is asked for (and it is no key), every other
      column exactly when it is no key. */
  lemma PartitionColumnIsKept(task: Task, source: Source, name: string)
    requires task.rightPartitionKey != ""
    ensures IsKept(source, Helper(task, source), name) <==>
      name !in source.rightOn && (name == task.rightPartitionKey ==> source.keepRightPartitionColumn)
  {
  }

  // ----- the stamp

  /** Every output row carries the partition value in the output partition column. */
  lemma OutputIsStamped(task: Task, left: Table, rights: seq<Table>, n: nat)
    requires ValidTask(task) && |rights| == |task.sources| && TablesValid(rights) && left.Valid()
    requires EagerSpec(task, left, rights).Success? && n < |EagerSpec(task, left, rights).value.rows|
    ensures CellIs(EagerSpec(task, left, rights).value, n, task.outputPartitionColumn, Val(task.partitionValue))
  {
    hide RunSteps, JoinFrom, LeftSteps, RunStep;
    var current := RunSteps(LeftSteps(task), left).value;
    var joined := JoinFrom(task, 0, current, rights).value;
    var stamp := SetPartition(task.outputPartitionColumn, task.partitionValue);
    RunStepsAppend(task.postOperations, [stamp], joined);
    var before := RunSteps(task.postOperations, joined).value;
    OneStepRuns(stamp, before);
    var c := StampsColumn(before, task.outputPartitionColumn, task.partitionValue);
  }

  lemma OneStepRuns(step: Step, table: Table)
    requires StepValid(step) && table.Valid()
    ensures StepsValid([step]) && RunSteps([step], table) == RunStep(step, table)
  {
    hide RunStep;
    assert [step][1..] == [];
  }

  // ----- the bounded join

  /** The same of the rows the bounded join writes. */
  lemma BoundedComesFromPartition(
    task: Task, schema: Schema, batches: seq<seq<Row>>, rights: seq<Table>, out: Row) returns (i: nat)
    requires ValidTask(task) && SupportsBounded(task) && |rights| == |task.sources| && TablesValid(rights)
    requires BatchesFit(schema, batches) && batches != [] && Table(schema, Concat(batches)).Valid()
    requires StagesSafely(task, Table(schema, Concat(batches)), rights)
    requires BoundedSpec(task, schema, batches, rights).Success?
    requires out in Concat(RowsOf(BoundedSpec(task, schema, batches, rights).value))
    ensures i < |Concat(batches)| && |Concat(batches)[i]| == |schema|
    ensures CellIs(Table(schema, Concat(batches)), i, task.leftPartitionKey, Val(task.partitionValue))
    ensures out in Contribution(task, schema, Concat(batches)[i], rights)
  {
    hide EagerSpec, BoundedSpec, Contribution, ValidTask, SupportsBounded, CellIs, StagesSafely, PoliciesAgree, Concat, RowsOf,
      BatchesFit;
    BoundedEqualsEager.BoundedEqualsEager(task, schema, batches, rights);
    i := RowsComeFromPartition(task, Table(schema, Concat(batches)), rights, out);
  }
}
