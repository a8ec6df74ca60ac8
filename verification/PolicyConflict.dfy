/** Join tasks on which the bounded join fails where the eager one succeeds (native/engine/src/join.rs): a
    column that is both included and excluded, and an excluded column that is a later key. */
module PolicyConflict {
  import opened Wrappers
  import opened Tables
  import opened HashJoin
  import opened JoinRows
  import opened JoinSteps
  import opened JoinTask
  import opened BoundedJoin
  import opened ColumnProjection
  import opened BoundedEqualsEager

  const EVERYTHING := ColumnPolicy([], {}, None)

  const PART := Field("part", "text")

  const X := Field("x", "text")

  const LEFT := [PART, X]

  /** Left joins without partition of the right side, key filter or staging. */
  function JoinTaskOf(policy: ColumnPolicy, keys: seq<string>): (task: Task)
    requires keys != []
    ensures ValidTask(task) && SupportsBounded(task) && |task.sources| == |keys|
  {
    Task(policy, "part", "p", [], false,
         seq(|keys|, i requires 0 <= i < |keys| => TaskSource(SourceOn(keys[i]), EVERYTHING, None)),
         "", [], "out", 1000, Off)
  }

  function SourceOn(key: string): Source { Source([key], [key], LeftJoin, "_r", false) }

  // ----- schemas decide

  lemma StepRuns(step: Step, table: Table)
    requires StepValid(step) && table.Valid()
    ensures RunStep(step, table).Success? == Resolve(step, table.schema).Success?
    ensures RunStep(step, table).Success? ==> RunStep(step, table).value.schema == Resolve(step, table.schema).value.1
  {
    hide Resolve, ActAll;
  }

  ghost predicate Gives(r: Result<Table, JoinError>, schema: Schema) { r.Success? && r.value.schema == schema }

  ghost predicate Resolves(step: Step, schema: Schema, next: Schema)
    requires StepValid(step)
  {
    Resolve(step, schema).Success? && Resolve(step, schema).value.1 == next
  }

  lemma OneStep(step: Step, table: Table, next: Schema)
    requires StepValid(step) && table.Valid() && Resolves(step, table.schema, next)
    ensures StepsValid([step]) && Gives(RunSteps([step], table), next)
  {
    hide Resolve, RunStep;
    StepRuns(step, table);
    assert [step][1..] == [];
  }

  lemma TwoSteps(first: Step, second: Step, table: Table, middle: Schema, next: Schema)
    requires StepValid(first) && StepValid(second) && table.Valid()
    requires Resolves(first, table.schema, middle) && Resolves(second, middle, next)
    ensures StepsValid([first, second]) && Gives(RunSteps([first, second], table), next)
  {
    hide Resolve, RunStep;
    StepRuns(first, table);
    OneStep(second, RunStep(first, table).value, next);
    assert [first, second][1..] == [second];
  }

  lemma NamesAre()
    ensures Names(LEFT) == ["part", "x"] && Names([PART]) == ["part"] && Names([X]) == ["x"]
  {
  }

  lemma IndexesAre()
    ensures IndexOf(LEFT, "part") == Some(0) && IndexOf(LEFT, "x") == Some(1)
    ensures IndexOf([PART], "part") == Some(0) && IndexOf([X], "x") == Some(0)
  {
    assert LEFT[1..] == [X];
  }

  lemma OneIndex(schema: Schema, name: string)
    requires IndexOf(schema, name).Some?
    ensures IndexesOf(schema, [name]) == Some([IndexOf(schema, name).value])
  {
    hide IndexOf;
    var columns := IndexesOf(schema, [name]);
    assert columns.Some? && columns.value == [columns.value[0]];
    assert IndexOf(schema, [name][0]) == Some(columns.value[0]);
  }

  lemma BothIndexes()
    ensures IndexesOf(LEFT, ["part", "x"]) == Some([0, 1])
  {
    hide IndexOf;
    IndexesAre();
    var columns := IndexesOf(LEFT, ["part", "x"]);
    assert columns.Some? && columns.value == [columns.value[0], columns.value[1]];
    assert IndexOf(LEFT, ["part", "x"][0]) == Some(columns.value[0]) && IndexOf(LEFT, ["part", "x"][1]) == Some(columns.value[1]);
  }

  lemma EverythingSelected(names: seq<string>, key: string)
    requires key in names
    ensures SelectedNames(names, EVERYTHING, [key]) == Success(names)
  {
    hide SelectedNames, Without;
    SelectedNamesSucceeds(names, EVERYTHING, [key]);
    WithoutNothing(names, {});
    assert [key][1..] == [];
  }

  /** Selecting everything keeps a schema of one or both columns. */
  lemma EverythingResolves(schema: Schema, key: string)
    requires (schema == LEFT && key in ["part", "x"]) || (schema == [PART] && key == "part") || (schema == [X] && key == "x")
    ensures Resolves(Select(EVERYTHING, [key]), schema, schema)
  {
    hide IndexOf, IndexesOf, SelectedNames, Names;
    NamesAre();
    IndexesAre();
    BothIndexes();
    OneIndex([PART], "part");
    OneIndex([X], "x");
    EverythingSelected(Names(schema), key);
  }

  lemma FilterResolves()
    ensures Resolves(FilterValue("part", "p"), [PART], [PART])
  {
    hide IndexOf;
    IndexesAre();
  }

  lemma OnlyPartSelected(policy: ColumnPolicy)
    requires policy.regex.None? && policy.excluded == {"x"} && (policy.included == [] || policy.included == ["x"])
    ensures SelectedNames(["part", "x"], policy, ["part"]) == Success(["part"])
  {
    hide SelectedNames, Matching, WithRequired, Without;
    SelectedNamesSucceeds(["part", "x"], policy, ["part"]);
    MatchingNone(policy, ["part", "x"], policy.included);
    WithoutX();
    PartRequired();
  }

  lemma WithoutX()
    ensures Without(["x"], {"x"}) == [] && Without(["part", "x"], {"x"}) == ["part"]
  {
    assert ["part", "x"][1..] == ["x"] && ["x"][1..] == [] && Without([], {"x"}) == [];
    assert Without(["x"], {"x"}) == [];
  }

  lemma PartRequired()
    ensures WithRequired([], ["part"]) == ["part"] && WithRequired(["part"], ["part"]) == ["part"]
  {
    assert ["part"][1..] == [] && [] + ["part"] == ["part"];
  }

  /** A policy that keeps nothing but the required partition column. */
  lemma OnlyPartResolves(policy: ColumnPolicy)
    requires policy.regex.None? && policy.excluded == {"x"} && (policy.included == [] || policy.included == ["x"])
    ensures Resolves(Select(policy, ["part"]), LEFT, [PART])
  {
    hide IndexOf, IndexesOf, SelectedNames, Names;
    NamesAre();
    IndexesAre();
    OneIndex(LEFT, "part");
    OnlyPartSelected(policy);
  }

  lemma {:induction false} MatchingNone(policy: ColumnPolicy, names: seq<string>, chosen: seq<string>)
    requires policy.regex.None?
    ensures Matching(policy, names, chosen) == chosen
  {
    if names != [] { MatchingNone(policy, names[1..], chosen); }
  }

  // ----- the joins

  lemma JoinResolves(left: Schema, key: string, right: Table, joined: Schema)
    requires right.Valid()
    requires (left == [PART] && key == "part" && right.schema == [PART] && joined == [PART])
          || (left == [PART] && key == "part" && right.schema == LEFT && joined == LEFT)
          || (left == LEFT && key == "x" && right.schema == [X] && joined == LEFT)
    ensures Resolves(JoinWith(SourceOn(key), right, None), left, joined)
  {
    hide IndexOf, IndexesOf, FirstColumns, FirstColumn, KeyFallbacks;
    IndexesAre();
    OneIndex(left, key);
    OneIndex(right.schema, key);
    var names := set f | f in left :: f.name;
    assert PART in left;
    KeptOnRight(names, right.schema, key);
    assert LEFT == [PART] + [X] && left + [] == left;
    assert "x" in names ==> X in left;
  }

  lemma KeptOnRight(names: set<string>, right: Schema, key: string)
    requires right == [PART] || right == LEFT || right == [X]
    requires key == right[0].name && (right == LEFT ==> "x" !in names)
    ensures var kept := KeepRight(names, right, 0, SourceOn(key), None);
      kept.Success? && kept.value.1 == if right == LEFT then [X] else []
  {
    hide FirstColumn;
    assert KeepRight(names, right, |right|, SourceOn(key), None) == Success(([], []));
    if right == LEFT {
      assert KeepRight(names + {"x"}, right, 2, SourceOn(key), None) == Success(([], []));
      assert KeepRight(names, right, 1, SourceOn(key), None).Success?;
      assert KeepRight(names, right, 1, SourceOn(key), None).value.1 == [X];
    }
  }

  lemma JoinGives(left: Table, key: string, right: Table, joined: Schema)
    requires left.Valid() && right.Valid() && Resolves(JoinWith(SourceOn(key), right, None), left.schema, joined)
    ensures JoinSpec(left, right, SourceOn(key), None).Success?
    ensures JoinSpec(left, right, SourceOn(key), None).value.table.schema == joined
  {
    hide Resolve, JoinSpec;
    JoinIsStep(left, right, SourceOn(key), None);
    StepRuns(JoinWith(SourceOn(key), right, None), left);
  }

  lemma LeftGives(policy: ColumnPolicy, keys: seq<string>, left: Table)
    requires keys != [] && left.Valid() && left.schema == LEFT
    requires policy.regex.None? && policy.excluded == {"x"} && (policy.included == [] || policy.included == ["x"])
    ensures Gives(RunSteps(LeftSteps(JoinTaskOf(policy, keys)), left), [PART])
  {
    hide Resolve, RunSteps;
    OnlyPartResolves(policy);
    FilterResolves();
    TwoSteps(Select(policy, ["part"]), FilterValue("part", "p"), left, [PART], [PART]);
    assert LeftSteps(JoinTaskOf(policy, keys)) == [Select(policy, ["part"]), FilterValue("part", "p")];
  }

  lemma RightGives(policy: ColumnPolicy, keys: seq<string>, i: nat, right: Table)
    requires i < |keys| && right.Valid() && (right.schema == LEFT || right.schema == [PART] || right.schema == [X])
    requires right.schema[0].name == keys[i]
    ensures var task := JoinTaskOf(policy, keys); Gives(RunSteps(RightSteps(task, task.sources[i]), right), right.schema)
  {
    hide Resolve, RunSteps;
    EverythingResolves(right.schema, keys[i]);
    OneStep(Select(EVERYTHING, [keys[i]]), right, right.schema);
  }

  lemma LastGives(policy: ColumnPolicy, keys: seq<string>, table: Table)
    requires keys != [] && table.Valid()
    ensures RunSteps(LastSteps(JoinTaskOf(policy, keys)), table).Success?
  {
    hide RunSteps;
    var step := SetPartition("out", "p");
    assert LastSteps(JoinTaskOf(policy, keys)) == [step];
    OneStep(step, table, Resolve(step, table.schema).value.1);
  }

  // ----- a column both included and excluded

  const BOTH := ColumnPolicy(["x"], {"x"}, None)

  /** The left columns name `x` both ways. The eager join drops it and goes on, the bounded one misses it
      at its second selection. */
  lemma IncludedAndExcludedDisagrees(left: seq<Row>, right: seq<Row>)
    requires AllWide(left, 2) && AllWide(right, 1)
    ensures Table(LEFT, left).Valid() && TablesValid([Table([PART], right)]) && BatchesFit(LEFT, [left])
    ensures var task := JoinTaskOf(BOTH, ["part"]);
      EagerSpec(task, Table(LEFT, left), [Table([PART], right)]).Success?
      && BoundedSpec(task, LEFT, [left], [Table([PART], right)]).Failure?
  {
    hide RunSteps, JoinSpec, Resolve, LeftSteps, LastSteps, BoundedSpec, PoliciesAgree;
    var task, rights := JoinTaskOf(BOTH, ["part"]), [Table([PART], right)];
    LeftGives(BOTH, ["part"], Table(LEFT, left));
    var current := RunSteps(LeftSteps(task), Table(LEFT, left)).value;
    RightGives(BOTH, ["part"], 0, rights[0]);
    var side := RunSteps(RightSteps(task, task.sources[0]), rights[0]).value;
    JoinResolves([PART], "part", side, [PART]);
    JoinGives(current, "part", side, [PART]);
    var joined := JoinSpec(current, side, SourceOn("part"), None).value.table;
    assert JoinFrom(task, 1, joined, rights) == Success(joined);
    assert JoinFrom(task, 0, current, rights) == Success(joined);
    LastGives(BOTH, ["part"], joined);
    assert [left][..0] == [] && Concat([left]) == left;
    assert BOTH.included[0] in BOTH.excluded;
    PoliciesDisagree(task, Names(LEFT));
    BoundedEqualsEager.BoundedEqualsEager(task, LEFT, [left], rights);
  }

  // ----- an excluded column that is a later key

  const EXCLUDED := ColumnPolicy([], {"x"}, None)

  /** The second source joins on the `x` that the first one brings, while the left side's own `x` is
      excluded. The eager join does that, the bounded one insists on the left side's. */
  lemma ExcludedKeyDisagrees(left: seq<Row>, first: seq<Row>, second: seq<Row>)
    requires AllWide(left, 2) && AllWide(first, 2) && AllWide(second, 1)
    ensures Table(LEFT, left).Valid() && TablesValid([Table(LEFT, first), Table([X], second)]) && BatchesFit(LEFT, [left])
    ensures var task, rights := JoinTaskOf(EXCLUDED, ["part", "x"]), [Table(LEFT, first), Table([X], second)];
      EagerSpec(task, Table(LEFT, left), rights).Success? && BoundedSpec(task, LEFT, [left], rights).Failure?
  {
    hide RunSteps, JoinSpec, Resolve, LeftSteps, LastSteps, BoundedSpec;
    var task, rights := JoinTaskOf(EXCLUDED, ["part", "x"]), [Table(LEFT, first), Table([X], second)];
    LeftGives(EXCLUDED, ["part", "x"], Table(LEFT, left));
    var current := RunSteps(LeftSteps(task), Table(LEFT, left)).value;
    RightGives(EXCLUDED, ["part", "x"], 0, rights[0]);
    RightGives(EXCLUDED, ["part", "x"], 1, rights[1]);
    var side := RunSteps(RightSteps(task, task.sources[0]), rights[0]).value;
    var side' := RunSteps(RightSteps(task, task.sources[1]), rights[1]).value;
    JoinResolves([PART], "part", side, LEFT);
    JoinGives(current, "part", side, LEFT);
    var joined := JoinSpec(current, side, SourceOn("part"), None).value.table;
    JoinResolves(LEFT, "x", side', LEFT);
    JoinGives(joined, "x", side', LEFT);
    var joined' := JoinSpec(joined, side', SourceOn("x"), None).value.table;
    assert JoinFrom(task, 2, joined', rights) == Success(joined');
    assert JoinFrom(task, 1, joined, rights) == Success(joined');
    assert JoinFrom(task, 0, current, rights) == Success(joined');
    LastGives(EXCLUDED, ["part", "x"], joined');
    assert [left][..0] == [] && Concat([left]) == left;
    NamesAre();
    assert ["x"][0] in task.sources[1].join.leftOn && "x" in Names(LEFT);
    assert !LaterKeysKept(task, 1, Names(LEFT));
    BoundedEqualsEager.BoundedEqualsEager(task, LEFT, [left], rights);
  }
}
