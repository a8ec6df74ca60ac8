/** The bounded join reads a projection of the left files and selects columns from it again; the eager
    join selects from the full schema once (native/engine/src/join.rs). When the two agree. */
module ColumnProjection {
  import opened Wrappers
  import opened Tables
  import opened JoinRows
  import opened JoinSteps

  predicate AllIn(some: seq<string>, names: seq<string>) { forall i :: 0 <= i < |some| ==> some[i] in names }

  predicate NoneExcluded(names: seq<string>, excluded: set<string>) {
    forall i :: 0 <= i < |names| ==> names[i] !in excluded
  }

  function Chosen(policy: ColumnPolicy, names: seq<string>): seq<string> {
    if policy.included == [] && policy.regex.None? then names else Matching(policy, names, policy.included)
  }

  lemma SelectedNamesSucceeds(names: seq<string>, policy: ColumnPolicy, required: seq<string>)
    ensures SelectedNames(names, policy, required).Success?
       <==> AllIn(required, names) && NoneExcluded(required, policy.excluded) && AllIn(Chosen(policy, names), names)
    ensures SelectedNames(names, policy, required).Success? ==>
              SelectedNames(names, policy, required).value
              == WithRequired(Without(Chosen(policy, names), policy.excluded), required)
  {
  }

  // ----- the pieces of a selection

  lemma {:induction false} WithoutNothing(names: seq<string>, excluded: set<string>)
    requires NoneExcluded(names, excluded)
    ensures Without(names, excluded) == names
  {
    if names != [] { WithoutNothing(names[1..], excluded); }
  }

  lemma {:induction false} WithoutJoins(xs: seq<string>, ys: seq<string>, excluded: set<string>)
    ensures Without(xs + ys, excluded) == Without(xs, excluded) + Without(ys, excluded)
  {
    if xs == [] {
      assert xs + ys == ys;
    } else {
      assert (xs + ys)[1..] == xs[1..] + ys;
      WithoutJoins(xs[1..], ys, excluded);
    }
  }

  lemma WithoutIsClean(names: seq<string>, excluded: set<string>)
    ensures NoneExcluded(Without(names, excluded), excluded)
  {
    var kept := Without(names, excluded);
    assert forall i :: 0 <= i < |kept| ==> kept[i] in kept;
  }

  lemma {:induction false} RequiredAddsNothing(names: seq<string>, required: seq<string>)
    requires AllIn(required, names)
    ensures WithRequired(names, required) == names
    decreases |required|
  {
    if required != [] {
      assert required[0] in names;
      RequiredAddsNothing(names, required[1..]);
    }
  }

  /** The required names that were not selected come last. */
  lemma {:induction false} RequiredAppends(names: seq<string>, required: seq<string>) returns (extra: seq<string>)
    ensures WithRequired(names, required) == names + extra
    ensures forall i :: 0 <= i < |extra| ==> extra[i] in required && extra[i] !in names
    decreases |required|
  {
    if required == [] {
      extra := [];
    } else if required[0] in names {
      extra := RequiredAppends(names, required[1..]);
    } else {
      var more := RequiredAppends(names + [required[0]], required[1..]);
      extra := [required[0]] + more;
      assert names + [required[0]] + more == names + extra;
    }
  }

  /** Matching appends the matching names not chosen yet, each once. */
  lemma {:induction false} MatchingAppends(policy: ColumnPolicy, names: seq<string>, chosen: seq<string>)
    returns (added: seq<string>)
    ensures Matching(policy, names, chosen) == chosen + added
    ensures Fresh(policy, added, chosen)
    ensures forall i :: 0 <= i < |names| && RegexMatches(policy, names[i]) ==> names[i] in chosen + added
    decreases |names|
  {
    if names == [] {
      added := [];
      assert chosen + added == chosen;
    } else if RegexMatches(policy, names[0]) && names[0] !in chosen {
      var more := MatchingAppends(policy, names[1..], chosen + [names[0]]);
      added := [names[0]] + more;
      assert chosen + [names[0]] + more == chosen + added;
      forall i | 0 <= i < |names| && RegexMatches(policy, names[i]) ensures names[i] in chosen + added {
        if i > 0 { assert names[i] == names[1..][i - 1]; }
      }
    } else {
      added := MatchingAppends(policy, names[1..], chosen);
      forall i | 0 <= i < |names| && RegexMatches(policy, names[i]) ensures names[i] in chosen + added {
        if i > 0 { assert names[i] == names[1..][i - 1]; }
      }
    }
  }

  /** Every name matches and neither was chosen nor stands earlier in the list. */
  ghost predicate Fresh(policy: ColumnPolicy, added: seq<string>, chosen: seq<string>) {
    && (forall i :: 0 <= i < |added| ==> RegexMatches(policy, added[i]) && added[i] !in chosen)
    && (forall i, j :: 0 <= i < j < |added| ==> added[i] != added[j])
  }

  lemma {:induction false} MatchingTakesFresh(
    policy: ColumnPolicy, added: seq<string>, tail: seq<string>, chosen: seq<string>)
    requires Fresh(policy, added, chosen)
    ensures Matching(policy, added + tail, chosen) == Matching(policy, tail, chosen + added)
    decreases |added|
  {
    if added == [] {
      assert added + tail == tail && chosen + added == chosen;
    } else {
      assert (added + tail)[1..] == added[1..] + tail;
      MatchingTakesFresh(policy, added[1..], tail, chosen + [added[0]]);
      assert chosen + [added[0]] + added[1..] == chosen + added;
    }
  }

  lemma {:induction false} MatchingSkips(policy: ColumnPolicy, some: seq<string>, tail: seq<string>, chosen: seq<string>)
    requires forall i :: 0 <= i < |some| ==> some[i] in chosen || !RegexMatches(policy, some[i])
    ensures Matching(policy, some + tail, chosen) == Matching(policy, tail, chosen)
    decreases |some|
  {
    if some == [] {
      assert some + tail == tail;
    } else {
      assert (some + tail)[1..] == some[1..] + tail;
      MatchingSkips(policy, some[1..], tail, chosen);
    }
  }

  lemma {:induction false} FreshSurvives(policy: ColumnPolicy, added: seq<string>, chosen: seq<string>, excluded: set<string>)
    requires Fresh(policy, added, chosen)
    ensures Fresh(policy, Without(added, excluded), chosen)
  {
    hide RegexMatches;
    if added != [] {
      assert forall i :: 0 <= i < |added[1..]| ==> added[1..][i] == added[i + 1];
      FreshSurvives(policy, added[1..], chosen, excluded);
      if added[0] !in excluded { FreshInFront(policy, added[0], Without(added[1..], excluded), chosen, added[1..]); }
    }
  }

  lemma FreshInFront(policy: ColumnPolicy, name: string, rest: seq<string>, chosen: seq<string>, all: seq<string>)
    requires Fresh(policy, rest, chosen) && RegexMatches(policy, name) && name !in chosen && name !in all
    requires forall n :: n in rest ==> n in all
    ensures Fresh(policy, [name] + rest, chosen)
  {
    hide RegexMatches;
    assert forall i :: 0 <= i < |rest| ==> rest[i] in rest;
  }

  // ----- selecting from the projection

  /** The second selection sees the names the first one left. */
  lemma SelectionAfterProjection(names: seq<string>, policy: ColumnPolicy, required: seq<string>, key: string)
    requires SelectedNames(names, policy, required).Success? && key in required
    requires NoneExcluded(policy.included, policy.excluded)
    ensures SelectedNames(names, policy, [key]).Success?
    ensures SelectedNames(SelectedNames(names, policy, required).value, policy, [key])
         == SelectedNames(names, policy, [key])
  {
    SelectedNamesSucceeds(names, policy, required);
    SelectedNamesSucceeds(names, policy, [key]);
    var selected := SelectedNames(names, policy, required).value;
    assert AllIn([key], names) && NoneExcluded([key], policy.excluded);
    SelectedNamesSucceeds(selected, policy, [key]);
    var kept := Without(Chosen(policy, names), policy.excluded);
    ChosenAgain(names, policy, required);
    WithoutIsClean(Chosen(policy, names), policy.excluded);
    WithoutNothing(kept, policy.excluded);
    assert AllIn(kept, selected);
  }

  lemma ChosenAgain(names: seq<string>, policy: ColumnPolicy, required: seq<string>)
    requires AllIn(required, names) && NoneExcluded(required, policy.excluded)
    requires NoneExcluded(policy.included, policy.excluded)
    ensures var kept := Without(Chosen(policy, names), policy.excluded);
      Chosen(policy, WithRequired(kept, required)) == kept
  {
    hide Matching, RegexMatches;
    var kept := Without(Chosen(policy, names), policy.excluded);
    if policy.included == [] && policy.regex.None? {
      forall i | 0 <= i < |required| ensures required[i] in kept { }
      RequiredAddsNothing(kept, required);
    } else {
      var added := MatchingAppends(policy, names, policy.included);
      WithoutJoins(policy.included, added, policy.excluded);
      WithoutNothing(policy.included, policy.excluded);
      var unseen := Without(added, policy.excluded);
      FreshSurvives(policy, added, policy.included, policy.excluded);
      var extra := RequiredAppends(kept, required);
      assert kept == policy.included + unseen;
      forall i | 0 <= i < |extra| ensures !RegexMatches(policy, extra[i]) {
        var j :| 0 <= j < |names| && names[j] == extra[i];
      }
      MatchingAgain(policy, unseen, extra);
    }
  }

  lemma MatchingAgain(policy: ColumnPolicy, unseen: seq<string>, extra: seq<string>)
    requires Fresh(policy, unseen, policy.included)
    requires forall i :: 0 <= i < |extra| ==> !RegexMatches(policy, extra[i])
    ensures Matching(policy, policy.included + unseen + extra, policy.included) == policy.included + unseen
  {
    hide Matching, RegexMatches;
    assert policy.included + unseen + extra == policy.included + (unseen + extra);
    MatchingSkips(policy, policy.included, unseen + extra, policy.included);
    MatchingTakesFresh(policy, unseen, extra, policy.included);
    assert extra + [] == extra;
    MatchingSkips(policy, extra, [], policy.included + unseen);
    MatchingNothing(policy, policy.included + unseen);
  }

  lemma MatchingNothing(policy: ColumnPolicy, chosen: seq<string>)
    ensures Matching(policy, [], chosen) == chosen
  {
  }

  /** A column that is both included and excluded survives the first selection but not the second. */
  lemma IncludedAndExcluded(names: seq<string>, policy: ColumnPolicy, required: seq<string>, key: string)
    requires SelectedNames(names, policy, required).Success?
    requires !NoneExcluded(policy.included, policy.excluded)
    ensures SelectedNames(SelectedNames(names, policy, required).value, policy, [key]).Failure?
  {
    SelectedNamesSucceeds(names, policy, required);
    var selected := SelectedNames(names, policy, required).value;
    SelectedNamesSucceeds(selected, policy, [key]);
    var i :| 0 <= i < |policy.included| && policy.included[i] in policy.excluded;
    var added := MatchingAppends(policy, selected, policy.included);
    assert Chosen(policy, selected)[i] == policy.included[i];
    assert forall r :: 0 <= r < |required| ==> required[r] != policy.included[i];
    assert policy.included[i] !in selected;
  }

  // ----- projecting rows

  lemma ColumnsOf(schema: Schema, names: seq<string>)
    requires AllIn(names, Names(schema))
    ensures IndexesOf(schema, names).Some? && Within(IndexesOf(schema, names).value, |schema|)
    ensures forall i :: 0 <= i < |names| ==> IndexOf(schema, names[i]) == Some(IndexesOf(schema, names).value[i])
  {
    hide IndexesOf;
    forall i | 0 <= i < |names| ensures IndexOf(schema, names[i]).Some? {
      var j :| 0 <= j < |schema| && Names(schema)[j] == names[i];
    }
    var columns := IndexesOf(schema, names);
    assert columns.Some?;
    assert forall i :: 0 <= i < |names| ==> IndexOf(schema, names[i]) == Some(columns.value[i]);
  }

  function Projection(table: Table, names: seq<string>): (r: Table)
    requires table.Valid() && AllIn(names, Names(table.schema))
    ensures r.Valid() && Names(r.schema) == names && |r.rows| == |table.rows|
  {
    ColumnsOf(table.schema, names);
    var columns := IndexesOf(table.schema, names).value;
    Table(seq(|columns|, i requires 0 <= i < |columns| => table.schema[columns[i]]),
          seq(|table.rows|, i requires 0 <= i < |table.rows| => Gather(table.rows[i], columns)))
  }

  lemma ProjectionParts(table: Table, names: seq<string>)
    requires table.Valid() && AllIn(names, Names(table.schema))
    ensures IndexesOf(table.schema, names).Some?
    ensures var columns := IndexesOf(table.schema, names).value;
      Within(columns, |table.schema|) && |columns| == |names|
      && (forall i :: 0 <= i < |names| ==>
            IndexOf(table.schema, names[i]) == Some(columns[i]) && Projection(table, names).schema[i] == table.schema[columns[i]])
      && (forall k :: 0 <= k < |table.rows| ==>
            |table.rows[k]| == |table.schema| && Projection(table, names).rows[k] == Gather(table.rows[k], columns))
  {
    hide IndexesOf, IndexOf, Gather;
    ColumnsOf(table.schema, names);
  }

  lemma WithinFirst(first: seq<string>, second: seq<string>, schema: Schema)
    requires AllIn(first, Names(schema)) && AllIn(second, first)
    ensures AllIn(second, Names(schema))
  {
    forall i | 0 <= i < |second| ensures second[i] in Names(schema) {
      var j :| 0 <= j < |first| && first[j] == second[i];
    }
  }

  /** Projecting a projection is projecting. */
  lemma ProjectTwice(table: Table, first: seq<string>, second: seq<string>)
    requires table.Valid() && AllIn(first, Names(table.schema)) && AllIn(second, first)
    ensures AllIn(second, Names(table.schema))
    ensures Projection(Projection(table, first), second) == Projection(table, second)
  {
    hide IndexesOf, IndexOf, Projection, Names;
    WithinFirst(first, second, table.schema);
    var middle := Projection(table, first);
    ProjectionParts(table, first);
    ProjectionParts(middle, second);
    ProjectionParts(table, second);
    var a, b, c := IndexesOf(table.schema, first).value, IndexesOf(middle.schema, second).value, IndexesOf(table.schema, second).value;
    forall i | 0 <= i < |second| ensures a[b[i]] == c[i] {
      assert middle.schema[b[i]].name == second[i] && Names(middle.schema)[b[i]] == first[b[i]];
    }
    var twice, once := Projection(middle, second), Projection(table, second);
    assert |twice.schema| == |Names(twice.schema)| && |once.schema| == |Names(once.schema)|;
    assert twice.schema == once.schema;
    forall k | 0 <= k < |table.rows| ensures twice.rows[k] == once.rows[k] {
      assert twice.rows[k] == Gather(Gather(table.rows[k], a), b);
    }
  }

  lemma {:induction false} KeepsEach(columns: seq<nat>, rows: seq<Row>, width: nat)
    requires AllWide(rows, width) && Within(columns, width)
    ensures ActAll(Keep(columns), rows, width, |columns|)
         == seq(|rows|, i requires 0 <= i < |rows| => Gather(rows[i], columns))
  {
    hide Gather;
    if rows != [] { KeepsEach(columns, rows[..|rows| - 1], width); }
  }

  lemma KeepNamesProjects(table: Table, names: seq<string>)
    requires table.Valid() && names != [] && AllIn(names, Names(table.schema))
    ensures KeepNames(table.schema, names).Success?
    ensures var (action, schema) := KeepNames(table.schema, names).value;
      Projection(table, names) == Table(schema, ActAll(action, table.rows, |table.schema|, |schema|))
  {
    hide IndexesOf, ActAll, Gather;
    ColumnsOf(table.schema, names);
    KeepsEach(IndexesOf(table.schema, names).value, table.rows, |table.schema|);
  }

  /** What the selection step does to a table. */
  lemma SelectProjects(table: Table, policy: ColumnPolicy, required: seq<string>)
    requires table.Valid() && required != []
    ensures var selected := SelectedNames(Names(table.schema), policy, required);
      (selected.Failure? ==> RunStep(Select(policy, required), table) == Failure(selected.error))
      && (selected.Success? ==>
            AllIn(selected.value, Names(table.schema))
            && RunStep(Select(policy, required), table) == Success(Projection(table, selected.value)))
  {
    SelectedNamesSucceeds(Names(table.schema), policy, required);
    var selected := SelectedNames(Names(table.schema), policy, required);
    hide SelectedNames, WithRequired, Without, Chosen, ActAll, KeepNames, Projection;
    if selected.Success? {
      var names := selected.value;
      assert required[0] in names;
      forall i | 0 <= i < |names| ensures names[i] in Names(table.schema) { SelectedAreNames(table.schema, policy, required, names[i]); }
      KeepNamesProjects(table, names);
    }
  }

  lemma SelectedAreNames(schema: Schema, policy: ColumnPolicy, required: seq<string>, name: string)
    requires SelectedNames(Names(schema), policy, required).Success?
    requires name in SelectedNames(Names(schema), policy, required).value
    ensures name in Names(schema) && (name in required || name !in policy.excluded)
  {
    SelectedNamesSucceeds(Names(schema), policy, required);
  }

  /** Selecting with one of the required names gives the same from the projection as from the table. */
  lemma SelectSeesThrough(table: Table, policy: ColumnPolicy, required: seq<string>, key: string)
    requires table.Valid() && key in required && NoneExcluded(policy.included, policy.excluded)
    requires SelectedNames(Names(table.schema), policy, required).Success?
    ensures AllIn(SelectedNames(Names(table.schema), policy, required).value, Names(table.schema))
    ensures RunStep(Select(policy, [key]), Projection(table, SelectedNames(Names(table.schema), policy, required).value))
         == RunStep(Select(policy, [key]), table)
  {
    hide SelectedNames, Projection, RunStep;
    SelectProjects(table, policy, required);
    SelectProjects(table, policy, [key]);
    SelectionAfterProjection(Names(table.schema), policy, required, key);
    var first := SelectedNames(Names(table.schema), policy, required).value;
    var second := SelectedNames(Names(table.schema), policy, [key]).value;
    SelectProjects(Projection(table, first), policy, [key]);
    ProjectTwice(table, first, second);
  }
}
