/** What the cells of a joined table are, column by name (native/engine/src/join.rs). */
module JoinMeaning {
  import opened Wrappers
  import opened Tables
  import opened HashJoin
  import opened JoinRows

  // ----- cells by row and column name

  /** Column `c` is the first one of that name. */
  predicate FirstNamed(schema: Schema, name: string, c: nat) {
    c < |schema| && schema[c].name == name && forall d :: 0 <= d < c ==> schema[d].name != name
  }

  ghost predicate CellIs(table: Table, i: nat, name: string, cell: Cell) {
    i < |table.rows| && exists c :: 0 <= c < |table.rows[i]| && FirstNamed(table.schema, name, c) && table.rows[i][c] == cell
  }

  /** `keys` are the rows' cells in the named columns. */
  ghost predicate KeysAre(table: Table, names: seq<string>, keys: seq<Key>) {
    |keys| == |table.rows| && forall i :: 0 <= i < |keys| ==> KeyIs(table, names, i, keys[i])
  }

  ghost predicate KeyIs(table: Table, names: seq<string>, i: nat, key: Key) {
    |key| == |names| && forall k :: 0 <= k < |names| ==> CellIs(table, i, names[k], key[k])
  }

  lemma FirstNamedIsUnique(schema: Schema, name: string, c: nat, d: nat)
    requires FirstNamed(schema, name, c) && FirstNamed(schema, name, d)
    ensures c == d
  {
  }

  /** A row has one cell in a named column. */
  lemma OneCell(table: Table, i: nat, name: string, a: Cell, b: Cell)
    requires CellIs(table, i, name, a) && CellIs(table, i, name, b)
    ensures a == b
  {
    hide FirstNamed;
    var c :| 0 <= c < |table.rows[i]| && FirstNamed(table.schema, name, c) && table.rows[i][c] == a;
    var d :| 0 <= d < |table.rows[i]| && FirstNamed(table.schema, name, d) && table.rows[i][d] == b;
    FirstNamedIsUnique(table.schema, name, c, d);
  }

  lemma CellFound(table: Table, i: nat, name: string)
    requires table.Valid() && i < |table.rows| && IndexOf(table.schema, name).Some?
    ensures |table.rows[i]| == |table.schema|
    ensures CellIs(table, i, name, table.rows[i][IndexOf(table.schema, name).value])
  {
    assert table.rows[i] in table.rows;
    assert FirstNamed(table.schema, name, IndexOf(table.schema, name).value);
  }

  // ----- which rows are paired

  /** Up to `cut` every pair the join must hold, once each and in left-then-right order; behind it, for a
      join that keeps the right side, every right row no left row matches, once each and in order. */
  ghost predicate IsJoin(how: How, leftKeys: seq<Key>, rightKeys: seq<Key>, pairs: seq<Pair>, cut: nat) {
    && cut <= |pairs|
    && HoldsExactly(pairs[..cut], how, leftKeys, rightKeys, |leftKeys|) && Ordered(pairs[..cut])
    && (if KeepsRight(how) then IsTail(leftKeys, rightKeys, pairs[cut..]) else cut == |pairs|)
  }

  ghost predicate IsTail(leftKeys: seq<Key>, rightKeys: seq<Key>, tail: seq<Pair>) {
    && RightOrdered(tail)
    && forall p :: p in tail <==>
         p.left.None? && p.right.Some? && p.right.value < |rightKeys|
         && !Matched(leftKeys, |leftKeys|, rightKeys[p.right.value])
  }

  lemma NestedLoopIsJoin(how: How, leftKeys: seq<Key>, rightKeys: seq<Key>)
    ensures IsJoin(how, leftKeys, rightKeys, NestedLoop(how, leftKeys, rightKeys),
                   |LeftPairs(how, leftKeys, rightKeys, |leftKeys|)|)
  {
    hide HoldsExactly, Ordered, RightOrdered, Matched, LeftPairs, RightPairs;
    LeftPairsMeaning(how, leftKeys, rightKeys, |leftKeys|);
    RightPairsMeaning(leftKeys, rightKeys, |rightKeys|);
    var left, pairs := LeftPairs(how, leftKeys, rightKeys, |leftKeys|), NestedLoop(how, leftKeys, rightKeys);
    assert pairs[..|left|] == left;
    if KeepsRight(how) { assert pairs[|left|..] == RightPairs(leftKeys, rightKeys, |rightKeys|); }
  }

  // ----- which columns there are

  predicate IsKept(source: Source, helper: Option<string>, name: string) { name !in source.rightOn && helper != Some(name) }

  /** The positions of the right columns that are neither keys nor the partition helper, in order. */
  ghost predicate KeepsColumns(right: Schema, source: Source, helper: Option<string>, kept: seq<nat>, from: nat) {
    && (forall q :: q in kept <==> from <= q < |right| && IsKept(source, helper, right[q].name))
    && Climbs(kept)
  }

  predicate Climbs(kept: seq<nat>) { forall i, j :: 0 <= i < j < |kept| ==> kept[i] < kept[j] }

  /** A kept column has its own name, with the suffix if that is taken by an earlier output column. */
  predicate AddedAs(names: set<string>, suffix: string, column: Field, added: Field) {
    && added.dtype == column.dtype && added.name !in names
    && added.name == (if column.name in names then column.name + suffix else column.name)
  }

  function NamesOf(schema: Schema): set<string> { set f | f in schema :: f.name }

  function KeptFrom(right: Schema, k: nat, source: Source, helper: Option<string>): (kept: seq<nat>)
    requires k <= |right|
    decreases |right| - k
  {
    if k == |right| then []
    else (if IsKept(source, helper, right[k].name) then [k] else []) + KeptFrom(right, k + 1, source, helper)
  }

  lemma {:induction false} KeptFromKeeps(right: Schema, k: nat, source: Source, helper: Option<string>)
    requires k <= |right|
    ensures KeepsColumns(right, source, helper, KeptFrom(right, k, source, helper), k)
    decreases |right| - k
  {
    hide IsKept, KeepsColumns;
    if k < |right| {
      KeptFromKeeps(right, k + 1, source, helper);
      KeepsInFront(right, source, helper, KeptFrom(right, k + 1, source, helper), k);
    } else {
      KeepsNothing(right, source, helper);
    }
  }

  lemma KeepsNothing(right: Schema, source: Source, helper: Option<string>)
    ensures KeepsColumns(right, source, helper, [], |right|)
  {
  }

  lemma KeepsInFront(right: Schema, source: Source, helper: Option<string>, rest: seq<nat>, k: nat)
    requires k < |right| && KeepsColumns(right, source, helper, rest, k + 1)
    ensures KeepsColumns(right, source, helper, (if IsKept(source, helper, right[k].name) then [k] else []) + rest, k)
  {
    hide IsKept;
    if IsKept(source, helper, right[k].name) {
      ClimbsInFront(k, rest);
      assert forall q :: q in [k] + rest <==> q == k || q in rest;
    } else {
      assert [] + rest == rest;
    }
  }

  lemma ClimbsInFront(k: nat, rest: seq<nat>)
    requires Climbs(rest) && forall q :: q in rest ==> k < q
    ensures Climbs([k] + rest)
  {
    assert forall j :: 0 <= j < |rest| ==> rest[j] in rest;
  }

  /** The added columns are the kept ones under their output names. */
  ghost predicate AllAdded(names: set<string>, right: Schema, suffix: string, kept: seq<nat>, columns: seq<nat>, added: Schema) {
    && |kept| == |columns| == |added|
    && forall j :: 0 <= j < |kept| ==> OneAdded(names, right, suffix, kept, columns, added, j)
  }

  ghost predicate OneAdded(
    names: set<string>, right: Schema, suffix: string, kept: seq<nat>, columns: seq<nat>, added: Schema, j: nat)
  {
    && j < |kept| && j < |columns| && j < |added| && kept[j] < |right|
    && FirstNamed(right, right[kept[j]].name, columns[j])
    && AddedAs(names + NamesOf(added[..j]), suffix, right[kept[j]], added[j])
  }

  lemma {:induction false} KeepRightMeans(
    names: set<string>, right: Schema, k: nat, source: Source, helper: Option<string>)
    requires k <= |right| && KeepRight(names, right, k, source, helper).Success?
    ensures var r := KeepRight(names, right, k, source, helper).value;
      AllAdded(names, right, source.suffix, KeptFrom(right, k, source, helper), r.0, r.1)
    decreases |right| - k
  {
    hide AllAdded, AddedAs, FirstNamed, FirstColumn, NamesOf;
    if k == |right| {
      NothingAdded(names, right, source.suffix);
    } else {
      var field := right[k];
      if !IsKept(source, helper, field.name) {
        KeepRightMeans(names, right, k + 1, source, helper);
        var rest := KeptFrom(right, k + 1, source, helper);
        assert [] + rest == rest;
      } else {
        var name := if field.name in names then field.name + source.suffix else field.name;
        KeepRightMeans(names + {name}, right, k + 1, source, helper);
        var rest := KeepRight(names + {name}, right, k + 1, source, helper).value;
        AddedInFront(names, right, source.suffix, k, Field(name, field.dtype), KeptFrom(right, k + 1, source, helper), rest.0, rest.1);
      }
    }
  }

  lemma NothingAdded(names: set<string>, right: Schema, suffix: string)
    ensures AllAdded(names, right, suffix, [], [], [])
  {
  }

  lemma AddedInFront(
    names: set<string>, right: Schema, suffix: string, k: nat, first: Field, kept: seq<nat>, columns: seq<nat>, added: Schema)
    requires k < |right| && first.name !in names && AllAdded(names + {first.name}, right, suffix, kept, columns, added)
    requires first == Field(if right[k].name in names then right[k].name + suffix else right[k].name, right[k].dtype)
    ensures AllAdded(names, right, suffix, [k] + kept, [FirstColumn(right, k)] + columns, [first] + added)
  {
    hide AddedAs, FirstNamed, FirstColumn, NamesOf;
    var kept', columns', added' := [k] + kept, [FirstColumn(right, k)] + columns, [first] + added;
    forall j | 0 <= j < |kept'| ensures OneAdded(names, right, suffix, kept', columns', added', j) {
      if j == 0 {
        FirstColumnIsFirst(right, k);
        AddedFirst(names, suffix, right[k], first);
        assert added'[..0] == [];
      } else {
        assert OneAdded(names + {first.name}, right, suffix, kept, columns, added, j - 1);
        assert added'[..j] == [first] + added[..j - 1];
        NamesOfFirst(first, added[..j - 1]);
        assert names + NamesOf(added'[..j]) == names + {first.name} + NamesOf(added[..j - 1]);
      }
    }
  }

  lemma FirstColumnIsFirst(schema: Schema, p: nat)
    requires p < |schema|
    ensures FirstNamed(schema, schema[p].name, FirstColumn(schema, p))
  {
  }

  lemma AddedFirst(names: set<string>, suffix: string, column: Field, added: Field)
    requires added == Field(if column.name in names then column.name + suffix else column.name, column.dtype)
    requires added.name !in names
    ensures NamesOf([]) == {} && AddedAs(names + NamesOf([]), suffix, column, added)
  {
    assert names + {} == names;
  }

  lemma NamesOfFirst(f: Field, fs: Schema)
    ensures NamesOf([f] + fs) == {f.name} + NamesOf(fs)
  {
    assert forall g :: g in [f] + fs <==> g == f || g in fs;
  }

  lemma NamesOfBoth(a: Schema, b: Schema)
    ensures NamesOf(a + b) == NamesOf(a) + NamesOf(b)
  {
    assert forall g :: g in a + b <==> g in a || g in b;
  }

  // ----- what the cells are

  /** The `k`-th key pair is the first one with this left key. */
  predicate FirstKey(source: Source, name: string, k: nat) {
    k < |source.leftOn| && k < |source.rightOn| && source.leftOn[k] == name && forall h :: 0 <= h < k ==> source.leftOn[h] != name
  }

  /** An output cell under a left column: the left row's cell. Without a left row it is the cell of the
      right key that the column is first paired with, and null under a column that is no key. */
  ghost predicate LeftCellIs(left: Table, right: Table, source: Source, pair: Pair, name: string, cell: Cell) {
    && (pair.left.Some? ==> CellIs(left, pair.left.value, name, cell))
    && (pair.left.None? && name !in source.leftOn ==> cell == Null)
    && (pair.left.None? && pair.right.Some? ==>
          forall k: nat | FirstKey(source, name, k) :: CellIs(right, pair.right.value, source.rightOn[k], cell))
  }

  /** An output cell under a kept right column: the right row's cell, and null exactly without a right row
      (or where that cell is). */
  ghost predicate RightCellIs(right: Table, pair: Pair, name: string, cell: Cell) {
    if pair.right.Some? then CellIs(right, pair.right.value, name, cell) else cell == Null
  }

  /** The joined table, row by row and column by column. */
  ghost predicate IsJoined(
    left: Table, right: Table, source: Source, helper: Option<string>, pairs: seq<Pair>, kept: seq<nat>, out: Table)
  {
    && |out.rows| == |pairs| && KeepsColumns(right.schema, source, helper, kept, 0)
    && |out.schema| == |left.schema| + |kept| && out.schema[..|left.schema|] == left.schema
    && (forall j :: 0 <= j < |kept| ==>
          kept[j] < |right.schema|
          && AddedAs(NamesOf(out.schema[..|left.schema| + j]), source.suffix, right.schema[kept[j]], out.schema[|left.schema| + j]))
    && forall n :: 0 <= n < |pairs| ==> RowIs(left, right, source, pairs[n], kept, out.rows[n])
  }

  ghost predicate RowIs(left: Table, right: Table, source: Source, pair: Pair, kept: seq<nat>, row: Row) {
    && |row| == |left.schema| + |kept|
    && (forall p :: 0 <= p < |left.schema| ==> LeftCellIs(left, right, source, pair, left.schema[p].name, row[p]))
    && forall j :: 0 <= j < |kept| ==>
         kept[j] < |right.schema| && RightCellIs(right, pair, right.schema[kept[j]].name, row[|left.schema| + j])
  }

  // ----- the plan

  lemma KeysOfAre(table: Table, names: seq<string>)
    requires table.Valid() && IndexesOf(table.schema, names).Some?
    ensures var columns := IndexesOf(table.schema, names).value;
      AllWide(table.rows, |table.schema|) && Within(columns, |table.schema|)
      && KeysAre(table, names, KeysOf(table.rows, columns, |table.schema|))
  {
    hide IndexesOf, IndexOf, CellIs;
    var columns := IndexesOf(table.schema, names).value;
    ColumnsWithin(table.schema, names);
    forall i | 0 <= i < |table.rows| ensures |table.rows[i]| == |table.schema| { assert table.rows[i] in table.rows; }
    var keys := KeysOf(table.rows, columns, |table.schema|);
    forall i, k | 0 <= i < |keys| && 0 <= k < |names| ensures CellIs(table, i, names[k], keys[i][k]) {
      CellFound(table, i, names[k]);
    }
  }

  /** Every left column falls back to the right key it is first paired with. */
  lemma FallbackIsFirstKey(source: Source, name: string)
    requires HasKeys(source)
    ensures match Position(source.leftOn, name)
            case Some(k) => FirstKey(source, name, k) && forall h: nat | FirstKey(source, name, h) :: h == k
            case None => name !in source.leftOn && forall h: nat :: !FirstKey(source, name, h)
  {
    PositionIsFirst(source.leftOn, name);
  }

  lemma {:induction false} PositionIsFirst(names: seq<string>, name: string)
    ensures Position(names, name).Some? ==> forall h :: 0 <= h < Position(names, name).value ==> names[h] != name
  {
    if names != [] && names[0] != name { PositionIsFirst(names[1..], name); }
  }

  lemma TableCell(table: Table, i: nat, name: string, c: nat)
    requires table.Valid() && i < |table.rows| && FirstNamed(table.schema, name, c)
    ensures c < |table.rows[i]| && CellIs(table, i, name, table.rows[i][c])
  {
    assert table.rows[i] in table.rows;
  }

  lemma LeftCell(left: Table, right: Table, source: Source, helper: Option<string>, pair: Pair, p: nat)
    requires HasKeys(source) && left.Valid() && right.Valid() && p < |left.schema|
    requires PlanJoin(left.schema, right.schema, source, helper).Success?
    requires pair.left.Some? ==> pair.left.value < |left.rows|
    requires pair.right.Some? ==> pair.right.value < |right.rows|
    ensures var plan := PlanJoin(left.schema, right.schema, source, helper).value;
      var l, r := Taken(left.rows, pair.left), Taken(right.rows, pair.right);
      Fits(plan) && RowsFit(plan, l, r) && |plan.leftColumns| == |left.schema|
      && LeftCellIs(left, right, source, pair, left.schema[p].name, OutRow(plan, l, r)[p])
  {
    hide PlanJoin, CellIs, FirstKey, FirstNamed, IndexOf;
    var plan := PlanJoin(left.schema, right.schema, source, helper).value;
    var name := left.schema[p].name;
    PlanLeft(left.schema, right.schema, source, helper, p);
    if pair.left.Some? { assert left.rows[pair.left.value] in left.rows; }
    if pair.right.Some? { assert right.rows[pair.right.value] in right.rows; }
    FallbackIsFirstKey(source, name);
    if pair.left.Some? {
      TableCell(left, pair.left.value, name, plan.leftColumns[p]);
    } else if pair.right.Some? && Position(source.leftOn, name).Some? {
      CellFound(right, pair.right.value, source.rightOn[Position(source.leftOn, name).value]);
    }
  }

  lemma PlanLeft(left: Schema, right: Schema, source: Source, helper: Option<string>, p: nat)
    requires HasKeys(source) && PlanJoin(left, right, source, helper).Success? && p < |left|
    ensures var plan, position := PlanJoin(left, right, source, helper).value, Position(source.leftOn, left[p].name);
      |plan.leftColumns| == |left| && FirstNamed(left, left[p].name, plan.leftColumns[p])
      && plan.fromRight[p] == (if position.Some? then IndexOf(right, source.rightOn[position.value]) else None)
      && plan.fromRight[p].Some? == position.Some?
  {
    hide IndexesOf, IndexOf, KeepRight, FirstNamed;
    FirstColumnIsFirst(left, p);
    var plan := PlanJoin(left, right, source, helper).value;
    if Position(source.leftOn, left[p].name).Some? {
      var k := Position(source.leftOn, left[p].name).value;
      assert IndexOf(right, source.rightOn[k]) == Some(plan.rightKey[k]);
    }
  }

  lemma RightCell(left: Table, right: Table, source: Source, helper: Option<string>, pair: Pair, j: nat)
    requires HasKeys(source) && left.Valid() && right.Valid()
    requires PlanJoin(left.schema, right.schema, source, helper).Success?
    requires pair.left.Some? ==> pair.left.value < |left.rows|
    requires pair.right.Some? ==> pair.right.value < |right.rows|
    requires j < |KeptFrom(right.schema, 0, source, helper)|
    ensures var plan := PlanJoin(left.schema, right.schema, source, helper).value;
      var l, r, kept := Taken(left.rows, pair.left), Taken(right.rows, pair.right), KeptFrom(right.schema, 0, source, helper);
      Fits(plan) && RowsFit(plan, l, r) && |plan.leftColumns| == |left.schema| && |plan.rightColumns| == |kept|
      && kept[j] < |right.schema|
      && RightCellIs(right, pair, right.schema[kept[j]].name, OutRow(plan, l, r)[|left.schema| + j])
  {
    hide PlanJoin, CellIs, KeptFrom, AddedAs, FirstNamed;
    var plan := PlanJoin(left.schema, right.schema, source, helper).value;
    PlanKeeps(left.schema, right.schema, source, helper);
    if pair.left.Some? { assert left.rows[pair.left.value] in left.rows; }
    var kept := KeptFrom(right.schema, 0, source, helper);
    assert OneAdded(NamesOf(left.schema), right.schema, source.suffix, kept, plan.rightColumns, plan.schema[|left.schema|..], j);
    if pair.right.Some? {
      assert right.rows[pair.right.value] in right.rows;
      TableCell(right, pair.right.value, right.schema[kept[j]].name, plan.rightColumns[j]);
    }
  }

  lemma PlanKeeps(left: Schema, right: Schema, source: Source, helper: Option<string>)
    requires HasKeys(source) && PlanJoin(left, right, source, helper).Success?
    ensures var plan := PlanJoin(left, right, source, helper).value;
      |plan.leftColumns| == |left| && |plan.schema| >= |left| && plan.schema[..|left|] == left
      && AllAdded(NamesOf(left), right, source.suffix, KeptFrom(right, 0, source, helper), plan.rightColumns, plan.schema[|left|..])
  {
    hide IndexesOf, KeepRight, KeptFrom, AllAdded;
    var plan := PlanJoin(left, right, source, helper).value;
    KeepRightMeans(NamesOf(left), right, 0, source, helper);
    var kept := KeepRight(NamesOf(left), right, 0, source, helper).value;
    assert plan.schema == left + kept.1 && plan.schema[|left|..] == kept.1;
  }

  // ----- the main result

  /** A successful join unfolded. */
  lemma JoinParts(left: Table, right: Table, source: Source, helper: Option<string>)
    requires HasKeys(source) && left.Valid() && right.Valid() && JoinSpec(left, right, source, helper).Success?
    ensures PlanJoin(left.schema, right.schema, source, helper).Success?
    ensures IndexesOf(left.schema, source.leftOn).Some? && IndexesOf(right.schema, source.rightOn).Some?
    ensures AllWide(left.rows, |left.schema|) && AllWide(right.rows, |right.schema|)
    ensures Within(IndexesOf(left.schema, source.leftOn).value, |left.schema|)
    ensures Within(IndexesOf(right.schema, source.rightOn).value, |right.schema|)
    ensures var plan := PlanJoin(left.schema, right.schema, source, helper).value;
      var pairs := JoinPairs(left, right, source);
      Fits(plan) && plan.leftWidth == |left.schema| && plan.rightWidth == |right.schema|
      && PairsInRange(pairs, |left.rows|, |right.rows|)
      && JoinSpec(left, right, source, helper).value.table == Table(plan.schema, OutRows(plan, left.rows, right.rows, pairs))
  {
    hide IndexesOf, KeepRight, OutRows, NestedLoop, KeysOf;
    KeysOfAre(left, source.leftOn);
    KeysOfAre(right, source.rightOn);
    NestedLoopInRange(source.how, KeysOf(left.rows, IndexesOf(left.schema, source.leftOn).value, |left.schema|),
                      KeysOf(right.rows, IndexesOf(right.schema, source.rightOn).value, |right.schema|));
  }

  ghost function JoinPairs(left: Table, right: Table, source: Source): (pairs: seq<Pair>)
    requires left.Valid() && right.Valid()
    requires IndexesOf(left.schema, source.leftOn).Some? && IndexesOf(right.schema, source.rightOn).Some?
  {
    KeysOfAre(left, source.leftOn);
    KeysOfAre(right, source.rightOn);
    NestedLoop(source.how, KeysOf(left.rows, IndexesOf(left.schema, source.leftOn).value, |left.schema|),
               KeysOf(right.rows, IndexesOf(right.schema, source.rightOn).value, |right.schema|))
  }

  /** A successful join, cell by cell: the row pairs are those of the nested loop over the keys found by
      name, a left column holds the left row's cell, or the right key's where the left row is missing, and
      every right column that is neither key nor helper holds the right row's cell. */
  lemma JoinedCells(left: Table, right: Table, source: Source, helper: Option<string>)
    returns (leftKeys: seq<Key>, rightKeys: seq<Key>, pairs: seq<Pair>, cut: nat, kept: seq<nat>)
    requires HasKeys(source) && left.Valid() && right.Valid() && JoinSpec(left, right, source, helper).Success?
    ensures KeysAre(left, source.leftOn, leftKeys) && KeysAre(right, source.rightOn, rightKeys)
    ensures IsJoin(source.how, leftKeys, rightKeys, pairs, cut)
    ensures IsJoined(left, right, source, helper, pairs, kept, JoinSpec(left, right, source, helper).value.table)
  {
    hide IndexesOf, KeysAre, IsJoin, IsJoined, NestedLoop, KeysOf, PlanJoin, JoinSpec, OutRows;
    JoinParts(left, right, source, helper);
    KeysOfAre(left, source.leftOn);
    KeysOfAre(right, source.rightOn);
    leftKeys := KeysOf(left.rows, IndexesOf(left.schema, source.leftOn).value, |left.schema|);
    rightKeys := KeysOf(right.rows, IndexesOf(right.schema, source.rightOn).value, |right.schema|);
    pairs := JoinPairs(left, right, source);
    cut := |LeftPairs(source.how, leftKeys, rightKeys, |leftKeys|)|;
    NestedLoopIsJoin(source.how, leftKeys, rightKeys);
    kept := KeptFrom(right.schema, 0, source, helper);
    RowsAreJoined(left, right, source, helper, pairs);
  }

  lemma RowsAreJoined(left: Table, right: Table, source: Source, helper: Option<string>, pairs: seq<Pair>)
    requires HasKeys(source) && left.Valid() && right.Valid()
    requires PlanJoin(left.schema, right.schema, source, helper).Success?
    requires AllWide(left.rows, |left.schema|) && AllWide(right.rows, |right.schema|)
    requires PairsInRange(pairs, |left.rows|, |right.rows|)
    ensures var plan := PlanJoin(left.schema, right.schema, source, helper).value;
      Fits(plan) && plan.leftWidth == |left.schema| && plan.rightWidth == |right.schema|
      && IsJoined(left, right, source, helper, pairs, KeptFrom(right.schema, 0, source, helper),
                  Table(plan.schema, OutRows(plan, left.rows, right.rows, pairs)))
  {
    hide PlanJoin, OutRow, KeepsColumns, AllAdded, AddedAs, NamesOf, RowIs, KeptFrom;
    var plan, kept := PlanJoin(left.schema, right.schema, source, helper).value, KeptFrom(right.schema, 0, source, helper);
    KeptFromKeeps(right.schema, 0, source, helper);
    PlanKeeps(left.schema, right.schema, source, helper);
    SchemaIs(left.schema, right.schema, source, plan.rightColumns, kept, plan.schema);
    forall n | 0 <= n < |pairs| ensures RowIs(left, right, source, pairs[n], kept, OutRows(plan, left.rows, right.rows, pairs)[n]) {
      CellsOfRow(left, right, source, helper, pairs[n]);
    }
  }

  lemma SchemaIs(left: Schema, right: Schema, source: Source, columns: seq<nat>, kept: seq<nat>, schema: Schema)
    requires |schema| >= |left| && schema[..|left|] == left
    requires AllAdded(NamesOf(left), right, source.suffix, kept, columns, schema[|left|..])
    ensures |schema| == |left| + |kept|
    ensures forall j :: 0 <= j < |kept| ==>
              kept[j] < |right| && AddedAs(NamesOf(schema[..|left| + j]), source.suffix, right[kept[j]], schema[|left| + j])
  {
    hide AddedAs, FirstNamed, NamesOf;
    var added := schema[|left|..];
    forall j | 0 <= j < |kept|
      ensures kept[j] < |right| && AddedAs(NamesOf(schema[..|left| + j]), source.suffix, right[kept[j]], schema[|left| + j])
    {
      assert OneAdded(NamesOf(left), right, source.suffix, kept, columns, added, j);
      assert schema[..|left| + j] == left + added[..j];
      NamesOfBoth(left, added[..j]);
    }
  }

  lemma CellsOfRow(left: Table, right: Table, source: Source, helper: Option<string>, pair: Pair)
    requires HasKeys(source) && left.Valid() && right.Valid()
    requires PlanJoin(left.schema, right.schema, source, helper).Success?
    requires pair.left.Some? ==> pair.left.value < |left.rows|
    requires pair.right.Some? ==> pair.right.value < |right.rows|
    ensures var plan := PlanJoin(left.schema, right.schema, source, helper).value;
      var l, r := Taken(left.rows, pair.left), Taken(right.rows, pair.right);
      Fits(plan) && RowsFit(plan, l, r)
      && RowIs(left, right, source, pair, KeptFrom(right.schema, 0, source, helper), OutRow(plan, l, r))
  {
    hide OutRow, PlanJoin, KeptFrom, LeftCellIs, RightCellIs, AllAdded;
    var plan, kept := PlanJoin(left.schema, right.schema, source, helper).value, KeptFrom(right.schema, 0, source, helper);
    PlanFits(left, right, source, helper, pair);
    forall p | 0 <= p < |left.schema|
      ensures LeftCellIs(left, right, source, pair, left.schema[p].name,
                         OutRow(plan, Taken(left.rows, pair.left), Taken(right.rows, pair.right))[p])
    {
      LeftCell(left, right, source, helper, pair, p);
    }
    forall j | 0 <= j < |kept|
      ensures kept[j] < |right.schema|
        && RightCellIs(right, pair, right.schema[kept[j]].name,
                       OutRow(plan, Taken(left.rows, pair.left), Taken(right.rows, pair.right))[|left.schema| + j])
    {
      RightCell(left, right, source, helper, pair, j);
    }
  }

  lemma PlanFits(left: Table, right: Table, source: Source, helper: Option<string>, pair: Pair)
    requires HasKeys(source) && left.Valid() && right.Valid()
    requires PlanJoin(left.schema, right.schema, source, helper).Success?
    requires pair.left.Some? ==> pair.left.value < |left.rows|
    requires pair.right.Some? ==> pair.right.value < |right.rows|
    ensures var plan := PlanJoin(left.schema, right.schema, source, helper).value;
      Fits(plan) && RowsFit(plan, Taken(left.rows, pair.left), Taken(right.rows, pair.right))
      && |plan.schema| == |left.schema| + |KeptFrom(right.schema, 0, source, helper)|
  {
    hide PlanJoin, KeptFrom, OneAdded;
    PlanKeeps(left.schema, right.schema, source, helper);
    if pair.left.Some? { assert left.rows[pair.left.value] in left.rows; }
    if pair.right.Some? { assert right.rows[pair.right.value] in right.rows; }
  }

  /** A join succeeds only on keys that both sides have, and of the same types. */
  lemma JoinNeedsKeys(left: Table, right: Table, source: Source, helper: Option<string>, k: nat)
    requires HasKeys(source) && left.Valid() && right.Valid() && k < |source.leftOn|
    requires JoinSpec(left, right, source, helper).Success?
    ensures exists c, d: nat :: SameKeyType(left.schema, right.schema, source.leftOn[k], source.rightOn[k], c, d)
  {
    hide IndexesOf, PlanJoin, JoinSpec;
    JoinParts(left, right, source, helper);
    KeyTypes(left.schema, right.schema, source, helper);
    var c, d := IndexesOf(left.schema, source.leftOn).value[k], IndexesOf(right.schema, source.rightOn).value[k];
    FoundIsFirst(left.schema, source.leftOn[k], c);
    FoundIsFirst(right.schema, source.rightOn[k], d);
    assert SameKeyType(left.schema, right.schema, source.leftOn[k], source.rightOn[k], c, d);
  }

  /** The named columns, of one type. */
  ghost predicate SameKeyType(left: Schema, right: Schema, leftName: string, rightName: string, c: nat, d: nat) {
    FirstNamed(left, leftName, c) && FirstNamed(right, rightName, d) && left[c].dtype == right[d].dtype
  }

  lemma KeyTypes(left: Schema, right: Schema, source: Source, helper: Option<string>)
    requires HasKeys(source) && PlanJoin(left, right, source, helper).Success?
    ensures IndexesOf(left, source.leftOn).Some? && IndexesOf(right, source.rightOn).Some?
    ensures var a, b := IndexesOf(left, source.leftOn).value, IndexesOf(right, source.rightOn).value;
      Within(a, |left|) && Within(b, |right|)
      && forall i :: 0 <= i < |a| == |b| ==> left[a[i]].dtype == right[b[i]].dtype
  {
    hide IndexesOf, IndexOf, KeepRight;
    ColumnsWithin(left, source.leftOn);
    ColumnsWithin(right, source.rightOn);
  }

  lemma FoundIsFirst(schema: Schema, name: string, c: nat)
    requires IndexOf(schema, name) == Some(c)
    ensures FirstNamed(schema, name, c)
  {
  }

  // ----- what the kinds of join keep

  /** Paired rows have the same key, without a null in it. */
  lemma PairsMatch(how: How, leftKeys: seq<Key>, rightKeys: seq<Key>, pairs: seq<Pair>, cut: nat, n: nat)
    requires IsJoin(how, leftKeys, rightKeys, pairs, cut) && n < |pairs| && pairs[n].left.Some? && pairs[n].right.Some?
    ensures pairs[n].left.value < |leftKeys| && pairs[n].right.value < |rightKeys|
    ensures leftKeys[pairs[n].left.value] == rightKeys[pairs[n].right.value]
    ensures forall k :: 0 <= k < |leftKeys[pairs[n].left.value]| ==> leftKeys[pairs[n].left.value][k] != Null
  {
    InFront(how, leftKeys, rightKeys, pairs, cut, n);
  }

  /** A pair with a left row stands in front. */
  lemma InFront(how: How, leftKeys: seq<Key>, rightKeys: seq<Key>, pairs: seq<Pair>, cut: nat, n: nat)
    requires IsJoin(how, leftKeys, rightKeys, pairs, cut) && n < |pairs| && pairs[n].left.Some?
    ensures n < cut && IsLeftPair(how, leftKeys, rightKeys, |leftKeys|, pairs[n])
  {
    hide Ordered, IsLeftPair, RightOrdered, Matched;
    Sides(pairs, cut);
  }

  /** Every pair stands on its side of the cut. */
  lemma Sides(pairs: seq<Pair>, cut: nat)
    requires cut <= |pairs|
    ensures forall n :: 0 <= n < cut ==> pairs[n] in pairs[..cut]
    ensures forall n :: cut <= n < |pairs| ==> pairs[n] in pairs[cut..]
    ensures forall p :: p in pairs[..cut] || p in pairs[cut..] ==> p in pairs
  {
    assert forall n :: 0 <= n < cut ==> pairs[..cut][n] == pairs[n];
    assert forall n :: cut <= n < |pairs| ==> pairs[cut..][n - cut] == pairs[n];
  }

  /** Rows with the same key, without a null in it, are paired, whatever the kind of join. */
  lemma MatchesArePaired(how: How, leftKeys: seq<Key>, rightKeys: seq<Key>, pairs: seq<Pair>, cut: nat, i: nat, j: nat)
    requires IsJoin(how, leftKeys, rightKeys, pairs, cut) && i < |leftKeys| && j < |rightKeys|
    requires leftKeys[i] == rightKeys[j] && forall k :: 0 <= k < |leftKeys[i]| ==> leftKeys[i][k] != Null
    ensures Pair(Some(i), Some(j)) in pairs
  {
    hide Ordered, RightOrdered, Matched;
    assert IsLeftPair(how, leftKeys, rightKeys, |leftKeys|, Pair(Some(i), Some(j)));
    assert Pair(Some(i), Some(j)) in pairs[..cut];
  }

  predicate HasLeft(pairs: seq<Pair>, i: nat) { exists n :: 0 <= n < |pairs| && pairs[n].left == Some(i) }

  predicate HasRight(pairs: seq<Pair>, j: nat) { exists n :: 0 <= n < |pairs| && pairs[n].right == Some(j) }

  /** Left and full joins keep every left row; the others have no pair without a right row. */
  lemma LeftRowsKept(how: How, leftKeys: seq<Key>, rightKeys: seq<Key>, pairs: seq<Pair>, cut: nat)
    requires IsJoin(how, leftKeys, rightKeys, pairs, cut)
    ensures how == LeftJoin || how == FullJoin ==>
      forall i: nat | i < |leftKeys| :: HasLeft(pairs, i)
    ensures how == InnerJoin || how == RightJoin ==> forall n :: 0 <= n < |pairs| ==> pairs[n].right.Some?
  {
    hide Ordered, RightOrdered, Matched;
    Sides(pairs, cut);
    if how == LeftJoin || how == FullJoin {
      forall i: nat | i < |leftKeys| ensures HasLeft(pairs, i) {
        var right := if j :| 0 <= j < |rightKeys| && SameKey(leftKeys[i], rightKeys[j]) then Some(j) else None;
        assert IsLeftPair(how, leftKeys, rightKeys, |leftKeys|, Pair(Some(i), right));
        assert Pair(Some(i), right) in pairs[..cut] && Pair(Some(i), right) in pairs;
      }
    } else {
      forall n | 0 <= n < |pairs| ensures pairs[n].right.Some? { }
    }
  }

  /** Right and full joins keep every right row; the others have no pair without a left row. */
  lemma RightRowsKept(how: How, leftKeys: seq<Key>, rightKeys: seq<Key>, pairs: seq<Pair>, cut: nat)
    requires IsJoin(how, leftKeys, rightKeys, pairs, cut)
    ensures how == RightJoin || how == FullJoin ==>
      forall j: nat | j < |rightKeys| :: HasRight(pairs, j)
    ensures how == InnerJoin || how == LeftJoin ==> forall n :: 0 <= n < |pairs| ==> pairs[n].left.Some?
  {
    hide Ordered, RightOrdered;
    Sides(pairs, cut);
    if how == RightJoin || how == FullJoin {
      forall j: nat | j < |rightKeys| ensures HasRight(pairs, j) {
        if Matched(leftKeys, |leftKeys|, rightKeys[j]) {
          var i :| 0 <= i < |leftKeys| && SameKey(leftKeys[i], rightKeys[j]);
          assert IsLeftPair(how, leftKeys, rightKeys, |leftKeys|, Pair(Some(i), Some(j)));
          assert Pair(Some(i), Some(j)) in pairs[..cut] && Pair(Some(i), Some(j)) in pairs;
        } else {
          assert Pair(None, Some(j)) in pairs[cut..] && Pair(None, Some(j)) in pairs;
        }
      }
    } else {
      forall n | 0 <= n < |pairs| ensures pairs[n].left.Some? { }
    }
  }
}
