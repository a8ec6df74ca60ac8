/** The row side of the join (native/engine/src/join.rs): resolving a source against two schemas and
    building the output rows from the index pairs. */
module JoinRows {
  import opened Wrappers
  import opened Tables
  import opened HashJoin

  datatype Source = Source(
    leftOn: seq<string>, rightOn: seq<string>, how: How, suffix: string, keepRightPartitionColumn: bool)

  datatype JoinError =
    | ColumnNotFound | KeyTypeMismatch | NameCollision | NoColumns | NoInput | RequiredExcluded | UnsupportedJoin

  /** What `validate_task` asks of a source's keys. */
  predicate HasKeys(source: Source) { source.leftOn != [] && |source.leftOn| == |source.rightOn| }

  /** A source resolved against schemas: key and payload columns by position. For each left column
      `fromRight` names the right key that stands in when the left row is missing. */
  datatype Plan = Plan(
    how: How, leftWidth: nat, rightWidth: nat, leftKey: seq<nat>, rightKey: seq<nat>,
    leftColumns: seq<nat>, fromRight: seq<Option<nat>>, rightColumns: seq<nat>, schema: Schema)

  predicate Fits(plan: Plan) {
    && Within(plan.leftKey, plan.leftWidth) && Within(plan.leftColumns, plan.leftWidth)
    && Within(plan.rightKey, plan.rightWidth) && Within(plan.rightColumns, plan.rightWidth)
    && |plan.leftKey| == |plan.rightKey| && |plan.fromRight| == |plan.leftColumns|
    && (forall p :: 0 <= p < |plan.fromRight| ==>
          plan.fromRight[p].Some? ==> plan.fromRight[p].value < plan.rightWidth)
    && |plan.schema| == |plan.leftColumns| + |plan.rightColumns|
  }

  function FirstColumns(schema: Schema): (columns: seq<nat>)
    ensures |columns| == |schema| && Within(columns, |schema|)
    ensures forall p :: 0 <= p < |schema| ==> IndexOf(schema, schema[p].name) == Some(columns[p])
  {
    seq(|schema|, p requires 0 <= p < |schema| => FirstColumn(schema, p))
  }

  function FirstColumn(schema: Schema, p: nat): (c: nat)
    requires p < |schema|
    ensures IndexOf(schema, schema[p].name) == Some(c)
  {
    IndexOf(schema, schema[p].name).value
  }

  function Position(names: seq<string>, name: string): (r: Option<nat>)
    ensures r.Some? ==> r.value < |names| && names[r.value] == name
    ensures r.None? ==> name !in names
  {
    if names == [] then None
    else if names[0] == name then Some(0)
    else
      var i :- Position(names[1..], name);
      Some(i + 1)
  }

  function KeyFallbacks(schema: Schema, leftOn: seq<string>, rightKey: seq<nat>): (r: seq<Option<nat>>)
    requires |leftOn| == |rightKey|
    ensures |r| == |schema|
    ensures forall p :: 0 <= p < |r| ==> r[p].Some? ==> r[p].value in rightKey
  {
    seq(|schema|, p requires 0 <= p < |schema| =>
      match Position(leftOn, schema[p].name)
      case None => None
      case Some(k) => Some(rightKey[k]))
  }

  /** The right columns that reach the output: keys and the partition helper are dropped, a name the
      output already has gets the suffix, and a name that still collides is an error. */
  function KeepRight(
    names: set<string>, right: Schema, k: nat, source: Source, helper: Option<string>)
    : (r: Result<(seq<nat>, Schema), JoinError>)
    requires k <= |right|
    ensures r.Success? ==> |r.value.0| == |r.value.1| && Within(r.value.0, |right|)
    decreases |right| - k
  {
    if k == |right| then Success(([], []))
    else
      var field := right[k];
      if field.name in source.rightOn || helper == Some(field.name) then
        KeepRight(names, right, k + 1, source, helper)
      else
        var name := if field.name in names then field.name + source.suffix else field.name;
        if name in names then Failure(NameCollision)
        else
          var rest :- KeepRight(names + {name}, right, k + 1, source, helper);
          Success(([FirstColumn(right, k)] + rest.0, [Field(name, field.dtype)] + rest.1))
  }

  function KeyTypesAgree(left: Schema, right: Schema, leftKey: seq<nat>, rightKey: seq<nat>): bool
    requires |leftKey| == |rightKey| && Within(leftKey, |left|) && Within(rightKey, |right|)
  {
    forall i :: 0 <= i < |leftKey| ==> left[leftKey[i]].dtype == right[rightKey[i]].dtype
  }

  function PlanJoin(left: Schema, right: Schema, source: Source, helper: Option<string>): (r: Result<Plan, JoinError>)
    requires HasKeys(source)
    ensures r.Success? ==>
              Fits(r.value) && r.value.how == source.how
              && r.value.leftWidth == |left| && r.value.rightWidth == |right| && r.value.leftKey != []
  {
    var leftKey, rightKey := IndexesOf(left, source.leftOn), IndexesOf(right, source.rightOn);
    if leftKey.None? || rightKey.None? then Failure(ColumnNotFound)
    else if !KeyTypesAgree(left, right, leftKey.value, rightKey.value) then Failure(KeyTypeMismatch)
    else
      var kept :- KeepRight(set f | f in left :: f.name, right, 0, source, helper);
      Success(Plan(
        source.how, |left|, |right|, leftKey.value, rightKey.value,
        FirstColumns(left), KeyFallbacks(left, source.leftOn, rightKey.value), kept.0, left + kept.1))
  }

  // ----- output rows

  predicate AllWide(rows: seq<Row>, width: nat) { forall i :: 0 <= i < |rows| ==> |rows[i]| == width }

  predicate RowsFit(plan: Plan, left: Option<Row>, right: Option<Row>) {
    (left.Some? ==> |left.value| == plan.leftWidth) && (right.Some? ==> |right.value| == plan.rightWidth)
  }

  function OutRow(plan: Plan, left: Option<Row>, right: Option<Row>): (r: Row)
    requires Fits(plan) && RowsFit(plan, left, right)
    ensures |r| == |plan.schema|
  {
    seq(|plan.leftColumns|, p requires 0 <= p < |plan.leftColumns| =>
      if left.Some? then left.value[plan.leftColumns[p]]
      else if right.Some? && plan.fromRight[p].Some? then right.value[plan.fromRight[p].value]
      else Null)
    + if right.Some? then Gather(right.value, plan.rightColumns) else seq(|plan.rightColumns|, _ => Null)
  }

  function KeysOf(rows: seq<Row>, columns: seq<nat>, width: nat): (keys: seq<Key>)
    requires AllWide(rows, width) && Within(columns, width)
    ensures |keys| == |rows| && Wide(keys, |columns|)
  {
    seq(|rows|, i requires 0 <= i < |rows| => Gather(rows[i], columns))
  }

  function Taken(rows: seq<Row>, index: Option<nat>): Option<Row>
    requires index.Some? ==> index.value < |rows|
  {
    if index.Some? then Some(rows[index.value]) else None
  }

  predicate PairsInRange(pairs: seq<Pair>, leftRows: nat, rightRows: nat) {
    forall k :: 0 <= k < |pairs| ==>
      (pairs[k].left.Some? ==> pairs[k].left.value < leftRows)
      && (pairs[k].right.Some? ==> pairs[k].right.value < rightRows)
  }

  function OutRows(plan: Plan, left: seq<Row>, right: seq<Row>, pairs: seq<Pair>): (rows: seq<Row>)
    requires Fits(plan) && AllWide(left, plan.leftWidth) && AllWide(right, plan.rightWidth)
    requires PairsInRange(pairs, |left|, |right|)
    ensures |rows| == |pairs| && AllWide(rows, |plan.schema|)
  {
    seq(|pairs|, k requires 0 <= k < |pairs| =>
      OutRow(plan, Taken(left, pairs[k].left), Taken(right, pairs[k].right)))
  }

  lemma NestedLoopInRange(how: How, leftKeys: seq<Key>, rightKeys: seq<Key>)
    ensures PairsInRange(NestedLoop(how, leftKeys, rightKeys), |leftKeys|, |rightKeys|)
  {
    LeftPairsInRange(how, leftKeys, rightKeys);
    RightPairsInRange(leftKeys, rightKeys);
    NestedLoopParts(how, leftKeys, rightKeys);
    hide NestedLoop, LeftPairs, RightPairs;
  }

  lemma LeftPairsInRange(how: How, leftKeys: seq<Key>, rightKeys: seq<Key>)
    ensures PairsInRange(LeftPairs(how, leftKeys, rightKeys, |leftKeys|), |leftKeys|, |rightKeys|)
  {
    LeftPairsMeaning(how, leftKeys, rightKeys, |leftKeys|);
    PairsWithInRange(how, rightKeys);
    hide PairsWith, Ordered, LeftPairs;
    var left := LeftPairs(how, leftKeys, rightKeys, |leftKeys|);
    forall k | 0 <= k < |left| ensures IsLeftPair(how, leftKeys, rightKeys, |leftKeys|, left[k]) {
      assert left[k] in left;
    }
  }

  lemma RightPairsInRange(leftKeys: seq<Key>, rightKeys: seq<Key>)
    ensures PairsInRange(RightPairs(leftKeys, rightKeys, |rightKeys|), |leftKeys|, |rightKeys|)
  {
    RightPairsMeaning(leftKeys, rightKeys, |rightKeys|);
    hide Matched, RightOrdered, RightPairs;
    var right := RightPairs(leftKeys, rightKeys, |rightKeys|);
    assert forall k :: 0 <= k < |right| ==> right[k] in right;
  }

  lemma PairsWithInRange(how: How, rightKeys: seq<Key>)
    ensures forall key: Key, right: Option<nat> ::
              PairsWith(how, key, rightKeys, right) && right.Some? ==> right.value < |rightKeys|
  {
  }

  /** The rows of a whole join. */
  function JoinedRows(plan: Plan, left: seq<Row>, right: seq<Row>): (rows: seq<Row>)
    requires Fits(plan) && AllWide(left, plan.leftWidth) && AllWide(right, plan.rightWidth)
    ensures AllWide(rows, |plan.schema|)
  {
    var leftKeys, rightKeys := KeysOf(left, plan.leftKey, plan.leftWidth), KeysOf(right, plan.rightKey, plan.rightWidth);
    NestedLoopInRange(plan.how, leftKeys, rightKeys);
    OutRows(plan, left, right, NestedLoop(plan.how, leftKeys, rightKeys))
  }

  // ----- an inner or left join treats every left row on its own

  /** The right rows whose key a left row has, in order. */
  function MatchedRows(plan: Plan, key: Key, right: seq<Row>): (rows: seq<Row>)
    requires Fits(plan) && AllWide(right, plan.rightWidth)
    ensures AllWide(rows, plan.rightWidth)
  {
    if right == [] then []
    else
      var last := |right| - 1;
      MatchedRows(plan, key, right[..last])
      + if SameKey(key, Gather(right[last], plan.rightKey)) then [right[last]] else []
  }

  function JoinRow(plan: Plan, left: Row, right: seq<Row>): (rows: seq<Row>)
    requires Fits(plan) && |left| == plan.leftWidth && AllWide(right, plan.rightWidth)
    ensures AllWide(rows, |plan.schema|)
  {
    var matches := MatchedRows(plan, Gather(left, plan.leftKey), right);
    if matches == [] && KeepsLeft(plan.how) then [OutRow(plan, Some(left), None)]
    else seq(|matches|, k requires 0 <= k < |matches| => OutRow(plan, Some(left), Some(matches[k])))
  }

  lemma {:induction false} HitsAreMatchedRows(plan: Plan, key: Key, right: seq<Row>, n: nat)
    requires Fits(plan) && AllWide(right, plan.rightWidth) && n <= |right|
    ensures var hits := Hits(key, KeysOf(right, plan.rightKey, plan.rightWidth), n);
      var rows := MatchedRows(plan, key, right[..n]);
      |rows| == |hits| && forall k :: 0 <= k < |hits| ==> hits[k] < n && rows[k] == right[hits[k]]
  {
    hide SameKey;
    if n > 0 {
      HitsAreMatchedRows(plan, key, right, n - 1);
      assert right[..n][..n - 1] == right[..n - 1] && right[..n][n - 1] == right[n - 1];
    }
  }

  lemma BlockRows(plan: Plan, left: seq<Row>, right: seq<Row>, i: nat)
    requires Fits(plan) && AllWide(left, plan.leftWidth) && AllWide(right, plan.rightWidth) && i < |left|
    ensures var block := Block(plan.how, i, Gather(left[i], plan.leftKey), KeysOf(right, plan.rightKey, plan.rightWidth));
      PairsInRange(block, |left|, |right|) && OutRows(plan, left, right, block) == JoinRow(plan, left[i], right)
  {
    var key := Gather(left[i], plan.leftKey);
    HitsAreMatchedRows(plan, key, right, |right|);
    assert right[..|right|] == right;
    hide Hits, MatchedRows, OutRow;
  }

  function FlatJoin(plan: Plan, left: seq<Row>, right: seq<Row>): (rows: seq<Row>)
    requires Fits(plan) && AllWide(left, plan.leftWidth) && AllWide(right, plan.rightWidth)
    ensures AllWide(rows, |plan.schema|)
  {
    if left == [] then []
    else FlatJoin(plan, left[..|left| - 1], right) + JoinRow(plan, left[|left| - 1], right)
  }

  lemma {:induction false} LeftPairRows(plan: Plan, left: seq<Row>, right: seq<Row>, n: nat)
    requires Fits(plan) && AllWide(left, plan.leftWidth) && AllWide(right, plan.rightWidth) && n <= |left|
    ensures var pairs := LeftPairs(plan.how, KeysOf(left, plan.leftKey, plan.leftWidth),
                                   KeysOf(right, plan.rightKey, plan.rightWidth), n);
      PairsInRange(pairs, |left|, |right|) && OutRows(plan, left, right, pairs) == FlatJoin(plan, left[..n], right)
  {
    hide OutRow, JoinRow, Block;
    if n > 0 {
      LeftPairRows(plan, left, right, n - 1);
      BlockRows(plan, left, right, n - 1);
      assert left[..n][..n - 1] == left[..n - 1] && left[..n][n - 1] == left[n - 1];
    }
  }

  lemma JoinedRowsAreFlat(plan: Plan, left: seq<Row>, right: seq<Row>)
    requires Fits(plan) && AllWide(left, plan.leftWidth) && AllWide(right, plan.rightWidth)
    requires !KeepsRight(plan.how)
    ensures JoinedRows(plan, left, right) == FlatJoin(plan, left, right)
  {
    LeftPairRows(plan, left, right, |left|);
    assert left[..|left|] == left;
    NestedLoopParts(plan.how, KeysOf(left, plan.leftKey, plan.leftWidth), KeysOf(right, plan.rightKey, plan.rightWidth));
  }

  // ----- the source's materialisation

  /** `take`, except that an index vector listing every row in place reuses the column as it is. */
  method TakeRows(rows: seq<Row>, indices: seq<Option<nat>>) returns (taken: seq<Option<Row>>)
    requires forall k :: 0 <= k < |indices| ==> indices[k].Some? ==> indices[k].value < |rows|
    ensures |taken| == |indices|
    ensures forall k :: 0 <= k < |indices| ==> taken[k] == Taken(rows, indices[k])
  {
    var identity := |indices| == |rows| && forall k :: 0 <= k < |indices| ==> indices[k] == Some(k);
    if identity {
      return seq(|rows|, k requires 0 <= k < |rows| => Some(rows[k]));
    }
    taken := [];
    for k := 0 to |indices|
      invariant |taken| == k
      invariant forall i :: 0 <= i < k ==> taken[i] == Taken(rows, indices[i])
    {
      taken := taken + [Taken(rows, indices[k])];
    }
  }

  method Materialize(plan: Plan, left: seq<Row>, right: seq<Row>, indices: JoinIndices, ghost pairs: seq<Pair>)
    returns (rows: seq<Row>)
    requires Fits(plan) && AllWide(left, plan.leftWidth) && AllWide(right, plan.rightWidth)
    requires Lists(indices, pairs) && PairsInRange(pairs, |left|, |right|)
    ensures rows == OutRows(plan, left, right, pairs)
  {
    assert forall k :: 0 <= k < |pairs| ==> indices.left[k] == pairs[k].left && indices.right[k] == pairs[k].right;
    var leftTaken := TakeRows(left, indices.left);
    var rightTaken := TakeRows(right, indices.right);
    hide OutRow;
    rows := [];
    for k := 0 to |indices.left|
      invariant |rows| == k
      invariant forall i :: 0 <= i < k ==> rows[i] == OutRows(plan, left, right, pairs)[i]
    {
      rows := rows + [OutRow(plan, leftTaken[k], rightTaken[k])];
    }
  }

  datatype JoinResult = JoinResult(table: Table, matchedRows: nat)

  /** What joining two tables means. */
  function JoinSpec(left: Table, right: Table, source: Source, helper: Option<string>): (r: Result<JoinResult, JoinError>)
    requires HasKeys(source) && left.Valid() && right.Valid()
    ensures r.Success? ==> r.value.table.Valid()
  {
    var plan :- PlanJoin(left.schema, right.schema, source, helper);
    var rows := JoinedRows(plan, left.rows, right.rows);
    Success(JoinResult(
      Table(plan.schema, rows),
      |NestedLoop(InnerJoin, KeysOf(left.rows, plan.leftKey, plan.leftWidth), KeysOf(right.rows, plan.rightKey, plan.rightWidth))|))
  }

  /** `join_batches`. */
  method JoinBatches(
    left: Table, right: Table, source: Source, helper: Option<string>, encode: Key -> seq<nat>)
    returns (r: Result<JoinResult, JoinError>)
    requires HasKeys(source) && left.Valid() && right.Valid()
    requires Injective(encode, |source.leftOn|)
    ensures r == JoinSpec(left, right, source, helper)
  {
    var plan :- PlanJoin(left.schema, right.schema, source, helper);
    var leftKeys := KeysOf(left.rows, plan.leftKey, plan.leftWidth);
    var rightKeys := KeysOf(right.rows, plan.rightKey, plan.rightWidth);
    var indices := BuildJoinIndices(leftKeys, rightKeys, source.how, encode, |plan.leftKey|);
    NestedLoopInRange(plan.how, leftKeys, rightKeys);
    var rows := Materialize(plan, left.rows, right.rows, indices, NestedLoop(plan.how, leftKeys, rightKeys));
    return Success(JoinResult(Table(plan.schema, rows), indices.matchedRows));
  }

  /** `join_batches_with_right_key_map`. */
  method JoinBatchesWithRightKeyMap(
    left: Table, right: Table, source: Source, helper: Option<string>,
    prepared: PreparedRightKeyMap, encode: Key -> seq<nat>, ghost rightKeys: seq<Key>)
    returns (r: Result<JoinResult, JoinError>, prepared': PreparedRightKeyMap)
    requires HasKeys(source) && left.Valid() && right.Valid()
    requires Injective(encode, |source.leftOn|)
    requires source.how.InnerJoin? || source.how.LeftJoin?
    requires IndexesOf(right.schema, source.rightOn).Some? ==>
               rightKeys == KeysOf(right.rows, IndexesOf(right.schema, source.rightOn).value, |right.schema|)
    requires Prepares(prepared, encode, rightKeys, |source.leftOn|)
    ensures r == JoinSpec(left, right, source, helper)
    ensures Prepares(prepared', encode, rightKeys, |source.leftOn|)
  {
    prepared' := prepared;
    var planned := PlanJoin(left.schema, right.schema, source, helper);
    if planned.Failure? { return Failure(planned.error), prepared'; }
    var plan := planned.value;
    var leftKeys := KeysOf(left.rows, plan.leftKey, plan.leftWidth);
    var keys := KeysOf(right.rows, plan.rightKey, plan.rightWidth);
    var indices;
    indices, prepared' := BuildJoinIndicesFromRightKeyMap(
      leftKeys, keys, source.how, prepared, encode, |plan.leftKey|);
    NestedLoopInRange(plan.how, leftKeys, keys);
    var rows := Materialize(plan, left.rows, right.rows, indices, NestedLoop(plan.how, leftKeys, keys));
    r := Success(JoinResult(Table(plan.schema, rows), indices.matchedRows));
  }
}
