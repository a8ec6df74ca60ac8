/** Ranking within window groups (native/engine/src/expression_executor.rs). A float is represented by its
    place in the total order of floats, an integer; ranks are reals. */
module WindowRank {
  import opened Wrappers

  /** A row of the group with its non-null value. */
  type Ranked = (nat, int)

  predicate Precedes(descending: bool, a: int, b: int) { if descending then a > b else a < b }

  // ----- what a rank is

  function CountBefore(s: seq<Ranked>, descending: bool, v: int): nat {
    if s == [] then 0
    else CountBefore(s[..|s| - 1], descending, v) + if Precedes(descending, s[|s| - 1].1, v) then 1 else 0
  }

  function CountEqual(s: seq<Ranked>, v: int): nat {
    if s == [] then 0 else CountEqual(s[..|s| - 1], v) + if s[|s| - 1].1 == v then 1 else 0
  }

  function ValuesBefore(s: seq<Ranked>, descending: bool, v: int): set<int> {
    set k | 0 <= k < |s| && Precedes(descending, s[k].1, v) :: s[k].1
  }

  function Values(s: seq<Ranked>): set<int> { set k | 0 <= k < |s| :: s[k].1 }

  /** Twice the average rank: the rows before, and half of the rows with the same value and one more. */
  function DoubledRank(s: seq<Ranked>, descending: bool, v: int): nat {
    2 * CountBefore(s, descending, v) + CountEqual(s, v) + 1
  }

  function AverageRank(s: seq<Ranked>, descending: bool, v: int): real {
    CountBefore(s, descending, v) as real + (CountEqual(s, v) as real + 1.0) / 2.0
  }

  function DenseRank(s: seq<Ranked>, descending: bool, v: int): real { 1.0 + |ValuesBefore(s, descending, v)| as real }

  function Rank(s: seq<Ranked>, dense: bool, descending: bool, v: int): real {
    if dense then DenseRank(s, descending, v) else AverageRank(s, descending, v)
  }

  // ----- laws of ranks

  lemma DoubledIsTwice(s: seq<Ranked>, descending: bool, v: int)
    ensures DoubledRank(s, descending, v) as real == 2.0 * AverageRank(s, descending, v)
  {
    hide CountBefore, CountEqual;
  }

  lemma {:induction false} CountsAppend(a: seq<Ranked>, b: seq<Ranked>, descending: bool, v: int)
    ensures CountBefore(a + b, descending, v) == CountBefore(a, descending, v) + CountBefore(b, descending, v)
    ensures CountEqual(a + b, v) == CountEqual(a, v) + CountEqual(b, v)
  {
    if b == [] {
      assert a + b == a;
    } else {
      assert (a + b)[..|a + b| - 1] == a + b[..|b| - 1];
      CountsAppend(a, b[..|b| - 1], descending, v);
    }
  }

  lemma {:induction false} EveryRowCounts(s: seq<Ranked>, v: int)
    ensures CountBefore(s, false, v) + CountEqual(s, v) + CountBefore(s, true, v) == |s|
  {
    if s != [] { EveryRowCounts(s[..|s| - 1], v); }
  }

  /** Descending average ranks mirror ascending ones. */
  lemma AverageMirror(s: seq<Ranked>, v: int)
    ensures AverageRank(s, true, v) == |s| as real + 1.0 - AverageRank(s, false, v)
  {
    EveryRowCounts(s, v);
  }

  /** Descending dense ranks of a group's values mirror ascending ones. */
  lemma DenseMirror(s: seq<Ranked>, v: int)
    requires v in Values(s)
    ensures DenseRank(s, true, v) == |Values(s)| as real + 1.0 - DenseRank(s, false, v)
  {
    var below, above := ValuesBefore(s, false, v), ValuesBefore(s, true, v);
    assert Values(s) == below + {v} + above;
    assert |below + {v}| == |below| + 1;
    assert below + {v} !! above;
  }

  function SumDoubled(s: seq<Ranked>, descending: bool, rows: seq<Ranked>): nat {
    if rows == [] then 0
    else SumDoubled(s, descending, rows[..|rows| - 1]) + DoubledRank(s, descending, rows[|rows| - 1].1)
  }

  /** Twice the weight a row of value `z` adds to the rank of value `v`. */
  function Weight(descending: bool, z: int, v: int): nat {
    (if Precedes(descending, z, v) then 2 else 0) + if z == v then 1 else 0
  }

  function SumWeight(descending: bool, z: int, rows: seq<Ranked>): nat {
    if rows == [] then 0
    else SumWeight(descending, z, rows[..|rows| - 1]) + Weight(descending, z, rows[|rows| - 1].1)
  }

  lemma {:induction false} OneMoreRow(s: seq<Ranked>, z: Ranked, descending: bool, rows: seq<Ranked>)
    ensures SumDoubled(s + [z], descending, rows) == SumDoubled(s, descending, rows) + SumWeight(descending, z.1, rows)
  {
    if rows != [] {
      OneMoreRow(s, z, descending, rows[..|rows| - 1]);
      assert (s + [z])[..|s|] == s;
    }
  }

  /** Two rows give each other two halves, whatever their order. */
  lemma {:induction false} WeightsBalance(z: int, descending: bool, rows: seq<Ranked>)
    ensures SumWeight(descending, z, rows) + 2 * CountBefore(rows, descending, z) + CountEqual(rows, z) == 2 * |rows|
  {
    if rows != [] { WeightsBalance(z, descending, rows[..|rows| - 1]); }
  }

  lemma OwnRank(before: seq<Ranked>, z: Ranked, descending: bool)
    ensures DoubledRank(before + [z], descending, z.1) == 2 * CountBefore(before, descending, z.1) + CountEqual(before, z.1) + 2
  {
    assert (before + [z])[..|before|] == before;
  }

  lemma LastSummand(s: seq<Ranked>, descending: bool, rows: seq<Ranked>, z: Ranked)
    ensures SumDoubled(s, descending, rows + [z]) == SumDoubled(s, descending, rows) + DoubledRank(s, descending, z.1)
  {
    assert (rows + [z])[..|rows|] == rows;
  }

  lemma Squares(n: nat)
    ensures n * (n + 1) + 2 * n + 2 == (n + 1) * (n + 2)
  {
  }

  /** The doubled ranks of `m` rows add up to m(m + 1), ties or not. */
  lemma {:induction false} DoubledRanksAddUp(s: seq<Ranked>, descending: bool)
    ensures SumDoubled(s, descending, s) == |s| * (|s| + 1)
  {
    hide DoubledRank, CountBefore, CountEqual, SumWeight;
    if s != [] {
      var before, z := s[..|s| - 1], s[|s| - 1];
      assert s == before + [z];
      DoubledRanksAddUp(before, descending);
      OneMoreRow(before, z, descending, before);
      WeightsBalance(z.1, descending, before);
      OwnRank(before, z, descending);
      LastSummand(s, descending, before, z);
      Squares(|before|);
    }
  }

  // ----- sorting

  predicate Sorted(s: seq<Ranked>, descending: bool) {
    forall i, j :: 0 <= i < j < |s| ==> !Precedes(descending, s[j].1, s[i].1)
  }

  /** The same rows in another order. */
  ghost predicate SameRows(a: seq<Ranked>, b: seq<Ranked>) {
    |a| == |b| && (forall r :: r in a <==> r in b)
    && forall descending, v :: CountBefore(a, descending, v) == CountBefore(b, descending, v) && CountEqual(a, v) == CountEqual(b, v)
  }

  lemma SameRowsInsert(a: seq<Ranked>, b: seq<Ranked>, i: nat, x: Ranked)
    requires SameRows(a, b) && i <= |a|
    ensures SameRows(a[..i] + [x] + a[i..], b + [x])
  {
    var longer := a[..i] + [x] + a[i..];
    forall descending, v
      ensures CountBefore(longer, descending, v) == CountBefore(b + [x], descending, v)
           && CountEqual(longer, v) == CountEqual(b + [x], v)
    {
      CountsAppend(a[..i] + [x], a[i..], descending, v);
      CountsAppend(a[..i], [x], descending, v);
      CountsAppend(a[..i], a[i..], descending, v);
      CountsAppend(b, [x], descending, v);
      assert a == a[..i] + a[i..];
    }
    forall r ensures r in longer <==> r in b + [x] {
      assert r in longer <==> r in a[..i] || r == x || r in a[i..];
      assert r in a <==> r in a[..i] || r in a[i..] by { assert a == a[..i] + a[i..]; }
    }
  }

  lemma InsertKeepsSorted(a: seq<Ranked>, i: nat, x: Ranked, descending: bool)
    requires Sorted(a, descending) && i <= |a|
    requires forall j :: 0 <= j < i ==> !Precedes(descending, x.1, a[j].1)
    requires i < |a| ==> Precedes(descending, x.1, a[i].1)
    ensures Sorted(a[..i] + [x] + a[i..], descending)
  {
  }

  /** `sort_by`: the same rows sorted by value. In what order equal values come is of no matter to ranks. */
  method SortByValue(rows: seq<Ranked>, descending: bool) returns (r: seq<Ranked>)
    requires DistinctRows(rows)
    ensures Sorted(r, descending) && SameRows(r, rows) && DistinctRows(r)
  {
    hide Sorted, SameRows, DistinctRows;
    NoRows(rows, descending);
    r := [];
    for n := 0 to |rows|
      invariant Sorted(r, descending) && SameRows(r, rows[..n]) && DistinctRows(r)
    {
      var i := Place(r, rows[n].1, descending);
      InsertKeepsDistinct(r, rows, n, i);
      InsertKeepsSorted(r, i, rows[n], descending);
      SameRowsInsert(r, rows[..n], i, rows[n]);
      assert rows[..n + 1] == rows[..n] + [rows[n]];
      r := r[..i] + [rows[n]] + r[i..];
    }
    assert rows[..|rows|] == rows;
  }

  lemma NoRows(rows: seq<Ranked>, descending: bool)
    ensures Sorted([], descending) && SameRows([], rows[..0]) && DistinctRows([])
  {
  }

  lemma InsertKeepsDistinct(a: seq<Ranked>, rows: seq<Ranked>, n: nat, i: nat)
    requires n < |rows| && DistinctRows(rows) && DistinctRows(a) && SameRows(a, rows[..n]) && i <= |a|
    ensures DistinctRows(a[..i] + [rows[n]] + a[i..])
  {
    forall k | 0 <= k < |a| ensures a[k].0 != rows[n].0 {
      assert a[k] in rows[..n];
    }
  }

  method Place(r: seq<Ranked>, v: int, descending: bool) returns (i: nat)
    ensures i <= |r| && (forall j :: 0 <= j < i ==> !Precedes(descending, v, r[j].1))
    ensures i < |r| ==> Precedes(descending, v, r[i].1)
  {
    i := 0;
    while i < |r| && !Precedes(descending, v, r[i].1)
      invariant i <= |r| && forall j :: 0 <= j < i ==> !Precedes(descending, v, r[j].1)
    {
      i := i + 1;
    }
  }

  lemma SameRowsSameRank(a: seq<Ranked>, b: seq<Ranked>, dense: bool, descending: bool, v: int)
    requires SameRows(a, b)
    ensures Rank(a, dense, descending, v) == Rank(b, dense, descending, v)
  {
    forall x | x in ValuesBefore(a, descending, v) ensures x in ValuesBefore(b, descending, v) {
      var k :| 0 <= k < |a| && Precedes(descending, a[k].1, v) && a[k].1 == x;
      assert a[k] in b;
    }
    forall x | x in ValuesBefore(b, descending, v) ensures x in ValuesBefore(a, descending, v) {
      var k :| 0 <= k < |b| && Precedes(descending, b[k].1, v) && b[k].1 == x;
      assert b[k] in a;
    }
    assert ValuesBefore(a, descending, v) == ValuesBefore(b, descending, v);
  }

  // ----- positions in a sorted group

  /** `[position, end)` holds exactly the rows of value `v`. */
  predicate IsBlock(s: seq<Ranked>, descending: bool, position: nat, end: nat, v: int) {
    && position < end <= |s|
    && (forall k :: 0 <= k < position ==> Precedes(descending, s[k].1, v))
    && (forall k :: position <= k < end ==> s[k].1 == v)
    && forall k :: end <= k < |s| ==> Precedes(descending, v, s[k].1)
  }

  lemma {:induction false} CountsOfBlock(s: seq<Ranked>, descending: bool, position: nat, end: nat, v: int, n: nat)
    requires IsBlock(s, descending, position, end, v) && n <= |s|
    ensures CountBefore(s[..n], descending, v) == if n <= position then n else position
    ensures CountEqual(s[..n], v) == if n <= position then 0 else if n <= end then n - position else end - position
  {
    if n > 0 {
      assert s[..n][..n - 1] == s[..n - 1];
      CountsOfBlock(s, descending, position, end, v, n - 1);
    }
  }

  lemma RankOfBlock(s: seq<Ranked>, descending: bool, position: nat, end: nat, v: int)
    requires IsBlock(s, descending, position, end, v)
    ensures AverageRank(s, descending, v) == ((position + 1 + end) as real) / 2.0
  {
    CountsOfBlock(s, descending, position, end, v, |s|);
    assert s[..|s|] == s;
  }

  /** The values seen so far are the current one and everything before it. */
  lemma ValuesSoFar(s: seq<Ranked>, descending: bool, k: nat)
    requires Sorted(s, descending) && k < |s|
    ensures Values(s[..k + 1]) == ValuesBefore(s, descending, s[k].1) + {s[k].1}
    ensures s[k].1 !in ValuesBefore(s, descending, s[k].1)
  {
    var v := s[k].1;
    forall x | x in ValuesBefore(s, descending, v) ensures x in Values(s[..k + 1]) {
      var i :| 0 <= i < |s| && Precedes(descending, s[i].1, v) && s[i].1 == x;
      assert i < k && s[..k + 1][i] == s[i];
    }
    forall x | x in Values(s[..k + 1]) && x != v ensures x in ValuesBefore(s, descending, v) {
      var i :| 0 <= i < k + 1 && s[..k + 1][i].1 == x;
      assert s[i].1 == x && i < k;
    }
    assert s[..k + 1][k].1 == v;
  }

  // ----- writing the ranks of one group

  /** The non-null rows of a group. */
  function NonNull(values: seq<Option<int>>, group: seq<nat>): (rows: seq<Ranked>)
    requires forall i :: 0 <= i < |group| ==> group[i] < |values|
    ensures forall k :: 0 <= k < |rows| ==>
              rows[k].0 < |values| && rows[k].0 in group && values[rows[k].0] == Some(rows[k].1)
    ensures forall i :: 0 <= i < |group| && values[group[i]].Some? ==> (group[i], values[group[i]].value) in rows
  {
    if group == [] then []
    else
      var last := group[|group| - 1];
      var before := NonNull(values, group[..|group| - 1]);
      assert group == group[..|group| - 1] + [last];
      if values[last].Some? then before + [(last, values[last].value)] else before
  }

  predicate DistinctRows(s: seq<Ranked>) { forall i, j :: 0 <= i < j < |s| ==> s[i].0 != s[j].0 }

  /** The first `n` sorted rows have their rank; everything else is as before. */
  ghost predicate Written(
    output: seq<Option<real>>, before: seq<Option<real>>, s: seq<Ranked>, dense: bool, descending: bool, n: nat)
    requires n <= |s|
  {
    && |output| == |before| && (forall k :: 0 <= k < |s| ==> s[k].0 < |output|)
    && (forall k :: 0 <= k < n ==> output[s[k].0] == Some(Rank(s, dense, descending, s[k].1)))
    && forall i :: 0 <= i < |output| && !Among(s, n, i) ==> output[i] == before[i]
  }

  ghost predicate Among(s: seq<Ranked>, n: nat, i: nat)
    requires n <= |s|
  {
    exists k :: 0 <= k < n && s[k].0 == i
  }

  lemma AmongNext(s: seq<Ranked>, n: nat, i: nat)
    requires n < |s|
    ensures Among(s, n + 1, i) <==> Among(s, n, i) || s[n].0 == i
  {
    if Among(s, n, i) {
      var k :| 0 <= k < n && s[k].0 == i;
      assert k < n + 1;
    }
    assert s[n].0 == i ==> 0 <= n < n + 1 && s[n].0 == i;
  }

  lemma WrittenNext(
    output: seq<Option<real>>, before: seq<Option<real>>, s: seq<Ranked>, dense: bool, descending: bool, n: nat, rank: real)
    requires n < |s| && Written(output, before, s, dense, descending, n) && DistinctRows(s)
    requires rank == Rank(s, dense, descending, s[n].1)
    ensures Written(output[s[n].0 := Some(rank)], before, s, dense, descending, n + 1)
  {
    hide Rank;
    var next := output[s[n].0 := Some(rank)];
    forall i | 0 <= i < |next| && !Among(s, n + 1, i) ensures next[i] == before[i] { AmongNext(s, n, i); }
  }

  /** The dense branch: the rank goes up with every new value. */
  method WriteDense(s: seq<Ranked>, descending: bool, before: seq<Option<real>>) returns (output: seq<Option<real>>)
    requires Sorted(s, descending) && DistinctRows(s) && forall k :: 0 <= k < |s| ==> s[k].0 < |before|
    ensures Written(output, before, s, true, descending, |s|)
  {
    hide Written, Values, ValuesBefore, Sorted, DistinctRows;
    WrittenNothing(before, s, true, descending);
    NoValues(s);
    output := before;
    var rank := 0.0;
    var previous: Option<int> := None;
    for n := 0 to |s|
      invariant Written(output, before, s, true, descending, n)
      invariant rank == |Values(s[..n])| as real
      invariant previous == if n == 0 then None else Some(s[n - 1].1)
    {
      ValuesSoFar(s, descending, n);
      ValuesNext(s, descending, n);
      if previous.None? || previous.value != s[n].1 {
        rank := rank + 1.0;
        previous := Some(s[n].1);
      }
      DenseSoFar(s, descending, n);
      WrittenNext(output, before, s, true, descending, n, rank);
      InRange(output, before, s, true, descending, n);
      output := output[s[n].0 := Some(rank)];
    }
  }

  lemma InRange(output: seq<Option<real>>, before: seq<Option<real>>, s: seq<Ranked>, dense: bool, descending: bool, n: nat)
    requires n < |s| && Written(output, before, s, dense, descending, n)
    ensures s[n].0 < |output|
  {
  }

  lemma WrittenNothing(before: seq<Option<real>>, s: seq<Ranked>, dense: bool, descending: bool)
    requires forall k :: 0 <= k < |s| ==> s[k].0 < |before|
    ensures Written(before, before, s, dense, descending, 0)
  {
  }

  lemma NoValues(s: seq<Ranked>)
    ensures Values(s[..0]) == {}
  {
  }

  lemma ValuesNext(s: seq<Ranked>, descending: bool, n: nat)
    requires Sorted(s, descending) && n < |s|
    ensures |Values(s[..n + 1])| == |Values(s[..n])| + if n == 0 || s[n - 1].1 != s[n].1 then 1 else 0
  {
    var v := s[n].1;
    assert Values(s[..n + 1]) == Values(s[..n]) + {v} by {
      forall x | x in Values(s[..n + 1]) ensures x in Values(s[..n]) + {v} {
        var i :| 0 <= i < n + 1 && s[..n + 1][i].1 == x;
        if i < n { assert s[..n][i].1 == x; }
      }
      forall x | x in Values(s[..n]) + {v} ensures x in Values(s[..n + 1]) {
        if x != v {
          var i :| 0 <= i < n && s[..n][i].1 == x;
          assert s[..n + 1][i].1 == x;
        } else {
          assert s[..n + 1][n].1 == v;
        }
      }
    }
    SeenBefore(s, descending, n);
    if v in Values(s[..n]) { assert Values(s[..n]) + {v} == Values(s[..n]); }
  }

  /** In a sorted group a value was seen before exactly when the row before has it. */
  lemma SeenBefore(s: seq<Ranked>, descending: bool, n: nat)
    requires Sorted(s, descending) && n < |s|
    ensures s[n].1 in Values(s[..n]) <==> n > 0 && s[n - 1].1 == s[n].1
  {
    if s[n].1 in Values(s[..n]) {
      var i :| 0 <= i < n && s[..n][i].1 == s[n].1;
      assert s[i].1 == s[n].1;
    }
    if n > 0 && s[n - 1].1 == s[n].1 { assert s[..n][n - 1].1 == s[n].1; }
  }

  lemma DenseSoFar(s: seq<Ranked>, descending: bool, n: nat)
    requires Sorted(s, descending) && n < |s|
    ensures Rank(s, true, descending, s[n].1) == |Values(s[..n + 1])| as real
  {
    ValuesSoFar(s, descending, n);
  }

  /** The average branch: block after block of equal values. */
  method WriteAverage(s: seq<Ranked>, descending: bool, before: seq<Option<real>>) returns (output: seq<Option<real>>)
    requires Sorted(s, descending) && DistinctRows(s) && forall k :: 0 <= k < |s| ==> s[k].0 < |before|
    ensures Written(output, before, s, false, descending, |s|)
  {
    hide Written, DistinctRows, IsBlock, Rank;
    WrittenNothing(before, s, false, descending);
    output := before;
    var position := 0;
    while position < |s|
      invariant position <= |s| && Written(output, before, s, false, descending, position)
      invariant position > 0 && position < |s| ==> s[position - 1].1 != s[position].1
    {
      var end := position + 1;
      while end < |s| && s[end].1 == s[position].1
        invariant position < end <= |s| && forall k :: position <= k < end ==> s[k].1 == s[position].1
      {
        end := end + 1;
      }
      BlockFound(s, descending, position, end);
      BlockRank(s, descending, position, end);
      var averageRank := ((position + 1 + end) as real) / 2.0;
      for n := position to end
        invariant Written(output, before, s, false, descending, n)
      {
        assert s[n].1 == s[position].1;
        WrittenNext(output, before, s, false, descending, n, averageRank);
        InRange(output, before, s, false, descending, n);
        output := output[s[n].0 := Some(averageRank)];
      }
      position := end;
    }
  }

  lemma BlockFound(s: seq<Ranked>, descending: bool, position: nat, end: nat)
    requires Sorted(s, descending) && position < end <= |s|
    requires forall k :: position <= k < end ==> s[k].1 == s[position].1
    requires position > 0 ==> s[position - 1].1 != s[position].1
    requires end < |s| ==> s[end].1 != s[position].1
    ensures IsBlock(s, descending, position, end, s[position].1)
  {
    var v := s[position].1;
    forall k | 0 <= k < position ensures Precedes(descending, s[k].1, v) {
      assert !Precedes(descending, s[position].1, s[position - 1].1);
      if k < position - 1 { assert !Precedes(descending, s[position - 1].1, s[k].1); }
    }
    forall k | end <= k < |s| ensures Precedes(descending, v, s[k].1) {
      assert !Precedes(descending, s[end].1, s[position].1);
      if k > end { assert !Precedes(descending, s[k].1, s[end].1); }
    }
  }

  lemma BlockRank(s: seq<Ranked>, descending: bool, position: nat, end: nat)
    requires position < |s| && IsBlock(s, descending, position, end, s[position].1)
    ensures Rank(s, false, descending, s[position].1) == ((position + 1 + end) as real) / 2.0
  {
    RankOfBlock(s, descending, position, end, s[position].1);
  }

  // ----- all groups

  /** The groups list every row at most once. */
  predicate Separate(groups: seq<seq<nat>>, n: nat) {
    (forall g :: 0 <= g < |groups| ==> DistinctIndexes(groups[g]) && forall i :: 0 <= i < |groups[g]| ==> groups[g][i] < n)
    && forall g, h :: 0 <= g < h < |groups| ==> Disjoint(groups[g], groups[h])
  }

  predicate DistinctIndexes(group: seq<nat>) { forall i, j :: 0 <= i < j < |group| ==> group[i] != group[j] }

  predicate Disjoint(a: seq<nat>, b: seq<nat>) { forall i :: 0 <= i < |a| ==> a[i] !in b }

  /** The rank a row has in its group, none for a null. */
  function RankIn(values: seq<Option<int>>, group: seq<nat>, dense: bool, descending: bool, i: nat): Option<real>
    requires i < |values| && forall k :: 0 <= k < |group| ==> group[k] < |values|
  {
    if values[i].None? then None else Some(Rank(NonNull(values, group), dense, descending, values[i].value))
  }

  lemma {:induction false} NonNullDistinct(values: seq<Option<int>>, group: seq<nat>)
    requires DistinctIndexes(group) && forall i :: 0 <= i < |group| ==> group[i] < |values|
    ensures DistinctRows(NonNull(values, group))
  {
    if group != [] {
      var init := group[..|group| - 1];
      NonNullDistinct(values, init);
      var before := NonNull(values, init);
      forall k | 0 <= k < |before| ensures before[k].0 != group[|group| - 1] { assert before[k].0 in init; }
    }
  }

  /** One group: collect the non-null rows, sort them and write their ranks. */
  method RankGroup(values: seq<Option<int>>, group: seq<nat>, dense: bool, descending: bool, before: seq<Option<real>>)
    returns (output: seq<Option<real>>)
    requires DistinctIndexes(group) && |before| == |values| && forall i :: 0 <= i < |group| ==> group[i] < |values|
    requires forall i :: 0 <= i < |group| ==> before[group[i]] == None
    ensures |output| == |values|
    ensures forall i :: 0 <= i < |values| ==>
              output[i] == if i in group then RankIn(values, group, dense, descending, i) else before[i]
  {
    hide Written, Sorted, SameRows, DistinctRows, Rank, NonNull;
    var rows := NonNull(values, group);
    NonNullDistinct(values, group);
    var ordered := SortByValue(rows, descending);
    SortedIndexes(ordered, rows, |values|);
    if dense {
      output := WriteDense(ordered, descending, before);
    } else {
      output := WriteAverage(ordered, descending, before);
    }
    GroupWritten(values, group, dense, descending, before, output, ordered);
  }

  lemma SortedIndexes(ordered: seq<Ranked>, rows: seq<Ranked>, n: nat)
    requires SameRows(ordered, rows) && forall k :: 0 <= k < |rows| ==> rows[k].0 < n
    ensures forall k :: 0 <= k < |ordered| ==> ordered[k].0 < n
  {
    forall k | 0 <= k < |ordered| ensures ordered[k].0 < n { assert ordered[k] in rows; }
  }

  lemma GroupWritten(
    values: seq<Option<int>>, group: seq<nat>, dense: bool, descending: bool, before: seq<Option<real>>,
    output: seq<Option<real>>, ordered: seq<Ranked>)
    requires |before| == |values| && forall i :: 0 <= i < |group| ==> group[i] < |values|
    requires forall i :: 0 <= i < |group| ==> before[group[i]] == None
    requires SameRows(ordered, NonNull(values, group)) && Written(output, before, ordered, dense, descending, |ordered|)
    ensures |output| == |values|
    ensures forall i :: 0 <= i < |values| ==>
              output[i] == if i in group then RankIn(values, group, dense, descending, i) else before[i]
  {
    hide Rank, NonNull;
    var rows := NonNull(values, group);
    forall i | 0 <= i < |values|
      ensures output[i] == if i in group then RankIn(values, group, dense, descending, i) else before[i]
    {
      if Among(ordered, |ordered|, i) {
        var k :| 0 <= k < |ordered| && ordered[k].0 == i;
        assert ordered[k] in rows;
        SameRowsSameRank(ordered, rows, dense, descending, ordered[k].1);
      } else if i in group && values[i].Some? {
        RankedRowStands(values, group, ordered, i);
      }
    }
  }

  lemma RankedRowStands(values: seq<Option<int>>, group: seq<nat>, ordered: seq<Ranked>, i: nat)
    requires i < |values| && i in group && values[i].Some? && forall k :: 0 <= k < |group| ==> group[k] < |values|
    requires SameRows(ordered, NonNull(values, group))
    ensures Among(ordered, |ordered|, i)
  {
    hide NonNull;
    assert (i, values[i].value) in NonNull(values, group);
    var k :| 0 <= k < |ordered| && ordered[k] == (i, values[i].value);
  }

  /** The groups before the `n`-th list the row. */
  predicate Listed(groups: seq<seq<nat>>, n: nat, i: nat)
    requires n <= |groups|
  {
    exists g :: 0 <= g < n && i in groups[g]
  }

  ghost predicate RanksHold(
    output: seq<Option<real>>, values: seq<Option<int>>, groups: seq<seq<nat>>, dense: bool, descending: bool, n: nat)
    requires n <= |groups| && Separate(groups, |values|)
  {
    && |output| == |values|
    && (forall g, i :: 0 <= g < n && 0 <= i < |values| && i in groups[g] ==>
          output[i] == RankIn(values, groups[g], dense, descending, i))
    && forall i :: 0 <= i < |values| && !Listed(groups, n, i) ==> output[i] == None
  }

  lemma RanksStep(
    before: seq<Option<real>>, output: seq<Option<real>>, values: seq<Option<int>>, groups: seq<seq<nat>>, dense: bool,
    descending: bool, n: nat)
    requires n < |groups| && Separate(groups, |values|) && RanksHold(before, values, groups, dense, descending, n)
    requires |output| == |values|
    requires forall i :: 0 <= i < |values| ==>
               output[i] == if i in groups[n] then RankIn(values, groups[n], dense, descending, i) else before[i]
    ensures RanksHold(output, values, groups, dense, descending, n + 1)
  {
    hide RankIn;
    forall g, i | 0 <= g < n && 0 <= i < |values| && i in groups[g] ensures i !in groups[n] {
      assert Disjoint(groups[g], groups[n]);
    }
    forall i | 0 <= i < |values| && !Listed(groups, n + 1, i) ensures !Listed(groups, n, i) && i !in groups[n] {
      ListedMore(groups, n, i);
    }
  }

  lemma ListedMore(groups: seq<seq<nat>>, n: nat, i: nat)
    requires n < |groups|
    ensures Listed(groups, n + 1, i) <==> Listed(groups, n, i) || i in groups[n]
  {
    if Listed(groups, n, i) {
      var g :| 0 <= g < n && i in groups[g];
      assert 0 <= g < n + 1;
    }
    if i in groups[n] { assert 0 <= n < n + 1; }
  }

  lemma DisjointMembers(a: seq<nat>, b: seq<nat>, x: nat)
    requires Disjoint(a, b) && x in b
    ensures x !in a
  {
  }

  lemma GroupIsFresh(
    before: seq<Option<real>>, values: seq<Option<int>>, groups: seq<seq<nat>>, dense: bool, descending: bool, n: nat)
    requires n < |groups| && Separate(groups, |values|) && RanksHold(before, values, groups, dense, descending, n)
    ensures forall i :: 0 <= i < |groups[n]| ==> before[groups[n][i]] == None
  {
    hide RankIn;
    forall i | 0 <= i < |groups[n]| ensures before[groups[n][i]] == None {
      forall g | 0 <= g < n ensures groups[n][i] !in groups[g] { DisjointMembers(groups[g], groups[n], groups[n][i]); }
      assert !Listed(groups, n, groups[n][i]);
    }
  }

  /** `window_rank`: every non-null row gets its rank within its group; nulls and unlisted rows get none. */
  method RankWindow(values: seq<Option<int>>, groups: seq<seq<nat>>, dense: bool, descending: bool)
    returns (output: seq<Option<real>>)
    requires Separate(groups, |values|)
    ensures RanksHold(output, values, groups, dense, descending, |groups|)
  {
    hide RankIn, RanksHold;
    output := seq(|values|, _ => None);
    NoRanks(output, values, groups, dense, descending);
    for n := 0 to |groups|
      invariant RanksHold(output, values, groups, dense, descending, n)
    {
      GroupIsFresh(output, values, groups, dense, descending, n);
      RanksLength(output, values, groups, dense, descending, n);
      ghost var before := output;
      output := RankGroup(values, groups[n], dense, descending, output);
      RanksStep(before, output, values, groups, dense, descending, n);
    }
  }

  lemma NoRanks(output: seq<Option<real>>, values: seq<Option<int>>, groups: seq<seq<nat>>, dense: bool, descending: bool)
    requires Separate(groups, |values|) && |output| == |values| && forall i :: 0 <= i < |output| ==> output[i] == None
    ensures RanksHold(output, values, groups, dense, descending, 0)
  {
  }

  lemma RanksLength(
    output: seq<Option<real>>, values: seq<Option<int>>, groups: seq<seq<nat>>, dense: bool, descending: bool, n: nat)
    requires n <= |groups| && Separate(groups, |values|) && RanksHold(output, values, groups, dense, descending, n)
    ensures |output| == |values|
  {
  }

  // ----- the sum of the ranks that are written

  /** The ranks written for the rows of a group, added up. */
  function WrittenSum(output: seq<Option<real>>, group: seq<nat>): real
    requires forall k :: 0 <= k < |group| ==> group[k] < |output|
  {
    if group == [] then 0.0
    else
      var last := |group| - 1;
      WrittenSum(output, group[..last]) + if output[group[last]].Some? then output[group[last]].value else 0.0
  }

  lemma {:induction false} SumIsDoubled(
    output: seq<Option<real>>, values: seq<Option<int>>, group: seq<nat>, descending: bool, n: nat)
    requires n <= |group| && |output| == |values| && forall k :: 0 <= k < |group| ==> group[k] < |values|
    requires forall k :: 0 <= k < |group| ==> output[group[k]] == RankIn(values, group, false, descending, group[k])
    ensures 2.0 * WrittenSum(output, group[..n])
         == SumDoubled(NonNull(values, group), descending, NonNull(values, group[..n])) as real
  {
    hide AverageRank, DoubledRank;
    var rows := NonNull(values, group);
    if n > 0 {
      SumIsDoubled(output, values, group, descending, n - 1);
      var i := group[n - 1];
      assert group[..n][..n - 1] == group[..n - 1] && group[..n][n - 1] == i;
      if values[i].Some? {
        DoubledIsTwice(rows, descending, values[i].value);
        LastSummand(rows, descending, NonNull(values, group[..n - 1]), (i, values[i].value));
      }
    }
  }

  /** The average ranks written for a group with `m` non-null rows add up to m(m + 1)/2, ties or not. */
  lemma RanksAddUp(
    output: seq<Option<real>>, values: seq<Option<int>>, groups: seq<seq<nat>>, descending: bool, g: nat)
    requires g < |groups| && Separate(groups, |values|) && RanksHold(output, values, groups, false, descending, |groups|)
    ensures |output| == |values|
    ensures var m := |NonNull(values, groups[g])|;
      WrittenSum(output, groups[g]) == (m * (m + 1)) as real / 2.0
  {
    hide RankIn, NonNull;
    var group := groups[g];
    assert forall k :: 0 <= k < |group| ==> group[k] in group;
    SumIsDoubled(output, values, group, descending, |group|);
    assert group[..|group|] == group;
    DoubledRanksAddUp(NonNull(values, group), descending);
  }

  // ----- ranks in plain counts

  /** How many rows the test holds for. */
  function Count(s: seq<Ranked>, test: int -> bool): nat {
    if s == [] then 0 else Count(s[..|s| - 1], test) + if test(s[|s| - 1].1) then 1 else 0
  }

  /** Ascending, the smaller rows come before; descending, the greater ones. */
  lemma AverageMeans(s: seq<Ranked>, v: int)
    ensures AverageRank(s, false, v) == Count(s, z => z < v) as real + (Count(s, z => z == v) as real + 1.0) / 2.0
    ensures AverageRank(s, true, v) == Count(s, z => z > v) as real + (Count(s, z => z == v) as real + 1.0) / 2.0
  {
    CountsMean(s, v);
  }

  lemma {:induction false} CountsMean(s: seq<Ranked>, v: int)
    ensures CountBefore(s, false, v) == Count(s, z => z < v) && CountBefore(s, true, v) == Count(s, z => z > v)
    ensures CountEqual(s, v) == Count(s, z => z == v)
  {
    if s != [] { CountsMean(s[..|s| - 1], v); }
  }

  /** Dense ranks count the distinct values that are smaller, or greater when descending. */
  lemma DenseMeans(s: seq<Ranked>, v: int)
    ensures DenseRank(s, false, v) == 1.0 + |set z | z in Values(s) && z < v| as real
    ensures DenseRank(s, true, v) == 1.0 + |set z | z in Values(s) && z > v| as real
  {
    assert ValuesBefore(s, false, v) == set z | z in Values(s) && z < v;
    assert ValuesBefore(s, true, v) == set z | z in Values(s) && z > v;
  }
}
