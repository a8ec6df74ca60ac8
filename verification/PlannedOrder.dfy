/** A planned chunk comes back exactly as planned (native/engine/src/planner.rs, native/engine/src/coord.rs,
    native/engine/src/converter.rs). */
module PlannedOrder {
  import opened Wrappers
  import opened Text
  import opened Tables
  import opened Coordinates
  import opened Materialize
  import opened StreamedOrder

  // ----- the chunk file

  function Written(c: Coord): CoordRow { CoordRow(c.file, c.group, c.offset) }

  /** A chunk is written as one batch without an active-order column. */
  function ChunkBatch(plan: seq<Coord>): (b: CoordBatch)
    ensures ValidBatch(b) && NonNegative(b) && |b.rows| == |plan|
  {
    CoordBatch(seq(|plan|, i requires 0 <= i < |plan| => Written(plan[i])), None)
  }

  /** Every planned coordinate with its place in the plan. */
  function PlanTags(plan: seq<Coord>): (tags: seq<Tag>)
    ensures |tags| == |plan| && forall i :: 0 <= i < |plan| ==> tags[i] == Tag(plan[i], i)
  {
    seq(|plan|, i requires 0 <= i < |plan| => Tag(plan[i], i))
  }

  lemma ChunkTags(plan: seq<Coord>)
    ensures AllValid([ChunkBatch(plan)]) && AllNonNegative([ChunkBatch(plan)], 1)
    ensures TagsOfFile([ChunkBatch(plan)], 1) == PlanTags(plan)
  {
    var batches := [ChunkBatch(plan)];
    assert TagsOfFile(batches, 0) == [];
    assert TagsOfBatch(batches[0], |plan|) == PlanTags(plan);
  }

  predicate Distinct(plan: seq<Coord>) { forall i, j :: 0 <= i < j < |plan| ==> plan[i] != plan[j] }

  predicate PlanExists(files: Files, plan: seq<Coord>) { forall i :: 0 <= i < |plan| ==> Exists(files, plan[i]) }

  function PlannedRows(files: Files, plan: seq<Coord>): (rows: seq<Row>)
    requires PlanExists(files, plan)
    ensures |rows| == |plan| && forall i :: 0 <= i < |plan| ==> rows[i] == RowAt(files, plan[i])
  {
    seq(|plan|, i requires 0 <= i < |plan| => RowAt(files, plan[i]))
  }

  // ----- multisets of tags

  lemma SameTags(a: seq<Tag>, b: seq<Tag>)
    requires multiset(a) == multiset(b)
    ensures |a| == |b| && forall t :: t in a <==> t in b
  {
    assert |multiset(a)| == |multiset(b)|;
    forall t ensures t in a <==> t in b { assert t in multiset(a) <==> t in multiset(b); }
  }

  lemma AtLeastTwice(tags: seq<Tag>, i: nat, j: nat)
    requires i < j < |tags| && tags[i] == tags[j]
    ensures multiset(tags)[tags[i]] >= 2
  {
    assert tags == tags[..j] + [tags[j]] + tags[j + 1..];
    assert tags[i] in tags[..j];
  }

  lemma AtMostOnce(tags: seq<Tag>, t: Tag)
    requires DistinctCoords(tags)
    ensures multiset(tags)[t] <= 1
  {
    if t in tags {
      var i :| 0 <= i < |tags| && tags[i] == t;
      assert tags == tags[..i] + [tags[i]] + tags[i + 1..];
      assert t !in tags[..i] && t !in tags[i + 1..];
    }
  }

  lemma DistinctByMembers(a: seq<Tag>, b: seq<Tag>)
    requires DistinctCoords(a) && multiset(a) == multiset(b)
    ensures DistinctCoords(b)
  {
    SameTags(a, b);
    forall i, j | 0 <= i < j < |b| ensures b[i].coord != b[j].coord {
      if b[i].coord == b[j].coord {
        assert b[i] in a && b[j] in a;
        var x :| 0 <= x < |a| && a[x] == b[i];
        var y :| 0 <= y < |a| && a[y] == b[j];
        assert x == y;
        AtLeastTwice(b, i, j);
        AtMostOnce(a, b[i]);
      }
    }
  }

  /** Distinct tags that are all covered by a part of them are that part. */
  lemma CoveringPart(part: seq<Tag>, tags: seq<Tag>)
    requires DistinctCoords(tags) && multiset(part) <= multiset(tags) && Covers(part, tags)
    ensures multiset(part) == multiset(tags)
  {
    forall t ensures multiset(part)[t] == multiset(tags)[t] {
      AtMostOnce(tags, t);
      if t in tags {
        var i :| 0 <= i < |tags| && tags[i] == t;
        assert HasCoord(part, tags[i].coord);
        var j :| 0 <= j < |part| && part[j].coord == t.coord;
        assert part[j] in multiset(part) && part[j] in multiset(tags);
        var k :| 0 <= k < |tags| && tags[k] == part[j];
        assert k == i;
        assert t in multiset(part);
      } else {
        assert t !in multiset(tags);
      }
    }
  }

  lemma PartOfSameSize(part: seq<Tag>, tags: seq<Tag>)
    requires multiset(part) <= multiset(tags) && |part| == |tags|
    ensures multiset(part) == multiset(tags)
  {
    var rest := multiset(tags) - multiset(part);
    assert multiset(tags) == multiset(part) + rest;
    assert |multiset(tags)| == |multiset(part)| + |rest|;
    assert |multiset(tags)| == |tags| && |multiset(part)| == |part|;
  }

  // ----- fetching the same tags gives the same rows

  lemma FetchSplits(files: Files, a: seq<Tag>, b: seq<Tag>)
    requires AllExist(files, a + b)
    ensures AllExist(files, a) && AllExist(files, b) && Fetch(files, a + b) == Fetch(files, a) + Fetch(files, b)
  {
    ExistBoth(files, a, b);
  }

  lemma FetchWithoutLast(files: Files, a: seq<Tag>)
    requires a != [] && AllExist(files, a)
    ensures AllExist(files, a[..|a| - 1])
    ensures Fetch(files, a[..|a| - 1]) == Fetch(files, a)[..|a| - 1]
  {
    hide Exists;
  }

  lemma FetchWithout(files: Files, b: seq<Tag>, i: nat)
    requires i < |b| && AllExist(files, b)
    ensures AllExist(files, b[..i] + b[i + 1..])
    ensures Fetch(files, b[..i] + b[i + 1..]) == Fetch(files, b)[..i] + Fetch(files, b)[i + 1..]
  {
    hide Exists;
  }

  lemma {:induction false} FetchSame(files: Files, a: seq<Tag>, b: seq<Tag>)
    requires multiset(a) == multiset(b) && AllExist(files, a) && AllExist(files, b)
    ensures multiset(Fetch(files, a)) == multiset(Fetch(files, b))
    decreases |a|
  {
    hide *;
    SameTags(a, b);
    if a == [] {
      assert b == [];
    } else {
      var last := |a| - 1;
      assert a[last] in a;
      var i :| 0 <= i < |b| && b[i] == a[last];
      FetchWithoutLast(files, a);
      FetchWithout(files, b, i);
      DropSame(a, b, i);
      FetchSame(files, a[..last], b[..i] + b[i + 1..]);
      DropSame(Fetch(files, a), Fetch(files, b), i);
    }
  }

  // ----- a sorted arrangement is unique when the orders are distinct

  predicate StrictlyOrdered(s: seq<Ordered>) { forall i, j :: 0 <= i < j < |s| ==> s[i].order < s[j].order }

  lemma {:induction false} SortedIsUnique(s: seq<Ordered>, t: seq<Ordered>)
    requires SortedByOrder(s) && StrictlyOrdered(t) && multiset(s) == multiset(t)
    ensures s == t
    decreases |s|
  {
    hide *;
    SameLength(s, t);
    if s != [] {
      var last := |s| - 1;
      LastIsSame(s, t);
      ShorterSorted(s, t);
      DropSame(s, t, last);
      assert t[..last] + t[last + 1..] == t[..last];
      SortedIsUnique(s[..last], t[..last]);
      assert s == s[..last] + [s[last]] && t == t[..last] + [t[last]];
    }
  }

  lemma SameLength(s: seq<Ordered>, t: seq<Ordered>)
    requires multiset(s) == multiset(t)
    ensures |s| == |t|
  {
    assert |multiset(s)| == |multiset(t)|;
  }

  lemma ShorterSorted(s: seq<Ordered>, t: seq<Ordered>)
    requires SortedByOrder(s) && StrictlyOrdered(t) && |s| == |t| > 0
    ensures SortedByOrder(s[..|s| - 1]) && StrictlyOrdered(t[..|t| - 1])
  {
  }

  lemma LastIsSame(s: seq<Ordered>, t: seq<Ordered>)
    requires SortedByOrder(s) && StrictlyOrdered(t) && multiset(s) == multiset(t) && |s| == |t| > 0
    ensures s[|s| - 1] == t[|t| - 1]
  {
    var last := |s| - 1;
    assert s[last] in multiset(t) && t[last] in multiset(s);
    var i :| 0 <= i < |t| && t[i] == s[last];
    var j :| 0 <= j < |s| && s[j] == t[last];
    assert s[j].order <= s[last].order;
  }

  // ----- the main result

  lemma PlanExistsByTags(files: Files, plan: seq<Coord>)
    ensures AllExist(files, PlanTags(plan)) <==> PlanExists(files, plan)
  {
    hide Exists;
    assert forall i :: 0 <= i < |plan| ==> PlanTags(plan)[i].coord == plan[i];
  }

  lemma PlanTagsDistinct(plan: seq<Coord>)
    ensures DistinctCoords(PlanTags(plan)) <==> Distinct(plan)
  {
    if DistinctCoords(PlanTags(plan)) {
      forall i, j | 0 <= i < j < |plan| ensures plan[i] != plan[j] {
        assert PlanTags(plan)[i].coord != PlanTags(plan)[j].coord;
      }
    }
  }

  /** The rows read back are the planned rows in planned order exactly when the plan names no coordinate
      twice. (De-duplication drops the repeats of a coordinate.) */
  lemma ReadBackIsPlan(files: Files, plan: seq<Coord>, groups: seq<CoordGroup>, sorted: seq<Ordered>)
    requires Regroups(PlanTags(plan), groups) && AllExist(files, TagsOf(groups)) && PlanExists(files, plan)
    requires SortedByOrder(sorted) && multiset(sorted) == multiset(Fetch(files, TagsOf(groups)))
    ensures RowsOf(sorted) == PlannedRows(files, plan) <==> Distinct(plan)
  {
    hide Exists, AllGroups, TagsOf, DistinctCoords, SortedByOrder, AllExist;
    var part, tags := TagsOf(groups), PlanTags(plan);
    PlanTagsDistinct(plan);
    assert |multiset(sorted)| == |multiset(Fetch(files, part))|;
    if Distinct(plan) {
      CoveringPart(part, tags);
      TagsExist(files, plan);
      FetchSame(files, part, tags);
      SortedIsUnique(sorted, Fetch(files, tags));
      assert RowsOf(sorted) == PlannedRows(files, plan);
    }
    if RowsOf(sorted) == PlannedRows(files, plan) {
      assert |part| == |tags|;
      PartOfSameSize(part, tags);
      DistinctByMembers(part, tags);
    }
  }

  lemma TagsExist(files: Files, plan: seq<Coord>)
    requires PlanExists(files, plan)
    ensures AllExist(files, PlanTags(plan)) && StrictlyOrdered(Fetch(files, PlanTags(plan)))
  {
    hide Exists;
  }

  // ----- rows that are sent as they are read

  lemma AscendedExists(files: Files, plan: seq<Coord>)
    requires PlanExists(files, plan)
    ensures PlanExists(files, Ascended(plan))
  {
    hide Exists, Ascended;
    forall i | 0 <= i < |Ascended(plan)| ensures Exists(files, Ascended(plan)[i]) {
      assert Ascended(plan)[i] in plan;
    }
  }

  /** The rows of the plan in the order of their coordinates, each coordinate once. */
  function StreamedRows(files: Files, plan: seq<Coord>): (rows: seq<Row>)
    requires PlanExists(files, plan)
  {
    AscendedExists(files, plan);
    PlannedRows(files, Ascended(plan))
  }

  lemma StreamedIsAscended(files: Files, plan: seq<Coord>, groups: seq<CoordGroup>)
    requires Regroups(PlanTags(plan), groups) && AllExist(files, TagsOf(groups)) && PlanExists(files, plan)
    ensures RowsOf(Fetch(files, TagsOf(groups))) == StreamedRows(files, plan)
  {
    hide Exists, AllGroups, TagsOf, Ascended, KeysAscend, DistinctCoords;
    GroupsAreAscended(PlanTags(plan), groups);
    assert CoordsOf(PlanTags(plan)) == plan;
    AscendedExists(files, plan);
    var tags := TagsOf(groups);
    assert forall i :: 0 <= i < |tags| ==> CoordsOf(tags)[i] == tags[i].coord;
  }

  /** Different coordinates of the plan hold different rows. */
  predicate RowsDiffer(files: Files, plan: seq<Coord>)
    requires PlanExists(files, plan)
  {
    forall i, j :: 0 <= i < |plan| && 0 <= j < |plan| && plan[i] != plan[j] ==> RowAt(files, plan[i]) != RowAt(files, plan[j])
  }

  /** Sent as read, the rows are the planned ones in planned order when the plan strictly ascends by file,
      row group and offset, and where the planned rows differ only then. */
  lemma StreamedIsPlan(files: Files, plan: seq<Coord>)
    requires PlanExists(files, plan)
    ensures Ascends(plan) ==> StreamedRows(files, plan) == PlannedRows(files, plan)
    ensures RowsDiffer(files, plan) ==>
      (StreamedRows(files, plan) == PlannedRows(files, plan) <==> Ascends(plan))
  {
    hide Exists, Ascends, Ascended;
    AscendedIsSame(plan);
    AscendedExists(files, plan);
    var streamed := Ascended(plan);
    if RowsDiffer(files, plan) && StreamedRows(files, plan) == PlannedRows(files, plan) {
      assert |streamed| == |plan|;
      forall i | 0 <= i < |plan| ensures streamed[i] == plan[i] {
        assert streamed[i] in plan;
        var j :| 0 <= j < |plan| && plan[j] == streamed[i];
        assert RowAt(files, plan[j]) == PlannedRows(files, streamed)[i] == PlannedRows(files, plan)[i] == RowAt(files, plan[i]);
      }
    }
  }

  /** Files in which every row spells its own coordinate. */
  function RowFor(c: Coord): (row: Row) { [Val(c.file), Val(Decimal(c.group)), Val(Decimal(c.offset))] }

  lemma RowForTells(a: Coord, b: Coord)
    requires RowFor(a) == RowFor(b)
    ensures a == b
  {
    DecimalReadsBack(a.group);
    DecimalReadsBack(b.group);
    DecimalReadsBack(a.offset);
    DecimalReadsBack(b.offset);
    assert RowFor(a)[0] == RowFor(b)[0] && RowFor(a)[1] == RowFor(b)[1] && RowFor(a)[2] == RowFor(b)[2];
  }

  function Beyond(plan: seq<Coord>): (n: nat)
    ensures forall i :: 0 <= i < |plan| ==> plan[i].group < n && plan[i].offset < n
  {
    if plan == [] then 0
    else
      var last, n := plan[|plan| - 1], Beyond(plan[..|plan| - 1]);
      n + last.group + last.offset + 1
  }

  function SpelledFiles(plan: seq<Coord>): (files: Files)
    ensures PlanExists(files, plan)
    ensures forall i :: 0 <= i < |plan| ==> RowAt(files, plan[i]) == RowFor(plan[i])
  {
    map f | f in (set c <- plan :: c.file) :: SpelledFile(f, Beyond(plan))
  }

  function SpelledFile(file: string, n: nat): (groups: seq<seq<Row>>)
    ensures |groups| == n && forall g :: 0 <= g < n ==> groups[g] == SpelledGroup(file, g, n)
  {
    seq(n, g requires 0 <= g < n => SpelledGroup(file, g, n))
  }

  function SpelledGroup(file: string, group: nat, n: nat): (rows: seq<Row>)
    ensures |rows| == n && forall o :: 0 <= o < n ==> rows[o] == RowFor(Coord(file, group, o))
  {
    seq(n, o requires 0 <= o < n => RowFor(Coord(file, group, o)))
  }

  /** Whatever the files hold: the plan comes back in planned order exactly when it strictly ascends. */
  lemma StreamedIsPlanExactly(plan: seq<Coord>)
    ensures Ascends(plan) <==>
      forall files :: PlanExists(files, plan) ==> StreamedRows(files, plan) == PlannedRows(files, plan)
  {
    hide Ascends, PlanExists, SpelledFiles, RowFor;
    forall files | PlanExists(files, plan) ensures Ascends(plan) ==> StreamedRows(files, plan) == PlannedRows(files, plan) {
      StreamedIsPlan(files, plan);
    }
    var files := SpelledFiles(plan);
    forall i, j | 0 <= i < |plan| && 0 <= j < |plan| && plan[i] != plan[j] ensures RowFor(plan[i]) != RowFor(plan[j]) {
      if RowFor(plan[i]) == RowFor(plan[j]) { RowForTells(plan[i], plan[j]); }
    }
    StreamedIsPlan(files, plan);
  }

  /** Writing a planned chunk and materialising it. With an operation over complete input the rows come in
      planned order, otherwise in the order of their coordinates. */
  method MaterializePlan(files: Files, plan: seq<Coord>, split: seq<Row> -> seq<seq<Row>>, complete: bool)
    returns (r: Result<seq<Row>, CoordError>)
    requires Splits(split)
    ensures r.Success? <==> plan != [] && PlanExists(files, plan)
    ensures r.Success? && complete ==> (r.value == PlannedRows(files, plan) <==> Distinct(plan))
    ensures r.Success? && !complete ==> r.value == StreamedRows(files, plan)
  {
    hide *;
    ChunkTags(plan);
    PlanTagsLength(plan);
    PlanExistsByTags(files, plan);
    ghost var sent, groups;
    r, sent, groups := MaterializeRows(files, [ChunkBatch(plan)], split, complete);
    if r.Success? {
      RegroupsAreGroups(PlanTags(plan), groups);
      ArrangedMeans(complete, Fetch(files, TagsOf(groups)), sent);
      if complete { ReadBackIsPlan(files, plan, groups, sent); } else { StreamedIsAscended(files, plan, groups); }
    }
  }

  lemma PlanTagsLength(plan: seq<Coord>)
    ensures PlanTags(plan) == [] <==> plan == []
  {
  }

  lemma ArrangedMeans(complete: bool, fetched: seq<Ordered>, sent: seq<Ordered>)
    requires Arranged(complete, fetched, sent)
    ensures if complete then SortedByOrder(sent) && multiset(sent) == multiset(fetched) else sent == fetched
  {
  }

  // ----- a plan that names a coordinate twice

  /** Such a plan comes back shorter: the repeat is dropped. */
  lemma RepeatIsDropped(files: Files, c: Coord, groups: seq<CoordGroup>, sorted: seq<Ordered>)
    requires Exists(files, c) && Regroups(PlanTags([c, c]), groups) && AllExist(files, TagsOf(groups))
    requires SortedByOrder(sorted) && multiset(sorted) == multiset(Fetch(files, TagsOf(groups)))
    ensures PlanExists(files, [c, c]) && PlannedRows(files, [c, c]) == [RowAt(files, c), RowAt(files, c)]
    ensures RowsOf(sorted) == [RowAt(files, c)]
  {
    hide Exists, Ascended, TagsOf, AllGroups, DistinctCoords, KeysAscend, Ascends;
    var part := TagsOf(groups);
    GroupsAreAscended(PlanTags([c, c]), groups);
    assert CoordsOf(PlanTags([c, c])) == [c, c];
    RepeatAscends(c);
    assert |part| == 1 && CoordsOf(part)[0] == part[0].coord == c;
    SameLength(sorted, Fetch(files, part));
    assert Fetch(files, part) == [Fetch(files, part)[0]];
    assert sorted == [sorted[0]] && sorted[0] in multiset(Fetch(files, part));
  }

  lemma RepeatAscends(c: Coord)
    ensures Ascended([c, c]) == [c]
  {
    assert [c, c][1..] == [c] && [c][1..] == [];
    assert Ascended([]) == [] && Placed([], c) == [c];
    assert Ascended([c]) == [c];
  }
}
