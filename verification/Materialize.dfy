/** Reading planned coordinates back from the source files and restoring their order
    (native/engine/src/converter.rs). Files are given as their row groups' rows. */
module Materialize {
  import opened Wrappers
  import opened Tables
  import opened Coordinates
  import opened KeyText

  type Files = map<string, seq<seq<Row>>>

  // ----- row selection

  datatype Selector = Skip(count: nat) | Take(count: nat)

  /** The positions a list of selectors takes, counted from `from`. */
  function Selected(selectors: seq<Selector>, from: nat): seq<nat>
    decreases |selectors|
  {
    if selectors == [] then []
    else
      (if selectors[0].Take? then seq(selectors[0].count, i => from + i) else [])
      + Selected(selectors[1..], from + selectors[0].count)
  }

  function Span(selectors: seq<Selector>): nat {
    if selectors == [] then 0 else selectors[0].count + Span(selectors[1..])
  }

  function Run(s: Selector, from: nat): seq<nat> { if s.Take? then seq(s.count, i => from + i) else [] }

  lemma SelectedFirst(selectors: seq<Selector>, from: nat)
    requires selectors != []
    ensures Selected(selectors, from) == Run(selectors[0], from) + Selected(selectors[1..], from + selectors[0].count)
    ensures Span(selectors) == selectors[0].count + Span(selectors[1..])
  {
  }

  lemma NoSelectors(from: nat)
    ensures Selected([], from) == [] && Span([]) == 0
  {
  }

  lemma {:induction false} SelectedAppends(a: seq<Selector>, b: seq<Selector>, from: nat)
    ensures Span(a + b) == Span(a) + Span(b)
    ensures Selected(a + b, from) == Selected(a, from) + Selected(b, from + Span(a))
    decreases |a|
  {
    hide *;
    if a == [] {
      NoSelectors(from);
      assert a + b == b;
      assert [] + Selected(b, from) == Selected(b, from);
    } else {
      assert (a + b)[1..] == a[1..] + b && (a + b)[0] == a[0];
      SelectedFirst(a + b, from);
      SelectedFirst(a, from);
      SelectedAppends(a[1..], b, from + a[0].count);
      Regroup(Run(a[0], from), Selected(a[1..], from + a[0].count), Selected(b, from + Span(a)));
    }
  }

  lemma OneSelector(s: Selector, from: nat)
    ensures Span([s]) == s.count
    ensures Selected([s], from) == if s.Take? then seq(s.count, i => from + i) else []
  {
    assert [s][1..] == [];
  }

  /** The selectors so far end at the cursor and take the first `n` offsets. */
  ghost predicate Selects(selectors: seq<Selector>, offsets: seq<nat>, n: nat, cursor: nat)
    requires n <= |offsets|
  {
    Span(selectors) == cursor && Selected(selectors, 0) == offsets[..n]
    && (n > 0 ==> cursor == offsets[n - 1] + 1) && (n == 0 ==> cursor == 0)
  }

  lemma SkipTo(selectors: seq<Selector>, cursor: nat, offset: nat)
    requires Span(selectors) == cursor <= offset
    ensures var skipped := selectors + (if offset > cursor then [Skip(offset - cursor)] else []);
      Span(skipped) == offset && Selected(skipped, 0) == Selected(selectors, 0)
  {
    hide Selected, Span;
    if offset > cursor {
      SelectedAppends(selectors, [Skip(offset - cursor)], 0);
      OneSelector(Skip(offset - cursor), cursor);
      assert Selected(selectors, 0) + [] == Selected(selectors, 0);
    } else {
      assert selectors + [] == selectors;
    }
  }

  lemma TakeOne(selectors: seq<Selector>, offset: nat)
    requires Span(selectors) == offset
    ensures Span(selectors + [Take(1)]) == offset + 1
    ensures Selected(selectors + [Take(1)], 0) == Selected(selectors, 0) + [offset]
  {
    hide Selected, Span;
    SelectedAppends(selectors, [Take(1)], 0);
    OneSelector(Take(1), offset);
    assert seq(1, i => offset + i) == [offset];
  }

  lemma SelectsNext(selectors: seq<Selector>, offsets: seq<nat>, n: nat, cursor: nat)
    requires n < |offsets| && Selects(selectors, offsets, n, cursor) && cursor <= offsets[n]
    ensures Selects(
              selectors + (if offsets[n] > cursor then [Skip(offsets[n] - cursor)] else []) + [Take(1)],
              offsets, n + 1, offsets[n] + 1)
  {
    hide Selected, Span;
    SkipTo(selectors, cursor, offsets[n]);
    TakeOne(selectors + (if offsets[n] > cursor then [Skip(offsets[n] - cursor)] else []), offsets[n]);
    assert offsets[..n + 1] == offsets[..n] + [offsets[n]];
  }

  /** `row_selection_from_offsets`. */
  method RowSelectionFromOffsets(offsets: seq<nat>, totalRows: nat) returns (r: Result<seq<Selector>, CoordError>)
    ensures offsets == [] ==> r == Failure(EmptySelection)
    ensures r.Success? <==> offsets != [] && forall i :: 0 <= i < |offsets| ==> offsets[i] < totalRows
    ensures r.Success? && Climbing(offsets) ==> Selected(r.value, 0) == offsets && Span(r.value) == totalRows
  {
    hide Selects, Selected, Span;
    if offsets == [] { return Failure(EmptySelection); }
    SelectsNothing(offsets);
    var selectors: seq<Selector> := [];
    var cursor := 0;
    for n := 0 to |offsets|
      invariant forall i :: 0 <= i < n ==> offsets[i] < totalRows
      invariant n > 0 ==> cursor == offsets[n - 1] + 1
      invariant n == 0 ==> cursor == 0
      invariant Climbing(offsets) ==> Selects(selectors, offsets, n, cursor)
    {
      var offset := offsets[n];
      if offset >= totalRows { return Failure(OffsetOutOfRange); }
      if Climbing(offsets) { SelectsNext(selectors, offsets, n, cursor); }
      ghost var before := selectors;
      if offset > cursor { selectors := selectors + [Skip(offset - cursor)]; }
      assert selectors == before + (if offset > cursor then [Skip(offset - cursor)] else []);
      selectors := selectors + [Take(1)];
      cursor := offset + 1;
    }
    if Climbing(offsets) { SelectsAll(selectors, offsets, cursor, totalRows); }
    if cursor < totalRows { selectors := selectors + [Skip(totalRows - cursor)]; }
    r := Success(selectors);
  }

  lemma SelectsNothing(offsets: seq<nat>)
    ensures Selects([], offsets, 0, 0)
  {
  }

  lemma SelectsAll(selectors: seq<Selector>, offsets: seq<nat>, cursor: nat, totalRows: nat)
    requires Selects(selectors, offsets, |offsets|, cursor) && cursor <= totalRows
    ensures cursor == totalRows ==> Selected(selectors, 0) == offsets && Span(selectors) == totalRows
    ensures cursor < totalRows ==>
      var all := selectors + [Skip(totalRows - cursor)];
      Selected(all, 0) == offsets && Span(all) == totalRows
  {
    assert offsets[..|offsets|] == offsets;
    if cursor < totalRows {
      SelectedAppends(selectors, [Skip(totalRows - cursor)], 0);
      OneSelector(Skip(totalRows - cursor), cursor);
    }
  }

  // ----- reading a group

  /** A reader hands the selected rows out in batches of its own choosing. */
  function Rejoined(batches: seq<seq<Row>>): seq<Row> {
    if batches == [] then [] else batches[0] + Rejoined(batches[1..])
  }

  ghost predicate Splits(split: seq<Row> -> seq<seq<Row>>) { forall rows :: Rejoined(split(rows)) == rows }

  predicate InRange(offsets: seq<nat>, n: nat) { forall i :: 0 <= i < |offsets| ==> offsets[i] < n }

  function PickRows(rows: seq<Row>, offsets: seq<nat>): (r: seq<Row>)
    requires InRange(offsets, |rows|)
    ensures |r| == |offsets| && forall i :: 0 <= i < |r| ==> r[i] == rows[offsets[i]]
  {
    seq(|offsets|, i requires 0 <= i < |offsets| => rows[offsets[i]])
  }

  /** The coordinate names a row of the files. */
  predicate Exists(files: Files, c: Coord) {
    c.file in files && c.group < |files[c.file]| && c.offset < |files[c.file][c.group]|
  }

  function RowAt(files: Files, c: Coord): Row
    requires Exists(files, c)
  {
    files[c.file][c.group][c.offset]
  }

  datatype Ordered = Ordered(row: Row, order: int)

  predicate AllExist(files: Files, tags: seq<Tag>) { forall i :: 0 <= i < |tags| ==> Exists(files, tags[i].coord) }

  /** The tagged rows of some coordinates. */
  function Fetch(files: Files, tags: seq<Tag>): (r: seq<Ordered>)
    requires AllExist(files, tags)
    ensures |r| == |tags|
    ensures forall i :: 0 <= i < |r| ==> r[i] == Ordered(RowAt(files, tags[i].coord), tags[i].order)
  {
    seq(|tags|, i requires 0 <= i < |tags| => Ordered(RowAt(files, tags[i].coord), tags[i].order))
  }

  function Tagged(rows: seq<Row>, orders: seq<int>): (r: seq<Ordered>)
    requires |rows| == |orders|
    ensures |r| == |rows| && forall i :: 0 <= i < |r| ==> r[i] == Ordered(rows[i], orders[i])
  {
    seq(|rows|, i requires 0 <= i < |rows| => Ordered(rows[i], orders[i]))
  }

  lemma {:induction false} JoinedAt(batches: seq<seq<Row>>, n: nat)
    requires n < |batches|
    ensures Rejoined(batches[..n + 1]) == Rejoined(batches[..n]) + batches[n]
    ensures |Rejoined(batches[..n + 1])| <= |Rejoined(batches)|
    ensures Rejoined(batches[..n + 1]) == Rejoined(batches)[..|Rejoined(batches[..n + 1])|]
  {
    if n == 0 {
      assert batches[..1] == [batches[0]] && batches[..0] == [] && [batches[0]][1..] == [];
    } else {
      JoinedAt(batches[1..], n - 1);
      assert batches[..n + 1][1..] == batches[1..][..n] && batches[..n][1..] == batches[1..][..n - 1];
    }
  }

  lemma TagMore(a: seq<Row>, x: seq<int>, b: seq<Row>, y: seq<int>)
    requires |a| == |x| && |b| == |y|
    ensures Tagged(a, x) + Tagged(b, y) == Tagged(a + b, x + y)
  {
  }

  /** The batch loop of one group: every batch is tagged with the next stretch of the group's orders. The
      stretch is always there, so the source's coordinate/order mismatch error cannot arise. */
  method TagBatches(batches: seq<seq<Row>>, orders: seq<int>) returns (tagged: seq<Ordered>)
    requires |Rejoined(batches)| == |orders|
    ensures tagged == Tagged(Rejoined(batches), orders)
  {
    hide Rejoined;
    NothingJoined(batches);
    tagged := [];
    var cursor := 0;
    for n := 0 to |batches|
      invariant cursor == |Rejoined(batches[..n])| <= |orders|
      invariant Rejoined(batches[..n]) == Rejoined(batches)[..cursor]
      invariant tagged == Tagged(Rejoined(batches)[..cursor], orders[..cursor])
    {
      JoinedAt(batches, n);
      var stop := cursor + |batches[n]|;
      assert stop <= |orders|;
      TagMore(Rejoined(batches)[..cursor], orders[..cursor], batches[n], orders[cursor..stop]);
      assert orders[..cursor] + orders[cursor..stop] == orders[..stop];
      tagged := tagged + Tagged(batches[n], orders[cursor..stop]);
      cursor := stop;
    }
    assert batches[..|batches|] == batches;
    assert Rejoined(batches)[..cursor] == Rejoined(batches) && orders[..cursor] == orders;
  }

  lemma NothingJoined(batches: seq<seq<Row>>)
    ensures Rejoined(batches[..0]) == []
  {
  }

  /** Reading one group: open the file, check the row group, select, read and tag. */
  method ReadGroup(files: Files, g: CoordGroup, split: seq<Row> -> seq<seq<Row>>)
    returns (r: Result<seq<Ordered>, CoordError>)
    requires ValidGroup(g) && Splits(split)
    ensures r.Success? <==> AllExist(files, GroupTags(g))
    ensures r.Success? ==> r.value == Fetch(files, GroupTags(g))
  {
    hide Selected, Rejoined, Climbing;
    var tags := GroupTags(g);
    assert tags[0].coord.file == g.file;
    if g.file !in files { assert !Exists(files, tags[0].coord); return Failure(MissingFile); }
    if g.group >= |files[g.file]| { assert !Exists(files, tags[0].coord); return Failure(MissingRowGroup); }
    var rows := files[g.file][g.group];
    var selection := RowSelectionFromOffsets(g.offsets, |rows|);
    if selection.Failure? {
      OutOfRange(files, g);
      return Failure(selection.error);
    }
    var selected := Selected(selection.value, 0);
    var picked := PickRows(rows, selected);
    assert Rejoined(split(picked)) == picked;
    var tagged := TagBatches(split(picked), g.orders);
    AllInRange(files, g);
    assert tagged == Fetch(files, tags);
    r := Success(tagged);
  }

  lemma AllInRange(files: Files, g: CoordGroup)
    requires ValidGroup(g) && g.file in files && g.group < |files[g.file]|
    requires InRange(g.offsets, |files[g.file][g.group]|)
    ensures AllExist(files, GroupTags(g))
  {
  }

  lemma OutOfRange(files: Files, g: CoordGroup)
    requires ValidGroup(g) && g.file in files && g.group < |files[g.file]|
    requires !InRange(g.offsets, |files[g.file][g.group]|)
    ensures !AllExist(files, GroupTags(g))
  {
    var i :| 0 <= i < |g.offsets| && g.offsets[i] >= |files[g.file][g.group]|;
    assert !Exists(files, GroupTags(g)[i].coord);
  }

  // ----- all groups, and the order restored

  lemma {:induction false} TagsOfPush(groups: seq<CoordGroup>, n: nat)
    requires AllGroups(groups) && n < |groups|
    ensures TagsOf(groups[..n + 1]) == TagsOf(groups[..n]) + GroupTags(groups[n])
  {
    if n == 0 {
      assert groups[..1] == [groups[0]] && groups[..0] == [] && [groups[0]][1..] == [];
    } else {
      TagsOfPush(groups[1..], n - 1);
      assert groups[..n + 1][1..] == groups[1..][..n] && groups[..n][1..] == groups[1..][..n - 1];
      assert groups[..n + 1][0] == groups[0] && groups[..n][0] == groups[0];
    }
  }

  lemma {:induction false} TagsOfPrefix(groups: seq<CoordGroup>, n: nat)
    requires AllGroups(groups) && n <= |groups|
    ensures TagsOf(groups[..n]) <= TagsOf(groups)
    decreases |groups| - n
  {
    hide TagsOf, GroupTags, ValidGroup;
    if n < |groups| {
      TagsOfPush(groups, n);
      TagsOfPrefix(groups, n + 1);
    } else {
      assert groups[..n] == groups;
    }
  }

  lemma ExistBoth(files: Files, a: seq<Tag>, b: seq<Tag>)
    ensures AllExist(files, a + b) <==> AllExist(files, a) && AllExist(files, b)
    ensures AllExist(files, a) && AllExist(files, b) ==> Fetch(files, a + b) == Fetch(files, a) + Fetch(files, b)
  {
    hide Exists;
    if AllExist(files, a + b) {
      forall i | 0 <= i < |a| ensures Exists(files, a[i].coord) { assert (a + b)[i] == a[i]; }
      forall i | 0 <= i < |b| ensures Exists(files, b[i].coord) { assert (a + b)[|a| + i] == b[i]; }
    }
    if AllExist(files, a) && AllExist(files, b) { assert Fetch(files, a + b) == Fetch(files, a) + Fetch(files, b); }
  }

  lemma PrefixExists(files: Files, a: seq<Tag>, b: seq<Tag>)
    requires a <= b && AllExist(files, b)
    ensures AllExist(files, a)
  {
    assert forall i :: 0 <= i < |a| ==> a[i] == b[i];
  }

  /** The group loop: every group's tagged rows, one group after the other. */
  method ReadGroups(files: Files, groups: seq<CoordGroup>, split: seq<Row> -> seq<seq<Row>>)
    returns (r: Result<seq<Ordered>, CoordError>)
    requires AllGroups(groups) && Splits(split)
    ensures r.Success? <==> AllExist(files, TagsOf(groups))
    ensures r.Success? ==> r.value == Fetch(files, TagsOf(groups))
  {
    hide TagsOf, GroupTags, AllExist, Fetch, Splits;
    NothingFetched(files, groups);
    var all: seq<Ordered> := [];
    for n := 0 to |groups|
      invariant AllExist(files, TagsOf(groups[..n])) && all == Fetch(files, TagsOf(groups[..n]))
    {
      TagsOfPush(groups, n);
      ExistBoth(files, TagsOf(groups[..n]), GroupTags(groups[n]));
      var one := ReadGroup(files, groups[n], split);
      if one.Failure? {
        TagsOfPrefix(groups, n + 1);
        if AllExist(files, TagsOf(groups)) { PrefixExists(files, TagsOf(groups[..n + 1]), TagsOf(groups)); }
        return Failure(one.error);
      }
      all := all + one.value;
    }
    assert groups[..|groups|] == groups;
    r := Success(all);
  }

  lemma NothingFetched(files: Files, groups: seq<CoordGroup>)
    requires AllGroups(groups)
    ensures TagsOf(groups[..0]) == [] && AllExist(files, []) && Fetch(files, []) == []
  {
  }

  predicate SortedByOrder(s: seq<Ordered>) { forall i, j :: 0 <= i < j < |s| ==> s[i].order <= s[j].order }

  /** `sort_by_active_order`, an unstable sort: some arrangement sorted by order. */
  method SortByActiveOrder(s: seq<Ordered>) returns (r: seq<Ordered>)
    ensures SortedByOrder(r) && multiset(r) == multiset(s)
  {
    r := [];
    for n := 0 to |s|
      invariant SortedByOrder(r) && multiset(r) == multiset(s[..n])
    {
      hide SortedByOrder;
      var i := OrderPlace(r, s[n].order);
      OrderInserted(r, i, s[n]);
      SplitMultiset(r, i, s[n]);
      assert s[..n + 1] == s[..n] + [s[n]];
      r := r[..i] + [s[n]] + r[i..];
    }
    assert s[..|s|] == s;
  }

  method OrderPlace(r: seq<Ordered>, order: int) returns (i: nat)
    ensures i <= |r| && (forall j :: 0 <= j < i ==> r[j].order < order) && (i < |r| ==> order <= r[i].order)
  {
    i := 0;
    while i < |r| && r[i].order < order
      invariant i <= |r| && forall j :: 0 <= j < i ==> r[j].order < order
    {
      i := i + 1;
    }
  }

  lemma OrderInserted(r: seq<Ordered>, i: nat, x: Ordered)
    requires SortedByOrder(r) && i <= |r|
    requires (forall j :: 0 <= j < i ==> r[j].order < x.order) && (i < |r| ==> x.order <= r[i].order)
    ensures SortedByOrder(r[..i] + [x] + r[i..])
  {
  }

  function RowsOf(s: seq<Ordered>): (r: seq<Row>)
    ensures |r| == |s| && forall i :: 0 <= i < |s| ==> r[i] == s[i].row
  {
    seq(|s|, i requires 0 <= i < |s| => s[i].row)
  }

  /** What reaches the writer: with a window, a pivot or another operation over complete input the rows are
      collected and sorted, otherwise they are sent group by group as they were read. */
  ghost predicate Arranged(complete: bool, fetched: seq<Ordered>, sent: seq<Ordered>) {
    if complete then SortedByOrder(sent) && multiset(sent) == multiset(fetched) else sent == fetched
  }

  /** From a coordinate file to the rows sent to the writer: group, read, tag and, when `complete`, sort. */
  method MaterializeRows(files: Files, batches: seq<CoordBatch>, split: seq<Row> -> seq<seq<Row>>, complete: bool)
    returns (r: Result<seq<Row>, CoordError>, ghost sent: seq<Ordered>, ghost groups: seq<CoordGroup>)
    requires AllValid(batches) && Splits(split)
    ensures r.Success? <==>
      AllNonNegative(batches, |batches|) && TagsOfFile(batches, |batches|) != []
      && AllExist(files, TagsOfFile(batches, |batches|))
    ensures AllNonNegative(batches, |batches|) && TagsOfFile(batches, |batches|) == [] ==> r == Failure(NoRowGroups)
    ensures r.Success? ==>
      (Regroups(TagsOfFile(batches, |batches|), groups) && AllExist(files, TagsOf(groups))
       && Arranged(complete, Fetch(files, TagsOf(groups)), sent) && r.value == RowsOf(sent))
  {
    hide *;
    sent, groups := [], [];
    var grouped := ReadCoordGroups(batches);
    if grouped.Failure? { return Failure(grouped.error), [], []; }
    groups := grouped.value;
    ghost var tags := TagsOfFile(batches, |batches|);
    RegroupsAreGroups(tags, groups);
    SomeGroups(tags, groups);
    GroupsExist(files, tags, groups);
    if grouped.value == [] { return Failure(NoRowGroups), [], groups; }
    var tagged := ReadGroups(files, grouped.value, split);
    if tagged.Failure? { return Failure(tagged.error), [], groups; }
    var rows := tagged.value;
    if complete { rows := SortByActiveOrder(rows); }
    sent := rows;
    IsArranged(complete, tagged.value, rows);
    r := Success(RowsOf(rows));
  }

  lemma IsArranged(complete: bool, fetched: seq<Ordered>, sent: seq<Ordered>)
    requires if complete then SortedByOrder(sent) && multiset(sent) == multiset(fetched) else sent == fetched
    ensures Arranged(complete, fetched, sent)
  {
  }

  lemma RegroupsAreGroups(tags: seq<Tag>, groups: seq<CoordGroup>)
    requires Regroups(tags, groups)
    ensures AllGroups(groups)
  {
  }

  /** A coordinate file with rows has groups. */
  lemma SomeGroups(tags: seq<Tag>, groups: seq<CoordGroup>)
    requires Regroups(tags, groups)
    ensures groups == [] <==> tags == []
  {
    hide KeysAscend, DistinctCoords;
    if tags != [] {
      assert HasCoord(TagsOf(groups), tags[0].coord);
      var j :| 0 <= j < |TagsOf(groups)| && TagsOf(groups)[j].coord == tags[0].coord;
    }
    if groups != [] {
      assert ValidGroup(groups[0]);
      assert TagsOf(groups)[0] in multiset(tags);
    }
  }

  /** The groups' rows exist exactly when the file's do. */
  lemma GroupsExist(files: Files, tags: seq<Tag>, groups: seq<CoordGroup>)
    requires Regroups(tags, groups)
    ensures AllExist(files, TagsOf(groups)) <==> AllExist(files, tags)
  {
    hide Exists, AllGroups, TagsOf, KeysAscend, DistinctCoords;
    var part := TagsOf(groups);
    if AllExist(files, part) {
      forall i | 0 <= i < |tags| ensures Exists(files, tags[i].coord) {
        assert HasCoord(part, tags[i].coord);
        var j :| 0 <= j < |part| && part[j].coord == tags[i].coord;
      }
    }
    if AllExist(files, tags) {
      forall j | 0 <= j < |part| ensures Exists(files, part[j].coord) {
        assert part[j] in multiset(part) && part[j] in multiset(tags);
        var i :| 0 <= i < |tags| && tags[i] == part[j];
      }
    }
  }
}
