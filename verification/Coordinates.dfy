/** Coordinate files and the groups read from them (native/engine/src/coord.rs). */
module Coordinates {
  import opened Wrappers
  import opened Layers

  datatype Coord = Coord(file: string, group: nat, offset: nat)

  /** A coordinate together with the place its row takes in the output. */
  datatype Tag = Tag(coord: Coord, order: int)

  datatype CoordRow = CoordRow(file: string, group: int, offset: int)

  /** A batch of a coordinate file, with its active-order column if it has one. */
  datatype CoordBatch = CoordBatch(rows: seq<CoordRow>, orders: Option<seq<int>>)

  datatype CoordGroup = CoordGroup(file: string, group: nat, offsets: seq<nat>, orders: seq<int>)

  datatype CoordError =
    | NegativeCoordinate | NoRowGroups | EmptySelection | OffsetOutOfRange | MissingFile | MissingRowGroup | CountOverflow

  predicate ValidBatch(batch: CoordBatch) { batch.orders.Some? ==> |batch.orders.value| == |batch.rows| }

  predicate NonNegative(batch: CoordBatch) {
    forall i :: 0 <= i < |batch.rows| ==> batch.rows[i].group >= 0 && batch.rows[i].offset >= 0
  }

  /** Without an active-order column a row's order is its index in the batch. */
  function OrderAt(batch: CoordBatch, i: nat): int
    requires ValidBatch(batch) && i < |batch.rows|
  {
    if batch.orders.Some? then batch.orders.value[i] else i
  }

  function TagAt(batch: CoordBatch, i: nat): Tag
    requires ValidBatch(batch) && NonNegative(batch) && i < |batch.rows|
  {
    Tag(Coord(batch.rows[i].file, batch.rows[i].group, batch.rows[i].offset), OrderAt(batch, i))
  }

  function TagsOfBatch(batch: CoordBatch, n: nat): (tags: seq<Tag>)
    requires ValidBatch(batch) && NonNegative(batch) && n <= |batch.rows|
    ensures |tags| == n && forall i :: 0 <= i < n ==> tags[i] == TagAt(batch, i)
  {
    seq(n, i requires 0 <= i < n => TagAt(batch, i))
  }

  predicate AllValid(batches: seq<CoordBatch>) { forall b :: 0 <= b < |batches| ==> ValidBatch(batches[b]) }

  predicate AllNonNegative(batches: seq<CoordBatch>, n: nat)
    requires n <= |batches|
  {
    forall b :: 0 <= b < n ==> NonNegative(batches[b])
  }

  function TagsOfFile(batches: seq<CoordBatch>, n: nat): seq<Tag>
    requires AllValid(batches) && n <= |batches| && AllNonNegative(batches, n)
  {
    if n == 0 then [] else TagsOfFile(batches, n - 1) + TagsOfBatch(batches[n - 1], |batches[n - 1].rows|)
  }

  // ----- groups

  function GroupTags(g: CoordGroup): (tags: seq<Tag>)
    requires |g.offsets| == |g.orders|
    ensures |tags| == |g.offsets|
    ensures forall j :: 0 <= j < |tags| ==> tags[j] == Tag(Coord(g.file, g.group, g.offsets[j]), g.orders[j])
  {
    seq(|g.offsets|, j requires 0 <= j < |g.offsets| => Tag(Coord(g.file, g.group, g.offsets[j]), g.orders[j]))
  }

  predicate Climbing(offsets: seq<nat>) { forall i, j :: 0 <= i < j < |offsets| ==> offsets[i] < offsets[j] }

  predicate ValidGroup(g: CoordGroup) { |g.offsets| == |g.orders| && g.offsets != [] && Climbing(g.offsets) }

  predicate AllGroups(groups: seq<CoordGroup>) { forall i :: 0 <= i < |groups| ==> ValidGroup(groups[i]) }

  function TagsOf(groups: seq<CoordGroup>): seq<Tag>
    requires AllGroups(groups)
  {
    if groups == [] then [] else GroupTags(groups[0]) + TagsOf(groups[1..])
  }

  /** The order of the map's keys: by file, then by row group. */
  predicate KeyBefore(file: string, group: nat, file': string, group': nat) {
    (file != file' && Before(file, file')) || (file == file' && group < group')
  }

  lemma KeyBeforeIsTotal(file: string, group: nat, file': string, group': nat)
    ensures (file == file' && group == group') || KeyBefore(file, group, file', group') || KeyBefore(file', group', file, group)
  {
    BeforeIsTotal(file, file');
  }

  lemma KeyBeforeIsTransitive(a: string, i: nat, b: string, j: nat, c: string, k: nat)
    requires KeyBefore(a, i, b, j) && KeyBefore(b, j, c, k)
    ensures KeyBefore(a, i, c, k)
  {
    hide Before;
    if a != b && b != c {
      BeforeIsTransitive(a, b, c);
      if a == c { BeforeBoth(a, b); }
    }
  }

  lemma {:induction false} BeforeBoth(a: string, b: string)
    requires Before(a, b) && Before(b, a)
    ensures a == b
  {
    if a != "" { BeforeBoth(a[1..], b[1..]); }
  }

  predicate KeysAscend(groups: seq<CoordGroup>) {
    forall i, j :: 0 <= i < j < |groups| ==> KeyBefore(groups[i].file, groups[i].group, groups[j].file, groups[j].group)
  }

  predicate DistinctCoords(tags: seq<Tag>) { forall i, j :: 0 <= i < j < |tags| ==> tags[i].coord != tags[j].coord }

  ghost predicate Covers(some: seq<Tag>, all: seq<Tag>) {
    forall i :: 0 <= i < |all| ==> HasCoord(some, all[i].coord)
  }

  ghost predicate HasCoord(tags: seq<Tag>, coord: Coord) { exists j :: 0 <= j < |tags| && tags[j].coord == coord }

  /** The groups hold each coordinate of the tags once, with one of its orders, and ascend. */
  ghost predicate Regroups(tags: seq<Tag>, groups: seq<CoordGroup>) {
    && AllGroups(groups) && KeysAscend(groups) && DistinctCoords(TagsOf(groups))
    && multiset(TagsOf(groups)) <= multiset(tags)
    && Covers(TagsOf(groups), tags)
  }

  // ----- the ordered map from (file, row group) to coordinates

  datatype Pending = Pending(file: string, group: nat, coordinates: seq<(nat, int)>)

  function PendingTags(p: Pending): (tags: seq<Tag>)
    ensures |tags| == |p.coordinates|
    ensures forall j :: 0 <= j < |tags| ==> tags[j] == Tag(Coord(p.file, p.group, p.coordinates[j].0), p.coordinates[j].1)
  {
    seq(|p.coordinates|, j requires 0 <= j < |p.coordinates| => Tag(Coord(p.file, p.group, p.coordinates[j].0), p.coordinates[j].1))
  }

  function AllPending(entries: seq<Pending>): seq<Tag> {
    if entries == [] then [] else PendingTags(entries[0]) + AllPending(entries[1..])
  }

  predicate HasKey(entries: seq<Pending>, file: string, group: nat) {
    exists i :: 0 <= i < |entries| && entries[i].file == file && entries[i].group == group
  }

  predicate PendingAscends(entries: seq<Pending>) {
    forall i, j :: 0 <= i < j < |entries| ==> KeyBefore(entries[i].file, entries[i].group, entries[j].file, entries[j].group)
  }

  /** Every entry comes after the key. */
  predicate AllAfter(file: string, group: nat, entries: seq<Pending>) {
    forall i :: 0 <= i < |entries| ==> KeyBefore(file, group, entries[i].file, entries[i].group)
  }

  /** `entry(...).or_default().push(...)`: an existing key is extended, a new one is put before the first
      greater key. */
  function Push(entries: seq<Pending>, tag: Tag): seq<Pending> {
    if HasKey(entries, tag.coord.file, tag.coord.group) then Extend(entries, tag) else Insert(entries, tag)
  }

  function Extend(entries: seq<Pending>, tag: Tag): (r: seq<Pending>)
    requires HasKey(entries, tag.coord.file, tag.coord.group)
    ensures |r| == |entries| && forall i :: 0 <= i < |r| ==> r[i].file == entries[i].file && r[i].group == entries[i].group
  {
    if entries[0].file == tag.coord.file && entries[0].group == tag.coord.group then
      [entries[0].(coordinates := entries[0].coordinates + [(tag.coord.offset, tag.order)])] + entries[1..]
    else
      assert HasKey(entries[1..], tag.coord.file, tag.coord.group) by {
        var i :| 0 <= i < |entries| && entries[i].file == tag.coord.file && entries[i].group == tag.coord.group;
        assert entries[1..][i - 1] == entries[i];
      }
      [entries[0]] + Extend(entries[1..], tag)
  }

  function Insert(entries: seq<Pending>, tag: Tag): seq<Pending> {
    var added := Pending(tag.coord.file, tag.coord.group, [(tag.coord.offset, tag.order)]);
    if entries == [] || KeyBefore(tag.coord.file, tag.coord.group, entries[0].file, entries[0].group) then [added] + entries
    else [entries[0]] + Insert(entries[1..], tag)
  }

  lemma {:induction false} ExtendTags(entries: seq<Pending>, tag: Tag)
    requires HasKey(entries, tag.coord.file, tag.coord.group)
    ensures multiset(AllPending(Extend(entries, tag))) == multiset(AllPending(entries)) + multiset{tag}
  {
    var p := entries[0];
    if p.file == tag.coord.file && p.group == tag.coord.group {
      var q := p.(coordinates := p.coordinates + [(tag.coord.offset, tag.order)]);
      assert Extend(entries, tag)[1..] == entries[1..];
      assert PendingTags(q) == PendingTags(p) + [tag];
    } else {
      assert HasKey(entries[1..], tag.coord.file, tag.coord.group) by {
        var i :| 0 <= i < |entries| && entries[i].file == tag.coord.file && entries[i].group == tag.coord.group;
        assert entries[1..][i - 1] == entries[i];
      }
      ExtendTags(entries[1..], tag);
      assert Extend(entries, tag)[1..] == Extend(entries[1..], tag);
    }
  }

  lemma {:induction false} InsertTags(entries: seq<Pending>, tag: Tag)
    ensures multiset(AllPending(Insert(entries, tag))) == multiset(AllPending(entries)) + multiset{tag}
  {
    var added := Pending(tag.coord.file, tag.coord.group, [(tag.coord.offset, tag.order)]);
    if entries == [] || KeyBefore(tag.coord.file, tag.coord.group, entries[0].file, entries[0].group) {
      assert Insert(entries, tag)[1..] == entries;
      assert PendingTags(added) == [tag];
    } else {
      InsertTags(entries[1..], tag);
      assert Insert(entries, tag)[1..] == Insert(entries[1..], tag);
    }
  }

  lemma HasKeyTail(entries: seq<Pending>, file: string, group: nat)
    requires entries != []
    ensures HasKey(entries[1..], file, group) ==> HasKey(entries, file, group)
  {
    assert forall i :: 0 <= i < |entries| - 1 ==> entries[1..][i] == entries[i + 1];
  }

  lemma AfterBoth(file: string, group: nat, p: Pending, entries: seq<Pending>)
    requires KeyBefore(file, group, p.file, p.group) && AllAfter(p.file, p.group, entries)
    ensures AllAfter(file, group, [p] + entries)
  {
    hide KeyBefore;
    forall i | 0 <= i < |entries| ensures KeyBefore(file, group, entries[i].file, entries[i].group) {
      KeyBeforeIsTransitive(file, group, p.file, p.group, entries[i].file, entries[i].group);
    }
  }

  lemma AscendsInFront(p: Pending, entries: seq<Pending>)
    requires AllAfter(p.file, p.group, entries) && PendingAscends(entries)
    ensures PendingAscends([p] + entries)
  {
    hide KeyBefore;
  }

  lemma AscendsParts(entries: seq<Pending>)
    requires PendingAscends(entries) && entries != []
    ensures AllAfter(entries[0].file, entries[0].group, entries[1..]) && PendingAscends(entries[1..])
  {
    hide KeyBefore;
  }

  lemma {:induction false} InsertKeepsAscending(entries: seq<Pending>, tag: Tag)
    requires PendingAscends(entries) && !HasKey(entries, tag.coord.file, tag.coord.group)
    ensures PendingAscends(Insert(entries, tag))
    ensures forall file, group :: AllAfter(file, group, entries) && KeyBefore(file, group, tag.coord.file, tag.coord.group) ==>
              AllAfter(file, group, Insert(entries, tag))
  {
    hide KeyBefore, PendingAscends;
    var added := Pending(tag.coord.file, tag.coord.group, [(tag.coord.offset, tag.order)]);
    if entries == [] {
      AscendsInFront(added, entries);
    } else {
      AscendsParts(entries);
      if KeyBefore(tag.coord.file, tag.coord.group, entries[0].file, entries[0].group) {
        AfterBoth(tag.coord.file, tag.coord.group, entries[0], entries[1..]);
        assert [entries[0]] + entries[1..] == entries;
        AscendsInFront(added, entries);
      } else {
        HasKeyTail(entries, tag.coord.file, tag.coord.group);
        InsertKeepsAscending(entries[1..], tag);
        KeyBeforeIsTotal(tag.coord.file, tag.coord.group, entries[0].file, entries[0].group);
        AscendsInFront(entries[0], Insert(entries[1..], tag));
        forall file, group | AllAfter(file, group, entries) && KeyBefore(file, group, tag.coord.file, tag.coord.group)
          ensures AllAfter(file, group, Insert(entries, tag))
        {
          AfterBoth(file, group, entries[0], Insert(entries[1..], tag));
        }
      }
    }
  }

  lemma ExtendKeepsAscending(entries: seq<Pending>, tag: Tag)
    requires PendingAscends(entries) && HasKey(entries, tag.coord.file, tag.coord.group)
    ensures PendingAscends(Extend(entries, tag))
  {
    hide KeyBefore;
  }

  predicate NoneEmpty(entries: seq<Pending>) { forall i :: 0 <= i < |entries| ==> entries[i].coordinates != [] }

  lemma {:induction false} ExtendNoneEmpty(entries: seq<Pending>, tag: Tag)
    requires NoneEmpty(entries) && HasKey(entries, tag.coord.file, tag.coord.group)
    ensures NoneEmpty(Extend(entries, tag))
  {
    if entries[0].file != tag.coord.file || entries[0].group != tag.coord.group {
      assert HasKey(entries[1..], tag.coord.file, tag.coord.group) by {
        var i :| 0 <= i < |entries| && entries[i].file == tag.coord.file && entries[i].group == tag.coord.group;
        assert entries[1..][i - 1] == entries[i];
      }
      ExtendNoneEmpty(entries[1..], tag);
    }
  }

  lemma {:induction false} InsertNoneEmpty(entries: seq<Pending>, tag: Tag)
    requires NoneEmpty(entries)
    ensures NoneEmpty(Insert(entries, tag))
  {
    if entries != [] && !KeyBefore(tag.coord.file, tag.coord.group, entries[0].file, entries[0].group) {
      InsertNoneEmpty(entries[1..], tag);
    }
  }

  lemma PushKeeps(entries: seq<Pending>, tag: Tag)
    requires PendingAscends(entries) && NoneEmpty(entries)
    ensures PendingAscends(Push(entries, tag)) && NoneEmpty(Push(entries, tag))
    ensures multiset(AllPending(Push(entries, tag))) == multiset(AllPending(entries)) + multiset{tag}
  {
    hide AllPending, Extend, Insert;
    if HasKey(entries, tag.coord.file, tag.coord.group) {
      ExtendTags(entries, tag);
      ExtendNoneEmpty(entries, tag);
      ExtendKeepsAscending(entries, tag);
    } else {
      InsertTags(entries, tag);
      InsertNoneEmpty(entries, tag);
      InsertKeepsAscending(entries, tag);
    }
  }

  // ----- sorting by offset and dropping repeats

  predicate SortedByOffset(c: seq<(nat, int)>) { forall i, j :: 0 <= i < j < |c| ==> c[i].0 <= c[j].0 }

  /** `sort_unstable_by_key`: some arrangement sorted by offset. */
  method SortByOffset(c: seq<(nat, int)>) returns (r: seq<(nat, int)>)
    ensures SortedByOffset(r) && multiset(r) == multiset(c)
  {
    r := [];
    for n := 0 to |c|
      invariant SortedByOffset(r) && multiset(r) == multiset(c[..n])
    {
      hide SortedByOffset;
      var i := PlaceOf(r, c[n].0);
      InsertSorted(r, i, c[n]);
      SplitMultiset(r, i, c[n]);
      assert c[..n + 1] == c[..n] + [c[n]];
      r := r[..i] + [c[n]] + r[i..];
    }
    assert c[..|c|] == c;
  }

  method PlaceOf(r: seq<(nat, int)>, offset: nat) returns (i: nat)
    ensures i <= |r| && (forall j :: 0 <= j < i ==> r[j].0 < offset) && (i < |r| ==> offset <= r[i].0)
  {
    i := 0;
    while i < |r| && r[i].0 < offset
      invariant i <= |r| && forall j :: 0 <= j < i ==> r[j].0 < offset
    {
      i := i + 1;
    }
  }

  lemma InsertSorted(r: seq<(nat, int)>, i: nat, x: (nat, int))
    requires SortedByOffset(r) && i <= |r|
    requires (forall j :: 0 <= j < i ==> r[j].0 < x.0) && (i < |r| ==> x.0 <= r[i].0)
    ensures SortedByOffset(r[..i] + [x] + r[i..])
  {
  }

  lemma SplitMultiset<T>(s: seq<T>, i: nat, x: T)
    requires i <= |s|
    ensures multiset(s[..i] + [x] + s[i..]) == multiset(s) + multiset{x}
  {
    assert s == s[..i] + s[i..];
  }

  lemma DropLast<T>(s: seq<T>)
    requires s != []
    ensures multiset(s[..|s| - 1]) == multiset(s) - multiset{s[|s| - 1]}
  {
    assert s == s[..|s| - 1] + [s[|s| - 1]];
    assert multiset(s) == multiset(s[..|s| - 1]) + multiset{s[|s| - 1]};
  }

  lemma DropAt<T>(s: seq<T>, i: nat)
    requires i < |s|
    ensures multiset(s[..i] + s[i + 1..]) == multiset(s) - multiset{s[i]}
  {
    var rest := s[..i] + s[i + 1..];
    assert rest[..i] == s[..i] && rest[i..] == s[i + 1..];
    assert s == rest[..i] + [s[i]] + rest[i..];
    SplitMultiset(rest, i, s[i]);
  }

  /** Taking one equal element out of both sides, and putting it back. */
  lemma DropSame<T>(a: seq<T>, b: seq<T>, i: nat)
    requires a != [] && i < |b| && a[|a| - 1] == b[i]
    ensures multiset(a) == multiset(b) <==> multiset(a[..|a| - 1]) == multiset(b[..i] + b[i + 1..])
  {
    DropLast(a);
    DropAt(b, i);
    var x, m, n := b[i], multiset(a), multiset(b);
    assert x in m && x in n;
    assert m == m - multiset{x} + multiset{x} && n == n - multiset{x} + multiset{x};
  }

  /** `dedup_by_key`: the first of each run of equal offsets. */
  function Dedup(c: seq<(nat, int)>): (r: seq<(nat, int)>)
    ensures multiset(r) <= multiset(c)
    ensures c != [] ==> r != [] && r[|r| - 1].0 == c[|c| - 1].0
  {
    if |c| <= 1 then c
    else
      var last := |c| - 1;
      assert c == c[..last] + [c[last]];
      Dedup(c[..last]) + if c[last].0 == c[last - 1].0 then [] else [c[last]]
  }

  lemma OffsetsPush(c: seq<(nat, int)>, x: (nat, int))
    ensures Offsets(c + [x]) == Offsets(c) + [x.0]
  {
  }

  lemma ClimbOn(c: seq<(nat, int)>, x: (nat, int))
    requires Climbing(Offsets(c)) && c != [] && c[|c| - 1].0 < x.0
    ensures Climbing(Offsets(c + [x]))
  {
    OffsetsPush(c, x);
  }

  lemma DedupLast(c: seq<(nat, int)>)
    requires |c| > 1
    ensures var last := |c| - 1;
      Dedup(c) == if c[last].0 == c[last - 1].0 then Dedup(c[..last]) else Dedup(c[..last]) + [c[last]]
  {
    assert Dedup(c[..|c| - 1]) + [] == Dedup(c[..|c| - 1]);
  }

  lemma DedupShort(c: seq<(nat, int)>)
    requires |c| <= 1
    ensures Dedup(c) == c && Climbing(Offsets(c))
  {
  }

  lemma FirstSorted(c: seq<(nat, int)>)
    requires SortedByOffset(c) && |c| > 1
    ensures SortedByOffset(c[..|c| - 1]) && c[|c| - 2].0 <= c[|c| - 1].0
  {
  }

  lemma {:induction false} DedupClimbs(c: seq<(nat, int)>)
    requires SortedByOffset(c)
    ensures Climbing(Offsets(Dedup(c)))
  {
    hide *;
    if |c| <= 1 {
      DedupShort(c);
    } else {
      var last := |c| - 1;
      FirstSorted(c);
      DedupClimbs(c[..last]);
      DedupLast(c);
      assert c[..last][last - 1] == c[last - 1];
      if c[last].0 != c[last - 1].0 { ClimbOn(Dedup(c[..last]), c[last]); }
    }
  }

  lemma {:induction false} DedupKeepsOffsets(c: seq<(nat, int)>, i: nat)
    requires i < |c|
    ensures c[i].0 in Offsets(Dedup(c))
  {
    hide *;
    if |c| == 1 {
      DedupShort(c);
      assert Offsets(c)[0] == c[0].0;
    } else {
      var last := |c| - 1;
      DedupLast(c);
      DedupKeepsOffsets(c[..last], if i < last then i else last - 1);
      OffsetsPush(Dedup(c[..last]), c[last]);
    }
  }

  function Offsets(c: seq<(nat, int)>): (r: seq<nat>)
    ensures |r| == |c| && forall i :: 0 <= i < |c| ==> r[i] == c[i].0
  {
    seq(|c|, i requires 0 <= i < |c| => c[i].0)
  }

  function Orders(c: seq<(nat, int)>): (r: seq<int>)
    ensures |r| == |c| && forall i :: 0 <= i < |c| ==> r[i] == c[i].1
  {
    seq(|c|, i requires 0 <= i < |c| => c[i].1)
  }

  // ----- finishing the groups

  lemma {:induction false} PendingTagCount(file: string, group: nat, c: seq<(nat, int)>, t: Tag)
    ensures multiset(PendingTags(Pending(file, group, c)))[t]
         == if t.coord.file == file && t.coord.group == group then multiset(c)[(t.coord.offset, t.order)] else 0
  {
    if c != [] {
      var last := |c| - 1;
      PendingTagCount(file, group, c[..last], t);
      assert c == c[..last] + [c[last]];
      assert PendingTags(Pending(file, group, c))
          == PendingTags(Pending(file, group, c[..last])) + [Tag(Coord(file, group, c[last].0), c[last].1)];
    }
  }

  function Finished(p: Pending, sorted: seq<(nat, int)>): CoordGroup {
    CoordGroup(p.file, p.group, Offsets(Dedup(sorted)), Orders(Dedup(sorted)))
  }

  /** How a finished group relates to its pending entry. */
  ghost predicate Finishes(g: CoordGroup, p: Pending) {
    && g.file == p.file && g.group == p.group && ValidGroup(g)
    && multiset(GroupTags(g)) <= multiset(PendingTags(p))
    && Covers(GroupTags(g), PendingTags(p))
  }

  lemma FinishedFinishes(p: Pending, sorted: seq<(nat, int)>)
    requires p.coordinates != [] && SortedByOffset(sorted) && multiset(sorted) == multiset(p.coordinates)
    ensures Finishes(Finished(p, sorted), p)
  {
    var d := Dedup(sorted);
    var g := Finished(p, sorted);
    assert p.coordinates[0] in multiset(sorted);
    DedupClimbs(sorted);
    assert GroupTags(g) == PendingTags(Pending(p.file, p.group, d));
    forall t ensures multiset(GroupTags(g))[t] <= multiset(PendingTags(p))[t] {
      PendingTagCount(p.file, p.group, d, t);
      PendingTagCount(p.file, p.group, p.coordinates, t);
      assert p == Pending(p.file, p.group, p.coordinates);
    }
    forall i | 0 <= i < |PendingTags(p)| ensures HasCoord(GroupTags(g), PendingTags(p)[i].coord) {
      assert p.coordinates[i] in multiset(sorted);
      var j :| 0 <= j < |sorted| && sorted[j] == p.coordinates[i];
      DedupKeepsOffsets(sorted, j);
      var k :| 0 <= k < |g.offsets| && g.offsets[k] == sorted[j].0;
      assert GroupTags(g)[k].coord == PendingTags(p)[i].coord;
    }
  }

  ghost predicate AllFinish(groups: seq<CoordGroup>, entries: seq<Pending>) {
    |groups| == |entries| && forall i :: 0 <= i < |groups| ==> Finishes(groups[i], entries[i])
  }

  lemma FinishedAreGroups(groups: seq<CoordGroup>, entries: seq<Pending>)
    requires AllFinish(groups, entries)
    ensures AllGroups(groups) && (PendingAscends(entries) ==> KeysAscend(groups))
  {
    hide GroupTags, PendingTags, KeyBefore;
  }

  lemma {:induction false} FinishedTags(groups: seq<CoordGroup>, entries: seq<Pending>)
    requires AllFinish(groups, entries) && AllGroups(groups)
    ensures multiset(TagsOf(groups)) <= multiset(AllPending(entries))
    ensures Covers(TagsOf(groups), AllPending(entries))
  {
    hide GroupTags, PendingTags, Covers;
    if groups == [] {
      CoversNothing();
    } else {
      FinishedTags(groups[1..], entries[1..]);
      assert Finishes(groups[0], entries[0]);
      CoversBoth(GroupTags(groups[0]), TagsOf(groups[1..]), PendingTags(entries[0]), AllPending(entries[1..]));
    }
  }

  lemma CoversNothing()
    ensures Covers([], [])
  {
  }

  lemma CoversBoth(a: seq<Tag>, b: seq<Tag>, x: seq<Tag>, y: seq<Tag>)
    requires Covers(a, x) && Covers(b, y)
    ensures Covers(a + b, x + y)
  {
    forall i | 0 <= i < |x + y| ensures HasCoord(a + b, (x + y)[i].coord) {
      if i < |x| {
        assert HasCoord(a, x[i].coord);
        var j :| 0 <= j < |a| && a[j].coord == x[i].coord;
        assert (a + b)[j] == a[j];
      } else {
        assert HasCoord(b, y[i - |x|].coord);
        var j :| 0 <= j < |b| && b[j].coord == y[i - |x|].coord;
        assert (a + b)[|a| + j] == b[j];
      }
    }
  }

  ghost predicate FromGroups(tags: seq<Tag>, groups: seq<CoordGroup>) {
    forall i :: 0 <= i < |tags| ==> InSomeGroup(tags[i], groups)
  }

  ghost predicate InSomeGroup(t: Tag, groups: seq<CoordGroup>) {
    exists k :: 0 <= k < |groups| && groups[k].file == t.coord.file && groups[k].group == t.coord.group
  }

  lemma {:induction false} GroupTagsDistinct(groups: seq<CoordGroup>)
    requires AllGroups(groups) && KeysAscend(groups)
    ensures DistinctCoords(TagsOf(groups)) && FromGroups(TagsOf(groups), groups)
  {
    if groups != [] {
      GroupTagsDistinct(groups[1..]);
      var a, b := GroupTags(groups[0]), TagsOf(groups[1..]);
      assert ValidGroup(groups[0]);
      hide TagsOf;
      forall i | 0 <= i < |b| ensures InSomeGroup(b[i], groups)
        && (b[i].coord.file, b[i].coord.group) != (groups[0].file, groups[0].group)
      {
        assert InSomeGroup(b[i], groups[1..]);
        var k :| 0 <= k < |groups[1..]| && groups[1..][k].file == b[i].coord.file && groups[1..][k].group == b[i].coord.group;
        assert groups[k + 1] == groups[1..][k];
      }
      forall i | 0 <= i < |a| ensures InSomeGroup(a[i], groups) { assert groups[0].file == a[i].coord.file; }
    }
  }

  lemma FinishedRegroups(tags: seq<Tag>, entries: seq<Pending>, groups: seq<CoordGroup>)
    requires AllFinish(groups, entries) && PendingAscends(entries)
    requires multiset(AllPending(entries)) == multiset(tags)
    ensures Regroups(tags, groups)
  {
    hide Finishes, AllPending, TagsOf, GroupTags, HasCoord;
    FinishedAreGroups(groups, entries);
    FinishedTags(groups, entries);
    GroupTagsDistinct(groups);
    forall i | 0 <= i < |tags| ensures HasCoord(TagsOf(groups), tags[i].coord) {
      assert tags[i] in multiset(tags);
      var j :| 0 <= j < |AllPending(entries)| && AllPending(entries)[j] == tags[i];
    }
  }

  /** The ordered map over all batches of the file. */
  method GroupRows(batches: seq<CoordBatch>) returns (r: Result<seq<Pending>, CoordError>)
    requires AllValid(batches)
    ensures r.Success? <==> AllNonNegative(batches, |batches|)
    ensures r.Failure? ==> r.error == NegativeCoordinate
    ensures r.Success? ==>
      (PendingAscends(r.value) && NoneEmpty(r.value)
       && multiset(AllPending(r.value)) == multiset(TagsOfFile(batches, |batches|)))
  {
    hide AllPending, PendingAscends, NoneEmpty, TagsOfBatch, NonNegative, ValidBatch;
    NothingPending();
    var entries: seq<Pending> := [];
    for b := 0 to |batches|
      invariant AllNonNegative(batches, b) && PendingAscends(entries) && NoneEmpty(entries)
      invariant multiset(AllPending(entries)) == multiset(TagsOfFile(batches, b))
    {
      var more := GroupBatch(batches[b], entries);
      if more.Failure? { return Failure(more.error); }
      entries := more.value;
    }
    r := Success(entries);
  }

  lemma NothingPending()
    ensures PendingAscends([]) && NoneEmpty([]) && AllPending([]) == []
  {
  }

  /** Sorting and de-duplicating each group. */
  method FinishGroups(entries: seq<Pending>) returns (groups: seq<CoordGroup>)
    requires NoneEmpty(entries)
    ensures AllFinish(groups, entries)
  {
    hide Finishes, Finished;
    groups := [];
    for n := 0 to |entries|
      invariant AllFinish(groups, entries[..n])
    {
      var sorted := SortByOffset(entries[n].coordinates);
      FinishedFinishes(entries[n], sorted);
      AllFinishPush(groups, entries, n, Finished(entries[n], sorted));
      groups := groups + [Finished(entries[n], sorted)];
    }
    assert entries[..|entries|] == entries;
  }

  /** `read_coord_groups`. */
  method ReadCoordGroups(batches: seq<CoordBatch>) returns (r: Result<seq<CoordGroup>, CoordError>)
    requires AllValid(batches)
    ensures r.Success? <==> AllNonNegative(batches, |batches|)
    ensures r.Failure? ==> r.error == NegativeCoordinate
    ensures r.Success? ==> Regroups(TagsOfFile(batches, |batches|), r.value)
  {
    hide *;
    var entries := GroupRows(batches);
    if entries.Failure? { return Failure(entries.error); }
    var groups := FinishGroups(entries.value);
    FinishedRegroups(TagsOfFile(batches, |batches|), entries.value, groups);
    r := Success(groups);
  }

  lemma AllFinishPush(groups: seq<CoordGroup>, entries: seq<Pending>, n: nat, g: CoordGroup)
    requires n < |entries| && AllFinish(groups, entries[..n]) && Finishes(g, entries[n])
    ensures AllFinish(groups + [g], entries[..n + 1])
  {
    hide Finishes;
  }

  /** The rows of one batch, pushed one by one. */
  method GroupBatch(batch: CoordBatch, entries: seq<Pending>) returns (r: Result<seq<Pending>, CoordError>)
    requires ValidBatch(batch) && PendingAscends(entries) && NoneEmpty(entries)
    ensures r.Success? <==> NonNegative(batch)
    ensures r.Failure? ==> r.error == NegativeCoordinate
    ensures r.Success? ==>
      (PendingAscends(r.value) && NoneEmpty(r.value)
       && multiset(AllPending(r.value)) == multiset(AllPending(entries)) + multiset(TagsOfBatch(batch, |batch.rows|)))
  {
    hide Push, AllPending, PendingAscends, NoneEmpty;
    var current := entries;
    ghost var tags: seq<Tag> := [];
    for i := 0 to |batch.rows|
      invariant forall j :: 0 <= j < i ==> batch.rows[j].group >= 0 && batch.rows[j].offset >= 0
      invariant |tags| == i
      invariant NonNegative(batch) ==> tags == TagsOfBatch(batch, i)
      invariant PendingAscends(current) && NoneEmpty(current)
      invariant multiset(AllPending(current)) == multiset(AllPending(entries)) + multiset(tags)
    {
      var row := batch.rows[i];
      if row.group < 0 || row.offset < 0 { return Failure(NegativeCoordinate); }
      var tag := Tag(Coord(row.file, row.group, row.offset), OrderAt(batch, i));
      PushKeeps(current, tag);
      current := Push(current, tag);
      tags := tags + [tag];
    }
    r := Success(current);
  }

  // ----- where a row's tag stands

  function RowsBefore(batches: seq<CoordBatch>, n: nat): nat
    requires n <= |batches|
  {
    if n == 0 then 0 else RowsBefore(batches, n - 1) + |batches[n - 1].rows|
  }

  /** A row is tagged with its order from the active-order column, or with its index in the batch. */
  lemma {:induction false} TagStands(batches: seq<CoordBatch>, n: nat, b: nat, i: nat)
    requires AllValid(batches) && b < n <= |batches| && AllNonNegative(batches, n) && i < |batches[b].rows|
    ensures |TagsOfFile(batches, n)| == RowsBefore(batches, n) && RowsBefore(batches, b) + i < RowsBefore(batches, n)
    ensures var tag, row := TagsOfFile(batches, n)[RowsBefore(batches, b) + i], batches[b].rows[i];
      tag.coord.file == row.file && tag.coord.group == row.group && tag.coord.offset == row.offset
      && tag.order == match batches[b].orders case Some(orders) => orders[i] case None => i
  {
    TagsOfFileLength(batches, n);
    TagsOfFileLength(batches, n - 1);
    if b < n - 1 { TagStands(batches, n - 1, b, i); }
  }

  lemma {:induction false} TagsOfFileLength(batches: seq<CoordBatch>, n: nat)
    requires AllValid(batches) && n <= |batches| && AllNonNegative(batches, n)
    ensures |TagsOfFile(batches, n)| == RowsBefore(batches, n)
  {
    if n > 0 { TagsOfFileLength(batches, n - 1); }
  }
}
