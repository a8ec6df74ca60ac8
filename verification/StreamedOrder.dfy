/** The order of rows that are sent to the writer without sorting: that of their coordinates
    (native/engine/src/coord.rs, native/engine/src/converter.rs). */
module StreamedOrder {
  import opened Coordinates

  predicate CoordBefore(a: Coord, b: Coord) {
    KeyBefore(a.file, a.group, b.file, b.group) || (a.file == b.file && a.group == b.group && a.offset < b.offset)
  }

  predicate Ascends(coords: seq<Coord>) { forall i, j :: 0 <= i < j < |coords| ==> CoordBefore(coords[i], coords[j]) }

  lemma CoordBeforeIsTotal(a: Coord, b: Coord)
    ensures a == b || CoordBefore(a, b) || CoordBefore(b, a)
  {
    KeyBeforeIsTotal(a.file, a.group, b.file, b.group);
  }

  lemma CoordBeforeIsTransitive(a: Coord, b: Coord, c: Coord)
    requires CoordBefore(a, b) && CoordBefore(b, c)
    ensures CoordBefore(a, c)
  {
    hide KeyBefore;
    if KeyBefore(a.file, a.group, b.file, b.group) && KeyBefore(b.file, b.group, c.file, c.group) {
      KeyBeforeIsTransitive(a.file, a.group, b.file, b.group, c.file, c.group);
    }
  }

  lemma NotBeforeItself(a: Coord)
    ensures !CoordBefore(a, a)
  {
  }

  // ----- the ascending coordinates of a sequence

  /** `c` in its place; a coordinate that is there already is not repeated. */
  function Placed(coords: seq<Coord>, c: Coord): (r: seq<Coord>)
    ensures forall x :: x in r <==> x in coords || x == c
  {
    if coords == [] then [c]
    else if coords[0] == c then coords
    else if CoordBefore(c, coords[0]) then [c] + coords
    else [coords[0]] + Placed(coords[1..], c)
  }

  function Ascended(coords: seq<Coord>): (r: seq<Coord>)
    ensures forall x :: x in r <==> x in coords
  {
    if coords == [] then [] else Placed(Ascended(coords[1..]), coords[0])
  }

  predicate AllAfterCoord(c: Coord, coords: seq<Coord>) { forall i :: 0 <= i < |coords| ==> CoordBefore(c, coords[i]) }

  lemma AfterByMembers(c: Coord, coords: seq<Coord>)
    requires forall x :: x in coords ==> CoordBefore(c, x)
    ensures AllAfterCoord(c, coords)
  {
    hide CoordBefore;
  }

  lemma AscendsTail(coords: seq<Coord>)
    requires Ascends(coords) && coords != []
    ensures Ascends(coords[1..]) && AllAfterCoord(coords[0], coords[1..])
    ensures forall x :: x in coords[1..] ==> CoordBefore(coords[0], x)
  {
    hide CoordBefore;
  }

  lemma AscendsHead(c: Coord, coords: seq<Coord>)
    requires Ascends(coords) && AllAfterCoord(c, coords)
    ensures Ascends([c] + coords)
  {
    hide CoordBefore;
  }

  lemma {:induction false} PlacedAscends(coords: seq<Coord>, c: Coord)
    requires Ascends(coords)
    ensures Ascends(Placed(coords, c))
  {
    hide CoordBefore, Ascends, AllAfterCoord;
    if coords == [] {
      AfterByMembers(c, []);
      AscendsNothing();
      AscendsHead(c, []);
      assert [c] + [] == [c];
    } else if coords[0] != c {
      AscendsTail(coords);
      if CoordBefore(c, coords[0]) {
        forall x | x in coords ensures CoordBefore(c, x) {
          if x != coords[0] {
            assert x in coords[1..];
            CoordBeforeIsTransitive(c, coords[0], x);
          }
        }
        AfterByMembers(c, coords);
        AscendsHead(c, coords);
      } else {
        CoordBeforeIsTotal(c, coords[0]);
        PlacedAscends(coords[1..], c);
        AfterByMembers(coords[0], Placed(coords[1..], c));
        AscendsHead(coords[0], Placed(coords[1..], c));
      }
    }
  }

  lemma AscendsNothing()
    ensures Ascends([])
  {
  }

  lemma {:induction false} AscendedAscends(coords: seq<Coord>)
    ensures Ascends(Ascended(coords))
  {
    hide Ascends, Placed;
    if coords == [] {
      AscendsNothing();
    } else {
      AscendedAscends(coords[1..]);
      PlacedAscends(Ascended(coords[1..]), coords[0]);
    }
  }

  /** Ascending sequences with the same members are the same. */
  lemma {:induction false} AscendingIsUnique(a: seq<Coord>, b: seq<Coord>)
    requires Ascends(a) && Ascends(b) && forall x :: x in a <==> x in b
    ensures a == b
  {
    hide CoordBefore, Ascends, AllAfterCoord;
    BothEmpty(a, b);
    if a != [] {
      assert a[0] in b && b != [] && b[0] in a;
      AscendsTail(a);
      AscendsTail(b);
      SameLeast(a, b);
      NotBeforeItself(a[0]);
      forall x ensures x in a[1..] <==> x in b[1..] {
        assert x in a <==> x == a[0] || x in a[1..];
        assert x in b <==> x == b[0] || x in b[1..];
      }
      AscendingIsUnique(a[1..], b[1..]);
      assert a == [a[0]] + a[1..] && b == [b[0]] + b[1..];
    }
  }

  lemma BothEmpty(a: seq<Coord>, b: seq<Coord>)
    requires forall x :: x in a <==> x in b
    ensures a == [] <==> b == []
  {
    if a != [] { assert a[0] in b; }
    if b != [] { assert b[0] in a; }
  }

  lemma SameLeast(a: seq<Coord>, b: seq<Coord>)
    requires a != [] && b != [] && a[0] in b && b[0] in a
    requires (forall x :: x in a[1..] ==> CoordBefore(a[0], x)) && forall x :: x in b[1..] ==> CoordBefore(b[0], x)
    ensures a[0] == b[0]
  {
    hide CoordBefore;
    if a[0] != b[0] {
      assert a[0] in b[1..] && b[0] in a[1..];
      CoordBeforeIsTransitive(a[0], b[0], a[0]);
      NotBeforeItself(a[0]);
    }
  }

  /** A plan already ascends exactly when putting it in ascending order leaves it as it is. */
  lemma AscendedIsSame(coords: seq<Coord>)
    ensures Ascended(coords) == coords <==> Ascends(coords)
  {
    hide Ascends, Ascended;
    AscendedAscends(coords);
    if Ascends(coords) { AscendingIsUnique(Ascended(coords), coords); }
  }

  // ----- the order of the groups' rows

  function CoordsOf(tags: seq<Tag>): (coords: seq<Coord>)
    ensures |coords| == |tags| && forall i :: 0 <= i < |tags| ==> coords[i] == tags[i].coord
  {
    seq(|tags|, i requires 0 <= i < |tags| => tags[i].coord)
  }

  /** Group after group, the coordinates ascend. */
  lemma {:induction false} GroupsAscend(groups: seq<CoordGroup>)
    requires AllGroups(groups) && KeysAscend(groups)
    ensures Ascends(CoordsOf(TagsOf(groups)))
  {
    if groups != [] {
      GroupsAscend(groups[1..]);
      GroupTagsDistinct(groups[1..]);
      LaterGroups(groups);
      OneGroupAscends(groups[0]);
      AscendsBoth(CoordsOf(GroupTags(groups[0])), CoordsOf(TagsOf(groups[1..])));
      assert CoordsOf(TagsOf(groups)) == CoordsOf(GroupTags(groups[0])) + CoordsOf(TagsOf(groups[1..]));
    }
  }

  lemma OneGroupAscends(g: CoordGroup)
    requires ValidGroup(g)
    ensures Ascends(CoordsOf(GroupTags(g)))
  {
    hide KeyBefore;
  }

  lemma LaterGroups(groups: seq<CoordGroup>)
    requires AllGroups(groups) && KeysAscend(groups) && groups != [] && FromGroups(TagsOf(groups[1..]), groups[1..])
    ensures forall i, j :: 0 <= i < |GroupTags(groups[0])| && 0 <= j < |TagsOf(groups[1..])| ==>
              CoordBefore(GroupTags(groups[0])[i].coord, TagsOf(groups[1..])[j].coord)
  {
    hide KeyBefore, TagsOf;
    var b := TagsOf(groups[1..]);
    forall j | 0 <= j < |b| ensures KeyBefore(groups[0].file, groups[0].group, b[j].coord.file, b[j].coord.group) {
      assert InSomeGroup(b[j], groups[1..]);
      var k :| 0 <= k < |groups[1..]| && groups[1..][k].file == b[j].coord.file && groups[1..][k].group == b[j].coord.group;
      assert groups[1..][k] == groups[k + 1];
    }
  }

  lemma AscendsBoth(a: seq<Coord>, b: seq<Coord>)
    requires Ascends(a) && Ascends(b) && forall i, j :: 0 <= i < |a| && 0 <= j < |b| ==> CoordBefore(a[i], b[j])
    ensures Ascends(a + b)
  {
    hide CoordBefore;
  }

  /** The rows of a coordinate file are read in ascending order of coordinates, each coordinate once. */
  lemma GroupsAreAscended(tags: seq<Tag>, groups: seq<CoordGroup>)
    requires Regroups(tags, groups)
    ensures CoordsOf(TagsOf(groups)) == Ascended(CoordsOf(tags))
  {
    hide Ascends, Ascended, TagsOf, AllGroups, KeysAscend, DistinctCoords;
    var part := TagsOf(groups);
    GroupsAscend(groups);
    AscendedAscends(CoordsOf(tags));
    forall x ensures x in CoordsOf(part) <==> x in CoordsOf(tags) {
      if x in CoordsOf(part) {
        var j :| 0 <= j < |part| && CoordsOf(part)[j] == x;
        assert part[j] in multiset(part) && part[j] in multiset(tags);
        var i :| 0 <= i < |tags| && tags[i] == part[j];
        assert CoordsOf(tags)[i] == x;
      }
      if x in CoordsOf(tags) {
        var i :| 0 <= i < |tags| && CoordsOf(tags)[i] == x;
        assert HasCoord(part, tags[i].coord);
        var j :| 0 <= j < |part| && part[j].coord == x;
        assert CoordsOf(part)[j] == x;
      }
    }
    AscendingIsUnique(CoordsOf(part), Ascended(CoordsOf(tags)));
  }
}
