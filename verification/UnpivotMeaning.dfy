/** Which long rows an unpivoted table holds, and in what order (native/engine/src/post_operations.rs). */
module UnpivotMeaning {
  import opened Wrappers
  import opened Tables
  import opened JoinMeaning
  import opened Pivot
  import opened Unpivot

  /** Input row and value column of a long row. */
  type Place = (nat, nat)

  /** Row by row, and within a row in the order of the value columns. */
  predicate PlaceBefore(a: Place, b: Place) { a.0 < b.0 || (a.0 == b.0 && a.1 < b.1) }

  ghost predicate PlacesAscend(places: seq<Place>) {
    forall m, n :: 0 <= m < n < |places| ==> PlaceBefore(places[m], places[n])
  }

  /** The value of a row under a value column is turned into a row of its own: always, or unless it is null. */
  ghost predicate IsLong(table: Table, u: UnpivotConfig, p: Place) {
    && p.0 < |table.rows| && p.1 < |u.valueColumns|
    && (u.preserveNulls || !CellIs(table, p.0, u.valueColumns[p.1], Null))
  }

  /** The ids, the name of the value column and the value. */
  ghost predicate LongRowIs(table: Table, u: UnpivotConfig, p: Place, row: Row)
    requires p.1 < |u.valueColumns|
  {
    && |row| == |u.idColumns| + 2
    && (forall k :: 0 <= k < |u.idColumns| ==> CellIs(table, p.0, u.idColumns[k], row[k]))
    && row[|u.idColumns|] == Val(u.valueColumns[p.1])
    && CellIs(table, p.0, u.valueColumns[p.1], row[|u.idColumns| + 1])
  }

  ghost predicate IsUnpivoted(table: Table, u: UnpivotConfig, places: seq<Place>, out: Table) {
    && |out.rows| == |places| && PlacesAscend(places) && (forall p :: p in places <==> IsLong(table, u, p))
    && forall n :: 0 <= n < |places| ==> places[n].1 < |u.valueColumns| && LongRowIs(table, u, places[n], out.rows[n])
  }

  // ----- the places of the blocks

  /** The places of the first `j` values of row `i`. */
  function BlockPlaces(s: Shape, row: Row, i: nat, j: nat): (places: seq<Place>)
    requires ShapeFits(s, |row|) && j <= |s.values|
  {
    if j == 0 then []
    else BlockPlaces(s, row, i, j - 1) + if s.keepNulls || row[s.values[j - 1]] != Null then [(i, j - 1)] else []
  }

  function Places(s: Shape, rows: seq<Row>, width: nat, n: nat): (places: seq<Place>)
    requires ShapeFits(s, width) && Wide(rows, width) && n <= |rows|
  {
    if n == 0 then [] else Places(s, rows, width, n - 1) + BlockPlaces(s, rows[n - 1], n - 1, |s.values|)
  }

  ghost predicate IsPlace(s: Shape, rows: seq<Row>, width: nat, p: Place)
    requires ShapeFits(s, width) && Wide(rows, width)
  {
    p.0 < |rows| && p.1 < |s.values| && (s.keepNulls || rows[p.0][s.values[p.1]] != Null)
  }

  lemma {:induction false} BlockPlacesAre(s: Shape, row: Row, i: nat, j: nat)
    requires ShapeFits(s, |row|) && j <= |s.values|
    ensures PlacesAscend(BlockPlaces(s, row, i, j))
    ensures forall p :: p in BlockPlaces(s, row, i, j) <==>
              p.0 == i && p.1 < j && (s.keepNulls || row[s.values[p.1]] != Null)
  {
    hide PlacesAscend;
    if j == 0 {
      NoPlaces();
    } else {
      BlockPlacesAre(s, row, i, j - 1);
      var before, more := BlockPlaces(s, row, i, j - 1), s.keepNulls || row[s.values[j - 1]] != Null;
      PlacesBehind(before, if more then [(i, j - 1)] else []);
      assert forall p :: p in before + (if more then [(i, j - 1)] else []) <==> p in before || (more && p == (i, j - 1));
    }
  }

  lemma NoPlaces()
    ensures PlacesAscend([])
  {
  }

  lemma PlacesBehind(a: seq<Place>, b: seq<Place>)
    requires PlacesAscend(a) && |b| <= 1 && forall p, q :: p in a && q in b ==> PlaceBefore(p, q)
    ensures PlacesAscend(a + b)
  {
    PlacesAppend(a, b);
  }

  lemma PlacesAppend(a: seq<Place>, b: seq<Place>)
    requires PlacesAscend(a) && (|b| <= 1 || PlacesAscend(b)) && forall p, q :: p in a && q in b ==> PlaceBefore(p, q)
    ensures PlacesAscend(a + b)
  {
    hide PlaceBefore;
    forall m, n | 0 <= m < n < |a + b| ensures PlaceBefore((a + b)[m], (a + b)[n]) {
      if m < |a| <= n {
        assert a[m] in a && b[n - |a|] in b;
      }
    }
  }

  lemma {:induction false} PlacesAre(s: Shape, rows: seq<Row>, width: nat, n: nat)
    requires ShapeFits(s, width) && Wide(rows, width) && n <= |rows|
    ensures PlacesAscend(Places(s, rows, width, n))
    ensures forall p :: p in Places(s, rows, width, n) <==> p.0 < n && IsPlace(s, rows, width, p)
  {
    hide PlacesAscend;
    if n == 0 {
      NoPlaces();
    } else {
      PlacesAre(s, rows, width, n - 1);
      BlockPlacesAre(s, rows[n - 1], n - 1, |s.values|);
      PlacesAppend(Places(s, rows, width, n - 1), BlockPlaces(s, rows[n - 1], n - 1, |s.values|));
    }
  }

  lemma {:induction false} BlockRowsStand(s: Shape, row: Row, i: nat, j: nat)
    requires ShapeFits(s, |row|) && j <= |s.values|
    ensures var places, rows := BlockPlaces(s, row, i, j), Block(s, row, j);
      |rows| == |places| && forall n :: 0 <= n < |places| ==> places[n].1 < |s.values| && rows[n] == LongRow(s, row, places[n].1)
  {
    hide LongRow;
    if j > 0 { BlockRowsStand(s, row, i, j - 1); }
  }

  lemma {:induction false} RowsStand(s: Shape, rows: seq<Row>, width: nat, n: nat)
    requires ShapeFits(s, width) && Wide(rows, width) && n <= |rows|
    ensures var places, out := Places(s, rows, width, n), Blocks(s, rows, width, n);
      |out| == |places|
      && forall m :: 0 <= m < |places| ==>
           places[m].0 < |rows| && places[m].1 < |s.values| && out[m] == LongRow(s, rows[places[m].0], places[m].1)
  {
    hide LongRow, Block, BlockPlaces;
    if n > 0 {
      RowsStand(s, rows, width, n - 1);
      BlockRowsStand(s, rows[n - 1], n - 1, |s.values|);
      BlockPlacesAre(s, rows[n - 1], n - 1, |s.values|);
      var block := BlockPlaces(s, rows[n - 1], n - 1, |s.values|);
      assert forall m :: 0 <= m < |block| ==> block[m] in block;
    }
  }

  // ----- the main result

  /** A successful unpivot: one long row for every row and value column, or for every one that is not null,
      row by row and in the order of the value columns, holding the ids, the column's name and the value. */
  lemma UnpivotMeans(table: Table, u: UnpivotConfig) returns (places: seq<Place>)
    requires table.Valid() && UnpivotSpec(table, u).Success?
    ensures IsUnpivoted(table, u, places, UnpivotSpec(table, u).value)
    ensures var schema := UnpivotSpec(table, u).value.schema;
      |schema| == |u.idColumns| + 2 && schema[|u.idColumns|].name == u.nameColumn && schema[|u.idColumns| + 1].name == u.valueColumn
      && forall k :: 0 <= k < |u.idColumns| ==> schema[k].name == u.idColumns[k]
  {
    hide Blocks, Places, IndexesOf, IndexOf, LongRow, PlacesAscend, CellIs, IsLong, LongRowIs;
    var s := ResolveShape(table, u).value;
    var width := |table.schema|;
    RowsAreWide(table);
    places := Places(s, table.rows, width, |table.rows|);
    PlacesAre(s, table.rows, width, |table.rows|);
    RowsStand(s, table.rows, width, |table.rows|);
    forall p ensures IsPlace(s, table.rows, width, p) <==> IsLong(table, u, p) { PlaceIsLong(table, u, s, p); }
    forall n | 0 <= n < |places|
      ensures places[n].1 < |u.valueColumns| && LongRowIs(table, u, places[n], UnpivotSpec(table, u).value.rows[n])
    {
      assert places[n] in places;
      LongRowStands(table, u, s, places[n]);
    }
    assert forall k :: 0 <= k < |u.idColumns| ==> IndexOf(table.schema, u.idColumns[k]) == Some(s.ids[k]);
  }

  lemma PlaceIsLong(table: Table, u: UnpivotConfig, s: Shape, p: Place)
    requires table.Valid() && ResolveShape(table, u) == Success(s) && ShapeFits(s, |table.schema|) && Wide(table.rows, |table.schema|)
    ensures IsPlace(s, table.rows, |table.schema|, p) <==> IsLong(table, u, p)
  {
    hide IndexesOf, IndexOf, CellIs;
    if p.0 < |table.rows| && p.1 < |u.valueColumns| {
      var name := u.valueColumns[p.1];
      assert IndexOf(table.schema, name) == Some(s.values[p.1]);
      CellFound(table, p.0, name);
      if CellIs(table, p.0, name, Null) { OneCell(table, p.0, name, Null, table.rows[p.0][s.values[p.1]]); }
    }
  }

  lemma LongRowStands(table: Table, u: UnpivotConfig, s: Shape, p: Place)
    requires table.Valid() && ResolveShape(table, u) == Success(s) && ShapeFits(s, |table.schema|) && Wide(table.rows, |table.schema|)
    requires p.0 < |table.rows| && p.1 < |s.values|
    ensures p.1 < |u.valueColumns| && LongRowIs(table, u, p, LongRow(s, table.rows[p.0], p.1))
  {
    hide IndexesOf, IndexOf, CellIs;
    var row := table.rows[p.0];
    assert IndexOf(table.schema, u.valueColumns[p.1]) == Some(s.values[p.1]);
    CellFound(table, p.0, u.valueColumns[p.1]);
    forall k | 0 <= k < |u.idColumns| ensures CellIs(table, p.0, u.idColumns[k], LongRow(s, row, p.1)[k]) {
      assert IndexOf(table.schema, u.idColumns[k]) == Some(s.ids[k]);
      CellFound(table, p.0, u.idColumns[k]);
      assert LongRow(s, row, p.1)[k] == LongRow(s, row, p.1)[..|s.ids|][k];
    }
  }
}
