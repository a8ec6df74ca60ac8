/** Planning unfiltered rows chunk by chunk, keeping source files together
    (native/engine/src/planner.rs). A file is given by the row counts of its row groups. */
module LocalityPlan {
  import opened Wrappers
  import opened Coordinates

  const I32_LIMIT: nat := 0x8000_0000

  datatype PlannedRow = PlannedRow(coord: Coord, rowIndex: nat)

  // ----- what has to be planned

  /** The rows of one row group; `base` rows of the file come before it. */
  function GroupRows(file: string, group: nat, base: nat, n: nat): (r: seq<PlannedRow>)
    ensures |r| == n
    ensures forall o :: 0 <= o < n ==> r[o] == PlannedRow(Coord(file, group, o), base + o)
  {
    seq(n, o requires 0 <= o < n => PlannedRow(Coord(file, group, o), base + o))
  }

  function Total(sizes: seq<nat>): nat { if sizes == [] then 0 else Total(sizes[..|sizes| - 1]) + sizes[|sizes| - 1] }

  /** The rows of a file, row group by row group. */
  function FileRows(file: string, sizes: seq<nat>): (r: seq<PlannedRow>)
    ensures |r| == Total(sizes)
  {
    if sizes == [] then []
    else
      var last := |sizes| - 1;
      FileRows(file, sizes[..last]) + GroupRows(file, last, Total(sizes[..last]), sizes[last])
  }

  predicate AllFound(paths: seq<string>, files: map<string, seq<nat>>) { forall i :: 0 <= i < |paths| ==> paths[i] in files }

  function InputRows(paths: seq<string>, files: map<string, seq<nat>>): seq<PlannedRow>
    requires AllFound(paths, files)
  {
    if paths == [] then []
    else InputRows(paths[..|paths| - 1], files) + FileRows(paths[|paths| - 1], files[paths[|paths| - 1]])
  }

  /** A row's index is its position in the file. */
  lemma {:induction false} RowIndexIsPosition(file: string, sizes: seq<nat>, i: nat)
    requires i < Total(sizes)
    ensures FileRows(file, sizes)[i].rowIndex == i
  {
    if i < Total(sizes[..|sizes| - 1]) { RowIndexIsPosition(file, sizes[..|sizes| - 1], i); }
  }

  /** Every row of every row group stands at its place. */
  lemma {:induction false} EveryRowIsThere(file: string, sizes: seq<nat>, group: nat, offset: nat)
    requires group < |sizes| && offset < sizes[group]
    ensures Total(sizes[..group]) + offset < Total(sizes)
    ensures FileRows(file, sizes)[Total(sizes[..group]) + offset].coord == Coord(file, group, offset)
  {
    var last := |sizes| - 1;
    if group < last {
      EveryRowIsThere(file, sizes[..last], group, offset);
      assert sizes[..last][..group] == sizes[..group];
    }
  }

  // ----- chunks

  function Flat(chunks: seq<seq<PlannedRow>>): seq<PlannedRow> {
    if chunks == [] then [] else Flat(chunks[..|chunks| - 1]) + chunks[|chunks| - 1]
  }

  function FilesOf(rows: seq<PlannedRow>): set<string> { set i | 0 <= i < |rows| :: rows[i].coord.file }

  function FileLimit(limit: Option<nat>): Option<nat> {
    var n :- limit;
    Some(if n > 1 then n else 1)
  }

  /** What every chunk satisfies: not empty, at most `rowCount` rows, rows of at most `max(1, limit)` files. */
  ghost predicate ChunkFits(chunk: seq<PlannedRow>, rowCount: nat, limit: Option<nat>) {
    && 0 < |chunk| <= rowCount
    && (limit.Some? ==> |FilesOf(chunk)| <= FileLimit(limit).value)
  }

  ghost predicate ChunksFit(chunks: seq<seq<PlannedRow>>, rowCount: nat, limit: Option<nat>) {
    forall k :: 0 <= k < |chunks| ==> ChunkFits(chunks[k], rowCount, limit)
  }

  /** Written chunks, the rows buffered for the next one, and the files counted for it. */
  datatype State = State(chunks: seq<seq<PlannedRow>>, buffer: seq<PlannedRow>, current: set<string>)

  /** `done` is planned; the buffer is a chunk in the making and its files are all counted. */
  ghost predicate Planned(s: State, done: seq<PlannedRow>, rowCount: nat, limit: Option<nat>) {
    && Flat(s.chunks) + s.buffer == done
    && ChunksFit(s.chunks, rowCount, limit)
    && (s.buffer != [] ==> ChunkFits(s.buffer, rowCount, limit))
    && FilesOf(s.buffer) <= s.current
  }

  lemma FlatPush(chunks: seq<seq<PlannedRow>>, chunk: seq<PlannedRow>)
    ensures Flat(chunks + [chunk]) == Flat(chunks) + chunk
  {
    assert (chunks + [chunk])[..|chunks|] == chunks;
  }

  /** Writing the buffer out. */
  lemma Flush(s: State, done: seq<PlannedRow>, rowCount: nat, limit: Option<nat>, current: set<string>)
    requires Planned(s, done, rowCount, limit) && s.buffer != []
    ensures Planned(State(s.chunks + [s.buffer], [], current), done, rowCount, limit)
  {
    hide ChunkFits, Flat;
    FlatPush(s.chunks, s.buffer);
    assert Flat(s.chunks) + s.buffer + [] == done;
  }

  lemma FilesPush(rows: seq<PlannedRow>, row: PlannedRow)
    ensures FilesOf(rows + [row]) == FilesOf(rows) + {row.coord.file}
  {
    assert (rows + [row])[|rows|] == row;
    forall f | f in FilesOf(rows) ensures f in FilesOf(rows + [row]) {
      var i :| 0 <= i < |rows| && rows[i].coord.file == f;
      assert (rows + [row])[i] == rows[i];
    }
  }

  /** A row whose file may join the buffer. */
  lemma PushRow(s: State, done: seq<PlannedRow>, rowCount: nat, limit: Option<nat>, row: PlannedRow)
    requires Planned(s, done, rowCount, limit) && |s.buffer| < rowCount && row.coord.file in s.current
    requires MayJoin(s, row.coord.file, limit)
    ensures Planned(s.(buffer := s.buffer + [row]), done + [row], rowCount, limit)
    ensures MayJoin(s.(buffer := s.buffer + [row]), row.coord.file, limit)
  {
    FilesPush(s.buffer, row);
    assert Flat(s.chunks) + (s.buffer + [row]) == done + [row];
    if s.buffer == [] { assert FilesOf(s.buffer) == {}; }
    if row.coord.file in FilesOf(s.buffer) { assert FilesOf(s.buffer) + {row.coord.file} == FilesOf(s.buffer); }
  }

  /** The file is in the buffer already, or the buffer has room for one more file. */
  ghost predicate MayJoin(s: State, file: string, limit: Option<nat>) {
    s.buffer == [] || file in FilesOf(s.buffer) || (limit.Some? ==> |FilesOf(s.buffer)| < limit.value)
  }

  /** Either nothing was written and the buffer only grew, or the counted files start over with this one. */
  ghost predicate Carries(before: State, after: State, file: string) {
    (after.current == before.current && FilesOf(before.buffer) <= FilesOf(after.buffer)) || after.current == {file}
  }

  predicate FitsI32(n: nat) { n < I32_LIMIT }

  /** One row: start a new chunk when the buffer is full, then push. */
  method PlanRow(s: State, row: PlannedRow, rowCount: nat, limit: Option<nat>, ghost done: seq<PlannedRow>)
    returns (r: Result<State, CoordError>)
    requires rowCount > 0 && Planned(s, done, rowCount, limit)
    requires row.coord.file in s.current && MayJoin(s, row.coord.file, limit)
    ensures r.Success? ==>
      (Planned(r.value, done + [row], rowCount, limit) && row.coord.file in r.value.current
       && MayJoin(r.value, row.coord.file, limit)
       && Carries(s, r.value, row.coord.file) && row.coord.file in FilesOf(r.value.buffer))
    ensures r.Failure? ==> r.error == CountOverflow
    ensures FitsI32(row.coord.group) && FitsI32(row.coord.offset) && |done| < I32_LIMIT ==> r.Success?
  {
    hide Planned;
    var next := s;
    if |next.buffer| >= rowCount {
      Flush(s, done, rowCount, limit, {row.coord.file});
      next := State(next.chunks + [next.buffer], [], {row.coord.file});
    }
    ChunksAreFew(next, done, rowCount, limit);
    if !FitsI32(row.coord.group) || !FitsI32(row.coord.offset) || !FitsI32(|next.chunks|) { return Failure(CountOverflow); }
    PushRow(next, done, rowCount, limit, row);
    FilesPush(next.buffer, row);
    r := Success(next.(buffer := next.buffer + [row]));
  }

  lemma {:induction false} FlatIsLong(chunks: seq<seq<PlannedRow>>, rowCount: nat, limit: Option<nat>)
    requires ChunksFit(chunks, rowCount, limit)
    ensures |chunks| <= |Flat(chunks)|
  {
    if chunks != [] { FlatIsLong(chunks[..|chunks| - 1], rowCount, limit); }
  }

  lemma ChunksAreFew(s: State, done: seq<PlannedRow>, rowCount: nat, limit: Option<nat>)
    requires Planned(s, done, rowCount, limit)
    ensures |s.chunks| <= |done|
  {
    FlatIsLong(s.chunks, rowCount, limit);
  }

  method PlanGroup(
    s: State, file: string, group: nat, base: nat, size: nat, rowCount: nat, limit: Option<nat>, ghost done: seq<PlannedRow>)
    returns (r: Result<State, CoordError>)
    requires rowCount > 0 && Planned(s, done, rowCount, limit)
    requires size > 0 ==> file in s.current && MayJoin(s, file, limit)
    ensures r.Success? ==>
      (Planned(r.value, done + GroupRows(file, group, base, size), rowCount, limit)
       && (size > 0 ==>
             file in r.value.current && MayJoin(r.value, file, limit) && Carries(s, r.value, file)
             && file in FilesOf(r.value.buffer))
       && (size == 0 ==> r.value == s))
    ensures r.Failure? ==> r.error == CountOverflow
    ensures FitsI32(group) && |done| + size <= I32_LIMIT ==> r.Success?
  {
    hide Planned, MayJoin;
    assert done + GroupRows(file, group, base, 0) == done;
    var next := s;
    for offset := 0 to size
      invariant Planned(next, done + GroupRows(file, group, base, offset), rowCount, limit)
      invariant size > 0 ==> file in next.current && MayJoin(next, file, limit)
      invariant offset == 0 ==> next == s
      invariant offset > 0 ==> Carries(s, next, file) && file in FilesOf(next.buffer)
    {
      var row := PlannedRow(Coord(file, group, offset), base + offset);
      ghost var before := done + GroupRows(file, group, base, offset);
      assert before + [row] == done + GroupRows(file, group, base, offset + 1);
      next :- PlanRow(next, row, rowCount, limit, before);
    }
    r := Success(next);
  }

  /** The rows of one file, after the file was counted. */
  method PlanFile(s: State, file: string, sizes: seq<nat>, rowCount: nat, limit: Option<nat>, ghost done: seq<PlannedRow>)
    returns (r: Result<State, CoordError>)
    requires rowCount > 0 && Planned(s, done, rowCount, limit)
    requires Total(sizes) > 0 ==> file in s.current && MayJoin(s, file, limit)
    ensures r.Success? ==> Planned(r.value, done + FileRows(file, sizes), rowCount, limit)
    ensures r.Success? && Total(sizes) == 0 ==> r.value == s
    ensures r.Success? && Total(sizes) > 0 ==> Carries(s, r.value, file) && file in FilesOf(r.value.buffer)
    ensures r.Failure? ==> r.error == CountOverflow
    ensures |sizes| <= I32_LIMIT && |done| + Total(sizes) <= I32_LIMIT ==> r.Success?
  {
    hide Planned, MayJoin, FileRows;
    FileRowsStart(file);
    assert done + [] == done;
    var next, base := s, 0;
    for group := 0 to |sizes|
      invariant base == Total(sizes[..group])
      invariant Planned(next, done + FileRows(file, sizes[..group]), rowCount, limit)
      invariant Total(sizes) > 0 ==> file in next.current && MayJoin(next, file, limit)
      invariant base == 0 ==> next == s
      invariant base > 0 ==> Carries(s, next, file) && file in FilesOf(next.buffer)
    {
      FileRowsStep(file, sizes, group);
      TotalGrows(sizes, group);
      ghost var before := done + FileRows(file, sizes[..group]);
      assert before + GroupRows(file, group, base, sizes[group]) == done + FileRows(file, sizes[..group + 1]);
      next :- PlanGroup(next, file, group, base, sizes[group], rowCount, limit, before);
      base := base + sizes[group];
    }
    assert sizes[..|sizes|] == sizes;
    r := Success(next);
  }

  lemma FileRowsStart(file: string)
    ensures FileRows(file, []) == []
  {
  }

  lemma FileRowsStep(file: string, sizes: seq<nat>, group: nat)
    requires group < |sizes|
    ensures Total(sizes[..group + 1]) == Total(sizes[..group]) + sizes[group]
    ensures FileRows(file, sizes[..group + 1])
         == FileRows(file, sizes[..group]) + GroupRows(file, group, Total(sizes[..group]), sizes[group])
  {
    assert sizes[..group + 1][..group] == sizes[..group];
  }

  lemma {:induction false} TotalGrows(sizes: seq<nat>, group: nat)
    requires group < |sizes|
    ensures Total(sizes[..group]) + sizes[group] <= Total(sizes)
  {
    var last := |sizes| - 1;
    if group < last {
      TotalGrows(sizes[..last], group);
      assert sizes[..last][..group] == sizes[..group];
    }
  }

  // ----- the file loop

  /** A counted file that has rows has some in the buffer. */
  ghost predicate CountedAreBuffered(s: State, files: map<string, seq<nat>>) {
    forall f :: f in s.current && f in files && Total(files[f]) > 0 ==> f in FilesOf(s.buffer)
  }

  lemma FewerFiles(s: State)
    requires FilesOf(s.buffer) <= s.current
    ensures |FilesOf(s.buffer)| <= |s.current|
  {
    var rest := s.current - FilesOf(s.buffer);
    assert s.current == FilesOf(s.buffer) + rest;
    assert |s.current| == |FilesOf(s.buffer)| + |rest|;
  }

  /** One more file would be too many. Files count from when they are opened, with rows or without. */
  predicate TooManyFiles(s: State, file: string, limit: Option<nat>) {
    limit.Some? && file !in s.current && s.buffer != [] && |s.current| >= limit.value
  }

  /** Counting a file: the buffer is written first exactly when one more file would be too many. */
  method CountFile(
    s: State, file: string, files: map<string, seq<nat>>, rowCount: nat, limit: Option<nat>, ghost done: seq<PlannedRow>)
    returns (next: State)
    requires Planned(s, done, rowCount, limit) && CountedAreBuffered(s, files)
    ensures Planned(next, done, rowCount, limit)
    ensures if TooManyFiles(s, file, limit) then next == State(s.chunks + [s.buffer], [], {file})
            else next == s.(current := s.current + {file})
    ensures forall f :: f in next.current && f in files && Total(files[f]) > 0 && f != file ==> f in FilesOf(next.buffer)
    ensures file in next.current && (file in files && Total(files[file]) > 0 ==> MayJoin(next, file, limit))
  {
    var addsFile := file !in s.current;
    next := s;
    if limit.Some? && addsFile && s.buffer != [] && |s.current| >= limit.value {
      Flush(s, done, rowCount, limit, {});
      next := State(s.chunks + [s.buffer], [], {});
      NoFiles();
    } else {
      FewerFiles(s);
    }
    next := next.(current := next.current + {file});
  }

  lemma NoFiles()
    ensures FilesOf([]) == {}
  {
  }

  lemma InputRowsStep(paths: seq<string>, files: map<string, seq<nat>>, n: nat)
    requires n < |paths| && AllFound(paths[..n + 1], files)
    ensures AllFound(paths[..n], files)
    ensures InputRows(paths[..n + 1], files) == InputRows(paths[..n], files) + FileRows(paths[n], files[paths[n]])
  {
    assert paths[..n + 1][..n] == paths[..n];
  }

  lemma {:induction false} InputRowsGrow(paths: seq<string>, files: map<string, seq<nat>>, n: nat)
    requires n <= |paths| && AllFound(paths, files)
    ensures AllFound(paths[..n], files) && |InputRows(paths[..n], files)| <= |InputRows(paths, files)|
    decreases |paths| - n
  {
    if n < |paths| {
      InputRowsGrow(paths, files, n + 1);
      InputRowsStep(paths, files, n);
    } else {
      assert paths[..n] == paths;
    }
  }

  predicate GroupIdsFit(files: map<string, seq<nat>>) { forall f :: f in files ==> |files[f]| <= I32_LIMIT }

  lemma AfterFile(before: State, after: State, file: string, files: map<string, seq<nat>>)
    requires forall f :: f in before.current && f in files && Total(files[f]) > 0 && f != file ==> f in FilesOf(before.buffer)
    requires file in files
    requires Total(files[file]) == 0 ==> after == before
    requires Total(files[file]) > 0 ==> Carries(before, after, file) && file in FilesOf(after.buffer)
    ensures CountedAreBuffered(after, files)
  {
  }

  /** `write_unfiltered_rows_by_source_file_locality`: the chunks taken together are all input rows in
      order, and each chunk fits. It fails only for a missing file or when a row group number, an offset or
      a chunk number does not fit 32 bits. */
  method PlanUnfiltered(paths: seq<string>, files: map<string, seq<nat>>, rowCount: nat, limit: Option<nat>)
    returns (r: Result<seq<seq<PlannedRow>>, CoordError>)
    requires rowCount > 0
    ensures r.Success? ==> AllFound(paths, files) && Flat(r.value) == InputRows(paths, files)
    ensures r.Success? ==> ChunksFit(r.value, rowCount, limit)
    ensures r.Failure? && r.error == MissingFile ==> !AllFound(paths, files)
    ensures AllFound(paths, files) && GroupIdsFit(files) && |InputRows(paths, files)| <= I32_LIMIT ==> r.Success?
  {
    hide Planned, CountedAreBuffered, FilesOf, Carries, MayJoin, ChunksFit, Flat;
    StartIsPlanned(files, rowCount, limit);
    var s := State([], [], {});
    assert paths[..0] == [];
    for n := 0 to |paths|
      invariant AllFound(paths[..n], files)
      invariant Planned(s, InputRows(paths[..n], files), rowCount, limit) && CountedAreBuffered(s, files)
    {
      var file := paths[n];
      ghost var done := InputRows(paths[..n], files);
      var counted := CountFile(s, file, files, rowCount, limit, done);
      if file !in files { return Failure(MissingFile); }
      InputRowsStep(paths, files, n);
      if AllFound(paths, files) { InputRowsGrow(paths, files, n + 1); }
      s :- PlanFile(counted, file, files[file], rowCount, limit, done);
      AfterFile(counted, s, file, files);
    }
    assert paths[..|paths|] == paths;
    FinalChunks(s, InputRows(paths, files), rowCount, limit);
    if s.buffer != [] { s := State(s.chunks + [s.buffer], [], {}); }
    r := Success(s.chunks);
  }

  lemma StartIsPlanned(files: map<string, seq<nat>>, rowCount: nat, limit: Option<nat>)
    ensures Planned(State([], [], {}), [], rowCount, limit) && CountedAreBuffered(State([], [], {}), files)
  {
  }

  lemma FinalChunks(s: State, done: seq<PlannedRow>, rowCount: nat, limit: Option<nat>)
    requires Planned(s, done, rowCount, limit)
    ensures var chunks := if s.buffer != [] then s.chunks + [s.buffer] else s.chunks;
      Flat(chunks) == done && ChunksFit(chunks, rowCount, limit)
  {
    hide ChunkFits, Flat;
    FlatPush(s.chunks, s.buffer);
    assert Flat(s.chunks) + [] == Flat(s.chunks);
  }

  // ----- no coordinate is planned twice

  lemma {:induction false} PositionOfRow(file: string, sizes: seq<nat>, i: nat)
    requires i < Total(sizes)
    ensures var c := FileRows(file, sizes)[i].coord;
      c.file == file && c.group < |sizes| && i == Total(sizes[..c.group]) + c.offset
  {
    var last := |sizes| - 1;
    if i < Total(sizes[..last]) {
      PositionOfRow(file, sizes[..last], i);
      var c := FileRows(file, sizes)[i].coord;
      assert sizes[..last][..c.group] == sizes[..c.group];
    }
  }

  ghost predicate DistinctRows(rows: seq<PlannedRow>) { forall i, j :: 0 <= i < j < |rows| ==> rows[i].coord != rows[j].coord }

  predicate DistinctPaths(paths: seq<string>) { forall i, j :: 0 <= i < j < |paths| ==> paths[i] != paths[j] }

  lemma {:induction false} InputRowFiles(paths: seq<string>, files: map<string, seq<nat>>, i: nat)
    requires AllFound(paths, files) && i < |InputRows(paths, files)|
    ensures InputRows(paths, files)[i].coord.file in paths
  {
    var last := |paths| - 1;
    var before := InputRows(paths[..last], files);
    if i < |before| { InputRowFiles(paths[..last], files, i); } else { PositionOfRow(paths[last], files[paths[last]], i - |before|); }
  }

  lemma {:induction false} InputRowsDistinct(paths: seq<string>, files: map<string, seq<nat>>)
    requires AllFound(paths, files) && DistinctPaths(paths)
    ensures DistinctRows(InputRows(paths, files))
  {
    if paths != [] {
      var last := |paths| - 1;
      var before, rows := InputRows(paths[..last], files), InputRows(paths, files);
      InputRowsDistinct(paths[..last], files);
      forall i, j | 0 <= i < j < |rows| && |before| <= j ensures rows[i].coord != rows[j].coord {
        PositionOfRow(paths[last], files[paths[last]], j - |before|);
        if i < |before| {
          InputRowFiles(paths[..last], files, i);
        } else {
          PositionOfRow(paths[last], files[paths[last]], i - |before|);
        }
      }
      forall i, j | 0 <= i < j < |before| ensures rows[i].coord != rows[j].coord {
        assert rows[i] == before[i] && rows[j] == before[j];
      }
    }
  }

  lemma {:induction false} ChunkOfDistinct(chunks: seq<seq<PlannedRow>>, k: nat)
    requires k < |chunks| && DistinctRows(Flat(chunks))
    ensures DistinctRows(chunks[k])
  {
    var last := |chunks| - 1;
    var before, all := Flat(chunks[..last]), Flat(chunks);
    if k < last {
      assert forall i :: 0 <= i < |before| ==> all[i] == before[i];
      ChunkOfDistinct(chunks[..last], k);
    } else {
      assert forall i :: 0 <= i < |chunks[k]| ==> all[|before| + i] == chunks[k][i];
    }
  }

  /** Planned over distinct paths, no chunk names a coordinate twice, so every chunk reads back as planned. */
  lemma PlannedChunksAreDistinct(paths: seq<string>, files: map<string, seq<nat>>, chunks: seq<seq<PlannedRow>>, k: nat)
    requires AllFound(paths, files) && DistinctPaths(paths) && Flat(chunks) == InputRows(paths, files) && k < |chunks|
    ensures DistinctRows(chunks[k])
  {
    InputRowsDistinct(paths, files);
    ChunkOfDistinct(chunks, k);
  }
}
