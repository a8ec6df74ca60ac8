/** Counting duplicate keys through hash buckets on disk (native/engine/src/post_operations.rs). Batches are
    given as tables, in reading order and with their own schemas; where files begin makes no difference. */
module UniqueSpill {
  import opened Wrappers
  import opened Tables
  import opened SpillRecords

  datatype UniqueRule = UniqueRule(id: string, columns: seq<string>)

  type Disk = map<string, string>

  function Content(disk: Disk, path: string): string { if path in disk then disk[path] else "" }

  function BucketOf(hash: string -> nat, key: string): (b: nat)
    ensures b < BUCKETS
  {
    hash(key) % BUCKETS
  }

  // ----- the keys of a rule

  predicate Found(rule: UniqueRule, batch: Table) { IndexesOf(batch.schema, rule.columns).Some? }

  /** The key cells of a row. */
  function KeyCellsOf(rule: UniqueRule, batch: Table, i: nat): (cells: seq<Cell>)
    requires batch.Valid() && Found(rule, batch) && i < |batch.rows|
    ensures |cells| == |rule.columns|
  {
    assert batch.rows[i] in batch.rows;
    ColumnsWithin(batch.schema, rule.columns);
    Gather(batch.rows[i], IndexesOf(batch.schema, rule.columns).value)
  }

  function BatchCells(rule: UniqueRule, batch: Table): (cells: seq<seq<Cell>>)
    requires batch.Valid() && Found(rule, batch)
    ensures |cells| == |batch.rows|
    ensures forall i :: 0 <= i < |cells| ==> cells[i] == KeyCellsOf(rule, batch, i)
  {
    seq(|batch.rows|, i requires 0 <= i < |batch.rows| => KeyCellsOf(rule, batch, i))
  }

  predicate AllValid(batches: seq<Table>) { forall b :: 0 <= b < |batches| ==> batches[b].Valid() }

  predicate FoundIn(rule: UniqueRule, batches: seq<Table>, n: nat)
    requires n <= |batches|
  {
    forall b :: 0 <= b < n ==> Found(rule, batches[b])
  }

  /** The key cells of all rows of the first `n` batches. */
  function AllCells(rule: UniqueRule, batches: seq<Table>, n: nat): (cells: seq<seq<Cell>>)
    requires AllValid(batches) && n <= |batches| && FoundIn(rule, batches, n)
    ensures forall i :: 0 <= i < |cells| ==> |cells[i]| == |rule.columns|
  {
    if n == 0 then [] else AllCells(rule, batches, n - 1) + BatchCells(rule, batches[n - 1])
  }

  function KeysOf(cells: seq<seq<Cell>>): (keys: seq<string>)
    ensures |keys| == |cells| && forall i :: 0 <= i < |keys| ==> keys[i] == UniqueKey(cells[i])
  {
    seq(|cells|, i requires 0 <= i < |cells| => UniqueKey(cells[i]))
  }

  // ----- what a bucket file holds

  /** The rows among the first `n` whose key falls into the bucket, with their keys. */
  function Entries(keys: seq<string>, hash: string -> nat, bucket: nat, n: nat): (r: seq<(nat, string)>)
    requires n <= |keys|
    ensures forall i :: 0 <= i < |r| ==> r[i].0 < n && r[i].1 == keys[r[i].0] && BucketOf(hash, r[i].1) == bucket
  {
    if n == 0 then []
    else Entries(keys, hash, bucket, n - 1) + if BucketOf(hash, keys[n - 1]) == bucket then [(n - 1, keys[n - 1])] else []
  }

  function Serialized(entries: seq<(nat, string)>): string {
    if entries == [] then "" else Record(entries[0].0, entries[0].1) + Serialized(entries[1..])
  }

  lemma {:induction false} SerializedPush(entries: seq<(nat, string)>, e: (nat, string))
    ensures Serialized(entries + [e]) == Serialized(entries) + Record(e.0, e.1)
  {
    hide Record;
    if entries == [] {
      assert [e][1..] == [];
      assert entries + [e] == [e] && "" + Record(e.0, e.1) == Record(e.0, e.1);
    } else {
      assert (entries + [e])[1..] == entries[1..] + [e];
      SerializedPush(entries[1..], e);
    }
  }

  /** Every rule's bucket files hold the records of the rows counted so far, and nothing else. */
  ghost predicate Spilled(disk: Disk, rules: seq<UniqueRule>, keys: seq<seq<string>>, counts: seq<nat>, hash: string -> nat) {
    && |keys| == |rules| == |counts| && (forall q :: 0 <= q < |rules| ==> counts[q] <= |keys[q]|)
    && forall q, b :: 0 <= q < |rules| && 0 <= b < BUCKETS ==> BucketHolds(disk, rules[q].id, keys[q], counts[q], hash, b)
  }

  ghost predicate BucketHolds(disk: Disk, id: string, keys: seq<string>, count: nat, hash: string -> nat, b: nat)
    requires b < BUCKETS && count <= |keys|
  {
    Content(disk, BucketPath(id, b)) == Serialized(Entries(keys, hash, b, count))
  }

  /** The sanitised rule ids are distinct. */
  predicate DistinctRules(rules: seq<UniqueRule>) {
    forall i, j :: 0 <= i < j < |rules| ==> SafeRule(rules[i].id) != SafeRule(rules[j].id)
  }

  function Append(disk: Disk, path: string, record: string): Disk { disk[path := Content(disk, path) + record] }

  lemma OtherBucket(disk: Disk, id: string, keys: seq<string>, count: nat, hash: string -> nat, b: nat, path: string, record: string)
    requires b < BUCKETS && count <= |keys| && BucketHolds(disk, id, keys, count, hash, b) && path != BucketPath(id, b)
    ensures BucketHolds(Append(disk, path, record), id, keys, count, hash, b)
  {
  }

  lemma OwnBucket(disk: Disk, id: string, keys: seq<string>, count: nat, hash: string -> nat)
    requires count < |keys| && BucketHolds(disk, id, keys, count, hash, BucketOf(hash, keys[count]))
    ensures var b := BucketOf(hash, keys[count]);
      BucketHolds(Append(disk, BucketPath(id, b), Record(count, keys[count])), id, keys, count + 1, hash, b)
  {
    hide Record, BucketPath;
    var b := BucketOf(hash, keys[count]);
    SerializedPush(Entries(keys, hash, b, count), (count, keys[count]));
  }

  lemma SameEntries(keys: seq<string>, hash: string -> nat, b: nat, count: nat)
    requires count < |keys| && BucketOf(hash, keys[count]) != b
    ensures Entries(keys, hash, b, count + 1) == Entries(keys, hash, b, count)
  {
    assert Entries(keys, hash, b, count) + [] == Entries(keys, hash, b, count);
  }

  /** One more row of rule `q`. */
  lemma SpilledNext(disk: Disk, rules: seq<UniqueRule>, keys: seq<seq<string>>, counts: seq<nat>, hash: string -> nat, q: nat)
    requires Spilled(disk, rules, keys, counts, hash) && DistinctRules(rules) && q < |rules| && counts[q] < |keys[q]|
    ensures var key := keys[q][counts[q]];
      Spilled(
        Append(disk, BucketPath(rules[q].id, BucketOf(hash, key)), Record(counts[q], key)),
        rules, keys, counts[q := counts[q] + 1], hash)
  {
    hide Record, Append, BucketPath, Entries, BucketHolds, SafeRule;
    var key := keys[q][counts[q]];
    var b := BucketOf(hash, key);
    var path := BucketPath(rules[q].id, b);
    var next := Append(disk, path, Record(counts[q], key));
    var counts' := counts[q := counts[q] + 1];
    forall q', b' | 0 <= q' < |rules| && 0 <= b' < BUCKETS
      ensures BucketHolds(next, rules[q'].id, keys[q'], counts'[q'], hash, b')
    {
      assert BucketHolds(disk, rules[q'].id, keys[q'], counts[q'], hash, b');
      if q' == q && b' == b {
        OwnBucket(disk, rules[q].id, keys[q], counts[q], hash);
      } else {
        if path == BucketPath(rules[q'].id, b') { PathsDiffer(rules[q].id, b, rules[q'].id, b'); }
        OtherBucket(disk, rules[q'].id, keys[q'], counts[q'], hash, b', path, Record(counts[q], key));
        if q' == q { OtherCount(next, rules[q].id, keys[q], counts[q], hash, b'); }
      }
    }
  }

  lemma OtherCount(disk: Disk, id: string, keys: seq<string>, count: nat, hash: string -> nat, b: nat)
    requires count < |keys| && b < BUCKETS && BucketOf(hash, keys[count]) != b && BucketHolds(disk, id, keys, count, hash, b)
    ensures BucketHolds(disk, id, keys, count + 1, hash, b)
  {
    SameEntries(keys, hash, b, count);
  }

  // ----- writing

  /** From `base` on the keys are the batch's. */
  ghost predicate KeysFrom(keys: seq<string>, base: nat, rule: UniqueRule, batch: Table)
    requires batch.Valid() && Found(rule, batch)
  {
    base + |batch.rows| <= |keys|
    && forall i :: 0 <= i < |batch.rows| ==> keys[base + i] == UniqueKey(KeyCellsOf(rule, batch, i))
  }

  /** The rows of one batch for one rule. */
  method SpillBatch(
    disk: Disk, rule: UniqueRule, batch: Table, base: nat, hash: string -> nat,
    ghost rules: seq<UniqueRule>, ghost keys: seq<seq<string>>, ghost counts: seq<nat>, ghost q: nat)
    returns (disk': Disk)
    requires batch.Valid() && Found(rule, batch) && DistinctRules(rules) && q < |rules| && rules[q] == rule
    requires Spilled(disk, rules, keys, counts, hash) && counts[q] == base && base + |batch.rows| <= |keys[q]|
    requires KeysFrom(keys[q], base, rule, batch)
    ensures Spilled(disk', rules, keys, counts[q := base + |batch.rows|], hash)
  {
    hide Spilled, UniqueKey, KeyCellsOf, Record, BucketPath, BucketOf;
    disk' := disk;
    SpilledLengths(disk, rules, keys, counts, hash);
    assert counts[q := base] == counts;
    for i := 0 to |batch.rows|
      invariant Spilled(disk', rules, keys, counts[q := base + i], hash)
    {
      var key := UniqueKey(KeyCellsOf(rule, batch, i));
      SpilledNext(disk', rules, keys, counts[q := base + i], hash, q);
      assert counts[q := base + i][q := base + i + 1] == counts[q := base + i + 1];
      var path := BucketPath(rule.id, BucketOf(hash, key));
      disk' := Append(disk', path, Record(base + i, key));
    }
  }

  lemma SpilledLengths(disk: Disk, rules: seq<UniqueRule>, keys: seq<seq<string>>, counts: seq<nat>, hash: string -> nat)
    requires Spilled(disk, rules, keys, counts, hash)
    ensures |keys| == |rules| == |counts| && forall q :: 0 <= q < |rules| ==> counts[q] <= |keys[q]|
  {
  }

  function Lengths(keys: seq<seq<string>>): (r: seq<nat>)
    ensures |r| == |keys| && forall q :: 0 <= q < |keys| ==> r[q] == |keys[q]|
  {
    seq(|keys|, q requires 0 <= q < |keys| => |keys[q]|)
  }

  /** All keys known so far are on disk. */
  ghost predicate Written(disk: Disk, rules: seq<UniqueRule>, keys: seq<seq<string>>, hash: string -> nat) {
    Spilled(disk, rules, keys, Lengths(keys), hash)
  }

  lemma {:induction false} EntriesOfPrefix(keys: seq<string>, longer: seq<string>, hash: string -> nat, b: nat, n: nat)
    requires n <= |keys| && keys <= longer
    ensures Entries(longer, hash, b, n) == Entries(keys, hash, b, n)
  {
    hide BucketOf;
    if n > 0 { EntriesOfPrefix(keys, longer, hash, b, n - 1); }
  }

  /** Learning later keys of a rule changes nothing on disk. */
  lemma KnowMore(
    disk: Disk, rules: seq<UniqueRule>, keys: seq<seq<string>>, counts: seq<nat>, hash: string -> nat, q: nat, longer: seq<string>)
    requires Spilled(disk, rules, keys, counts, hash) && q < |keys| && keys[q] <= longer
    ensures Spilled(disk, rules, keys[q := longer], counts, hash)
  {
    hide BucketHolds;
    var keys' := keys[q := longer];
    forall q', b | 0 <= q' < |rules| && 0 <= b < BUCKETS
      ensures BucketHolds(disk, rules[q'].id, keys'[q'], counts[q'], hash, b)
    {
      assert BucketHolds(disk, rules[q'].id, keys[q'], counts[q'], hash, b);
      if q' == q { SameBucket(disk, rules[q].id, keys[q], longer, counts[q], hash, b); }
    }
  }

  lemma SameBucket(
    disk: Disk, id: string, keys: seq<string>, longer: seq<string>, count: nat, hash: string -> nat, b: nat)
    requires b < BUCKETS && count <= |keys| && keys <= longer && BucketHolds(disk, id, keys, count, hash, b)
    ensures BucketHolds(disk, id, longer, count, hash, b)
  {
    hide BucketPath, Entries;
    EntriesOfPrefix(keys, longer, hash, b, count);
  }

  function RowCount(batches: seq<Table>, n: nat): nat
    requires n <= |batches|
  {
    if n == 0 then 0 else RowCount(batches, n - 1) + |batches[n - 1].rows|
  }

  lemma {:induction false} CellsPerRow(rule: UniqueRule, batches: seq<Table>, n: nat)
    requires AllValid(batches) && n <= |batches| && FoundIn(rule, batches, n)
    ensures |AllCells(rule, batches, n)| == RowCount(batches, n)
  {
    hide Found, BatchCells, KeyCellsOf;
    if n > 0 { CellsPerRow(rule, batches, n - 1); }
  }

  /** The keys of every rule over the first `n` batches, and over one more for the rules before `q`. */
  ghost predicate KeysUpTo(keys: seq<seq<string>>, rules: seq<UniqueRule>, batches: seq<Table>, n: nat, q: nat)
    requires AllValid(batches) && n < |batches|
  {
    |keys| == |rules| && forall p :: 0 <= p < |rules| ==> KeysAre(keys[p], rules[p], batches, if p < q then n + 1 else n)
  }

  ghost predicate KeysAre(keys: seq<string>, rule: UniqueRule, batches: seq<Table>, n: nat)
    requires AllValid(batches) && n <= |batches|
  {
    FoundIn(rule, batches, n) && keys == KeysOf(AllCells(rule, batches, n))
  }

  lemma KeysOfBoth(a: seq<seq<Cell>>, b: seq<seq<Cell>>)
    ensures KeysOf(a + b) == KeysOf(a) + KeysOf(b)
  {
    hide UniqueKey;
  }

  lemma CellsGrow(rule: UniqueRule, batches: seq<Table>, n: nat)
    requires AllValid(batches) && n < |batches| && FoundIn(rule, batches, n) && Found(rule, batches[n])
    ensures FoundIn(rule, batches, n + 1)
    ensures KeysOf(AllCells(rule, batches, n + 1))
         == KeysOf(AllCells(rule, batches, n)) + KeysOf(BatchCells(rule, batches[n]))
  {
    hide KeysOf, BatchCells, Found;
    assert FoundIn(rule, batches, n + 1);
    KeysOfBoth(AllCells(rule, batches, n), BatchCells(rule, batches[n]));
  }

  lemma KeysGrow(keys: seq<string>, rule: UniqueRule, batches: seq<Table>, n: nat)
    requires AllValid(batches) && n < |batches| && KeysAre(keys, rule, batches, n) && Found(rule, batches[n])
    ensures FoundIn(rule, batches, n + 1)
    ensures var longer := KeysOf(AllCells(rule, batches, n + 1));
      KeysAre(longer, rule, batches, n + 1) && keys <= longer && |keys| == RowCount(batches, n)
      && |longer| == |keys| + |batches[n].rows| && KeysFrom(longer, |keys|, rule, batches[n])
  {
    hide UniqueKey, KeyCellsOf, AllCells, BatchCells, KeysOf, Found, FoundIn;
    CellsPerRow(rule, batches, n);
    CellsGrow(rule, batches, n);
    var more := KeysOf(BatchCells(rule, batches[n]));
    forall i | 0 <= i < |batches[n].rows| ensures more[i] == UniqueKey(KeyCellsOf(rule, batches[n], i)) { }
  }

  lemma KeysUpToNext(keys: seq<seq<string>>, rules: seq<UniqueRule>, batches: seq<Table>, n: nat, q: nat, longer: seq<string>)
    requires AllValid(batches) && n < |batches| && q < |rules|
    requires KeysUpTo(keys, rules, batches, n, q) && KeysAre(longer, rules[q], batches, n + 1)
    ensures KeysUpTo(keys[q := longer], rules, batches, n, q + 1)
  {
    hide KeysAre;
  }

  lemma KeysUpToAt(keys: seq<seq<string>>, rules: seq<UniqueRule>, batches: seq<Table>, n: nat, q: nat)
    requires AllValid(batches) && n < |batches| && q < |rules| && KeysUpTo(keys, rules, batches, n, q)
    ensures |keys| == |rules| && KeysAre(keys[q], rules[q], batches, n)
  {
    hide KeysAre;
  }

  /** One rule for one batch. */
  method SpillRule(
    disk: Disk, rules: seq<UniqueRule>, batches: seq<Table>, n: nat, base: nat, hash: string -> nat, q: nat,
    ghost keys: seq<seq<string>>)
    returns (disk': Disk, ghost keys': seq<seq<string>>)
    requires AllValid(batches) && n < |batches| && DistinctRules(rules) && base == RowCount(batches, n) && q < |rules|
    requires Written(disk, rules, keys, hash) && KeysUpTo(keys, rules, batches, n, q) && Found(rules[q], batches[n])
    ensures Written(disk', rules, keys', hash) && KeysUpTo(keys', rules, batches, n, q + 1)
  {
    hide Spilled, KeysAre, UniqueKey, KeyCellsOf, DistinctRules, KeysUpTo, KeysFrom, AllCells, KeysOf, FoundIn, Found;
    KeysUpToAt(keys, rules, batches, n, q);
    KeysGrow(keys[q], rules[q], batches, n);
    ghost var longer := KeysOf(AllCells(rules[q], batches, n + 1));
    KnowMore(disk, rules, keys, Lengths(keys), hash, q, longer);
    keys' := keys[q := longer];
    disk' := SpillBatch(disk, rules[q], batches[n], base, hash, rules, keys', Lengths(keys), q);
    assert Lengths(keys)[q := |longer|] == Lengths(keys');
    KeysUpToNext(keys, rules, batches, n, q, longer);
  }

  /** All rules for one batch. */
  method SpillRules(
    disk: Disk, rules: seq<UniqueRule>, batches: seq<Table>, n: nat, base: nat, hash: string -> nat,
    ghost keys: seq<seq<string>>)
    returns (r: Result<Disk, SpillError>, ghost keys': seq<seq<string>>)
    requires AllValid(batches) && n < |batches| && DistinctRules(rules) && base == RowCount(batches, n)
    requires Written(disk, rules, keys, hash) && KeysUpTo(keys, rules, batches, n, 0)
    ensures r.Success? <==> forall q :: 0 <= q < |rules| ==> Found(rules[q], batches[n])
    ensures r.Success? ==> Written(r.value, rules, keys', hash) && KeysUpTo(keys', rules, batches, n, |rules|)
  {
    hide Written, KeysUpTo, DistinctRules, Found;
    var current := disk;
    keys' := keys;
    for q := 0 to |rules|
      invariant forall p :: 0 <= p < q ==> Found(rules[p], batches[n])
      invariant Written(current, rules, keys', hash) && KeysUpTo(keys', rules, batches, n, q)
    {
      if !Found(rules[q], batches[n]) { return Failure(ColumnNotFound), keys'; }
      current, keys' := SpillRule(current, rules, batches, n, base, hash, q, keys');
    }
    r := Success(current);
  }

  ghost predicate AllKeys(keys: seq<seq<string>>, rules: seq<UniqueRule>, batches: seq<Table>, n: nat)
    requires AllValid(batches) && n <= |batches|
  {
    |keys| == |rules| && forall q :: 0 <= q < |rules| ==> KeysAre(keys[q], rules[q], batches, n)
  }

  predicate RulesFound(rules: seq<UniqueRule>, batches: seq<Table>, n: nat)
    requires n <= |batches|
  {
    forall q :: 0 <= q < |rules| ==> FoundIn(rules[q], batches, n)
  }

  lemma NothingWritten(rules: seq<UniqueRule>, batches: seq<Table>, hash: string -> nat)
    requires AllValid(batches)
    ensures var keys: seq<seq<string>> := seq(|rules|, _ => []);
      Written(map[], rules, keys, hash) && AllKeys(keys, rules, batches, 0)
  {
  }

  lemma FoundNext(rules: seq<UniqueRule>, batches: seq<Table>, n: nat)
    requires n < |batches|
    ensures RulesFound(rules, batches, n + 1) <==>
              RulesFound(rules, batches, n) && forall q :: 0 <= q < |rules| ==> Found(rules[q], batches[n])
  {
    hide Found;
    if RulesFound(rules, batches, n + 1) {
      forall q | 0 <= q < |rules| ensures FoundIn(rules[q], batches, n) && Found(rules[q], batches[n]) {
        assert FoundIn(rules[q], batches, n + 1);
      }
    }
  }

  lemma {:induction false} FoundBefore(rules: seq<UniqueRule>, batches: seq<Table>, n: nat, m: nat)
    requires n <= m <= |batches| && RulesFound(rules, batches, m)
    ensures RulesFound(rules, batches, n)
  {
    hide Found;
    forall q | 0 <= q < |rules| ensures FoundIn(rules[q], batches, n) { assert FoundIn(rules[q], batches, m); }
  }

  /** The reading loop: every row of every batch is spilled once per rule. */
  method SpillAll(rules: seq<UniqueRule>, batches: seq<Table>, hash: string -> nat)
    returns (r: Result<Disk, SpillError>, ghost keys: seq<seq<string>>)
    requires AllValid(batches) && DistinctRules(rules)
    ensures r.Success? <==> RulesFound(rules, batches, |batches|)
    ensures r.Success? ==> Written(r.value, rules, keys, hash) && AllKeys(keys, rules, batches, |batches|)
  {
    hide Written, KeysAre, DistinctRules, FoundIn;
    var disk: Disk := map[];
    keys := seq(|rules|, _ => []);
    NothingWritten(rules, batches, hash);
    NothingMissing(rules, batches);
    var base := 0;
    for n := 0 to |batches|
      invariant base == RowCount(batches, n) && RulesFound(rules, batches, n)
      invariant Written(disk, rules, keys, hash) && AllKeys(keys, rules, batches, n)
    {
      FoundNext(rules, batches, n);
      var more;
      more, keys := SpillRules(disk, rules, batches, n, base, hash, keys);
      if more.Failure? {
        if RulesFound(rules, batches, |batches|) { FoundBefore(rules, batches, n + 1, |batches|); }
        return Failure(more.error), keys;
      }
      disk := more.value;
      base := base + |batches[n].rows|;
    }
    r := Success(disk);
  }

  lemma NothingMissing(rules: seq<UniqueRule>, batches: seq<Table>)
    ensures RulesFound(rules, batches, 0)
  {
  }

  // ----- counting a bucket

  function EntryKeys(entries: seq<(nat, string)>): set<string> { set i | 0 <= i < |entries| :: entries[i].1 }

  lemma EntryKeysPush(entries: seq<(nat, string)>, i: nat)
    requires i < |entries|
    ensures EntryKeys(entries[..i + 1]) == EntryKeys(entries[..i]) + {entries[i].1}
  {
  }

  predicate ShortKeys(entries: seq<(nat, string)>) { forall i :: 0 <= i < |entries| ==> |entries[i].1| <= U32_MAX }

  lemma SerializedSplits(entries: seq<(nat, string)>, i: nat)
    requires i <= |entries|
    ensures i == |entries| ==> Serialized(entries[i..]) == ""
    ensures i < |entries| ==> Serialized(entries[i..]) == Record(entries[i].0, entries[i].1) + Serialized(entries[i + 1..])
  {
    hide Record;
    if i < |entries| { assert entries[i..][1..] == entries[i + 1..]; }
  }

  /** The loop over one bucket file: a key seen before is a violation. The records were written whole, so
      reading one cannot fail. */
  method CountBucket(bytes: string, ghost entries: seq<(nat, string)>) returns (violations: nat)
    requires bytes == Serialized(entries) && ShortKeys(entries)
    ensures violations + |EntryKeys(entries)| == |entries|
  {
    hide Serialized, Record, EntryKeys, ReadSpilledKey;
    var rest := bytes;
    var seen: set<string> := {};
    violations := 0;
    ghost var i := 0;
    NoEntryKeys(entries);
    assert entries[0..] == entries;
    while true
      invariant i <= |entries| && rest == Serialized(entries[i..])
      invariant seen == EntryKeys(entries[..i]) && violations + |seen| == i
      decreases |entries| - i
    {
      SerializedSplits(entries, i);
      if i < |entries| { RecordReadsBack(entries[i].0, entries[i].1, Serialized(entries[i + 1..])); } else { EmptyReadsNothing(); }
      var read_ := ReadSpilledKey(rest);
      if read_.value.EndOfFile? { break; }
      var key := read_.value.key;
      EntryKeysPush(entries, i);
      if key in seen { violations := violations + 1; } else { seen := seen + {key}; }
      rest := read_.value.rest;
      i := i + 1;
    }
    assert entries[..|entries|] == entries;
  }

  lemma NoEntryKeys(entries: seq<(nat, string)>)
    ensures EntryKeys(entries[..0]) == {}
  {
  }

  lemma EmptyReadsNothing()
    ensures ReadSpilledKey("") == Success(EndOfFile)
  {
  }

  // ----- the buckets together

  /** How many of the first `n` keys fall into the first `b` buckets, and which keys those are. */
  function Below(keys: seq<string>, hash: string -> nat, b: nat, n: nat): nat
    requires n <= |keys|
  {
    if n == 0 then 0 else Below(keys, hash, b, n - 1) + if BucketOf(hash, keys[n - 1]) < b then 1 else 0
  }

  function KeysBelow(keys: seq<string>, hash: string -> nat, b: nat): set<string> {
    set i | 0 <= i < |keys| && BucketOf(hash, keys[i]) < b :: keys[i]
  }

  function KeySet(keys: seq<string>): set<string> { set i | 0 <= i < |keys| :: keys[i] }

  lemma {:induction false} BelowStep(keys: seq<string>, hash: string -> nat, b: nat, n: nat)
    requires n <= |keys|
    ensures Below(keys, hash, b + 1, n) == Below(keys, hash, b, n) + |Entries(keys, hash, b, n)|
  {
    hide BucketOf;
    if n > 0 { BelowStep(keys, hash, b, n - 1); }
  }

  lemma {:induction false} AllBelow(keys: seq<string>, hash: string -> nat, n: nat)
    requires n <= |keys|
    ensures Below(keys, hash, 0, n) == 0 && Below(keys, hash, BUCKETS, n) == n
  {
    if n > 0 { AllBelow(keys, hash, n - 1); }
  }

  lemma {:induction false} EntryKeysAre(keys: seq<string>, hash: string -> nat, b: nat, n: nat)
    requires n <= |keys|
    ensures EntryKeys(Entries(keys, hash, b, n)) == set i | 0 <= i < n && BucketOf(hash, keys[i]) == b :: keys[i]
  {
    hide BucketOf;
    if n > 0 {
      EntryKeysAre(keys, hash, b, n - 1);
      var before, all := Entries(keys, hash, b, n - 1), Entries(keys, hash, b, n);
      if BucketOf(hash, keys[n - 1]) == b {
        assert all[..|before|] == before;
        EntryKeysPush(all, |before|);
        assert all[..|all|] == all;
      } else {
        assert before + [] == before;
      }
    }
  }

  /** Each key lies in one bucket, so the buckets' key sets are disjoint. */
  lemma KeysBelowStep(keys: seq<string>, hash: string -> nat, b: nat)
    ensures |KeysBelow(keys, hash, b + 1)| == |KeysBelow(keys, hash, b)| + |EntryKeys(Entries(keys, hash, b, |keys|))|
  {
    hide BucketOf, EntryKeys, Entries;
    EntryKeysAre(keys, hash, b, |keys|);
    var here := EntryKeys(Entries(keys, hash, b, |keys|));
    assert KeysBelow(keys, hash, b + 1) == KeysBelow(keys, hash, b) + here;
    assert KeysBelow(keys, hash, b) !! here;
  }

  lemma AllKeysBelow(keys: seq<string>, hash: string -> nat)
    ensures KeysBelow(keys, hash, 0) == {} && KeysBelow(keys, hash, BUCKETS) == KeySet(keys)
  {
  }

  predicate AllShort(keys: seq<string>) { forall i :: 0 <= i < |keys| ==> |keys[i]| <= U32_MAX }

  /** The bucket loop of one rule. */
  method CountRule(disk: Disk, id: string, ghost keys: seq<string>, ghost hash: string -> nat) returns (violations: nat)
    requires forall b :: 0 <= b < BUCKETS ==> BucketHolds(disk, id, keys, |keys|, hash, b)
    requires AllShort(keys)
    ensures violations + |KeySet(keys)| == |keys|
  {
    hide BucketHolds, Serialized, Entries, BucketPath, Below, KeysBelow, EntryKeys, ShortKeys, Content, BucketOf;
    AllBelow(keys, hash, |keys|);
    AllKeysBelow(keys, hash);
    violations := 0;
    for bucket := 0 to BUCKETS
      invariant violations + |KeysBelow(keys, hash, bucket)| == Below(keys, hash, bucket, |keys|)
    {
      BelowStep(keys, hash, bucket, |keys|);
      KeysBelowStep(keys, hash, bucket);
      HoldsMeans(disk, id, keys, hash, bucket);
      var path := BucketPath(id, bucket);
      if path in disk {
        ContentOfFile(disk, path);
        var more := CountBucket(disk[path], Entries(keys, hash, bucket, |keys|));
        violations := violations + more;
      } else {
        NoFile(disk, id, keys, hash, bucket);
      }
    }
  }

  lemma ContentOfFile(disk: Disk, path: string)
    requires path in disk
    ensures Content(disk, path) == disk[path]
  {
  }

  lemma HoldsMeans(disk: Disk, id: string, keys: seq<string>, hash: string -> nat, b: nat)
    requires b < BUCKETS && BucketHolds(disk, id, keys, |keys|, hash, b) && AllShort(keys)
    ensures Content(disk, BucketPath(id, b)) == Serialized(Entries(keys, hash, b, |keys|))
    ensures ShortKeys(Entries(keys, hash, b, |keys|))
  {
  }

  lemma NoFile(disk: Disk, id: string, keys: seq<string>, hash: string -> nat, b: nat)
    requires b < BUCKETS && BucketHolds(disk, id, keys, |keys|, hash, b) && BucketPath(id, b) !in disk
    ensures Entries(keys, hash, b, |keys|) == [] && EntryKeys(Entries(keys, hash, b, |keys|)) == {}
  {
    NothingSerialized(Entries(keys, hash, b, |keys|));
  }

  lemma NothingSerialized(entries: seq<(nat, string)>)
    ensures Serialized(entries) == "" <==> entries == []
  {
  }

  // ----- distinct keys are distinct cells

  function CellSet(cells: seq<seq<Cell>>): set<seq<Cell>> { set i | 0 <= i < |cells| :: cells[i] }

  predicate AllShortCells(cells: seq<seq<Cell>>) { forall i :: 0 <= i < |cells| ==> ShortKey(cells[i]) }

  predicate OneWidth(cells: seq<seq<Cell>>) { forall i, j :: 0 <= i < j < |cells| ==> |cells[i]| == |cells[j]| }

  lemma KeySetPush(keys: seq<string>)
    requires keys != []
    ensures KeySet(keys) == KeySet(keys[..|keys| - 1]) + {keys[|keys| - 1]}
  {
  }

  lemma CellSetPush(cells: seq<seq<Cell>>)
    requires cells != []
    ensures CellSet(cells) == CellSet(cells[..|cells| - 1]) + {cells[|cells| - 1]}
  {
  }

  lemma KeysOfInit(cells: seq<seq<Cell>>)
    requires cells != []
    ensures KeysOf(cells)[..|cells| - 1] == KeysOf(cells[..|cells| - 1])
  {
    hide UniqueKey;
  }

  lemma InitFits(cells: seq<seq<Cell>>)
    requires cells != [] && AllShortCells(cells) && OneWidth(cells)
    ensures AllShortCells(cells[..|cells| - 1]) && OneWidth(cells[..|cells| - 1])
  {
    hide ShortKey;
  }

  lemma {:induction false} AsManyKeysAsCells(cells: seq<seq<Cell>>)
    requires AllShortCells(cells) && OneWidth(cells)
    ensures |KeySet(KeysOf(cells))| == |CellSet(cells)|
    decreases |cells|, 1
  {
    if cells == [] {
      assert KeySet(KeysOf(cells)) == {} && CellSet(cells) == {};
    } else {
      AsManyNext(cells);
    }
  }

  lemma {:induction false} AsManyNext(cells: seq<seq<Cell>>)
    requires cells != [] && AllShortCells(cells) && OneWidth(cells)
    ensures |KeySet(KeysOf(cells))| == |CellSet(cells)|
    decreases |cells|, 0
  {
    hide *;
    InitFits(cells);
    AsManyKeysAsCells(cells[..|cells| - 1]);
    KeySeenIffCellsSeen(cells);
    KeysOfInit(cells);
    KeySetPush(KeysOf(cells));
    CellSetPush(cells);
    var last := |cells| - 1;
    OneMore(KeySet(KeysOf(cells[..last])), KeysOf(cells)[last]);
    OneMore(CellSet(cells[..last]), cells[last]);
  }

  lemma OneMore<T>(s: set<T>, x: T)
    ensures |s + {x}| == |s| + if x in s then 0 else 1
  {
    if x in s { assert s + {x} == s; }
  }

  lemma KeySeenIffCellsSeen(cells: seq<seq<Cell>>)
    requires cells != [] && AllShortCells(cells) && OneWidth(cells)
    ensures var last := |cells| - 1;
      KeysOf(cells)[last] in KeySet(KeysOf(cells[..last])) <==> cells[last] in CellSet(cells[..last])
  {
    hide UniqueKey, ShortKey;
    var last := |cells| - 1;
    var before := KeysOf(cells[..last]);
    if KeysOf(cells)[last] in KeySet(before) {
      var i :| 0 <= i < |before| && before[i] == KeysOf(cells)[last];
      UniqueKeyIsInjective(cells[i], cells[last]);
      assert cells[..last][i] == cells[last];
    }
    if cells[last] in CellSet(cells[..last]) {
      var i :| 0 <= i < last && cells[..last][i] == cells[last];
      assert before[i] == KeysOf(cells)[last];
    }
  }

  // ----- the whole check

  /** The keys fit the record format: their encodings are shorter than 2^32 bytes. */
  ghost predicate KeysFit(rules: seq<UniqueRule>, batches: seq<Table>)
    requires AllValid(batches)
  {
    forall q :: 0 <= q < |rules| && FoundIn(rules[q], batches, |batches|) ==> AllShortCells(AllCells(rules[q], batches, |batches|))
  }

  /** Rows that repeat an earlier row's key. */
  ghost predicate CountsDuplicates(count: nat, rule: UniqueRule, batches: seq<Table>)
    requires AllValid(batches) && FoundIn(rule, batches, |batches|)
  {
    var cells := AllCells(rule, batches, |batches|);
    count + |CellSet(cells)| == |cells|
  }

  lemma WrittenBuckets(disk: Disk, rules: seq<UniqueRule>, keys: seq<seq<string>>, hash: string -> nat, q: nat)
    requires Written(disk, rules, keys, hash) && q < |rules|
    ensures |keys| == |rules|
    ensures forall b :: 0 <= b < BUCKETS ==> BucketHolds(disk, rules[q].id, keys[q], |keys[q]|, hash, b)
  {
    hide BucketHolds;
  }

  lemma CountMeans(count: nat, keys: seq<string>, rule: UniqueRule, batches: seq<Table>)
    requires AllValid(batches) && KeysAre(keys, rule, batches, |batches|)
    requires AllShortCells(AllCells(rule, batches, |batches|)) && count + |KeySet(keys)| == |keys|
    ensures CountsDuplicates(count, rule, batches)
  {
    hide KeySet, CellSet, AllShortCells, AllCells, UniqueKey;
    var cells := AllCells(rule, batches, |batches|);
    assert OneWidth(cells);
    AsManyKeysAsCells(cells);
  }

  lemma ShortTexts(keys: seq<string>, rule: UniqueRule, batches: seq<Table>)
    requires AllValid(batches) && KeysAre(keys, rule, batches, |batches|) && AllShortCells(AllCells(rule, batches, |batches|))
    ensures AllShort(keys)
  {
    hide AllCells, UniqueKey;
  }

  /** The unique rules of `validate_dataset`. For every hash function and every split of the rows into
      batches and files, the count of a rule is the number of rows minus the number of distinct keys. */
  method CheckUnique(rules: seq<UniqueRule>, batches: seq<Table>, hash: string -> nat)
    returns (r: Result<seq<nat>, SpillError>)
    requires AllValid(batches) && DistinctRules(rules) && KeysFit(rules, batches)
    ensures r.Success? <==> RulesFound(rules, batches, |batches|)
    ensures r.Success? ==>
      |r.value| == |rules| && forall q :: 0 <= q < |rules| ==>
        FoundIn(rules[q], batches, |batches|) && CountsDuplicates(r.value[q], rules[q], batches)
  {
    hide *;
    ghost var keys;
    var disk;
    disk, keys := SpillAll(rules, batches, hash);
    if disk.Failure? { return Failure(disk.error); }
    var counts: seq<nat> := [];
    for q := 0 to |rules|
      invariant |counts| == q
      invariant forall p :: 0 <= p < q ==> RuleCounted(counts[p], rules[p], batches)
    {
      var count := CountOneRule(disk.value, rules, batches, q, hash, keys);
      counts := counts + [count];
    }
    AllCounted(counts, rules, batches);
    r := Success(counts);
  }

  /** The count of one rule from its bucket files. */
  method CountOneRule(
    disk: Disk, rules: seq<UniqueRule>, batches: seq<Table>, q: nat, ghost hash: string -> nat, ghost keys: seq<seq<string>>)
    returns (count: nat)
    requires AllValid(batches) && KeysFit(rules, batches) && q < |rules|
    requires Written(disk, rules, keys, hash) && AllKeys(keys, rules, batches, |batches|)
    ensures RuleCounted(count, rules[q], batches)
  {
    hide Written, AllShortCells, AllShort, FoundIn, KeySet, BucketHolds, CountsDuplicates, KeysOf, AllCells;
    assert KeysAre(keys[q], rules[q], batches, |batches|) && FoundIn(rules[q], batches, |batches|);
    WrittenBuckets(disk, rules, keys, hash, q);
    ShortTexts(keys[q], rules[q], batches);
    count := CountRule(disk, rules[q].id, keys[q], hash);
    CountMeans(count, keys[q], rules[q], batches);
  }

  ghost predicate RuleCounted(count: nat, rule: UniqueRule, batches: seq<Table>)
    requires AllValid(batches)
  {
    FoundIn(rule, batches, |batches|) && CountsDuplicates(count, rule, batches)
  }

  lemma AllCounted(counts: seq<nat>, rules: seq<UniqueRule>, batches: seq<Table>)
    requires AllValid(batches) && |counts| == |rules| && forall q :: 0 <= q < |rules| ==> RuleCounted(counts[q], rules[q], batches)
    ensures forall q :: 0 <= q < |rules| ==> FoundIn(rules[q], batches, |batches|) && CountsDuplicates(counts[q], rules[q], batches)
  {
    hide FoundIn, CountsDuplicates;
  }
}
