/** Dropping dead columns between layers does not change the final columns
    (native/engine/src/expression_executor.rs). */
module DeadColumns {
  import opened Wrappers
  import opened Ast
  import opened Columns
  import opened Evaluator
  import opened References
  import opened Layers
  import opened Engine

  // ----- restricting

  function Kept(entry: Entry, names: set<string>): seq<Entry> { if entry.name in names then [entry] else [] }

  lemma RestrictLast(entries: seq<Entry>, names: set<string>)
    requires entries != []
    ensures Restrict(entries, names) == Restrict(entries[..|entries| - 1], names) + Kept(entries[|entries| - 1], names)
    ensures entries == entries[..|entries| - 1] + [entries[|entries| - 1]]
  {
  }

  lemma RestrictAppends(entries: seq<Entry>, entry: Entry, names: set<string>)
    ensures Restrict(entries + [entry], names) == Restrict(entries, names) + Kept(entry, names)
  {
    assert (entries + [entry])[..|entries|] == entries;
  }

  lemma RestrictNothing(names: set<string>)
    ensures Restrict([], names) == []
  {
  }

  lemma {:induction false} RestrictTwice(entries: seq<Entry>, more: set<string>, fewer: set<string>)
    requires fewer <= more
    ensures Restrict(Restrict(entries, more), fewer) == Restrict(entries, fewer)
  {
    hide Restrict;
    if entries == [] {
      RestrictNothing(more);
      RestrictNothing(fewer);
    } else {
      var last := |entries| - 1;
      RestrictTwice(entries[..last], more, fewer);
      RestrictLast(entries, more);
      RestrictLast(entries, fewer);
      var kept := Restrict(entries[..last], more);
      RestrictAppends(kept, entries[last], fewer);
      assert kept + [] == kept;
    }
  }

  lemma {:induction false} RestrictReplaces(entries: seq<Entry>, i: nat, entry: Entry, names: set<string>)
    requires i < |entries| && entries[i].name == entry.name && entry.name !in names
    ensures Restrict(entries[i := entry], names) == Restrict(entries, names)
  {
    hide Restrict;
    var last := |entries| - 1;
    RestrictLast(entries, names);
    RestrictLast(entries[i := entry], names);
    if i < last {
      assert entries[i := entry][..last] == entries[..last][i := entry];
      RestrictReplaces(entries[..last], i, entry, names);
    } else {
      assert entries[i := entry][..last] == entries[..last];
    }
  }

  lemma {:induction false} PositionAppends(entries: seq<Entry>, entry: Entry, name: string)
    ensures Position(entries + [entry], name)
         == if Position(entries, name).Some? then Position(entries, name)
            else if entry.name == name then Some(|entries|) else None
  {
    if entries != [] {
      assert (entries + [entry])[1..] == entries[1..] + [entry];
      PositionAppends(entries[1..], entry, name);
    }
  }

  /** Restricting keeps the first entry of a kept name first. */
  lemma {:induction false} RestrictFinds(entries: seq<Entry>, names: set<string>, name: string)
    requires name in names
    ensures Find(Restrict(entries, names), name) == Find(entries, name)
  {
    if entries != [] {
      var last := |entries| - 1;
      RestrictFinds(entries[..last], names, name);
      assert entries == entries[..last] + [entries[last]];
      PositionAppends(entries[..last], entries[last], name);
      PositionAppends(Restrict(entries[..last], names), entries[last], name);
      assert Restrict(entries[..last], names) + [] == Restrict(entries[..last], names);
    }
  }

  /** Replacing the first entry of a kept name, seen after restricting. */
  lemma {:induction false} RestrictReplacesFirst(entries: seq<Entry>, i: nat, entry: Entry, names: set<string>)
    requires Position(entries, entry.name) == Some(i) && entry.name in names
    ensures var kept := Restrict(entries, names);
      Position(kept, entry.name).Some?
      && Restrict(entries[i := entry], names) == kept[Position(kept, entry.name).value := entry]
  {
    hide Restrict, Position;
    var last := |entries| - 1;
    var before := Restrict(entries[..last], names);
    RestrictLast(entries, names);
    RestrictLast(entries[i := entry], names);
    PositionAppends(entries[..last], entries[last], entry.name);
    PositionAppends(before, entries[last], entry.name);
    if i < last {
      FirstIsBefore(entries, i, entry.name);
      RestrictReplacesFirst(entries[..last], i, entry, names);
      assert entries[i := entry][..last] == entries[..last][i := entry];
      ReplaceInFront(before, Kept(entries[last], names), Position(before, entry.name).value, entry);
      assert before + [] == before;
    } else {
      NotKept(entries[..last], names, entry.name);
      assert entries[i := entry][..last] == entries[..last];
      assert (before + [entries[last]])[|before| := entry] == before + [entry];
    }
  }

  lemma FirstIsBefore(entries: seq<Entry>, i: nat, name: string)
    requires Position(entries, name) == Some(i) && i < |entries| - 1
    ensures Position(entries[..|entries| - 1], name) == Some(i)
  {
    hide Position;
    PositionAppends(entries[..|entries| - 1], entries[|entries| - 1], name);
    assert entries == entries[..|entries| - 1] + [entries[|entries| - 1]];
  }

  lemma ReplaceInFront(a: seq<Entry>, b: seq<Entry>, i: nat, entry: Entry)
    requires i < |a|
    ensures (a + b)[i := entry] == a[i := entry] + b
  {
  }

  lemma {:induction false} NotKept(entries: seq<Entry>, names: set<string>, name: string)
    requires Position(entries, name).None?
    ensures Position(Restrict(entries, names), name).None?
  {
    if entries != [] {
      var last := |entries| - 1;
      assert entries == entries[..last] + [entries[last]];
      PositionAppends(entries[..last], entries[last], name);
      NotKept(entries[..last], names, name);
      PositionAppends(Restrict(entries[..last], names), entries[last], name);
      assert Restrict(entries[..last], names) + [] == Restrict(entries[..last], names);
    }
  }

  /** What a new column does to the kept entries depends on the kept entries only. */
  lemma RestrictPut(entries: seq<Entry>, entry: Entry, names: set<string>)
    requires AllProper(entries) && Proper(entry.data)
    ensures AllProper(Restrict(entries, names))
    ensures Restrict(Put(entries, entry), names)
         == if entry.name in names then Put(Restrict(entries, names), entry) else Restrict(entries, names)
  {
    hide Restrict, Proper;
    match Position(entries, entry.name)
    case Some(i) =>
      if entry.name in names {
        RestrictReplacesFirst(entries, i, entry, names);
      } else {
        RestrictReplaces(entries, i, entry, names);
      }
    case None =>
      RestrictAppends(entries, entry, names);
      NotKept(entries, names, entry.name);
  }

  // ----- which entries of a layer's result fit

  function First(entries: seq<Entry>, name: string): Option<Entry> {
    var i :- Position(entries, name);
    Some(entries[i])
  }

  lemma PutFirst(entries: seq<Entry>, entry: Entry, name: string)
    requires AllProper(entries) && Proper(entry.data)
    ensures First(Put(entries, entry), name) == if name == entry.name then Some(entry) else First(entries, name)
  {
    var put := Put(entries, entry);
    match Position(entries, entry.name)
    case Some(i) =>
      assert forall j :: 0 <= j < |entries| && j != i ==> put[j] == entries[j];
      SamePosition(put, entries, name);
    case None => PositionAppends(entries, entry, name);
  }

  lemma SamePosition(a: seq<Entry>, b: seq<Entry>, name: string)
    requires |a| == |b| && forall i :: 0 <= i < |a| ==> a[i].name == b[i].name
    ensures Position(a, name) == Position(b, name)
  {
  }

  /** Entries that are not the first of a name in `done` fit the batch; all have its length. */
  ghost predicate OthersFit(entries: seq<Entry>, done: set<string>, rows: nat) {
    (forall i | 0 <= i < |entries| :: OtherFits(entries, i, done, rows))
    && forall name :: name in done ==> Position(entries, name).Some?
  }

  ghost predicate OtherFits(entries: seq<Entry>, i: nat, done: set<string>, rows: nat)
    requires i < |entries|
  {
    Proper(entries[i].data) && Len(entries[i].data) == rows
    && (EntryFits(entries[i], rows) || (entries[i].name in done && Position(entries, entries[i].name) == Some(i)))
  }

  lemma PutOthersFit(entries: seq<Entry>, entry: Entry, done: set<string>, rows: nat)
    requires OthersFit(entries, done, rows) && AllProper(entries) && Proper(entry.data) && Len(entry.data) == rows
    ensures OthersFit(Put(entries, entry), done + {entry.name}, rows)
  {
    hide Proper, EntryFits;
    var put := Put(entries, entry);
    forall name ensures First(put, name) == if name == entry.name then Some(entry) else First(entries, name) {
      PutFirst(entries, entry, name);
    }
    match Position(entries, entry.name)
    case Some(p) =>
      forall i | 0 <= i < |put| ensures OtherFits(put, i, done + {entry.name}, rows) {
        assert OtherFits(entries, i, done, rows);
        SamePosition(put, entries, put[i].name);
      }
      forall name | name in done + {entry.name} ensures Position(put, name).Some? { SamePosition(put, entries, name); }
    case None =>
      forall i | 0 <= i < |put| ensures OtherFits(put, i, done + {entry.name}, rows) {
        PositionAppends(entries, entry, put[i].name);
        if i < |entries| { assert OtherFits(entries, i, done, rows); }
      }
      forall name | name in done + {entry.name} ensures Position(put, name).Some? { PositionAppends(entries, entry, name); }
  }

  ghost predicate FirstFits(entries: seq<Entry>, name: string, rows: nat) {
    First(entries, name).Some? && EntryFits(First(entries, name).value, rows)
  }

  lemma FitByFirsts(entries: seq<Entry>, done: set<string>, rows: nat)
    requires OthersFit(entries, done, rows)
    ensures AllFit(entries, rows) <==> forall name :: name in done ==> FirstFits(entries, name, rows)
  {
    hide Proper, EntryFits;
    if forall name :: name in done ==> FirstFits(entries, name, rows) {
      forall i | 0 <= i < |entries| ensures EntryFits(entries[i], rows) {
        assert OtherFits(entries, i, done, rows);
        assert entries[i].name in done ==> FirstFits(entries, entries[i].name, rows);
      }
    }
    if AllFit(entries, rows) {
      forall name | name in done ensures FirstFits(entries, name, rows) {
        assert EntryFits(entries[Position(entries, name).value], rows);
      }
    }
  }

  // ----- one layer on both batches

  /** The two batches agree on the live columns. */
  ghost predicate Related(full: Batch, kept: Batch, live: set<string>) {
    && ValidBatch(full) && ValidBatch(kept) && full.rows == kept.rows
    && Restrict(full.entries, live) == Restrict(kept.entries, live)
    && (full.entries == [] <==> kept.entries == [])
  }

  /** The live columns hold everything the layer refers to and everything live after it. */
  ghost predicate Covers(live: set<string>, layer: seq<Item>, later: set<string>) {
    ItemRefs(layer) <= live && later <= live
  }

  lemma RelatedEvaluates(
    k: Kernels, layer: seq<Item>, i: nat, full: Batch, kept: Batch, live: set<string>, later: set<string>)
    requires Related(full, kept, live) && i < |layer| && Covers(live, layer, later)
    ensures EvaluateProper(k, layer[i].expr, full).Success? == EvaluateProper(k, layer[i].expr, kept).Success?
    ensures var x, y := EvaluateProper(k, layer[i].expr, full), EvaluateProper(k, layer[i].expr, kept);
      x.Success? ==> x == y && Proper(x.value) && Len(x.value) == full.rows
  {
    hide Evaluate, Refs, Mentions, ValidBatch;
    var node := layer[i].expr;
    RefsAreMentions(node);
    forall name | Mentions(node, name) ensures Lookup(full, name) == Lookup(kept, name) {
      assert name in Refs(layer[i].expr) && name in ItemRefs(layer);
      RestrictFinds(full.entries, live, name);
      RestrictFinds(kept.entries, live, name);
    }
    EvaluateDependsOnMentions(k, node, full, kept);
  }

  function NamesUpTo(layer: seq<Item>, n: nat): set<string>
    requires n <= |layer|
  {
    if n == 0 then {} else NamesUpTo(layer, n - 1) + {layer[n - 1].name}
  }

  /** What holds of the two entry lists inside a layer. */
  ghost predicate InStep(a: seq<Entry>, b: seq<Entry>, done: set<string>, later: set<string>, rows: nat) {
    && AllProper(a) && AllProper(b)
    && OthersFit(a, done, rows) && OthersFit(b, done, rows)
    && Restrict(a, later) == Restrict(b, later)
    && (a == [] <==> b == [])
    && forall name :: name in done ==> First(a, name) == First(b, name)
  }

  lemma InStepStart(full: Batch, kept: Batch, live: set<string>, later: set<string>)
    requires Related(full, kept, live) && later <= live
    ensures InStep(full.entries, kept.entries, {}, later, full.rows)
  {
    hide Proper, Restrict;
    EntriesProper(full);
    EntriesProper(kept);
    RestrictTwice(full.entries, live, later);
    RestrictTwice(kept.entries, live, later);
    FittingOthersFit(full);
    FittingOthersFit(kept);
  }

  lemma FittingOthersFit(batch: Batch)
    requires ValidBatch(batch)
    ensures OthersFit(batch.entries, {}, batch.rows)
  {
    forall i | 0 <= i < |batch.entries| ensures OtherFits(batch.entries, i, {}, batch.rows) {
      assert EntryFits(batch.entries[i], batch.rows);
    }
  }

  lemma InStepPut(a: seq<Entry>, b: seq<Entry>, done: set<string>, later: set<string>, rows: nat, entry: Entry)
    requires InStep(a, b, done, later, rows) && Proper(entry.data) && Len(entry.data) == rows
    ensures InStep(Put(a, entry), Put(b, entry), done + {entry.name}, later, rows)
  {
    hide Proper, Restrict, OthersFit;
    PutOthersFit(a, entry, done, rows);
    PutOthersFit(b, entry, done, rows);
    RestrictPut(a, entry, later);
    RestrictPut(b, entry, later);
    forall name | name in done + {entry.name} ensures First(Put(a, entry), name) == First(Put(b, entry), name) {
      PutFirst(a, entry, name);
      PutFirst(b, entry, name);
    }
    PutIsNotEmpty(a, entry);
    PutIsNotEmpty(b, entry);
  }

  lemma PutIsNotEmpty(entries: seq<Entry>, entry: Entry)
    requires AllProper(entries) && Proper(entry.data)
    ensures Put(entries, entry) != []
  {
  }

  lemma RunNoItems(k: Kernels, layer: seq<Item>, input: Batch)
    requires ValidBatch(input)
    ensures RunItems(k, layer, input, 0) == Success(input.entries) && NamesUpTo(layer, 0) == {}
  {
  }

  /** One more expression. */
  lemma RunItemsStep(k: Kernels, layer: seq<Item>, input: Batch, n: nat)
    requires ValidBatch(input) && 0 < n <= |layer|
    ensures NamesUpTo(layer, n) == NamesUpTo(layer, n - 1) + {layer[n - 1].name}
    ensures RunItems(k, layer, input, n)
         == PutResult(RunItems(k, layer, input, n - 1), layer[n - 1], EvaluateProper(k, layer[n - 1].expr, input))
  {
    hide EvaluateProper, Put, ValidBatch;
  }

  ghost predicate ItemsRelated(
    a: Result<seq<Entry>, EvalError>, b: Result<seq<Entry>, EvalError>, done: set<string>, later: set<string>, rows: nat)
  {
    a.Success? == b.Success? && (a.Success? ==> InStep(a.value, b.value, done, later, rows))
  }

  function PutResult(
    entries: Result<seq<Entry>, EvalError>, item: Item, value: Result<Array, EvalError>): Result<seq<Entry>, EvalError>
    requires entries.Success? ==> AllProper(entries.value)
    requires value.Success? ==> Proper(value.value)
  {
    var es :- entries;
    var v :- value;
    Success(Put(es, Entry(item.name, item.nullable, v)))
  }

  lemma PutRelated(
    a: Result<seq<Entry>, EvalError>, b: Result<seq<Entry>, EvalError>, done: set<string>, later: set<string>, rows: nat,
    item: Item, x: Result<Array, EvalError>, y: Result<Array, EvalError>)
    requires ItemsRelated(a, b, done, later, rows)
    requires x.Success? == y.Success? && (x.Success? ==> x == y && Proper(x.value) && Len(x.value) == rows)
    ensures a.Success? ==> AllProper(a.value) && AllProper(b.value)
    ensures ItemsRelated(PutResult(a, item, x), PutResult(b, item, y), done + {item.name}, later, rows)
  {
    if a.Success? {
      assert AllProper(a.value) && AllProper(b.value);
      hide InStep, Put, Proper;
      if x.Success? {
        InStepPut(a.value, b.value, done, later, rows, Entry(item.name, item.nullable, x.value));
      }
    }
  }

  lemma {:induction false} ItemsInStep(
    k: Kernels, layer: seq<Item>, full: Batch, kept: Batch, live: set<string>, later: set<string>, n: nat)
    requires Related(full, kept, live) && Covers(live, layer, later) && n <= |layer|
    ensures ItemsRelated(RunItems(k, layer, full, n), RunItems(k, layer, kept, n), NamesUpTo(layer, n), later, full.rows)
  {
    hide *;
    RelatedIsValid(full, kept, live);
    if n == 0 {
      RunNoItems(k, layer, full);
      RunNoItems(k, layer, kept);
      ItemsStart(layer, full, kept, live, later);
    } else {
      ItemsInStep(k, layer, full, kept, live, later, n - 1);
      NextItemInStep(k, layer, full, kept, live, later, n);
    }
  }

  lemma NextItemInStep(k: Kernels, layer: seq<Item>, full: Batch, kept: Batch, live: set<string>, later: set<string>, n: nat)
    requires Related(full, kept, live) && Covers(live, layer, later) && 0 < n <= |layer|
    requires ItemsRelated(
               RunItems(k, layer, full, n - 1), RunItems(k, layer, kept, n - 1), NamesUpTo(layer, n - 1), later, full.rows)
    ensures ItemsRelated(RunItems(k, layer, full, n), RunItems(k, layer, kept, n), NamesUpTo(layer, n), later, full.rows)
  {
    hide *;
    RelatedIsValid(full, kept, live);
    RelatedEvaluates(k, layer, n - 1, full, kept, live, later);
    RunItemsStep(k, layer, full, n);
    RunItemsStep(k, layer, kept, n);
    var a, b := RunItems(k, layer, full, n - 1), RunItems(k, layer, kept, n - 1);
    var x, y := EvaluateProper(k, layer[n - 1].expr, full), EvaluateProper(k, layer[n - 1].expr, kept);
    PutRelated(a, b, NamesUpTo(layer, n - 1), later, full.rows, layer[n - 1], x, y);
  }

  lemma ItemsStart(layer: seq<Item>, full: Batch, kept: Batch, live: set<string>, later: set<string>)
    requires Related(full, kept, live) && Covers(live, layer, later)
    ensures ItemsRelated(Success(full.entries), Success(kept.entries), {}, later, full.rows)
  {
    InStepStart(full, kept, live, later);
  }

  lemma RelatedIsValid(full: Batch, kept: Batch, live: set<string>)
    requires Related(full, kept, live)
    ensures ValidBatch(full) && ValidBatch(kept) && full.rows == kept.rows
  {
  }

  lemma InStepTryNew(a: seq<Entry>, b: seq<Entry>, done: set<string>, later: set<string>, rows: nat)
    requires InStep(a, b, done, later, rows)
    ensures TryNew(a).Success? == TryNew(b).Success?
    ensures TryNew(a).Success? ==> TryNew(a).value == Batch(rows, a) && TryNew(b).value == Batch(rows, b)
  {
    hide Proper, EntryFits;
    FitByFirsts(a, done, rows);
    FitByFirsts(b, done, rows);
    if a != [] {
      assert OtherFits(a, 0, done, rows) && OtherFits(b, 0, done, rows);
      forall name | name in done ensures FirstFits(a, name, rows) == FirstFits(b, name, rows) { }
    }
  }

  lemma LayerKeepsRelated(k: Kernels, layer: seq<Item>, full: Batch, kept: Batch, live: set<string>, later: set<string>)
    requires Related(full, kept, live) && Covers(live, layer, later)
    ensures var a, b := RunLayer(k, layer, full), RunLayer(k, layer, kept);
      a.Success? == b.Success? && (a.Success? ==> Related(a.value, b.value, later))
  {
    hide RunItems, AllFit, OthersFit, Restrict, Covers;
    ItemsInStep(k, layer, full, kept, live, later, |layer|);
    var a, b := RunItems(k, layer, full, |layer|), RunItems(k, layer, kept, |layer|);
    if a.Success? { InStepTryNew(a.value, b.value, NamesUpTo(layer, |layer|), later, full.rows); }
  }

  // ----- the whole run

  // the columns of the full run

  function EntryNames(entries: seq<Entry>): set<string> { set i | 0 <= i < |entries| :: entries[i].name }

  /** The column names after the first `m` layers, read off the document. */
  function NamesAfter(names: set<string>, layers: seq<seq<Item>>, m: nat): set<string>
    requires m <= |layers|
  {
    if m == 0 then names else NamesAfter(names, layers, m - 1) + NamesUpTo(layers[m - 1], |layers[m - 1]|)
  }

  lemma PutNames(entries: seq<Entry>, entry: Entry)
    requires AllProper(entries) && Proper(entry.data)
    ensures EntryNames(Put(entries, entry)) == EntryNames(entries) + {entry.name}
  {
    hide Proper;
    var put := Put(entries, entry);
    match Position(entries, entry.name)
    case Some(i) =>
      assert put[i].name == entries[i].name == entry.name;
      assert forall j :: 0 <= j < |entries| ==> put[j].name == entries[j].name;
    case None =>
      assert put[|entries|] == entry && forall j :: 0 <= j < |entries| ==> put[j] == entries[j];
  }

  lemma {:induction false} RunItemsNames(k: Kernels, layer: seq<Item>, input: Batch, n: nat)
    requires ValidBatch(input) && n <= |layer| && RunItems(k, layer, input, n).Success?
    ensures EntryNames(RunItems(k, layer, input, n).value) == EntryNames(input.entries) + NamesUpTo(layer, n)
  {
    hide RunItems, EvaluateProper, Put, EntryNames, NamesUpTo, ValidBatch;
    if n == 0 {
      RunNoItems(k, layer, input);
    } else {
      RunItemsStep(k, layer, input, n);
      RunItemsNames(k, layer, input, n - 1);
      var value := EvaluateProper(k, layer[n - 1].expr, input);
      PutNames(RunItems(k, layer, input, n - 1).value, Entry(layer[n - 1].name, layer[n - 1].nullable, value.value));
      assert EntryNames(input.entries) + NamesUpTo(layer, n)
          == EntryNames(input.entries) + NamesUpTo(layer, n - 1) + {layer[n - 1].name};
    }
  }

  lemma RunLayerNames(k: Kernels, layer: seq<Item>, input: Batch)
    requires ValidBatch(input) && RunLayer(k, layer, input).Success?
    ensures EntryNames(RunLayer(k, layer, input).value.entries) == EntryNames(input.entries) + NamesUpTo(layer, |layer|)
  {
    hide RunItems, EntryNames, NamesUpTo, ValidBatch;
    RunItemsNames(k, layer, input, |layer|);
  }

  /** The full run's columns are the batch's and those of the layers that ran. */
  lemma {:induction false} RunNames(k: Kernels, batch: Batch, layers: seq<seq<Item>>, m: nat)
    requires ValidBatch(batch) && m <= |layers| && Run(k, batch, layers, {}, m).Success?
    ensures EntryNames(Run(k, batch, layers, {}, m).value.entries) == NamesAfter(EntryNames(batch.entries), layers, m)
  {
    hide RunLayer, EntryNames, NamesUpTo, ValidBatch;
    if m > 0 {
      RunNames(k, batch, layers, m - 1);
      RunLayerNames(k, layers[m - 1], Run(k, batch, layers, {}, m - 1).value);
    }
  }

  predicate SomeLive(names: set<string>, live: set<string>) { exists name :: name in names && name in live }

  /** Some column is live after each of the first `n` layers. */
  predicate StaysAlive(names: set<string>, layers: seq<seq<Item>>, final: set<string>, n: nat)
    requires n <= |layers|
  {
    forall m | 0 < m <= n :: SomeLive(NamesAfter(names, layers, m), Live(layers, m, final))
  }

  lemma RestrictFits(batch: Batch, names: set<string>)
    requires ValidBatch(batch)
    ensures AllFit(Restrict(batch.entries, names), batch.rows)
  {
    RestrictedFit(batch.entries, batch.rows, names);
  }

  lemma {:induction false} RestrictedFit(entries: seq<Entry>, rows: nat, names: set<string>)
    requires AllFit(entries, rows)
    ensures AllFit(Restrict(entries, names), rows)
  {
    hide EntryFits;
    if entries != [] { RestrictedFit(entries[..|entries| - 1], rows, names); }
  }

  lemma RetainSucceeds(full: Batch, kept: Batch, live: set<string>)
    requires Related(full, kept, live)
    ensures Retain(kept, live).Success? <==> SomeLive(EntryNames(full.entries), live)
    ensures Retain(kept, live).Success? ==>
              Retain(kept, live).value == Batch(full.rows, Restrict(full.entries, live))
              && Related(full, Retain(kept, live).value, live)
  {
    hide EntryFits, Restrict;
    EntriesProper(kept);
    RestrictFits(kept, live);
    RestrictTwice(full.entries, live, live);
    var entries := Restrict(kept.entries, live);
    if entries != [] { assert EntryFits(entries[0], kept.rows); FitLength(entries[0], kept.rows); }
  }

  lemma FitLength(entry: Entry, rows: nat)
    requires EntryFits(entry, rows)
    ensures Len(entry.data) == rows
  {
  }

  lemma RelatedToItself(batch: Batch, live: set<string>)
    requires ValidBatch(batch)
    ensures Related(batch, batch, live)
  {
  }

  lemma RunNothing(k: Kernels, batch: Batch, layers: seq<seq<Item>>, final: set<string>)
    requires ValidBatch(batch)
    ensures Run(k, batch, layers, final, 0) == Success(batch)
  {
  }

  lemma RunStep(k: Kernels, batch: Batch, layers: seq<seq<Item>>, final: set<string>, n: nat)
    requires ValidBatch(batch) && 0 < n <= |layers|
    ensures var before := Run(k, batch, layers, final, n - 1);
      Run(k, batch, layers, final, n)
      == if before.Failure? then Failure(before.error)
         else
           var after := RunLayer(k, layers[n - 1], before.value);
           if after.Success? && final != {} then Retain(after.value, Live(layers, n, final)) else after
  {
    hide RunLayer, Retain, Live, ValidBatch;
  }

  lemma LiveStep(layers: seq<seq<Item>>, n: nat, final: set<string>)
    requires 0 < n <= |layers|
    ensures Covers(Live(layers, n - 1, final), layers[n - 1], Live(layers, n, final))
  {
    hide ItemRefs;
  }

  ghost predicate RunsRelated(
    full: Result<Batch, EvalError>, kept: Result<Batch, EvalError>, alive: bool, live: set<string>, started: bool)
  {
    kept.Success? == (full.Success? && alive)
    && (kept.Success? ==>
          Related(full.value, kept.value, live)
          && (started ==> kept.value == Batch(full.value.rows, Restrict(full.value.entries, live))))
  }

  lemma {:induction false} RunsStayRelated(k: Kernels, batch: Batch, layers: seq<seq<Item>>, final: set<string>, n: nat)
    requires ValidBatch(batch) && final != {} && n <= |layers|
    ensures RunsRelated(
              Run(k, batch, layers, {}, n), Run(k, batch, layers, final, n),
              StaysAlive(EntryNames(batch.entries), layers, final, n), Live(layers, n, final), n > 0)
  {
    hide Run, Live, Related, RunLayer, Retain, Covers, SomeLive, Restrict, ValidBatch, EntryNames, NamesAfter;
    if n == 0 {
      RunNothing(k, batch, layers, {});
      RunNothing(k, batch, layers, final);
      RelatedToItself(batch, Live(layers, 0, final));
    } else {
      RunsStayRelated(k, batch, layers, final, n - 1);
      RunStep(k, batch, layers, {}, n);
      RunStep(k, batch, layers, final, n);
      LiveStep(layers, n, final);
      var full, kept := Run(k, batch, layers, {}, n - 1), Run(k, batch, layers, final, n - 1);
      var live, later := Live(layers, n - 1, final), Live(layers, n, final);
      if full.Success? && kept.Success? {
        LayerKeepsRelated(k, layers[n - 1], full.value, kept.value, live, later);
        var a, b := RunLayer(k, layers[n - 1], full.value), RunLayer(k, layers[n - 1], kept.value);
        if a.Success? {
          RunNames(k, batch, layers, n);
          RetainSucceeds(a.value, b.value, later);
        }
      }
    }
  }

  /** With at least one layer and a non-empty final set, the run that drops dead columns succeeds exactly
      when the full run does and after each layer some column there, of the batch or of a layer so far, is
      final or referred to later. Its result is then the full run's, restricted to the final columns in the
      same column order. */
  lemma DroppingDeadColumnsIsSound(k: Kernels, batch: Batch, layers: seq<seq<Item>>, final: set<string>)
    requires ValidBatch(batch) && final != {} && layers != []
    ensures var full, kept := Run(k, batch, layers, {}, |layers|), Run(k, batch, layers, final, |layers|);
      kept.Success? == (full.Success? && StaysAlive(EntryNames(batch.entries), layers, final, |layers|))
      && (kept.Success? ==> kept.value == Batch(full.value.rows, Restrict(full.value.entries, final)))
  {
    RunsStayRelated(k, batch, layers, final, |layers|);
    hide Run, StaysAlive, Restrict, Related, ValidBatch, EntryNames;
  }

  // ----- a document that runs in full and not with dead columns dropped

  function Constant(name: string): Item { Item(name, [], true, Literal("int64", IntV(1))) }

  lemma ConstantRuns(k: Kernels, name: string, input: Batch)
    requires ValidBatch(input) && input.entries != [] && k.literal("int64", IntV(1)).Success?
    ensures RunLayer(k, [Constant(name)], input).Success? && RunLayer(k, [Constant(name)], input).value.entries != []
  {
    hide Put;
    var layer := [Constant(name)];
    var expr := layer[0].expr;
    var value := EvaluateProper(k, expr, input);
    assert Refs(expr) == [] && ListRefs(Refs(expr), input) == [];
    assert value.Success?;
    RunNoItems(k, layer, input);
    RunItemsStep(k, layer, input, 1);
    EntriesProper(input);
    var entry := Entry(name, true, value.value);
    PutStillFits(input.entries, entry, input.rows);
  }

  lemma PutStillFits(entries: seq<Entry>, entry: Entry, rows: nat)
    requires AllFit(entries, rows) && EntryFits(entry, rows)
    ensures AllProper(entries) && Put(entries, entry) != [] && AllFit(Put(entries, entry), rows)
    ensures TryNew(Put(entries, entry)).Success?
  {
    forall i | 0 <= i < |entries| ensures Proper(entries[i].data) { assert EntryFits(entries[i], rows); }
    var put := Put(entries, entry);
    assert EntryFits(put[0], rows);
  }

  /** Two constants in two layers, the second one final: nothing that stands after the first layer is of
      any further use. */
  lemma DroppingCanFail(k: Kernels, batch: Batch)
    requires ValidBatch(batch) && k.literal("int64", IntV(1)).Success?
    requires EntryNames(batch.entries) == {"base"}
    ensures Run(k, batch, [[Constant("first")], [Constant("last")]], {}, 2).Success?
    ensures Run(k, batch, [[Constant("first")], [Constant("last")]], {"last"}, 2).Failure?
  {
    hide RunLayer, ValidBatch, Restrict;
    var layers := [[Constant("first")], [Constant("last")]];
    assert batch.entries != [];
    RunNothing(k, batch, layers, {});
    RunStep(k, batch, layers, {}, 1);
    ConstantRuns(k, "first", batch);
    RunStep(k, batch, layers, {}, 2);
    ConstantRuns(k, "last", Run(k, batch, layers, {}, 1).value);
    DroppingDeadColumnsIsSound(k, batch, layers, {"last"});
    assert Refs(layers[1][0].expr) == [] && ItemRefs(layers[1]) == {};
    assert Live(layers, 2, {"last"}) == {"last"} && Live(layers, 1, {"last"}) == {"last"};
    assert NamesUpTo(layers[0], 0) == {} && NamesUpTo(layers[0], 1) == {"first"};
    assert NamesAfter({"base"}, layers, 0) == {"base"} && NamesAfter({"base"}, layers, 1) == {"base", "first"};
    assert !SomeLive(NamesAfter({"base"}, layers, 1), Live(layers, 1, {"last"}));
  }
}
