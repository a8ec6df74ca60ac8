/** Running layers as snapshot assignments gives every derived column the value of its recursive
    definition, whatever valid layering is used (src/spotfire_expr_normalizer/dependency.py,
    native/engine/src/expression_executor.rs). */
module LayerMeaning {
  import opened Wrappers
  import opened Columns
  import opened Evaluator
  import opened References
  import opened Layers
  import opened Engine
  import opened DeadColumns

  // ----- the recursive definition

  /** A column for every item. */
  ghost predicate Columnar(m: map<string, Array>, items: seq<Item>, rows: nat) {
    m.Keys == NamesOf(items) && forall name :: name in m ==> Proper(m[name]) && Len(m[name]) == rows
  }

  /** The base columns overlaid with the first `n` derived columns, except `self`. */
  ghost function Overlay(base: Batch, items: seq<Item>, m: map<string, Array>, self: string, n: nat): (r: seq<Entry>)
    requires ValidBatch(base) && Columnar(m, items, base.rows) && n <= |items|
    ensures AllProper(r)
  {
    if n == 0 then
      EntriesProper(base);
      base.entries
    else
      var before := Overlay(base, items, m, self, n - 1);
      assert items[n - 1].name in NamesOf(items);
      if items[n - 1].name == self then before
      else Put(before, Entry(items[n - 1].name, true, m[items[n - 1].name]))
  }

  ghost function View(base: Batch, items: seq<Item>, m: map<string, Array>, self: string): (r: Batch)
    requires ValidBatch(base) && Columnar(m, items, base.rows)
  {
    Batch(base.rows, Overlay(base, items, m, self, |items|))
  }

  /** A column seen from the definition of `self`: other derived names mean their derived value, the name
      itself and every other name mean the base column. */
  ghost function Seen(base: Batch, m: map<string, Array>, self: string, name: string): Option<Array> {
    if name in m && name != self then Some(m[name]) else Lookup(base, name)
  }

  /** `m` solves the item's definition. */
  ghost predicate Solves(k: Kernels, base: Batch, items: seq<Item>, m: map<string, Array>, item: Item)
    requires ValidBatch(base) && Columnar(m, items, base.rows)
  {
    item.name in m
    && ValidBatch(View(base, items, m, item.name))
    && EvaluateProper(k, item.expr, View(base, items, m, item.name)) == Success(m[item.name])
    && (item.nullable || !HasNulls(m[item.name]))
  }

  ghost predicate IsMeaning(k: Kernels, base: Batch, items: seq<Item>, m: map<string, Array>)
    requires ValidBatch(base)
  {
    Columnar(m, items, base.rows) && forall i :: 0 <= i < |items| ==> Solves(k, base, items, m, items[i])
  }

  /** The dependency lists cover the references to other derived names. */
  ghost predicate Covered(items: seq<Item>) { forall i :: 0 <= i < |items| ==> ItemCovered(items, items[i]) }

  ghost predicate ItemCovered(items: seq<Item>, item: Item) {
    forall name :: Mentions(item.expr, name) && name in NamesOf(items) && name != item.name ==> name in item.dependencies
  }

  /** Layers that hold every item once and put dependencies first. */
  ghost predicate Layering(layers: seq<seq<Item>>, items: seq<Item>) {
    Partitions(layers, items) && Distinct(items)
    && forall k, i :: 0 <= k < |layers| && 0 <= i < |layers[k]| ==> Ready(layers[k][i], NamesIn(layers[..k]))
  }

  // ----- what the view shows

  lemma PutFinds(entries: seq<Entry>, entry: Entry, name: string)
    requires AllProper(entries) && Proper(entry.data)
    ensures Find(Put(entries, entry), name) == if name == entry.name then Some(entry.data) else Find(entries, name)
  {
    hide Put, Position;
    PutFirst(entries, entry, name);
    FirstIsFound(entries, name);
    FirstIsFound(Put(entries, entry), name);
  }

  lemma FirstIsFound(entries: seq<Entry>, name: string)
    ensures Find(entries, name) == if First(entries, name).Some? then Some(First(entries, name).value.data) else None
  {
    hide Position;
  }

  lemma PutFits(entries: seq<Entry>, entry: Entry, rows: nat)
    requires Columns.AllFit(entries, rows) && AllProper(entries) && EntryFits(entry, rows)
    ensures Columns.AllFit(Put(entries, entry), rows)
  {
    hide EntryFits, Proper;
  }

  lemma {:induction false} OverlayFinds(
    base: Batch, items: seq<Item>, m: map<string, Array>, self: string, n: nat, name: string)
    requires ValidBatch(base) && Columnar(m, items, base.rows) && n <= |items|
    ensures Find(Overlay(base, items, m, self, n), name)
         == if name in NamesOf(items[..n]) && name in m && name != self then Some(m[name]) else Lookup(base, name)
    ensures Columns.AllFit(Overlay(base, items, m, self, n), base.rows)
  {
    hide Find, Put, EntryFits, Proper, HasNulls, Position;
    if n > 0 {
      OverlayFinds(base, items, m, self, n - 1, name);
      assert items[n - 1].name in NamesOf(items);
      NamesPush(items, n - 1);
      if items[n - 1].name != self {
        var entry := Entry(items[n - 1].name, true, m[items[n - 1].name]);
        NullableFits(entry, base.rows);
        PutFinds(Overlay(base, items, m, self, n - 1), entry, name);
        PutFits(Overlay(base, items, m, self, n - 1), entry, base.rows);
      }
    }
  }

  lemma NullableFits(entry: Entry, rows: nat)
    requires entry.nullable && Proper(entry.data) && Len(entry.data) == rows
    ensures EntryFits(entry, rows)
  {
  }

  lemma ViewShows(base: Batch, items: seq<Item>, m: map<string, Array>, self: string, name: string)
    requires ValidBatch(base) && Columnar(m, items, base.rows)
    ensures ValidBatch(View(base, items, m, self))
    ensures Lookup(View(base, items, m, self), name) == Seen(base, m, self, name)
  {
    hide Overlay, Find, EntryFits;
    OverlayFinds(base, items, m, self, |items|, name);
    assert items[..|items|] == items;
    LookupIsFind(View(base, items, m, self), name);
  }

  lemma LookupIsFind(batch: Batch, name: string)
    ensures Lookup(batch, name) == Find(batch.entries, name)
  {
  }

  // ----- one layer

  ghost predicate ItemRuns(k: Kernels, item: Item, batch: Batch)
    requires ValidBatch(batch)
  {
    var value := EvaluateProper(k, item.expr, batch);
    value.Success? && (item.nullable || !HasNulls(value.value))
  }

  ghost predicate ItemsRun(k: Kernels, layer: seq<Item>, batch: Batch)
    requires ValidBatch(batch)
  {
    forall i :: 0 <= i < |layer| ==> ItemRuns(k, layer[i], batch)
  }

  /** A column after the first `n` items of a layer. */
  ghost function After(k: Kernels, layer: seq<Item>, batch: Batch, n: nat, name: string): Option<Array>
    requires ValidBatch(batch) && n <= |layer|
  {
    if n == 0 then Lookup(batch, name)
    else if layer[n - 1].name == name then
      var value := EvaluateProper(k, layer[n - 1].expr, batch);
      if value.Success? then Some(value.value) else None
    else After(k, layer, batch, n - 1, name)
  }

  lemma {:induction false} ItemsRunOn(k: Kernels, layer: seq<Item>, batch: Batch, n: nat)
    requires ValidBatch(batch) && n <= |layer| && ItemsRun(k, layer, batch)
    ensures RunItems(k, layer, batch, n).Success?
    ensures Columns.AllFit(RunItems(k, layer, batch, n).value, batch.rows)
    ensures batch.entries != [] ==> RunItems(k, layer, batch, n).value != []
  {
    hide RunItems, EvaluateProper, Put, EntryFits, Proper, HasNulls, PutResult;
    if n == 0 {
      RunNoItems(k, layer, batch);
    } else {
      ItemsRunOn(k, layer, batch, n - 1);
      RunItemsStep(k, layer, batch, n);
      assert ItemRuns(k, layer[n - 1], batch);
      PutResultFits(RunItems(k, layer, batch, n - 1), layer[n - 1], EvaluateProper(k, layer[n - 1].expr, batch), batch.rows);
    }
  }

  lemma PutResultFits(
    entries: Result<seq<Entry>, EvalError>, item: Item, value: Result<Array, EvalError>, rows: nat)
    requires entries.Success? && AllProper(entries.value) && Columns.AllFit(entries.value, rows)
    requires value.Success? && Proper(value.value) && Len(value.value) == rows && (item.nullable || !HasNulls(value.value))
    ensures PutResult(entries, item, value).Success?
    ensures Columns.AllFit(PutResult(entries, item, value).value, rows) && PutResult(entries, item, value).value != []
  {
    hide Proper, HasNulls, Put;
    var entry := Entry(item.name, item.nullable, value.value);
    PutFits(entries.value, entry, rows);
    PutIsNotEmpty(entries.value, entry);
  }

  lemma {:induction false} ItemsRanOn(k: Kernels, layer: seq<Item>, batch: Batch, n: nat, i: nat)
    requires ValidBatch(batch) && i < n <= |layer| && RunItems(k, layer, batch, n).Success?
    ensures EvaluateProper(k, layer[i].expr, batch).Success?
    ensures Distinct(layer) ==>
              First(RunItems(k, layer, batch, n).value, layer[i].name)
              == Some(Entry(layer[i].name, layer[i].nullable, EvaluateProper(k, layer[i].expr, batch).value))
  {
    hide RunItems, EvaluateProper, Put, EntryFits, Proper, HasNulls, First;
    RunItemsStep(k, layer, batch, n);
    var before, value := RunItems(k, layer, batch, n - 1), EvaluateProper(k, layer[n - 1].expr, batch);
    PutFirst(before.value, Entry(layer[n - 1].name, layer[n - 1].nullable, value.value), layer[i].name);
    if i < n - 1 { ItemsRanOn(k, layer, batch, n - 1, i); }
  }

  lemma {:induction false} ItemsFind(k: Kernels, layer: seq<Item>, batch: Batch, n: nat, name: string)
    requires ValidBatch(batch) && n <= |layer| && RunItems(k, layer, batch, n).Success?
    ensures Find(RunItems(k, layer, batch, n).value, name) == After(k, layer, batch, n, name)
  {
    hide RunItems, EvaluateProper, Put, EntryFits, Proper, Find;
    if n == 0 {
      RunNoItems(k, layer, batch);
      LookupIsFind(batch, name);
    } else {
      RunItemsStep(k, layer, batch, n);
      ItemsFind(k, layer, batch, n - 1, name);
      var value := EvaluateProper(k, layer[n - 1].expr, batch).value;
      PutFinds(RunItems(k, layer, batch, n - 1).value, Entry(layer[n - 1].name, layer[n - 1].nullable, value), name);
    }
  }

  /** A layer of distinct names succeeds exactly when every item does on the snapshot, and then replaces
      exactly the items' columns. */
  lemma LayerRuns(k: Kernels, layer: seq<Item>, batch: Batch)
    requires ValidBatch(batch) && batch.entries != [] && Distinct(layer)
    ensures RunLayer(k, layer, batch).Success? <==> ItemsRun(k, layer, batch)
    ensures RunLayer(k, layer, batch).Success? ==>
      var out := RunLayer(k, layer, batch).value;
      out.rows == batch.rows && out.entries != []
      && forall name :: Lookup(out, name) == After(k, layer, batch, |layer|, name)
  {
    hide RunItems, EvaluateProper, EntryFits, Find, After, Lookup;
    var entries := RunItems(k, layer, batch, |layer|);
    if ItemsRun(k, layer, batch) {
      ItemsRunOn(k, layer, batch, |layer|);
      FitTryNew(entries.value, batch.rows);
    }
    if RunLayer(k, layer, batch).Success? {
      RanItemsRun(k, layer, batch);
      ItemsRunOn(k, layer, batch, |layer|);
      FitTryNew(entries.value, batch.rows);
      forall name ensures Lookup(RunLayer(k, layer, batch).value, name) == After(k, layer, batch, |layer|, name) {
        ItemsFind(k, layer, batch, |layer|, name);
        LookupIsFind(RunLayer(k, layer, batch).value, name);
      }
    }
  }

  lemma FitTryNew(entries: seq<Entry>, rows: nat)
    requires AllProper(entries) && Columns.AllFit(entries, rows) && entries != []
    ensures TryNew(entries) == Success(Batch(rows, entries))
  {
    assert EntryFits(entries[0], rows);
  }

  lemma RanItemsRun(k: Kernels, layer: seq<Item>, batch: Batch)
    requires ValidBatch(batch) && Distinct(layer) && RunLayer(k, layer, batch).Success?
    ensures ItemsRun(k, layer, batch)
  {
    hide RunItems, EvaluateProper;
    var entries := RunItems(k, layer, batch, |layer|).value;
    forall i | 0 <= i < |layer| ensures ItemRuns(k, layer[i], batch) {
      ItemsRanOn(k, layer, batch, |layer|, i);
      FirstFitsIn(entries, layer[i].name, Len(entries[0].data));
    }
  }

  lemma FirstFitsIn(entries: seq<Entry>, name: string, rows: nat)
    requires Columns.AllFit(entries, rows) && First(entries, name).Some?
    ensures var entry := First(entries, name).value; entry.nullable || !HasNulls(entry.data)
  {
    hide Proper, HasNulls;
    assert EntryFits(entries[Position(entries, name).value], rows);
  }

  lemma {:induction false} AfterOf(k: Kernels, layer: seq<Item>, batch: Batch, n: nat, i: nat)
    requires ValidBatch(batch) && Distinct(layer) && i < n <= |layer|
    ensures After(k, layer, batch, n, layer[i].name)
         == (var value := EvaluateProper(k, layer[i].expr, batch); if value.Success? then Some(value.value) else None)
  {
    hide EvaluateProper, Lookup;
    if i < n - 1 { AfterOf(k, layer, batch, n - 1, i); }
  }

  lemma {:induction false} AfterOther(k: Kernels, layer: seq<Item>, batch: Batch, n: nat, name: string)
    requires ValidBatch(batch) && n <= |layer| && name !in NamesOf(layer)
    ensures After(k, layer, batch, n, name) == Lookup(batch, name)
  {
    hide EvaluateProper, Lookup;
    if n > 0 {
      assert layer[n - 1].name in NamesOf(layer);
      AfterOther(k, layer, batch, n - 1, name);
    }
  }

  // ----- names and layers

  lemma {:induction false} FlattenPrefix(layers: seq<seq<Item>>, k: nat)
    requires k <= |layers|
    ensures Flatten(layers[..k]) <= Flatten(layers)
  {
    if k < |layers| {
      var init := layers[..|layers| - 1];
      assert init[..k] == layers[..k];
      FlattenPrefix(init, k);
      assert Flatten(layers[..k]) <= Flatten(init) <= Flatten(init) + layers[|layers| - 1];
    } else {
      assert layers[..k] == layers;
    }
  }

  lemma NamesOfBoth(a: seq<Item>, b: seq<Item>)
    ensures NamesOf(a + b) == NamesOf(a) + NamesOf(b)
  {
    forall name | name in NamesOf(b) ensures name in NamesOf(a + b) {
      var i :| 0 <= i < |b| && b[i].name == name;
      assert (a + b)[|a| + i].name == name;
    }
    forall name | name in NamesOf(a) ensures name in NamesOf(a + b) {
      var i :| 0 <= i < |a| && a[i].name == name;
      assert (a + b)[i].name == name;
    }
  }

  lemma {:induction false} NamesInFlatten(layers: seq<seq<Item>>)
    ensures NamesIn(layers) == NamesOf(Flatten(layers))
  {
    if layers != [] {
      var last := |layers| - 1;
      NamesInFlatten(layers[..last]);
      NamesOfBoth(Flatten(layers[..last]), layers[last]);
    }
  }

  lemma PartDistinct(a: seq<Item>, b: seq<Item>, whole: seq<Item>)
    requires a + b <= whole && Distinct(whole)
    ensures Distinct(b) && forall i :: 0 <= i < |b| ==> b[i].name !in NamesOf(a)
  {
    forall i, j | 0 <= i < |a| && 0 <= j < |b| ensures a[i].name != b[j].name {
      assert whole[i] == a[i] && whole[|a| + j] == b[j];
    }
    forall i, j | 0 <= i < j < |b| ensures b[i].name != b[j].name {
      assert whole[|a| + i] == b[i] && whole[|a| + j] == b[j];
    }
  }

  /** In a layering a layer's names are distinct and new. */
  lemma LayerIsNew(layers: seq<seq<Item>>, items: seq<Item>, k: nat)
    requires Layering(layers, items) && k < |layers|
    ensures Distinct(layers[k])
    ensures forall i :: 0 <= i < |layers[k]| ==> layers[k][i].name !in NamesIn(layers[..k])
  {
    hide Distinct, NamesOf, NamesIn;
    SameMembersDistinct(Flatten(layers), items);
    FlattenPrefix(layers, k + 1);
    LayersUpTo(layers, k);
    PartDistinct(Flatten(layers[..k]), layers[k], Flatten(layers));
    NamesInFlatten(layers[..k]);
  }

  lemma LayersUpTo(layers: seq<seq<Item>>, k: nat)
    requires k < |layers|
    ensures Flatten(layers[..k + 1]) == Flatten(layers[..k]) + layers[k]
    ensures NamesIn(layers[..k + 1]) == NamesIn(layers[..k]) + NamesOf(layers[k])
  {
    assert layers[..k + 1][..k] == layers[..k];
  }

  lemma LayerMember(layers: seq<seq<Item>>, items: seq<Item>, k: nat, i: nat) returns (p: nat)
    requires Layering(layers, items) && k < |layers| && i < |layers[k]|
    ensures p < |items| && items[p] == layers[k][i]
  {
    p := LayerHoldsItem(layers, items, k, i);
  }

  // ----- a batch that shows the derived names of the layers run so far

  /** The names in `done` have their derived value, all others their base column. */
  ghost predicate Shows(batch: Batch, base: Batch, m: map<string, Array>, done: set<string>) {
    ValidBatch(batch) && batch.rows == base.rows && batch.entries != []
    && forall name :: Lookup(batch, name) == if name in done && name in m then Some(m[name]) else Lookup(base, name)
  }

  /** On such a batch an item of the next layer has the value its definition has. */
  lemma ItemSeesItsView(
    k: Kernels, base: Batch, items: seq<Item>, m: map<string, Array>, layers: seq<seq<Item>>, n: nat, i: nat, batch: Batch)
    requires ValidBatch(base) && Columnar(m, items, base.rows) && Layering(layers, items) && Covered(items)
    requires n < |layers| && i < |layers[n]| && Shows(batch, base, m, NamesIn(layers[..n]))
    ensures var item := layers[n][i]; var view := View(base, items, m, item.name);
      ValidBatch(view)
      && EvaluateProper(k, item.expr, batch).Success? == EvaluateProper(k, item.expr, view).Success?
      && (EvaluateProper(k, item.expr, view).Success? ==> EvaluateProper(k, item.expr, batch) == EvaluateProper(k, item.expr, view))
  {
    hide Evaluate, View, Mentions, NamesIn, NamesOf, Lookup, Flatten, ValidBatch;
    var item := layers[n][i];
    var view := View(base, items, m, item.name);
    LayerIsNew(layers, items, n);
    var p := LayerMember(layers, items, n, i);
    assert ItemCovered(items, items[p]);
    ViewShows(base, items, m, item.name, item.name);
    forall name | Mentions(item.expr, name) ensures Lookup(batch, name) == Lookup(view, name) {
      ViewShows(base, items, m, item.name, name);
      if name in m && name != item.name { DependencyIsDone(layers, n, i, name); }
    }
    ViewRows(base, items, m, item.name);
    EvaluateDependsOnMentions(k, item.expr, batch, view);
  }

  lemma ViewRows(base: Batch, items: seq<Item>, m: map<string, Array>, self: string)
    requires ValidBatch(base) && Columnar(m, items, base.rows)
    ensures View(base, items, m, self).rows == base.rows
  {
  }

  lemma DependencyIsDone(layers: seq<seq<Item>>, n: nat, i: nat, name: string)
    requires n < |layers| && i < |layers[n]| && Ready(layers[n][i], NamesIn(layers[..n]))
    requires name in layers[n][i].dependencies
    ensures name in NamesIn(layers[..n])
  {
  }

  // ----- a meaning is what the layers compute

  lemma LayerShowsMore(
    k: Kernels, base: Batch, items: seq<Item>, m: map<string, Array>, layers: seq<seq<Item>>, n: nat, batch: Batch)
    requires ValidBatch(base) && IsMeaning(k, base, items, m) && Layering(layers, items) && Covered(items)
    requires n < |layers| && Shows(batch, base, m, NamesIn(layers[..n]))
    ensures RunLayer(k, layers[n], batch).Success?
    ensures Shows(RunLayer(k, layers[n], batch).value, base, m, NamesIn(layers[..n + 1]))
  {
    hide EvaluateProper, View, NamesIn, Lookup, Flatten, ValidBatch, RunLayer, After, Layering, Covered, Columnar, HasNulls;
    var layer := layers[n];
    LayerIsNew(layers, items, n);
    LayersUpTo(layers, n);
    forall i | 0 <= i < |layer| ensures ItemRuns(k, layer[i], batch) && layer[i].name in m
      && EvaluateProper(k, layer[i].expr, batch) == Success(m[layer[i].name])
    {
      var p := LayerMember(layers, items, n, i);
      assert Solves(k, base, items, m, items[p]);
      ItemSeesItsView(k, base, items, m, layers, n, i, batch);
    }
    LayerRuns(k, layer, batch);
    var out := RunLayer(k, layer, batch).value;
    forall name ensures Lookup(out, name) == if name in NamesIn(layers[..n + 1]) && name in m then Some(m[name]) else Lookup(base, name) {
      if name in NamesOf(layer) {
        var i :| 0 <= i < |layer| && layer[i].name == name;
        AfterOf(k, layer, batch, |layer|, i);
      } else {
        AfterOther(k, layer, batch, |layer|, name);
      }
    }
  }

  lemma {:induction false} RunShowsMeaning(
    k: Kernels, base: Batch, items: seq<Item>, m: map<string, Array>, layers: seq<seq<Item>>, n: nat)
    requires ValidBatch(base) && base.entries != [] && IsMeaning(k, base, items, m)
    requires Layering(layers, items) && Covered(items) && n <= |layers|
    ensures Run(k, base, layers, {}, n).Success?
    ensures Shows(Run(k, base, layers, {}, n).value, base, m, NamesIn(layers[..n]))
  {
    hide Run, RunLayer, IsMeaning, Layering, Covered, Lookup, ValidBatch, Shows;
    if n == 0 {
      RunNothing(k, base, layers, {});
      BaseShowsNothing(base, m, layers);
    } else {
      RunShowsMeaning(k, base, items, m, layers, n - 1);
      RunStep(k, base, layers, {}, n);
      ShownIsValid(Run(k, base, layers, {}, n - 1).value, base, m, NamesIn(layers[..n - 1]));
      LayerShowsMore(k, base, items, m, layers, n - 1, Run(k, base, layers, {}, n - 1).value);
    }
  }

  lemma ShownIsValid(batch: Batch, base: Batch, m: map<string, Array>, done: set<string>)
    requires Shows(batch, base, m, done)
    ensures ValidBatch(batch)
  {
  }

  lemma BaseShowsNothing(base: Batch, m: map<string, Array>, layers: seq<seq<Item>>)
    requires ValidBatch(base) && base.entries != []
    ensures Shows(base, base, m, NamesIn(layers[..0]))
  {
    hide ValidBatch, Lookup;
  }

  // ----- what the layers compute is a meaning

  ghost predicate RunKeeps(k: Kernels, base: Batch, layers: seq<seq<Item>>, n: nat)
    requires ValidBatch(base) && n <= |layers|
  {
    var run := Run(k, base, layers, {}, n);
    run.Success? && run.value.rows == base.rows && run.value.entries != []
  }

  /** One successful layer, seen from the run. */
  lemma LayerOfRun(k: Kernels, base: Batch, items: seq<Item>, layers: seq<seq<Item>>, n: nat)
    requires ValidBatch(base) && base.entries != [] && Layering(layers, items) && 0 < n <= |layers|
    requires RunKeeps(k, base, layers, n - 1) && Run(k, base, layers, {}, n).Success?
    ensures RunKeeps(k, base, layers, n)
    ensures ItemsRun(k, layers[n - 1], Run(k, base, layers, {}, n - 1).value)
    ensures forall name :: Lookup(Run(k, base, layers, {}, n).value, name)
                        == After(k, layers[n - 1], Run(k, base, layers, {}, n - 1).value, |layers[n - 1]|, name)
  {
    hide Run, RunLayer, ItemsRun, Lookup, After, Layering;
    LayerIsNew(layers, items, n - 1);
    RunStep(k, base, layers, {}, n);
    LayerRuns(k, layers[n - 1], Run(k, base, layers, {}, n - 1).value);
  }

  lemma {:induction false} EarlierRuns(k: Kernels, base: Batch, items: seq<Item>, layers: seq<seq<Item>>, n: nat)
    requires ValidBatch(base) && base.entries != [] && Layering(layers, items) && n <= |layers|
    requires Run(k, base, layers, {}, n).Success?
    ensures forall j :: 0 <= j <= n ==> RunKeeps(k, base, layers, j)
  {
    hide Run, Layering, After, Lookup;
    if n == 0 {
      RunNothing(k, base, layers, {});
    } else {
      RunStep(k, base, layers, {}, n);
      EarlierRuns(k, base, items, layers, n - 1);
      LayerOfRun(k, base, items, layers, n);
    }
  }

  /** Between two points of a run only the columns of the layers in between change. */
  lemma {:induction false} ColumnsStay(
    k: Kernels, base: Batch, items: seq<Item>, layers: seq<seq<Item>>, from: nat, n: nat, name: string)
    requires ValidBatch(base) && base.entries != [] && Layering(layers, items) && from <= n <= |layers|
    requires Run(k, base, layers, {}, n).Success? && (name !in NamesIn(layers[..n]) || name in NamesIn(layers[..from]))
    ensures RunKeeps(k, base, layers, from)
    ensures Lookup(Run(k, base, layers, {}, n).value, name) == Lookup(Run(k, base, layers, {}, from).value, name)
  {
    hide Run, After, Lookup, NamesIn, NamesOf;
    EarlierRuns(k, base, items, layers, n);
    if from < n {
      assert RunKeeps(k, base, layers, n - 1);
      LayersUpTo(layers, n - 1);
      NamesInGrow(layers, from, n - 1);
      ColumnsStay(k, base, items, layers, from, n - 1, name);
      LayerOfRun(k, base, items, layers, n);
      NotInLayer(layers, items, n - 1, name);
      AfterOther(k, layers[n - 1], Run(k, base, layers, {}, n - 1).value, |layers[n - 1]|, name);
    }
  }

  lemma NotInLayer(layers: seq<seq<Item>>, items: seq<Item>, k: nat, name: string)
    requires Layering(layers, items) && k < |layers|
    requires name !in NamesIn(layers[..k + 1]) || name in NamesIn(layers[..k])
    ensures name !in NamesOf(layers[k])
  {
    hide Layering, NamesIn;
    LayerIsNew(layers, items, k);
    LayersUpTo(layers, k);
  }

  ghost function ColumnsOfRun(out: Batch, items: seq<Item>): (m: map<string, Array>)
    requires forall i :: 0 <= i < |items| ==> Lookup(out, items[i].name).Some?
    ensures m.Keys == NamesOf(items) && forall name :: name in m ==> Lookup(out, name) == Some(m[name])
  {
    map name | name in NamesOf(items) :: Lookup(out, name).value
  }

  /** The value of an item in its own layer is still there at the end. */
  lemma ItemOfRun(k: Kernels, base: Batch, items: seq<Item>, layers: seq<seq<Item>>, n: nat, i: nat)
    requires ValidBatch(base) && base.entries != [] && Layering(layers, items) && n < |layers| && i < |layers[n]|
    requires Run(k, base, layers, {}, |layers|).Success?
    ensures RunKeeps(k, base, layers, n)
    ensures ItemRuns(k, layers[n][i], Run(k, base, layers, {}, n).value)
    ensures Lookup(Run(k, base, layers, {}, |layers|).value, layers[n][i].name)
         == Some(EvaluateProper(k, layers[n][i].expr, Run(k, base, layers, {}, n).value).value)
  {
    hide Run, After, Lookup, NamesIn, Layering, EvaluateProper;
    EarlierRuns(k, base, items, layers, |layers|);
    assert RunKeeps(k, base, layers, n) && RunKeeps(k, base, layers, n + 1);
    LayerOfRun(k, base, items, layers, n + 1);
    LayerIsNew(layers, items, n);
    var batch := Run(k, base, layers, {}, n).value;
    assert ItemRuns(k, layers[n][i], batch);
    AfterOf(k, layers[n], batch, |layers[n]|, i);
    LayersUpTo(layers, n);
    assert layers[n][i].name in NamesOf(layers[n]);
    ColumnsStay(k, base, items, layers, n + 1, |layers|, layers[n][i].name);
  }

  lemma RunColumnsExist(k: Kernels, base: Batch, items: seq<Item>, layers: seq<seq<Item>>)
    requires ValidBatch(base) && base.entries != [] && Layering(layers, items)
    requires Run(k, base, layers, {}, |layers|).Success?
    ensures var out := Run(k, base, layers, {}, |layers|).value;
      (forall i :: 0 <= i < |items| ==> Lookup(out, items[i].name).Some?)
      && Columnar(ColumnsOfRun(out, items), items, base.rows)
  {
    hide Run, Lookup, Layering, EvaluateProper;
    var out := Run(k, base, layers, {}, |layers|).value;
    forall p | 0 <= p < |items| ensures Lookup(out, items[p].name).Some? && Proper(Lookup(out, items[p].name).value)
      && Len(Lookup(out, items[p].name).value) == base.rows
    {
      var n, i := InLayering(layers, items, p);
      ItemOfRun(k, base, items, layers, n, i);
    }
  }

  lemma InLayering(layers: seq<seq<Item>>, items: seq<Item>, p: nat) returns (n: nat, i: nat)
    requires Layering(layers, items) && p < |items|
    ensures n < |layers| && i < |layers[n]| && layers[n][i] == items[p]
  {
    n, i := ItemHasLayer(layers, items, p);
  }

  /** During the run, the names done so far already show their final column. */
  lemma RunShowsItself(
    k: Kernels, base: Batch, items: seq<Item>, layers: seq<seq<Item>>, n: nat, m: map<string, Array>)
    requires ValidBatch(base) && base.entries != [] && Layering(layers, items) && n <= |layers|
    requires Run(k, base, layers, {}, |layers|).Success?
    requires m.Keys == NamesOf(items)
    requires forall name :: name in m ==> Lookup(Run(k, base, layers, {}, |layers|).value, name) == Some(m[name])
    ensures RunKeeps(k, base, layers, n)
    ensures Shows(Run(k, base, layers, {}, n).value, base, m, NamesIn(layers[..n]))
  {
    hide Run, Lookup, NamesIn, ValidBatch;
    EarlierRuns(k, base, items, layers, |layers|);
    assert RunKeeps(k, base, layers, n);
    forall name
      ensures Lookup(Run(k, base, layers, {}, n).value, name)
           == if name in NamesIn(layers[..n]) && name in m then Some(m[name]) else Lookup(base, name)
    {
      if name in NamesIn(layers[..n]) {
        ColumnsStay(k, base, items, layers, n, |layers|, name);
        NamesDoneAreItems(layers, items, n, name);
      } else {
        ColumnsStay(k, base, items, layers, 0, n, name);
        RunNothing(k, base, layers, {});
      }
    }
  }

  lemma NamesDoneAreItems(layers: seq<seq<Item>>, items: seq<Item>, n: nat, name: string)
    requires Layering(layers, items) && n <= |layers| && name in NamesIn(layers[..n])
    ensures name in NamesOf(items)
  {
    hide NamesOf;
    var k, i := NamedInLayer(layers[..n], name);
    var p := LayerMember(layers, items, k, i);
    MemberIsNamed(items, p);
  }

  lemma MemberIsNamed(items: seq<Item>, p: nat)
    requires p < |items|
    ensures items[p].name in NamesOf(items)
  {
  }

  lemma RunIsMeaning(k: Kernels, base: Batch, items: seq<Item>, layers: seq<seq<Item>>) returns (m: map<string, Array>)
    requires ValidBatch(base) && base.entries != [] && Layering(layers, items) && Covered(items)
    requires Run(k, base, layers, {}, |layers|).Success?
    ensures IsMeaning(k, base, items, m)
  {
    hide Run, Lookup, Layering, EvaluateProper, NamesIn, Covered, ValidBatch, View, Shows, HasNulls;
    RunColumnsExist(k, base, items, layers);
    var out := Run(k, base, layers, {}, |layers|).value;
    m := ColumnsOfRun(out, items);
    forall p | 0 <= p < |items| ensures Solves(k, base, items, m, items[p]) {
      var n, i := InLayering(layers, items, p);
      RunShowsItself(k, base, items, layers, n, m);
      ItemOfRun(k, base, items, layers, n, i);
      ItemSeesItsView(k, base, items, m, layers, n, i, Run(k, base, layers, {}, n).value);
      MemberIsNamed(items, p);
    }
  }

  // ----- the main result

  /** For distinctly named expressions whose dependency lists cover their references, any valid layering
      run as snapshot assignments succeeds exactly when the recursive definition has a solution. The
      solution is then unique, and the run shows it: derived names have the solution's column and all
      other names keep their base column. */
  lemma LayersComputeTheMeaning(k: Kernels, base: Batch, items: seq<Item>, layers: seq<seq<Item>>)
    requires ValidBatch(base) && base.entries != [] && Layering(layers, items) && Covered(items)
    ensures Run(k, base, layers, {}, |layers|).Success? <==> exists m :: IsMeaning(k, base, items, m)
    ensures forall m :: IsMeaning(k, base, items, m) ==>
              Shows(Run(k, base, layers, {}, |layers|).value, base, m, NamesOf(items))
    ensures forall m, m' :: IsMeaning(k, base, items, m) && IsMeaning(k, base, items, m') ==> m == m'
  {
    hide Run, IsMeaning, Layering, Covered, Shows, ValidBatch, NamesIn, NamesOf;
    AllNamesDone(layers, items);
    forall m | IsMeaning(k, base, items, m)
      ensures Run(k, base, layers, {}, |layers|).Success?
           && Shows(Run(k, base, layers, {}, |layers|).value, base, m, NamesOf(items))
    {
      RunShowsMeaning(k, base, items, m, layers, |layers|);
    }
    forall m, m' | IsMeaning(k, base, items, m) && IsMeaning(k, base, items, m') ensures m == m' {
      SameShown(k, base, items, Run(k, base, layers, {}, |layers|).value, m, m');
    }
    if Run(k, base, layers, {}, |layers|).Success? {
      var m := RunIsMeaning(k, base, items, layers);
    }
  }

  lemma AllNamesDone(layers: seq<seq<Item>>, items: seq<Item>)
    requires Layering(layers, items)
    ensures NamesIn(layers[..|layers|]) == NamesOf(items)
  {
    hide NamesIn;
    assert layers[..|layers|] == layers;
    NamesInFlatten(layers);
    var flat := Flatten(layers);
    forall name | name in NamesOf(flat) ensures name in NamesOf(items) {
      var i :| 0 <= i < |flat| && flat[i].name == name;
      assert flat[i] in multiset(items);
    }
    forall name | name in NamesOf(items) ensures name in NamesOf(flat) {
      var i :| 0 <= i < |items| && items[i].name == name;
      assert items[i] in multiset(flat);
    }
  }

  lemma SameShown(k: Kernels, base: Batch, items: seq<Item>, out: Batch, m: map<string, Array>, m': map<string, Array>)
    requires ValidBatch(base) && IsMeaning(k, base, items, m) && IsMeaning(k, base, items, m')
    requires Shows(out, base, m, NamesOf(items)) && Shows(out, base, m', NamesOf(items))
    ensures m == m'
  {
    hide Lookup, ValidBatch, Solves;
    forall name | name in m ensures m[name] == m'[name] {
      assert Lookup(out, name) == Some(m[name]) && Lookup(out, name) == Some(m'[name]);
    }
  }

  /** The layers the builder returns are such a layering. */
  lemma BuiltLayersAreALayering(layers: seq<seq<Item>>, items: seq<Item>)
    requires Partitions(layers, items) && AllLayersFit(layers) && Distinct(items)
    ensures Layering(layers, items)
  {
    hide Ready, NamesIn, Flatten;
    forall k, i | 0 <= k < |layers| && 0 <= i < |layers[k]| ensures Ready(layers[k][i], NamesIn(layers[..k])) {
      AtLevel(layers, k, i);
    }
  }
}
