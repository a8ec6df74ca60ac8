/** Running layers of expressions as snapshot assignments, optionally dropping dead columns between them
    (native/engine/src/expression_executor.rs). */
module Engine {
  import opened Wrappers
  import opened Ast
  import opened Columns
  import opened Evaluator
  import opened References
  import opened Layers

  /** The new value replaces the first entry of its name, or is appended. */
  function Put(entries: seq<Entry>, entry: Entry): (r: seq<Entry>)
    requires AllProper(entries) && Proper(entry.data)
    ensures AllProper(r)
  {
    match Position(entries, entry.name)
    case Some(i) => entries[i := entry]
    case None => entries + [entry]
  }

  /** The first `n` expressions of a layer, all evaluated on `input`. */
  function RunItems(k: Kernels, layer: seq<Item>, input: Batch, n: nat): (r: Result<seq<Entry>, EvalError>)
    requires ValidBatch(input) && n <= |layer|
    ensures r.Success? ==> AllProper(r.value)
  {
    if n == 0 then
      EntriesProper(input);
      Success(input.entries)
    else
      var entries :- RunItems(k, layer, input, n - 1);
      var value :- EvaluateProper(k, layer[n - 1].expr, input);
      Success(Put(entries, Entry(layer[n - 1].name, layer[n - 1].nullable, value)))
  }

  lemma EntriesProper(batch: Batch)
    requires ValidBatch(batch)
    ensures AllProper(batch.entries)
  {
    forall i | 0 <= i < |batch.entries| ensures Proper(batch.entries[i].data) { assert EntryFits(batch.entries[i], batch.rows); }
  }

  /** A value that is not as long as the batch cannot become a column of it. */
  function EvaluateProper(k: Kernels, node: Node, batch: Batch): (r: Result<Array, EvalError>)
    requires ValidBatch(batch)
    ensures r.Success? ==> Proper(r.value) && Len(r.value) == batch.rows
  {
    OfLength(Evaluate(k, node, batch), batch.rows)
  }

  function RunLayer(k: Kernels, layer: seq<Item>, input: Batch): (r: Result<Batch, EvalError>)
    requires ValidBatch(input)
    ensures r.Success? ==> ValidBatch(r.value)
  {
    var entries :- RunItems(k, layer, input, |layer|);
    TryNew(entries)
  }

  /** `retain_batch_columns`: the entries whose name is in `names`, in place. */
  function Restrict(entries: seq<Entry>, names: set<string>): (r: seq<Entry>)
    ensures AllProper(entries) ==> AllProper(r)
    ensures r != [] <==> exists i :: 0 <= i < |entries| && entries[i].name in names
  {
    if entries == [] then []
    else
      var last := |entries| - 1;
      Restrict(entries[..last], names) + if entries[last].name in names then [entries[last]] else []
  }

  function ItemRefs(layer: seq<Item>): set<string> {
    set i, name | 0 <= i < |layer| && name in Refs(layer[i].expr) :: name
  }

  /** The final columns and everything the layers from the `from`-th on refer to. */
  function Live(layers: seq<seq<Item>>, from: nat, final: set<string>): (r: set<string>)
    requires from <= |layers|
    ensures final <= r
    decreases |layers| - from
  {
    if from == |layers| then final else ItemRefs(layers[from]) + Live(layers, from + 1, final)
  }

  function Retain(batch: Batch, names: set<string>): (r: Result<Batch, EvalError>)
    requires ValidBatch(batch)
    ensures r.Success? ==> ValidBatch(r.value)
  {
    EntriesProper(batch);
    TryNew(Restrict(batch.entries, names))
  }

  /** The batch after the first `n` layers. With no final column nothing is dropped. */
  function Run(k: Kernels, batch: Batch, layers: seq<seq<Item>>, final: set<string>, n: nat): (r: Result<Batch, EvalError>)
    requires ValidBatch(batch) && n <= |layers|
    ensures r.Success? ==> ValidBatch(r.value)
  {
    if n == 0 then Success(batch)
    else
      var before :- Run(k, batch, layers, final, n - 1);
      var after :- RunLayer(k, layers[n - 1], before);
      if final == {} then Success(after) else Retain(after, Live(layers, n, final))
  }

  lemma {:induction false} FailedLayerStops(
    k: Kernels, batch: Batch, layers: seq<seq<Item>>, final: set<string>, bad: nat, n: nat)
    requires ValidBatch(batch) && bad <= n <= |layers| && Run(k, batch, layers, final, bad).Failure?
    ensures Run(k, batch, layers, final, n) == Run(k, batch, layers, final, bad)
  {
    hide RunLayer, Retain, ValidBatch, Live;
    if bad < n { FailedLayerStops(k, batch, layers, final, bad, n - 1); }
  }

  lemma {:induction false} FailedItemStops(k: Kernels, layer: seq<Item>, input: Batch, bad: nat, n: nat)
    requires ValidBatch(input) && bad <= n <= |layer| && RunItems(k, layer, input, bad).Failure?
    ensures RunItems(k, layer, input, n) == RunItems(k, layer, input, bad)
  {
    hide EvaluateProper, ValidBatch, Put;
    if bad < n { FailedItemStops(k, layer, input, bad, n - 1); }
  }

  method ExecuteLayer(k: Kernels, layer: seq<Item>, input: Batch) returns (r: Result<Batch, EvalError>)
    requires ValidBatch(input)
    ensures r == RunLayer(k, layer, input)
  {
    hide EvaluateProper, Put;
    EntriesProper(input);
    var entries := input.entries;
    for n := 0 to |layer|
      invariant AllProper(entries)
      invariant RunItems(k, layer, input, n) == Success(entries)
    {
      var value := EvaluateProper(k, layer[n].expr, input);
      if value.Failure? {
        FailedItemStops(k, layer, input, n + 1, |layer|);
        return Failure(value.error);
      }
      entries := Put(entries, Entry(layer[n].name, layer[n].nullable, value.value));
    }
    r := TryNew(entries);
  }

  /** The live columns after a layer, collected by walking the later layers. */
  method LiveColumns(layers: seq<seq<Item>>, from: nat, final: set<string>) returns (live: set<string>)
    requires from <= |layers|
    ensures live == Live(layers, from, final)
  {
    hide ItemRefs;
    live := final;
    for n := from to |layers|
      invariant live + Live(layers, n, final) == Live(layers, from, final)
      invariant final <= live
    {
      live := live + ItemRefs(layers[n]);
    }
  }

  /** `execute_expression_ir_retaining`. */
  method ExecuteRetaining(k: Kernels, batch: Batch, layers: seq<seq<Item>>, final: set<string>)
    returns (r: Result<Batch, EvalError>)
    requires ValidBatch(batch)
    ensures r == Run(k, batch, layers, final, |layers|)
  {
    hide RunLayer, Retain, Live;
    var current := batch;
    for n := 0 to |layers|
      invariant ValidBatch(current)
      invariant Run(k, batch, layers, final, n) == Success(current)
    {
      var next := ExecuteLayer(k, layers[n], current);
      if next.Success? && final != {} {
        var live := LiveColumns(layers, n + 1, final);
        next := Retain(next.value, live);
      }
      if next.Failure? {
        FailedLayerStops(k, batch, layers, final, n + 1, |layers|);
        return next;
      }
      current := next.value;
    }
    r := Success(current);
  }

  // ----- what restricting and the live columns mean

  function KeptPlaces(entries: seq<Entry>, names: set<string>): seq<nat> {
    if entries == [] then []
    else
      var last := |entries| - 1;
      KeptPlaces(entries[..last], names) + if entries[last].name in names then [last] else []
  }

  lemma {:induction false} KeptPlacesAre(entries: seq<Entry>, names: set<string>)
    ensures forall i: nat :: i in KeptPlaces(entries, names) <==> i < |entries| && entries[i].name in names
    ensures forall m, n :: 0 <= m < n < |KeptPlaces(entries, names)| ==>
              KeptPlaces(entries, names)[m] < KeptPlaces(entries, names)[n]
  {
    if entries != [] {
      var last := |entries| - 1;
      KeptPlacesAre(entries[..last], names);
      var before := KeptPlaces(entries[..last], names);
      assert forall n :: 0 <= n < |before| ==> before[n] in before;
      assert forall i: nat :: i < last ==> entries[..last][i] == entries[i];
    }
  }

  /** Restricting keeps exactly the entries of the names, in their order. */
  lemma {:induction false} RestrictKeeps(entries: seq<Entry>, names: set<string>)
    ensures var kept := KeptPlaces(entries, names);
      |Restrict(entries, names)| == |kept|
      && forall n :: 0 <= n < |kept| ==> kept[n] < |entries| && Restrict(entries, names)[n] == entries[kept[n]]
  {
    if entries != [] { RestrictKeeps(entries[..|entries| - 1], names); }
  }

  /** A column is live exactly when it is final or a later layer's expression mentions it. */
  lemma {:induction false} LiveMeans(layers: seq<seq<Item>>, from: nat, final: set<string>, name: string)
    requires from <= |layers|
    ensures name in Live(layers, from, final) <==>
      name in final || exists l, i :: from <= l < |layers| && 0 <= i < |layers[l]| && Mentions(layers[l][i].expr, name)
    decreases |layers| - from
  {
    if from < |layers| {
      LiveMeans(layers, from + 1, final, name);
      LayerMentions(layers[from], name);
    }
  }

  lemma LayerMentions(layer: seq<Item>, name: string)
    ensures name in ItemRefs(layer) <==> exists i :: 0 <= i < |layer| && Mentions(layer[i].expr, name)
  {
    hide Refs, Mentions;
    forall i | 0 <= i < |layer| ensures name in Refs(layer[i].expr) <==> Mentions(layer[i].expr, name) { RefsAreMentions(layer[i].expr); }
    if name in ItemRefs(layer) { var i :| 0 <= i < |layer| && name in Refs(layer[i].expr); }
  }
}
