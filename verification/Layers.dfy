/** Layering derived expressions by dependency (src/spotfire_expr_normalizer/dependency.py). */
module Layers {
  import opened Wrappers
  import opened Ast

  /** A derived expression. `nullable` belongs to the executor's form of it. */
  datatype Item = Item(name: string, dependencies: seq<string>, nullable: bool, expr: Node)

  datatype LayerError = CycleOrUnresolved(remaining: seq<string>)

  // ----- the pending dictionary: insertion ordered, the last value of a name wins

  function NamesOf(items: seq<Item>): set<string> { set i | 0 <= i < |items| :: items[i].name }

  predicate Distinct(items: seq<Item>) { forall i, j :: 0 <= i < j < |items| ==> items[i].name != items[j].name }

  function Upsert(pending: seq<Item>, item: Item): (r: seq<Item>)
    requires Distinct(pending)
    ensures Distinct(r) && NamesOf(r) == NamesOf(pending) + {item.name} && item in r
    ensures forall x :: x in r ==> x == item || x in pending
    ensures forall x :: x in pending && x.name != item.name ==> x in r
  {
    if exists i :: 0 <= i < |pending| && pending[i].name == item.name then
      var i :| 0 <= i < |pending| && pending[i].name == item.name;
      var r := pending[i := item];
      assert forall j :: 0 <= j < |r| ==> r[j].name == pending[j].name;
      assert NamesOf(r) == NamesOf(pending) && r[i] == item;
      assert forall j :: 0 <= j < |pending| && j != i ==> r[j] == pending[j];
      r
    else
      var r := pending + [item];
      assert r[|pending|] == item;
      assert forall j :: 0 <= j < |pending| ==> r[j] == pending[j];
      r
  }

  function Pending(expressions: seq<Item>): (r: seq<Item>)
    ensures Distinct(r) && NamesOf(r) == NamesOf(expressions)
  {
    if expressions == [] then []
    else
      var last := |expressions| - 1;
      assert NamesOf(expressions) == NamesOf(expressions[..last]) + {expressions[last].name};
      Upsert(Pending(expressions[..last]), expressions[last])
  }

  lemma UpsertNew(pending: seq<Item>, item: Item)
    requires Distinct(pending) && forall i :: 0 <= i < |pending| ==> pending[i].name != item.name
    ensures Upsert(pending, item) == pending + [item]
  {
  }

  lemma {:induction false} DistinctArePending(expressions: seq<Item>)
    requires Distinct(expressions)
    ensures Pending(expressions) == expressions
  {
    hide Upsert;
    if expressions != [] {
      DistinctArePending(expressions[..|expressions| - 1]);
      UpsertNew(expressions[..|expressions| - 1], expressions[|expressions| - 1]);
    }
  }

  // ----- sorting by name

  predicate Before(a: string, b: string) {
    a == "" || (b != "" && (a[0] < b[0] || (a[0] == b[0] && Before(a[1..], b[1..]))))
  }

  lemma {:induction false} BeforeIsTotal(a: string, b: string)
    ensures Before(a, b) || Before(b, a)
  {
    if a != "" && b != "" && a[0] == b[0] { BeforeIsTotal(a[1..], b[1..]); }
  }

  lemma {:induction false} BeforeIsTransitive(a: string, b: string, c: string)
    requires Before(a, b) && Before(b, c)
    ensures Before(a, c)
  {
    if a != "" && a[0] == b[0] && b[0] == c[0] { BeforeIsTransitive(a[1..], b[1..], c[1..]); }
  }

  /** The order of names is that of their first different characters, a beginning before what goes on. */
  lemma {:induction false} BeforeMeans(a: string, b: string)
    ensures Before(a, b) <==> a <= b || exists k: nat :: FirstDifference(a, b, k) && a[k] < b[k]
  {
    if a != "" && b != "" {
      if a[0] != b[0] {
        assert FirstDifference(a, b, 0);
      } else {
        BeforeMeans(a[1..], b[1..]);
        assert a <= b <==> a[1..] <= b[1..];
        forall k: nat ensures FirstDifference(a, b, k + 1) <==> FirstDifference(a[1..], b[1..], k) {
          if k < |a[1..]| && k < |b[1..]| {
            assert a[..k + 1] == [a[0]] + a[1..][..k] && b[..k + 1] == [b[0]] + b[1..][..k];
            assert a[1..][..k] == a[..k + 1][1..] && b[1..][..k] == b[..k + 1][1..];
          }
        }
        if k: nat :| FirstDifference(a[1..], b[1..], k) && a[1..][k] < b[1..][k] { assert FirstDifference(a, b, k + 1); }
        if k: nat :| FirstDifference(a, b, k) && a[k] < b[k] { assert FirstDifference(a[1..], b[1..], k - 1); }
      }
    }
  }

  predicate FirstDifference(a: string, b: string, k: nat) { k < |a| && k < |b| && a[..k] == b[..k] && a[k] != b[k] }

  predicate Ascending(names: seq<string>) { forall i, j :: 0 <= i < j < |names| ==> Before(names[i], names[j]) }

  function ItemNames(items: seq<Item>): (names: seq<string>)
    ensures |names| == |items| && forall i :: 0 <= i < |items| ==> names[i] == items[i].name
  {
    seq(|items|, i requires 0 <= i < |items| => items[i].name)
  }

  function Insert(sorted: seq<Item>, item: Item): (r: seq<Item>)
    ensures multiset(r) == multiset(sorted) + multiset{item}
  {
    if sorted == [] || Before(item.name, sorted[0].name) then [item] + sorted
    else
      assert sorted == [sorted[0]] + sorted[1..];
      [sorted[0]] + Insert(sorted[1..], item)
  }

  function SortByName(items: seq<Item>): (r: seq<Item>)
    ensures multiset(r) == multiset(items)
  {
    if items == [] then []
    else
      assert items == items[..|items| - 1] + [items[|items| - 1]];
      Insert(SortByName(items[..|items| - 1]), items[|items| - 1])
  }

  lemma {:induction false} InsertAscends(sorted: seq<Item>, item: Item)
    requires Ascending(ItemNames(sorted))
    ensures Ascending(ItemNames(Insert(sorted, item)))
  {
    hide Before;
    var r := Insert(sorted, item);
    if sorted == [] {
    } else if Before(item.name, sorted[0].name) {
      forall i | 0 <= i < |sorted| ensures Before(item.name, sorted[i].name) {
        if i > 0 {
          assert Before(ItemNames(sorted)[0], ItemNames(sorted)[i]);
          BeforeIsTransitive(item.name, sorted[0].name, sorted[i].name);
        }
      }
      AscendingInFront(item, sorted);
    } else {
      BeforeIsTotal(item.name, sorted[0].name);
      assert ItemNames(sorted)[1..] == ItemNames(sorted[1..]);
      InsertAscends(sorted[1..], item);
      var rest := Insert(sorted[1..], item);
      forall x | x in rest ensures Before(sorted[0].name, x.name) {
        assert x in multiset(rest);
        if x != item {
          assert x in sorted[1..];
          var i :| 0 < i < |sorted| && sorted[i] == x;
          assert Before(ItemNames(sorted)[0], ItemNames(sorted)[i]);
        }
      }
      AscendingInFront(sorted[0], rest);
    }
  }

  lemma AscendingInFront(item: Item, rest: seq<Item>)
    requires Ascending(ItemNames(rest)) && forall i :: 0 <= i < |rest| ==> Before(item.name, rest[i].name)
    ensures Ascending(ItemNames([item] + rest))
  {
    hide Before;
    var names := ItemNames([item] + rest);
    forall i, j | 0 <= i < j < |names| ensures Before(names[i], names[j]) {
      if i > 0 { assert names[i] == ItemNames(rest)[i - 1] && names[j] == ItemNames(rest)[j - 1]; }
    }
  }

  lemma {:induction false} SortAscends(items: seq<Item>)
    ensures Ascending(ItemNames(SortByName(items)))
  {
    hide Before;
    if items != [] {
      SortAscends(items[..|items| - 1]);
      InsertAscends(SortByName(items[..|items| - 1]), items[|items| - 1]);
    }
  }

  // ----- dependency chains

  ghost predicate DependsOn(items: seq<Item>, a: string, b: string) {
    exists i :: 0 <= i < |items| && items[i].name == a && b in items[i].dependencies
  }

  /** Names of items, each depending on the next. */
  ghost predicate Chain(items: seq<Item>, path: seq<string>) {
    path != []
    && (forall i :: 0 <= i < |path| ==> path[i] in NamesOf(items))
    && forall i :: 0 <= i < |path| - 1 ==> DependsOn(items, path[i], path[i + 1])
  }

  /** A dependency that nobody defines. */
  ghost predicate Dangling(items: seq<Item>) {
    exists a, b :: DependsOn(items, a, b) && b !in NamesOf(items)
  }

  ghost predicate Cyclic(items: seq<Item>) {
    exists path :: Chain(items, path) && |path| > 1 && path[0] == path[|path| - 1]
  }

  // ----- layers

  function Flatten(layers: seq<seq<Item>>): seq<Item> {
    if layers == [] then [] else Flatten(layers[..|layers| - 1]) + layers[|layers| - 1]
  }

  function NamesIn(layers: seq<seq<Item>>): set<string> {
    if layers == [] then {} else NamesIn(layers[..|layers| - 1]) + NamesOf(layers[|layers| - 1])
  }

  predicate Ready(item: Item, resolved: set<string>) {
    forall i :: 0 <= i < |item.dependencies| ==> item.dependencies[i] in resolved
  }

  /** The layer `k` holds items whose dependencies lie before it, but not all of them before the layer
      that precedes it. */
  predicate LayerFits(layers: seq<seq<Item>>, k: nat)
    requires k < |layers|
  {
    forall i :: 0 <= i < |layers[k]| ==> ItemFits(layers, k, layers[k][i])
  }

  predicate ItemFits(layers: seq<seq<Item>>, k: nat, item: Item)
    requires k < |layers|
  {
    item.name !in NamesIn(layers[..k])
    && Ready(item, NamesIn(layers[..k]))
    && (k > 0 ==> !Ready(item, NamesIn(layers[..k - 1])))
  }

  ghost predicate AllLayersFit(layers: seq<seq<Item>>) { forall k :: 0 <= k < |layers| ==> LayerFits(layers, k) }

  ghost predicate AllSorted(layers: seq<seq<Item>>) {
    forall k :: 0 <= k < |layers| ==> layers[k] != [] && Ascending(ItemNames(layers[k]))
  }

  /** The layers hold every item once. */
  ghost predicate Partitions(layers: seq<seq<Item>>, items: seq<Item>) {
    multiset(Flatten(layers)) == multiset(items)
  }

  lemma {:induction false} NamedInLayer(layers: seq<seq<Item>>, name: string) returns (k: nat, i: nat)
    requires name in NamesIn(layers)
    ensures k < |layers| && i < |layers[k]| && layers[k][i].name == name
  {
    var last := |layers| - 1;
    if name in NamesOf(layers[last]) {
      k := last;
      i :| 0 <= i < |layers[last]| && layers[last][i].name == name;
    } else {
      k, i := NamedInLayer(layers[..last], name);
    }
  }

  lemma {:induction false} LayerNamed(layers: seq<seq<Item>>, k: nat, i: nat)
    requires k < |layers| && i < |layers[k]|
    ensures layers[k][i].name in NamesIn(layers)
  {
    if k < |layers| - 1 { LayerNamed(layers[..|layers| - 1], k, i); }
  }

  // ----- levels are longest chains

  lemma AtLevel(layers: seq<seq<Item>>, k: nat, i: nat)
    requires AllLayersFit(layers) && k < |layers| && i < |layers[k]|
    ensures ItemFits(layers, k, layers[k][i])
  {
    assert LayerFits(layers, k);
  }

  lemma {:induction false} NamesInGrow(layers: seq<seq<Item>>, j: nat, k: nat)
    requires j <= k <= |layers|
    ensures NamesIn(layers[..j]) <= NamesIn(layers[..k])
  {
    if j < k {
      assert layers[..k][..k - 1] == layers[..k - 1];
      NamesInGrow(layers, j, k - 1);
    }
  }

  /** A name stands in one layer only. */
  lemma LevelIsUnique(layers: seq<seq<Item>>, k: nat, i: nat, k': nat, i': nat)
    requires AllLayersFit(layers) && k < |layers| && i < |layers[k]| && k' < |layers| && i' < |layers[k']|
    requires layers[k][i].name == layers[k'][i'].name
    ensures k == k'
  {
    AtLevel(layers, k, i);
    AtLevel(layers, k', i');
    if k < k' {
      LayerNamed(layers[..k'], k, i);
    } else if k' < k {
      LayerNamed(layers[..k], k', i');
    }
  }

  lemma {:induction false} FlattenMembers(layers: seq<seq<Item>>, item: Item)
    ensures item in Flatten(layers) <==> exists k :: 0 <= k < |layers| && item in layers[k]
  {
    if layers != [] { FlattenMembers(layers[..|layers| - 1], item); }
  }

  lemma ItemHasLayer(layers: seq<seq<Item>>, items: seq<Item>, p: nat) returns (k: nat, i: nat)
    requires Partitions(layers, items) && p < |items|
    ensures k < |layers| && i < |layers[k]| && layers[k][i] == items[p]
  {
    assert items[p] in multiset(items);
    assert items[p] in Flatten(layers);
    FlattenMembers(layers, items[p]);
    k :| 0 <= k < |layers| && items[p] in layers[k];
    i :| 0 <= i < |layers[k]| && layers[k][i] == items[p];
  }

  lemma LayerHoldsItem(layers: seq<seq<Item>>, items: seq<Item>, k: nat, i: nat) returns (p: nat)
    requires Partitions(layers, items) && k < |layers| && i < |layers[k]|
    ensures p < |items| && items[p] == layers[k][i]
  {
    FlattenMembers(layers, layers[k][i]);
    assert layers[k][i] in multiset(Flatten(layers));
    p :| 0 <= p < |items| && items[p] == layers[k][i];
  }

  /** Along a dependency the layer number goes down. */
  lemma StepDown(layers: seq<seq<Item>>, items: seq<Item>, k: nat, i: nat, next: string) returns (k': nat, i': nat)
    requires AllLayersFit(layers) && Partitions(layers, items) && k < |layers| && i < |layers[k]|
    requires DependsOn(items, layers[k][i].name, next)
    ensures k' < k && i' < |layers[k']| && layers[k'][i'].name == next
  {
    var p :| 0 <= p < |items| && items[p].name == layers[k][i].name && next in items[p].dependencies;
    var pk, pi := ItemHasLayer(layers, items, p);
    LevelIsUnique(layers, k, i, pk, pi);
    AtLevel(layers, pk, pi);
    var d :| 0 <= d < |items[p].dependencies| && items[p].dependencies[d] == next;
    k', i' := NamedInLayer(layers[..k], next);
  }

  lemma {:induction false} ChainGoesDown(layers: seq<seq<Item>>, items: seq<Item>, k: nat, i: nat, path: seq<string>)
    returns (k': nat, i': nat)
    requires AllLayersFit(layers) && Partitions(layers, items) && k < |layers| && i < |layers[k]|
    requires Chain(items, path) && path[0] == layers[k][i].name
    ensures |path| <= k + 1
    ensures k' + |path| - 1 <= k && i' < |layers[k']| && layers[k'][i'].name == path[|path| - 1]
    decreases |path|
  {
    if |path| == 1 {
      k', i' := k, i;
    } else {
      assert DependsOn(items, path[0], path[0 + 1]);
      var kn, inn := StepDown(layers, items, k, i, path[1]);
      TailIsChain(items, path);
      k', i' := ChainGoesDown(layers, items, kn, inn, path[1..]);
    }
  }

  lemma TailIsChain(items: seq<Item>, path: seq<string>)
    requires Chain(items, path) && |path| > 1
    ensures Chain(items, path[1..])
  {
    hide DependsOn, NamesOf;
    forall i | 0 <= i < |path[1..]| - 1 ensures DependsOn(items, path[1..][i], path[1..][i + 1]) {
      assert DependsOn(items, path[i + 1], path[i + 1 + 1]);
    }
  }

  lemma ChainInFront(items: seq<Item>, name: string, path: seq<string>)
    requires Chain(items, path) && name in NamesOf(items) && DependsOn(items, name, path[0])
    ensures Chain(items, [name] + path)
  {
    hide DependsOn, NamesOf;
    var longer := [name] + path;
    forall i | 0 <= i < |longer| - 1 ensures DependsOn(items, longer[i], longer[i + 1]) {
      if i > 0 { assert DependsOn(items, path[i - 1], path[i - 1 + 1]); }
    }
  }

  lemma {:induction false} LevelHasChain(layers: seq<seq<Item>>, items: seq<Item>, k: nat, i: nat)
    returns (path: seq<string>)
    requires AllLayersFit(layers) && Partitions(layers, items) && k < |layers| && i < |layers[k]|
    ensures Chain(items, path) && path[0] == layers[k][i].name && |path| == k + 1
    decreases k
  {
    var item := layers[k][i];
    AtLevel(layers, k, i);
    var p := LayerHoldsItem(layers, items, k, i);
    assert item.name in NamesOf(items);
    if k == 0 {
      path := [item.name];
    } else {
      var d :| 0 <= d < |item.dependencies| && item.dependencies[d] !in NamesIn(layers[..k - 1]);
      assert layers[..k][..k - 1] == layers[..k - 1] && item.dependencies[d] in NamesIn(layers[..k]);
      var i' :| 0 <= i' < |layers[k - 1]| && layers[k - 1][i'].name == item.dependencies[d];
      var rest := LevelHasChain(layers, items, k - 1, i');
      assert DependsOn(items, item.name, rest[0]);
      ChainInFront(items, item.name, rest);
      path := [item.name] + rest;
    }
  }

  /** The layer number of an item, counted from one, is the length of its longest dependency chain. */
  lemma LevelIsLongestChain(layers: seq<seq<Item>>, items: seq<Item>, k: nat, i: nat)
    requires AllLayersFit(layers) && Partitions(layers, items) && k < |layers| && i < |layers[k]|
    ensures exists path :: Chain(items, path) && path[0] == layers[k][i].name && |path| == k + 1
    ensures forall path :: Chain(items, path) && path[0] == layers[k][i].name ==> |path| <= k + 1
  {
    var longest := LevelHasChain(layers, items, k, i);
    forall path | Chain(items, path) && path[0] == layers[k][i].name ensures |path| <= k + 1 {
      var _, _ := ChainGoesDown(layers, items, k, i, path);
    }
  }

  /** Layered items have no dangling and no cyclic dependency. */
  lemma LayeredIsSound(layers: seq<seq<Item>>, items: seq<Item>)
    requires AllLayersFit(layers) && Partitions(layers, items)
    ensures !Dangling(items) && !Cyclic(items)
  {
    forall a, b | DependsOn(items, a, b) ensures b in NamesOf(items) {
      var p :| 0 <= p < |items| && items[p].name == a && b in items[p].dependencies;
      var k, i := ItemHasLayer(layers, items, p);
      var k', i' := StepDown(layers, items, k, i, b);
      var q := LayerHoldsItem(layers, items, k', i');
    }
    forall path | Chain(items, path) && |path| > 1 ensures path[0] != path[|path| - 1] {
      NoCycle(layers, items, path);
    }
  }

  lemma NoCycle(layers: seq<seq<Item>>, items: seq<Item>, path: seq<string>)
    requires AllLayersFit(layers) && Partitions(layers, items) && Chain(items, path) && |path| > 1
    ensures path[0] != path[|path| - 1]
  {
    assert path[0] in NamesOf(items);
    var p :| 0 <= p < |items| && items[p].name == path[0];
    var k, i := ItemHasLayer(layers, items, p);
    var k', i' := ChainGoesDown(layers, items, k, i, path);
    if path[0] == path[|path| - 1] { LevelIsUnique(layers, k, i, k', i'); }
  }

  // ----- a stuck round means a dangling or cyclic dependency

  /** Every item left has a dependency that is left too. */
  ghost predicate Stuck(items: seq<Item>, left: set<string>) {
    left <= NamesOf(items) && forall a :: a in left ==> HasNext(items, left, a)
  }

  ghost predicate HasNext(items: seq<Item>, left: set<string>, a: string) {
    exists b :: b in left && DependsOn(items, a, b)
  }

  lemma NextLeft(items: seq<Item>, left: set<string>, a: string) returns (b: string)
    requires HasNext(items, left, a)
    ensures b in left && DependsOn(items, a, b)
  {
    b :| b in left && DependsOn(items, a, b);
  }

  lemma {:induction false} StuckWalk(items: seq<Item>, left: set<string>, start: string, n: nat) returns (path: seq<string>)
    requires Stuck(items, left) && start in left
    ensures Chain(items, path) && |path| == n + 1 && path[0] == start
    ensures forall i :: 0 <= i < |path| ==> path[i] in left
    decreases n
  {
    hide HasNext, DependsOn, NamesOf;
    if n == 0 {
      path := [start];
    } else {
      var next := NextLeft(items, left, start);
      var rest := StuckWalk(items, left, next, n - 1);
      ChainInFront(items, start, rest);
      path := [start] + rest;
    }
  }

  lemma {:induction false} Pigeonhole(path: seq<string>, names: set<string>) returns (i: nat, j: nat)
    requires |path| > |names| && forall k :: 0 <= k < |path| ==> path[k] in names
    ensures i < j < |path| && path[i] == path[j]
    decreases |path|
  {
    var last := |path| - 1;
    if exists k :: 0 <= k < last && path[k] == path[last] {
      i :| 0 <= i < last && path[i] == path[last];
      j := last;
    } else {
      i, j := Pigeonhole(path[..last], names - {path[last]});
    }
  }

  lemma StuckIsCyclic(items: seq<Item>, left: set<string>)
    requires Stuck(items, left) && left != {}
    ensures Cyclic(items)
  {
    hide HasNext, DependsOn, NamesOf;
    var start :| start in left;
    var path := StuckWalk(items, left, start, |left|);
    var i, j := Pigeonhole(path, left);
    var cycle := path[i..j + 1];
    forall k | 0 <= k < |cycle| - 1 ensures DependsOn(items, cycle[k], cycle[k + 1]) {
      assert DependsOn(items, path[i + k], path[i + k + 1]);
    }
    assert Chain(items, cycle);
  }

  // ----- building the layers

  function ReadyItems(pending: seq<Item>, resolved: set<string>): (r: seq<Item>)
    ensures forall x :: x in r <==> x in pending && Ready(x, resolved)
  {
    if pending == [] then []
    else
      var last := |pending| - 1;
      ReadyItems(pending[..last], resolved) + if Ready(pending[last], resolved) then [pending[last]] else []
  }

  /** `pending.pop`. */
  function Pop(pending: seq<Item>, name: string): (r: seq<Item>)
    ensures forall x :: x in r <==> x in pending && x.name != name
  {
    if pending == [] then []
    else
      var last := |pending| - 1;
      Pop(pending[..last], name) + if pending[last].name != name then [pending[last]] else []
  }

  lemma {:induction false} PopKeepsDistinct(pending: seq<Item>, name: string)
    requires Distinct(pending)
    ensures Distinct(Pop(pending, name)) && |Pop(pending, name)| <= |pending|
  {
    if pending != [] {
      var last := |pending| - 1;
      PopKeepsDistinct(pending[..last], name);
      var before := Pop(pending[..last], name);
      forall i | 0 <= i < |before| ensures before[i].name != pending[last].name { assert before[i] in pending[..last]; }
    }
  }

  lemma {:induction false} PopTakesOne(pending: seq<Item>, item: Item)
    requires Distinct(pending) && item in pending
    ensures multiset(pending) == multiset(Pop(pending, item.name)) + multiset{item}
  {
    var last := |pending| - 1;
    assert pending == pending[..last] + [pending[last]];
    if pending[last] == item {
      PopNothing(pending[..last], item.name);
    } else {
      assert item in pending[..last];
      PopTakesOne(pending[..last], item);
      var p :| 0 <= p < last && pending[p] == item;
    }
  }

  lemma {:induction false} PopNothing(pending: seq<Item>, name: string)
    requires forall i :: 0 <= i < |pending| ==> pending[i].name != name
    ensures Pop(pending, name) == pending
  {
    hide Pop;
    if pending == [] {
      PopStep([], name);
    } else {
      var last := |pending| - 1;
      PopNothing(pending[..last], name);
      PopStep(pending, name);
      assert pending == pending[..last] + [pending[last]];
    }
  }

  lemma PopStep(pending: seq<Item>, name: string)
    ensures pending == [] ==> Pop(pending, name) == []
    ensures pending != [] && pending[|pending| - 1].name != name ==>
              Pop(pending, name) == Pop(pending[..|pending| - 1], name) + [pending[|pending| - 1]]
  {
  }

  ghost predicate AllFrom(pending: seq<Item>, items: seq<Item>) { forall x :: x in pending ==> x in items }

  /** What holds between rounds: the items are split between the layers and the pending ones. */
  ghost predicate Round(items: seq<Item>, layers: seq<seq<Item>>, pending: seq<Item>, resolved: set<string>) {
    && resolved == NamesIn(layers) && Distinct(pending)
    && AllLayersFit(layers) && AllSorted(layers)
    && multiset(Flatten(layers)) + multiset(pending) == multiset(items)
    && (forall x :: x in pending ==> x.name !in resolved)
    && (layers != [] ==> forall x :: x in pending ==> !Ready(x, NamesIn(layers[..|layers| - 1])))
  }

  ghost predicate Without(before: seq<Item>, layer: seq<Item>, after: seq<Item>) {
    && Distinct(after) && multiset(before) == multiset(after) + multiset(layer)
    && forall x :: x in after <==> x in before && x.name !in NamesOf(layer)
  }

  lemma WithoutNext(before: seq<Item>, layer: seq<Item>, k: nat, after: seq<Item>)
    requires Distinct(layer) && AllFrom(layer, before) && k < |layer| && Without(before, layer[..k], after)
    ensures Without(before, layer[..k + 1], Pop(after, layer[k].name))
    ensures NamesOf(layer[..k + 1]) == NamesOf(layer[..k]) + {layer[k].name}
  {
    var item := layer[k];
    NamesPush(layer, k);
    NotYetTaken(layer, k);
    hide Pop, NamesOf, Distinct;
    assert item in layer && item in after;
    PopTakesOne(after, item);
    PopKeepsDistinct(after, item.name);
    MultisetMoves(before, layer[..k], after, item, Pop(after, item.name));
  }

  lemma NamesPush(layer: seq<Item>, k: nat)
    requires k < |layer|
    ensures layer[..k + 1] == layer[..k] + [layer[k]]
    ensures NamesOf(layer[..k + 1]) == NamesOf(layer[..k]) + {layer[k].name}
  {
  }

  lemma NotYetTaken(layer: seq<Item>, k: nat)
    requires Distinct(layer) && k < |layer|
    ensures layer[k].name !in NamesOf(layer[..k])
  {
  }

  lemma MultisetMoves(before: seq<Item>, taken: seq<Item>, after: seq<Item>, item: Item, less: seq<Item>)
    requires multiset(before) == multiset(after) + multiset(taken) && multiset(after) == multiset(less) + multiset{item}
    ensures multiset(before) == multiset(less) + multiset(taken + [item])
  {
  }

  /** Taking a layer out of the pending items. */
  method TakeLayer(layer: seq<Item>, pending: seq<Item>, resolved: set<string>)
    returns (pending': seq<Item>, resolved': set<string>)
    requires Distinct(pending) && Distinct(layer) && AllFrom(layer, pending)
    ensures resolved' == resolved + NamesOf(layer) && Without(pending, layer, pending')
  {
    hide AllFrom, Pop;
    pending', resolved' := pending, resolved;
    assert layer[..0] == [];
    for k := 0 to |layer|
      invariant resolved' == resolved + NamesOf(layer[..k]) && Without(pending, layer[..k], pending')
    {
      hide Without, NamesOf, Distinct;
      WithoutNext(pending, layer, k, pending');
      resolved' := resolved' + {layer[k].name};
      pending' := Pop(pending', layer[k].name);
    }
    assert layer[..|layer|] == layer;
  }

  // ----- one round keeps the invariant

  lemma {:induction false} ReadyKeepsDistinct(pending: seq<Item>, resolved: set<string>)
    requires Distinct(pending)
    ensures Distinct(ReadyItems(pending, resolved)) && AllFrom(ReadyItems(pending, resolved), pending)
  {
    hide Ready;
    if pending != [] {
      var last := |pending| - 1;
      ReadyKeepsDistinct(pending[..last], resolved);
      var before := ReadyItems(pending[..last], resolved);
      forall i | 0 <= i < |before| ensures before[i].name != pending[last].name { assert before[i] in pending[..last]; }
    }
  }

  lemma SortedLayer(layer: seq<Item>)
    ensures forall x :: x in SortByName(layer) <==> x in layer
    ensures NamesOf(SortByName(layer)) == NamesOf(layer) && |SortByName(layer)| == |layer|
    ensures Distinct(layer) ==> Distinct(SortByName(layer))
  {
    var sorted := SortByName(layer);
    assert multiset(sorted) == multiset(layer);
    assert |multiset(sorted)| == |multiset(layer)|;
    forall x ensures x in sorted <==> x in layer { assert x in multiset(sorted) <==> x in multiset(layer); }
    forall n | n in NamesOf(sorted) ensures n in NamesOf(layer) {
      var i :| 0 <= i < |sorted| && sorted[i].name == n;
      assert sorted[i] in layer;
    }
    forall n | n in NamesOf(layer) ensures n in NamesOf(sorted) {
      var i :| 0 <= i < |layer| && layer[i].name == n;
      assert layer[i] in sorted;
    }
    if Distinct(layer) { SameMembersDistinct(sorted, layer); }
  }

  lemma SameMembersDistinct(sorted: seq<Item>, layer: seq<Item>)
    requires Distinct(layer) && multiset(sorted) == multiset(layer)
    ensures Distinct(sorted)
  {
    forall i, j | 0 <= i < j < |sorted| ensures sorted[i].name != sorted[j].name {
      if sorted[i].name == sorted[j].name {
        assert sorted[i] in multiset(layer) && sorted[j] in multiset(layer);
        var a :| 0 <= a < |layer| && layer[a] == sorted[i];
        var b :| 0 <= b < |layer| && layer[b] == sorted[j];
        assert a == b;
        Twice(sorted, i, j);
        OnceInDistinct(layer, a);
      }
    }
  }

  lemma Twice(items: seq<Item>, i: nat, j: nat)
    requires i < j < |items| && items[i] == items[j]
    ensures multiset(items)[items[i]] >= 2
  {
    assert items == items[..j] + [items[j]] + items[j + 1..];
    assert items[i] in items[..j];
  }

  lemma {:induction false} OnceInDistinct(items: seq<Item>, i: nat)
    requires Distinct(items) && i < |items|
    ensures multiset(items)[items[i]] == 1
  {
    assert items == items[..i] + [items[i]] + items[i + 1..];
    assert items[i] !in items[..i] && items[i] !in items[i + 1..];
  }

  lemma LayerAdded(layers: seq<seq<Item>>, layer: seq<Item>)
    ensures NamesIn(layers + [layer]) == NamesIn(layers) + NamesOf(layer)
    ensures Flatten(layers + [layer]) == Flatten(layers) + layer
    ensures (layers + [layer])[..|layers|] == layers
  {
    assert (layers + [layer])[..|layers|] == layers;
  }

  lemma OldLayerFits(layers: seq<seq<Item>>, layer: seq<Item>, k: nat)
    requires AllLayersFit(layers) && k < |layers|
    ensures LayerFits(layers + [layer], k)
  {
    hide Ready, NamesIn;
    var longer := layers + [layer];
    assert longer[..k] == layers[..k];
    if k > 0 { assert longer[..k - 1] == layers[..k - 1]; }
    assert LayerFits(layers, k);
    forall i | 0 <= i < |longer[k]| ensures ItemFits(longer, k, longer[k][i]) { assert ItemFits(layers, k, layers[k][i]); }
  }

  /** The new last layer fits, and the earlier layers still do. */
  lemma FitsAfterAdding(layers: seq<seq<Item>>, layer: seq<Item>)
    requires AllLayersFit(layers)
    requires forall x :: x in layer ==> x.name !in NamesIn(layers) && Ready(x, NamesIn(layers))
    requires layers != [] ==> forall x :: x in layer ==> !Ready(x, NamesIn(layers[..|layers| - 1]))
    ensures AllLayersFit(layers + [layer])
  {
    var longer := layers + [layer];
    hide Ready, NamesIn;
    assert longer[..|layers|] == layers;
    if layers != [] { assert longer[..|layers| - 1] == layers[..|layers| - 1]; }
    forall i | 0 <= i < |layer| ensures ItemFits(longer, |layers|, layer[i]) { assert layer[i] in layer; }
    assert LayerFits(longer, |layers|);
    hide AllLayersFit, LayerFits;
    forall k | 0 <= k < |layers| ensures LayerFits(longer, k) { OldLayerFits(layers, layer, k); }
    FitsEverywhere(layers, layer);
  }

  lemma FitsEverywhere(layers: seq<seq<Item>>, layer: seq<Item>)
    requires forall k :: 0 <= k <= |layers| ==> LayerFits(layers + [layer], k)
    ensures AllLayersFit(layers + [layer])
  {
  }

  lemma RoundStep(
    items: seq<Item>, layers: seq<seq<Item>>, pending: seq<Item>, resolved: set<string>, layer: seq<Item>,
    pending': seq<Item>, resolved': set<string>)
    requires Round(items, layers, pending, resolved)
    requires layer == SortByName(ReadyItems(pending, resolved)) && layer != []
    requires Without(pending, layer, pending') && resolved' == resolved + NamesOf(layer)
    ensures Round(items, layers + [layer], pending', resolved')
    ensures |pending'| < |pending|
  {
    hide Ready, NamesIn, Flatten, SortByName, NamesOf, ItemNames, Before, AllLayersFit, AllSorted, Distinct, ReadyItems;
    SortedLayer(ReadyItems(pending, resolved));
    SortAscends(ReadyItems(pending, resolved));
    LayerAdded(layers, layer);
    FitsAfterAdding(layers, layer);
    SortedAfterAdding(layers, layer);
    forall x | x in pending' ensures !Ready(x, NamesIn(layers)) { NotReadyYet(pending, resolved, layer, x); }
    TakingShrinks(items, layers, pending, layer, pending');
  }

  lemma SortedAfterAdding(layers: seq<seq<Item>>, layer: seq<Item>)
    requires AllSorted(layers) && layer != [] && Ascending(ItemNames(layer))
    ensures AllSorted(layers + [layer])
  {
    hide Ascending, ItemNames;
  }

  lemma TakingShrinks(items: seq<Item>, layers: seq<seq<Item>>, pending: seq<Item>, layer: seq<Item>, pending': seq<Item>)
    requires multiset(Flatten(layers)) + multiset(pending) == multiset(items)
    requires multiset(pending) == multiset(pending') + multiset(layer) && layer != []
    ensures multiset(Flatten(layers) + layer) + multiset(pending') == multiset(items)
    ensures |pending'| < |pending|
  {
    assert |multiset(pending)| == |multiset(pending')| + |multiset(layer)|;
  }

  lemma NotReadyYet(pending: seq<Item>, resolved: set<string>, layer: seq<Item>, x: Item)
    requires layer == SortByName(ReadyItems(pending, resolved)) && x in pending && x.name !in NamesOf(layer)
    ensures !Ready(x, resolved)
  {
    hide Ready;
    SortedLayer(ReadyItems(pending, resolved));
    assert x in ReadyItems(pending, resolved) ==> x in layer;
    NameAmong(layer, x);
  }

  lemma NameAmong(items: seq<Item>, x: Item)
    ensures x in items ==> x.name in NamesOf(items)
  {
  }

  /** A round without a ready item. */
  lemma NothingReady(items: seq<Item>, layers: seq<seq<Item>>, pending: seq<Item>, resolved: set<string>)
    requires Distinct(items) && Round(items, layers, pending, resolved) && pending != []
    requires ReadyItems(pending, resolved) == []
    ensures Dangling(items) || Cyclic(items)
  {
    hide AllLayersFit, AllSorted, Flatten;
    if !Dangling(items) {
      var left := NamesOf(pending);
      forall a | a in left ensures a in NamesOf(items) && HasNext(items, left, a) {
        var p :| 0 <= p < |pending| && pending[p].name == a;
        assert pending[p] in pending && pending[p] !in ReadyItems(pending, resolved);
        var d :| 0 <= d < |pending[p].dependencies| && pending[p].dependencies[d] !in resolved;
        LeftInItems(items, layers, pending, pending[p]);
        var b := pending[p].dependencies[d];
        assert DependsOn(items, a, b);
        StillLeft(items, layers, pending, resolved, b);
      }
      assert pending[0].name in left;
      StuckIsCyclic(items, left);
    }
  }

  lemma LeftInItems(items: seq<Item>, layers: seq<seq<Item>>, pending: seq<Item>, x: Item)
    requires multiset(Flatten(layers)) + multiset(pending) == multiset(items) && x in pending
    ensures x in items
  {
    assert x in multiset(pending);
    assert x in multiset(items);
  }

  lemma StillLeft(items: seq<Item>, layers: seq<seq<Item>>, pending: seq<Item>, resolved: set<string>, name: string)
    requires multiset(Flatten(layers)) + multiset(pending) == multiset(items)
    requires resolved == NamesIn(layers) && name in NamesOf(items) && name !in resolved
    ensures name in NamesOf(pending)
  {
    var p :| 0 <= p < |items| && items[p].name == name;
    assert items[p] in multiset(items);
    if items[p] in Flatten(layers) {
      FlattenMembers(layers, items[p]);
      var k :| 0 <= k < |layers| && items[p] in layers[k];
      var i :| 0 <= i < |layers[k]| && layers[k][i] == items[p];
      LayerNamed(layers, k, i);
    }
  }

  /** `build_expression_layers`: it fails exactly when the items, taken as a dictionary by name, have a
      dangling or cyclic dependency. Otherwise each item stands once, in the layer numbered by its longest
      dependency chain, and each layer is sorted by name. */
  method BuildExpressionLayers(expressions: seq<Item>) returns (r: Result<seq<seq<Item>>, LayerError>)
    ensures var items := Pending(expressions);
      r.Success? <==> !Dangling(items) && !Cyclic(items)
    ensures r.Success? ==> Partitions(r.value, Pending(expressions)) && AllLayersFit(r.value) && AllSorted(r.value)
  {
    var items := Pending(expressions);
    var pending, resolved, layers := items, {}, [];
    assert Round(items, layers, pending, resolved);
    while pending != []
      invariant Round(items, layers, pending, resolved)
      decreases |pending|
    {
      hide Round, Ready, SortByName, Without, AllFrom, Dangling, Cyclic, Distinct;
      var layer := ReadyItems(pending, resolved);
      if layer == [] {
        NothingReady(items, layers, pending, resolved);
        return Failure(CycleOrUnresolved(ItemNames(SortByName(pending))));
      }
      RoundIsDistinct(items, layers, pending, resolved);
      ReadyKeepsDistinct(pending, resolved);
      SortedLayer(layer);
      layer := SortByName(layer);
      SortedFrom(pending, resolved);
      ghost var before, names := pending, resolved;
      pending, resolved := TakeLayer(layer, pending, resolved);
      RoundStep(items, layers, before, names, layer, pending, resolved);
      layers := layers + [layer];
    }
    LayeredIsSound(layers, items);
    return Success(layers);
  }

  lemma RoundIsDistinct(items: seq<Item>, layers: seq<seq<Item>>, pending: seq<Item>, resolved: set<string>)
    requires Round(items, layers, pending, resolved)
    ensures Distinct(pending)
  {
  }

  lemma SortedFrom(pending: seq<Item>, resolved: set<string>)
    ensures AllFrom(SortByName(ReadyItems(pending, resolved)), pending)
  {
    hide Ready;
    SortedLayer(ReadyItems(pending, resolved));
  }
}
