/** Which rows a unique rule counts (native/engine/src/post_operations.rs). */
module UniqueMeaning {
  import opened Wrappers
  import opened Tables
  import opened JoinMeaning
  import opened UniqueSpill

  /** The key cells of row `i` of batch `b` stand behind those of all rows read before. */
  lemma {:induction false} KeyStands(rule: UniqueRule, batches: seq<Table>, n: nat, b: nat, i: nat)
    requires AllValid(batches) && b < n <= |batches| && FoundIn(rule, batches, n) && i < |batches[b].rows|
    ensures |AllCells(rule, batches, n)| == RowCount(batches, n) && RowCount(batches, b) + i < RowCount(batches, n)
    ensures var key := AllCells(rule, batches, n)[RowCount(batches, b) + i];
      |key| == |rule.columns| && forall k :: 0 <= k < |rule.columns| ==> CellIs(batches[b], i, rule.columns[k], key[k])
  {
    hide CellIs, IndexesOf, IndexOf, KeyCellsOf, Found, FoundIn, AllValid;
    FoundBeforeLast(rule, batches, n);
    CellsPerRow(rule, batches, n);
    CellsPerRow(rule, batches, n - 1);
    if b < n - 1 {
      KeyStands(rule, batches, n - 1, b, i);
    } else {
      KeyCellsAre(rule, batches[b], i);
    }
  }

  lemma FoundBeforeLast(rule: UniqueRule, batches: seq<Table>, n: nat)
    requires AllValid(batches) && 0 < n <= |batches| && FoundIn(rule, batches, n)
    ensures FoundIn(rule, batches, n - 1) && Found(rule, batches[n - 1]) && batches[n - 1].Valid()
  {
    hide Found;
  }

  lemma KeyCellsAre(rule: UniqueRule, batch: Table, i: nat)
    requires batch.Valid() && Found(rule, batch) && i < |batch.rows|
    ensures var key := KeyCellsOf(rule, batch, i);
      forall k :: 0 <= k < |rule.columns| ==> CellIs(batch, i, rule.columns[k], key[k])
  {
    hide CellIs, IndexesOf, IndexOf;
    forall k | 0 <= k < |rule.columns| ensures CellIs(batch, i, rule.columns[k], KeyCellsOf(rule, batch, i)[k]) {
      CellFound(batch, i, rule.columns[k]);
    }
  }

  /** The rows whose key an earlier row has. */
  function Repeats(keys: seq<seq<Cell>>): nat {
    if keys == [] then 0
    else
      var last := |keys| - 1;
      Repeats(keys[..last]) + if keys[last] in keys[..last] then 1 else 0
  }

  /** What a rule reports is the number of rows whose key an earlier row has. */
  lemma CountIsRepeats(count: nat, rule: UniqueRule, batches: seq<Table>)
    requires AllValid(batches) && FoundIn(rule, batches, |batches|) && CountsDuplicates(count, rule, batches)
    ensures count == Repeats(AllCells(rule, batches, |batches|))
  {
    hide AllCells, CellSet;
    SetAndRepeats(AllCells(rule, batches, |batches|));
  }

  lemma {:induction false} SetAndRepeats(keys: seq<seq<Cell>>)
    ensures |CellSet(keys)| + Repeats(keys) == |keys|
  {
    if keys != [] {
      var last := |keys| - 1;
      SetAndRepeats(keys[..last]);
      var before := CellSet(keys[..last]);
      assert keys == keys[..last] + [keys[last]];
      assert keys[last] in before <==> keys[last] in keys[..last];
      assert CellSet(keys) == before + {keys[last]};
    }
  }
}
