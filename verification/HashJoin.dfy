/** The index side of the join (native/engine/src/join.rs): hash maps over encoded keys, probed row by
    row, against the nested-loop join. Row numbers are unbounded; the source keeps them in `u32`. */
module HashJoin {
  import opened Wrappers
  import opened Tables

  type Key = seq<Cell>

  datatype How = InnerJoin | LeftJoin | RightJoin | FullJoin

  datatype Pair = Pair(left: Option<nat>, right: Option<nat>)

  datatype JoinIndices = JoinIndices(left: seq<Option<nat>>, right: seq<Option<nat>>, matchedRows: nat)

  predicate KeepsLeft(how: How) { how.LeftJoin? || how.FullJoin? }

  predicate KeepsRight(how: How) { how.RightJoin? || how.FullJoin? }

  // ----- the nested-loop join

  /** Equal keys without a null. */
  predicate SameKey(a: Key, b: Key) { a == b && !HasNull(a) }

  /** The first `n` right rows that match a key, in order. */
  function Hits(key: Key, rightKeys: seq<Key>, n: nat): seq<nat>
    requires n <= |rightKeys|
  {
    if n == 0 then []
    else Hits(key, rightKeys, n - 1) + if SameKey(key, rightKeys[n - 1]) then [n - 1] else []
  }

  function HitPairs(i: nat, hits: seq<nat>): seq<Pair> {
    seq(|hits|, k requires 0 <= k < |hits| => Pair(Some(i), Some(hits[k])))
  }

  function Block(how: How, i: nat, key: Key, rightKeys: seq<Key>): seq<Pair> {
    var hits := Hits(key, rightKeys, |rightKeys|);
    if hits == [] && KeepsLeft(how) then [Pair(Some(i), None)] else HitPairs(i, hits)
  }

  function LeftPairs(how: How, leftKeys: seq<Key>, rightKeys: seq<Key>, n: nat): seq<Pair>
    requires n <= |leftKeys|
  {
    if n == 0 then []
    else LeftPairs(how, leftKeys, rightKeys, n - 1) + Block(how, n - 1, leftKeys[n - 1], rightKeys)
  }

  predicate Matched(leftKeys: seq<Key>, n: nat, key: Key)
    requires n <= |leftKeys|
  {
    exists i :: 0 <= i < n && SameKey(leftKeys[i], key)
  }

  /** Right rows below `m` that no left row matches. */
  function RightPairs(leftKeys: seq<Key>, rightKeys: seq<Key>, m: nat): seq<Pair>
    requires m <= |rightKeys|
  {
    if m == 0 then []
    else
      RightPairs(leftKeys, rightKeys, m - 1)
      + if Matched(leftKeys, |leftKeys|, rightKeys[m - 1]) then [] else [Pair(None, Some(m - 1))]
  }

  function NestedLoop(how: How, leftKeys: seq<Key>, rightKeys: seq<Key>): seq<Pair> {
    LeftPairs(how, leftKeys, rightKeys, |leftKeys|)
    + if KeepsRight(how) then RightPairs(leftKeys, rightKeys, |rightKeys|) else []
  }

  function MatchCount(leftKeys: seq<Key>, rightKeys: seq<Key>, n: nat): nat
    requires n <= |leftKeys|
  {
    if n == 0 then 0
    else MatchCount(leftKeys, rightKeys, n - 1) + |Hits(leftKeys[n - 1], rightKeys, |rightKeys|)|
  }

  lemma {:induction false} HitsAreTheMatches(key: Key, rightKeys: seq<Key>, n: nat)
    requires n <= |rightKeys|
    ensures forall j :: j in Hits(key, rightKeys, n) <==> 0 <= j < n && SameKey(key, rightKeys[j])
    ensures forall a, b :: 0 <= a < b < |Hits(key, rightKeys, n)|
              ==> Hits(key, rightKeys, n)[a] < Hits(key, rightKeys, n)[b]
  {
    if n > 0 {
      HitsAreTheMatches(key, rightKeys, n - 1);
      var before := Hits(key, rightKeys, n - 1);
      assert forall k :: 0 <= k < |before| ==> before[k] in before;
    }
  }

  /** `matched_rows` is the size of the inner join, which lists every equal-key pair once. */
  lemma {:induction false} MatchCountIsInnerSize(leftKeys: seq<Key>, rightKeys: seq<Key>, n: nat)
    requires n <= |leftKeys|
    ensures MatchCount(leftKeys, rightKeys, n) == |LeftPairs(InnerJoin, leftKeys, rightKeys, n)|
  {
    hide Hits;
    if n > 0 { MatchCountIsInnerSize(leftKeys, rightKeys, n - 1); }
  }

  /** A pair the left part of the join must hold: an equal-key pair, or an unmatched kept left row. */
  ghost predicate IsLeftPair(how: How, leftKeys: seq<Key>, rightKeys: seq<Key>, n: nat, p: Pair)
    requires n <= |leftKeys|
  {
    p.left.Some? && p.left.value < n && PairsWith(how, leftKeys[p.left.value], rightKeys, p.right)
  }

  ghost predicate PairsWith(how: How, key: Key, rightKeys: seq<Key>, right: Option<nat>) {
    match right
    case Some(j) => j < |rightKeys| && SameKey(key, rightKeys[j])
    case None => KeepsLeft(how) && forall j :: 0 <= j < |rightKeys| ==> !SameKey(key, rightKeys[j])
  }

  /** Left-then-right order. */
  ghost predicate Precedes(p: Pair, q: Pair) {
    p.left.Some? && q.left.Some?
    && (p.left.value < q.left.value
        || (p.left == q.left && p.right.Some? && q.right.Some? && p.right.value < q.right.value))
  }

  ghost predicate Ordered(pairs: seq<Pair>) {
    forall a, b :: 0 <= a < b < |pairs| ==> Precedes(pairs[a], pairs[b])
  }

  ghost predicate HoldsExactly(pairs: seq<Pair>, how: How, leftKeys: seq<Key>, rightKeys: seq<Key>, n: nat)
    requires n <= |leftKeys|
  {
    forall p :: p in pairs <==> IsLeftPair(how, leftKeys, rightKeys, n, p)
  }

  /** What the left part of the nested-loop join holds: exactly the pairs it must, each once, in
      left-then-right order. */
  lemma {:induction false} LeftPairsMeaning(how: How, leftKeys: seq<Key>, rightKeys: seq<Key>, n: nat)
    requires n <= |leftKeys|
    ensures HoldsExactly(LeftPairs(how, leftKeys, rightKeys, n), how, leftKeys, rightKeys, n)
    ensures Ordered(LeftPairs(how, leftKeys, rightKeys, n))
  {
    hide Block, PairsWith;
    if n > 0 {
      hide HoldsExactly, Ordered;
      LeftPairsMeaning(how, leftKeys, rightKeys, n - 1);
      LeftPairsStep(how, leftKeys, rightKeys, n, LeftPairs(how, leftKeys, rightKeys, n - 1));
    } else {
      NoLeftPairs(how, leftKeys, rightKeys);
      assert forall p :: !IsLeftPair(how, leftKeys, rightKeys, 0, p);
    }
  }

  lemma LeftPairsStep(how: How, leftKeys: seq<Key>, rightKeys: seq<Key>, n: nat, before: seq<Pair>)
    requires 0 < n <= |leftKeys|
    requires HoldsExactly(before, how, leftKeys, rightKeys, n - 1) && Ordered(before)
    ensures HoldsExactly(before + Block(how, n - 1, leftKeys[n - 1], rightKeys), how, leftKeys, rightKeys, n)
    ensures Ordered(before + Block(how, n - 1, leftKeys[n - 1], rightKeys))
  {
    hide PairsWith, Ordered, Block;
    BlockMeaning(how, n - 1, leftKeys[n - 1], rightKeys);
    var block := Block(how, n - 1, leftKeys[n - 1], rightKeys);
    OrderedJoin(before, block, n - 1);
    forall p ensures p in before + block <==> IsLeftPair(how, leftKeys, rightKeys, n, p) {
      assert p in before + block <==> p in before || p in block;
    }
  }

  lemma OrderedJoin(before: seq<Pair>, block: seq<Pair>, i: nat)
    requires Ordered(before) && Ordered(block)
    requires forall p :: p in before ==> p.left.Some? && p.left.value < i
    requires forall p :: p in block ==> p.left == Some(i)
    ensures Ordered(before + block)
  {
    forall a, b | 0 <= a < b < |before + block|
      ensures Precedes((before + block)[a], (before + block)[b])
    {
      if a < |before| && b >= |before| {
        assert before[a] in before && block[b - |before|] in block;
      }
    }
  }

  lemma BlockMeaning(how: How, i: nat, key: Key, rightKeys: seq<Key>)
    ensures forall p :: p in Block(how, i, key, rightKeys) <==>
              p.left == Some(i) && PairsWith(how, key, rightKeys, p.right)
    ensures Ordered(Block(how, i, key, rightKeys))
  {
    var hits := Hits(key, rightKeys, |rightKeys|);
    HitsAreTheMatches(key, rightKeys, |rightKeys|);
    hide Hits, SameKey, HitPairs, PairsWith;
    forall p: Pair ensures p in Block(how, i, key, rightKeys) <==> p.left == Some(i) && PairsWith(how, key, rightKeys, p.right) {
      HitPairsMembers(i, hits, p);
      PairsWithHits(how, key, rightKeys, p.right);
    }
    HitPairsOrdered(i, hits);
  }

  lemma PairsWithHits(how: How, key: Key, rightKeys: seq<Key>, right: Option<nat>)
    ensures var hits := Hits(key, rightKeys, |rightKeys|);
      PairsWith(how, key, rightKeys, right)
      <==> if right.Some? then right.value in hits else KeepsLeft(how) && hits == []
  {
    HitsAreTheMatches(key, rightKeys, |rightKeys|);
    NoHits(key, rightKeys);
  }

  lemma HitPairsOrdered(i: nat, hits: seq<nat>)
    requires forall a, b :: 0 <= a < b < |hits| ==> hits[a] < hits[b]
    ensures Ordered(HitPairs(i, hits))
  {
  }

  lemma HitPairsMembers(i: nat, hits: seq<nat>, p: Pair)
    ensures p in HitPairs(i, hits) <==> p.left == Some(i) && p.right.Some? && p.right.value in hits
  {
    if p.left == Some(i) && p.right.Some? && p.right.value in hits {
      var k :| 0 <= k < |hits| && hits[k] == p.right.value;
      assert HitPairs(i, hits)[k] == p;
    }
  }

  lemma NoHits(key: Key, rightKeys: seq<Key>)
    ensures Hits(key, rightKeys, |rightKeys|) == [] <==> forall j :: 0 <= j < |rightKeys| ==> !SameKey(key, rightKeys[j])
  {
    var hits := Hits(key, rightKeys, |rightKeys|);
    HitsAreTheMatches(key, rightKeys, |rightKeys|);
    if hits != [] { assert hits[0] in hits; }
  }

  ghost predicate RightOrdered(pairs: seq<Pair>) {
    forall a, b :: 0 <= a < b < |pairs| ==>
      pairs[a].right.Some? && pairs[b].right.Some? && pairs[a].right.value < pairs[b].right.value
  }

  lemma {:induction false} RightPairsMeaning(leftKeys: seq<Key>, rightKeys: seq<Key>, m: nat)
    requires m <= |rightKeys|
    ensures forall p :: p in RightPairs(leftKeys, rightKeys, m) <==>
              p.left.None? && p.right.Some? && p.right.value < m
              && !Matched(leftKeys, |leftKeys|, rightKeys[p.right.value])
    ensures RightOrdered(RightPairs(leftKeys, rightKeys, m))
  {
    hide Matched, RightOrdered;
    if m == 0 {
      RightOrderedNothing();
    } else {
      RightPairsMeaning(leftKeys, rightKeys, m - 1);
      RightOrderedPush(RightPairs(leftKeys, rightKeys, m - 1), m - 1);
      forall p ensures p in RightPairs(leftKeys, rightKeys, m) <==>
        p.left.None? && p.right.Some? && p.right.value < m && !Matched(leftKeys, |leftKeys|, rightKeys[p.right.value])
      {
        if p.left.None? && p.right == Some(m - 1) { assert p == Pair(None, Some(m - 1)); }
      }
    }
  }

  lemma RightOrderedNothing()
    ensures RightOrdered([])
  {
  }

  lemma RightOrderedPush(pairs: seq<Pair>, j: nat)
    requires RightOrdered(pairs) && forall p :: p in pairs ==> p.right.Some? && p.right.value < j
    ensures RightOrdered(pairs + [Pair(None, Some(j))]) && RightOrdered(pairs + [])
  {
    assert pairs + [] == pairs;
    assert forall a :: 0 <= a < |pairs| ==> pairs[a] in pairs;
  }

  // ----- hash maps over encoded keys

  ghost predicate Injective<K(!new)>(encode: Key -> K, width: nat) {
    forall a: Key, b: Key :: |a| == width && |b| == width && encode(a) == encode(b) ==> a == b
  }

  ghost predicate Wide(keys: seq<Key>, width: nat) { forall i :: 0 <= i < |keys| ==> |keys[i]| == width }

  /** Looking a null-free key up gives its hits among the first `n` right rows. */
  ghost predicate Indexes<K>(m: map<K, seq<nat>>, encode: Key -> K, rightKeys: seq<Key>, n: nat, width: nat)
    requires n <= |rightKeys|
  {
    forall key: Key | |key| == width && !HasNull(key) ::
      (if encode(key) in m then m[encode(key)] else []) == Hits(key, rightKeys, n)
      && (encode(key) in m ==> m[encode(key)] != [])
  }

  lemma IndexesNothing<K(!new)>(encode: Key -> K, rightKeys: seq<Key>, width: nat)
    ensures Indexes(map[], encode, rightKeys, 0, width)
  {
  }

  lemma IndexesStep<K(!new)>(
    before: map<K, seq<nat>>, after: map<K, seq<nat>>, encode: Key -> K, rightKeys: seq<Key>, n: nat, width: nat)
    requires n < |rightKeys| && Wide(rightKeys, width) && Injective(encode, width)
    requires Indexes(before, encode, rightKeys, n, width)
    requires var code := encode(rightKeys[n]);
      after == if HasNull(rightKeys[n]) then before
               else before[code := (if code in before then before[code] else []) + [n]]
    ensures Indexes(after, encode, rightKeys, n + 1, width)
  {
    hide HasNull;
    var code := encode(rightKeys[n]);
    forall key: Key | |key| == width && !HasNull(key)
      ensures (if encode(key) in after then after[encode(key)] else []) == Hits(key, rightKeys, n + 1)
      ensures encode(key) in after ==> after[encode(key)] != []
    {
      assert encode(key) == code ==> key == rightKeys[n];
      assert (if encode(key) in before then before[encode(key)] else []) == Hits(key, rightKeys, n);
    }
  }

  method PrepareRightKeyMap<K(==,!new)>(rightKeys: seq<Key>, encode: Key -> K, ghost width: nat)
    returns (m: map<K, seq<nat>>)
    requires Wide(rightKeys, width) && Injective(encode, width)
    ensures Indexes(m, encode, rightKeys, |rightKeys|, width)
  {
    hide Indexes, Injective;
    m := map[];
    IndexesNothing(encode, rightKeys, width);
    var rightHasNulls := exists i :: 0 <= i < |rightKeys| && HasNull(rightKeys[i]);
    for index := 0 to |rightKeys|
      invariant Indexes(m, encode, rightKeys, index, width)
    {
      ghost var before := m;
      if !(rightHasNulls && HasNull(rightKeys[index])) {
        var code := encode(rightKeys[index]);
        m := m[code := (if code in m then m[code] else []) + [index]];
      }
      IndexesStep(before, m, encode, rightKeys, index, width);
    }
  }

  // ----- the source's loops

  function Lefts(pairs: seq<Pair>): seq<Option<nat>> {
    seq(|pairs|, k requires 0 <= k < |pairs| => pairs[k].left)
  }

  function Rights(pairs: seq<Pair>): seq<Option<nat>> {
    seq(|pairs|, k requires 0 <= k < |pairs| => pairs[k].right)
  }

  /** The two index vectors list these pairs. */
  ghost predicate Lists(indices: JoinIndices, pairs: seq<Pair>) {
    indices.left == Lefts(pairs) && indices.right == Rights(pairs)
  }

  lemma NoLeftPairs(how: How, leftKeys: seq<Key>, rightKeys: seq<Key>)
    ensures LeftPairs(how, leftKeys, rightKeys, 0) == []
  {
  }

  lemma NextBlock(how: How, leftKeys: seq<Key>, rightKeys: seq<Key>, n: nat)
    requires n < |leftKeys|
    ensures LeftPairs(how, leftKeys, rightKeys, n + 1)
         == LeftPairs(how, leftKeys, rightKeys, n)
            + match NonEmpty(Hits(leftKeys[n], rightKeys, |rightKeys|))
              case Some(hits) => HitPairs(n, hits)
              case None => if KeepsLeft(how) then [Pair(Some(n), None)] else []
  {
  }

  lemma ListsNothing()
    ensures Lists(JoinIndices([], [], 0), [])
  {
  }

  lemma ListsPush(indices: JoinIndices, pairs: seq<Pair>, p: Pair, matched: nat)
    requires Lists(indices, pairs)
    ensures Lists(JoinIndices(indices.left + [p.left], indices.right + [p.right], matched), pairs + [p])
  {
    assert Lefts(pairs + [p]) == Lefts(pairs) + [p.left];
    assert Rights(pairs + [p]) == Rights(pairs) + [p.right];
  }

  method AppendLeftMatches(
    indices: JoinIndices, leftIndex: nat, matches: Option<seq<nat>>, emitUnmatched: bool, ghost pairs: seq<Pair>)
    returns (r: JoinIndices)
    requires Lists(indices, pairs)
    ensures Lists(r, pairs + match matches
                             case Some(hits) => HitPairs(leftIndex, hits)
                             case None => if emitUnmatched then [Pair(Some(leftIndex), None)] else [])
    ensures r.matchedRows == indices.matchedRows + if matches.Some? then |matches.value| else 0
  {
    r := indices;
    if matches.Some? {
      var hits := matches.value;
      assert pairs + HitPairs(leftIndex, hits[..0]) == pairs;
      for k := 0 to |hits|
        invariant Lists(r, pairs + HitPairs(leftIndex, hits[..k]))
        invariant r.matchedRows == indices.matchedRows + k
      {
        ListsPush(r, pairs + HitPairs(leftIndex, hits[..k]), Pair(Some(leftIndex), Some(hits[k])), r.matchedRows + 1);
        assert HitPairs(leftIndex, hits[..k + 1]) == HitPairs(leftIndex, hits[..k]) + [Pair(Some(leftIndex), Some(hits[k]))];
        assert pairs + HitPairs(leftIndex, hits[..k + 1])
            == pairs + HitPairs(leftIndex, hits[..k]) + [Pair(Some(leftIndex), Some(hits[k]))];
        r := JoinIndices(r.left + [Some(leftIndex)], r.right + [Some(hits[k])], r.matchedRows + 1);
      }
      assert hits[..|hits|] == hits;
    } else if emitUnmatched {
      ListsPush(r, pairs, Pair(Some(leftIndex), None), r.matchedRows);
      r := JoinIndices(r.left + [Some(leftIndex)], r.right + [None], r.matchedRows);
    } else {
      assert pairs + [] == pairs;
    }
  }

  /** A left row's matches: `None` for a key with a null or without right rows. */
  method LookUp<K(==,!new)>(
    m: map<K, seq<nat>>, encode: Key -> K, key: Key, mayBeNull: bool, ghost rightKeys: seq<Key>)
    returns (matches: Option<seq<nat>>)
    requires HasNull(key) ==> mayBeNull
    requires Indexes(m, encode, rightKeys, |rightKeys|, |key|)
    ensures matches == NonEmpty(Hits(key, rightKeys, |rightKeys|))
  {
    NullHitsNothing(key, rightKeys, |rightKeys|);
    if mayBeNull && HasNull(key) { return None; }
    var code := encode(key);
    return if code in m then Some(m[code]) else None;
  }

  function NonEmpty(hits: seq<nat>): Option<seq<nat>> { if hits == [] then None else Some(hits) }

  /** Every left row against a prepared map. */
  method ProbeLeftRows<K(==,!new)>(
    leftKeys: seq<Key>, ghost rightKeys: seq<Key>, m: map<K, seq<nat>>, encode: Key -> K, how: How, ghost width: nat)
    returns (indices: JoinIndices)
    requires Wide(leftKeys, width) && Indexes(m, encode, rightKeys, |rightKeys|, width)
    ensures Lists(indices, LeftPairs(how, leftKeys, rightKeys, |leftKeys|))
    ensures indices.matchedRows == MatchCount(leftKeys, rightKeys, |leftKeys|)
  {
    hide Hits, Lists, Indexes, LeftPairs, Matched, SameKey;
    ListsNothing();
    NoLeftPairs(how, leftKeys, rightKeys);
    indices := JoinIndices([], [], 0);
    var leftHasNulls := exists i :: 0 <= i < |leftKeys| && HasNull(leftKeys[i]);
    for leftIndex := 0 to |leftKeys|
      invariant Lists(indices, LeftPairs(how, leftKeys, rightKeys, leftIndex))
      invariant indices.matchedRows == MatchCount(leftKeys, rightKeys, leftIndex)
    {
      var matches := LookUp(m, encode, leftKeys[leftIndex], leftHasNulls, rightKeys);
      NextBlock(how, leftKeys, rightKeys, leftIndex);
      indices := AppendLeftMatches(indices, leftIndex, matches, KeepsLeft(how),
        LeftPairs(how, leftKeys, rightKeys, leftIndex));
    }
  }

  lemma {:induction false} NullHitsNothing(key: Key, rightKeys: seq<Key>, n: nat)
    requires n <= |rightKeys|
    ensures HasNull(key) ==> Hits(key, rightKeys, n) == []
  {
    if n > 0 { NullHitsNothing(key, rightKeys, n - 1); }
  }

  lemma MatchedOneMore(leftKeys: seq<Key>, n: nat, key: Key)
    requires n < |leftKeys|
    ensures Matched(leftKeys, n + 1, key) == (Matched(leftKeys, n, key) || SameKey(leftKeys[n], key))
  {
    if Matched(leftKeys, n, key) {
      var i :| 0 <= i < n && SameKey(leftKeys[i], key);
      assert 0 <= i < n + 1 && SameKey(leftKeys[i], key);
    }
  }

  ghost predicate Marks(matched: seq<bool>, leftKeys: seq<Key>, n: nat, rightKeys: seq<Key>)
    requires n <= |leftKeys|
  {
    |matched| == |rightKeys| && forall j :: 0 <= j < |rightKeys| ==> matched[j] == Matched(leftKeys, n, rightKeys[j])
  }

  lemma MatchCountStart(leftKeys: seq<Key>, rightKeys: seq<Key>)
    ensures MatchCount(leftKeys, rightKeys, 0) == 0
    ensures forall n | 0 <= n < |leftKeys| ::
              MatchCount(leftKeys, rightKeys, n + 1)
              == MatchCount(leftKeys, rightKeys, n) + |Hits(leftKeys[n], rightKeys, |rightKeys|)|
  {
  }

  lemma NestedLoopParts(how: How, leftKeys: seq<Key>, rightKeys: seq<Key>)
    ensures NestedLoop(how, leftKeys, rightKeys)
         == if KeepsRight(how) then
              LeftPairs(how, leftKeys, rightKeys, |leftKeys|) + RightPairs(leftKeys, rightKeys, |rightKeys|)
            else LeftPairs(how, leftKeys, rightKeys, |leftKeys|)
  {
  }

  lemma MarksNothing(matched: seq<bool>, leftKeys: seq<Key>, rightKeys: seq<Key>)
    requires |matched| == |rightKeys| && true !in matched
    ensures Marks(matched, leftKeys, 0, rightKeys)
  {
    assert forall j :: 0 <= j < |matched| ==> matched[j] in matched;
  }

  lemma MarksStep(before: seq<bool>, after: seq<bool>, leftKeys: seq<Key>, n: nat, rightKeys: seq<Key>)
    requires n < |leftKeys| && Marks(before, leftKeys, n, rightKeys) && |after| == |before|
    requires forall j :: 0 <= j < |after| ==>
               after[j] == (before[j] || j in Hits(leftKeys[n], rightKeys, |rightKeys|))
    ensures Marks(after, leftKeys, n + 1, rightKeys)
  {
    HitsAreTheMatches(leftKeys[n], rightKeys, |rightKeys|);
    hide Hits, Matched;
    forall j | 0 <= j < |rightKeys| ensures after[j] == Matched(leftKeys, n + 1, rightKeys[j]) {
      MatchedOneMore(leftKeys, n, rightKeys[j]);
    }
  }

  /** `build_join_indices`. */
  method BuildJoinIndices<K(==,!new)>(
    leftKeys: seq<Key>, rightKeys: seq<Key>, how: How, encode: Key -> K, ghost width: nat)
    returns (indices: JoinIndices)
    requires Wide(leftKeys, width) && Wide(rightKeys, width) && Injective(encode, width)
    ensures Lists(indices, NestedLoop(how, leftKeys, rightKeys))
    ensures indices.matchedRows == |NestedLoop(InnerJoin, leftKeys, rightKeys)|
  {
    hide Lists, Marks, Indexes, Injective;
    var rightMap := PrepareRightKeyMap(rightKeys, encode, width);
    var matchedRight := new bool[|rightKeys|](_ => false);
    MarksNothing(matchedRight[..], leftKeys, rightKeys);
    indices := JoinLeftRows(leftKeys, rightKeys, rightMap, how, encode, matchedRight, width);
    MatchCountIsInnerSize(leftKeys, rightKeys, |leftKeys|);
    if KeepsRight(how) {
      indices := AppendUnmatchedRight(indices, leftKeys, rightKeys, matchedRight[..],
        LeftPairs(how, leftKeys, rightKeys, |leftKeys|));
    }
    NestedLoopParts(how, leftKeys, rightKeys);
    NestedLoopParts(InnerJoin, leftKeys, rightKeys);
  }

  method JoinLeftRows<K(==,!new)>(
    leftKeys: seq<Key>, ghost rightKeys: seq<Key>, rightMap: map<K, seq<nat>>, how: How, encode: Key -> K,
    matchedRight: array<bool>, ghost width: nat)
    returns (indices: JoinIndices)
    requires Wide(leftKeys, width) && Indexes(rightMap, encode, rightKeys, |rightKeys|, width)
    requires Marks(matchedRight[..], leftKeys, 0, rightKeys)
    modifies matchedRight
    ensures Lists(indices, LeftPairs(how, leftKeys, rightKeys, |leftKeys|))
    ensures indices.matchedRows == MatchCount(leftKeys, rightKeys, |leftKeys|)
    ensures Marks(matchedRight[..], leftKeys, |leftKeys|, rightKeys)
  {
    hide Hits, Lists, Indexes, LeftPairs, SameKey, Marks, MatchCount;
    ListsNothing();
    NoLeftPairs(how, leftKeys, rightKeys);
    MatchCountStart(leftKeys, rightKeys);
    indices := JoinIndices([], [], 0);
    var leftHasNulls := exists i :: 0 <= i < |leftKeys| && HasNull(leftKeys[i]);
    for leftIndex := 0 to |leftKeys|
      invariant Lists(indices, LeftPairs(how, leftKeys, rightKeys, leftIndex))
      invariant indices.matchedRows == MatchCount(leftKeys, rightKeys, leftIndex)
      invariant Marks(matchedRight[..], leftKeys, leftIndex, rightKeys)
    {
      var matches := LookUp(rightMap, encode, leftKeys[leftIndex], leftHasNulls, rightKeys);
      NextBlock(how, leftKeys, rightKeys, leftIndex);
      indices := AppendLeftMatches(indices, leftIndex, matches, KeepsLeft(how),
        LeftPairs(how, leftKeys, rightKeys, leftIndex));
      MarkMatched(matchedRight, matches, leftKeys, leftIndex, rightKeys);
    }
  }

  method MarkMatched(
    matchedRight: array<bool>, matches: Option<seq<nat>>, ghost leftKeys: seq<Key>, ghost n: nat, ghost rightKeys: seq<Key>)
    requires n < |leftKeys| && matches == NonEmpty(Hits(leftKeys[n], rightKeys, |rightKeys|))
    requires Marks(matchedRight[..], leftKeys, n, rightKeys)
    modifies matchedRight
    ensures Marks(matchedRight[..], leftKeys, n + 1, rightKeys)
  {
    HitsAreTheMatches(leftKeys[n], rightKeys, |rightKeys|);
    hide Hits, Matched, SameKey;
    var hits := if matches.Some? then matches.value else [];
    assert forall k :: 0 <= k < |hits| ==> hits[k] in hits;
    SetTrue(matchedRight, hits);
    MarksStep(old(matchedRight[..]), matchedRight[..], leftKeys, n, rightKeys);
  }

  method SetTrue(flags: array<bool>, indexes: seq<nat>)
    requires forall k :: 0 <= k < |indexes| ==> indexes[k] < flags.Length
    modifies flags
    ensures forall j :: 0 <= j < flags.Length ==> flags[j] == (old(flags[j]) || j in indexes)
  {
    for k := 0 to |indexes|
      invariant forall j :: 0 <= j < flags.Length ==> flags[j] == (old(flags[j]) || j in indexes[..k])
    {
      flags[indexes[k]] := true;
      assert indexes[..k + 1] == indexes[..k] + [indexes[k]];
    }
    assert indexes[..|indexes|] == indexes;
  }

  method AppendUnmatchedRight(
    indices: JoinIndices, ghost leftKeys: seq<Key>, rightKeys: seq<Key>, matchedRight: seq<bool>, ghost pairs: seq<Pair>)
    returns (r: JoinIndices)
    requires Lists(indices, pairs) && |matchedRight| == |rightKeys|
    requires Marks(matchedRight, leftKeys, |leftKeys|, rightKeys)
    ensures Lists(r, pairs + RightPairs(leftKeys, rightKeys, |rightKeys|))
    ensures r.matchedRows == indices.matchedRows
  {
    r := indices;
    assert pairs + [] == pairs;
    hide Lists, Matched;
    for rightIndex := 0 to |rightKeys|
      invariant Lists(r, pairs + RightPairs(leftKeys, rightKeys, rightIndex))
      invariant r.matchedRows == indices.matchedRows
    {
      ghost var soFar := pairs + RightPairs(leftKeys, rightKeys, rightIndex);
      if !matchedRight[rightIndex] {
        ListsPush(r, soFar, Pair(None, Some(rightIndex)), r.matchedRows);
        assert pairs + RightPairs(leftKeys, rightKeys, rightIndex + 1) == soFar + [Pair(None, Some(rightIndex))];
        r := JoinIndices(r.left + [None], r.right + [Some(rightIndex)], r.matchedRows);
      } else {
        assert RightPairs(leftKeys, rightKeys, rightIndex + 1) == RightPairs(leftKeys, rightKeys, rightIndex);
      }
    }
  }

  // ----- the right key map that is reused from batch to batch

  const BINARY_ROW_MIN_BATCH_ROWS := 8_192

  datatype PreparedRightKeyMap =
    | Pending
    | Binary(bytes: map<seq<nat>, seq<nat>>)
    | Display(texts: map<string, seq<nat>>)

  ghost predicate Prepares(prepared: PreparedRightKeyMap, encode: Key -> seq<nat>, rightKeys: seq<Key>, width: nat) {
    match prepared
    case Pending => true
    case Binary(bytes) => Indexes(bytes, encode, rightKeys, |rightKeys|, width)
    case Display(texts) => Indexes(texts, RowKey, rightKeys, |rightKeys|, width)
  }

  lemma RowKeyTellsKeysApart(width: nat)
    ensures Injective(RowKey, width)
  {
    forall a: Key, b: Key | |a| == width && |b| == width && RowKey(a) == RowKey(b) ensures a == b {
      RowKeyIsInjective(a, b);
    }
  }

  /** `build_join_indices_from_right_key_map`: whichever encoding an earlier batch settled on, and
      whichever this batch settles on, the indices are those of the nested loop. */
  method BuildJoinIndicesFromRightKeyMap(
    leftKeys: seq<Key>, rightKeys: seq<Key>, how: How,
    prepared: PreparedRightKeyMap, encode: Key -> seq<nat>, ghost width: nat)
    returns (indices: JoinIndices, prepared': PreparedRightKeyMap)
    requires how.InnerJoin? || how.LeftJoin?
    requires Wide(leftKeys, width) && Wide(rightKeys, width) && Injective(encode, width)
    requires Prepares(prepared, encode, rightKeys, width)
    ensures Lists(indices, NestedLoop(how, leftKeys, rightKeys))
    ensures indices.matchedRows == |NestedLoop(InnerJoin, leftKeys, rightKeys)|
    ensures !prepared'.Pending? && Prepares(prepared', encode, rightKeys, width)
    ensures !prepared.Pending? ==> prepared' == prepared
  {
    prepared' := prepared;
    if prepared.Pending? {
      if |leftKeys| >= BINARY_ROW_MIN_BATCH_ROWS {
        var bytes := PrepareRightKeyMap(rightKeys, encode, width);
        prepared' := Binary(bytes);
      } else {
        RowKeyTellsKeysApart(width);
        var texts := PrepareRightKeyMap(rightKeys, RowKey, width);
        prepared' := Display(texts);
      }
    }
    if prepared'.Binary? {
      indices := ProbeLeftRows(leftKeys, rightKeys, prepared'.bytes, encode, how, width);
    } else {
      indices := ProbeLeftRows(leftKeys, rightKeys, prepared'.texts, RowKey, how, width);
    }
    MatchCountIsInnerSize(leftKeys, rightKeys, |leftKeys|);
    NestedLoopParts(how, leftKeys, rightKeys);
    NestedLoopParts(InnerJoin, leftKeys, rightKeys);
  }
}
