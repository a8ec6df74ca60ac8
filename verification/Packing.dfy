/** Greedy packing of complete groups into tasks (src/smoking_data/core/cost_model.py). */
module Packing {
  import opened Wrappers

  datatype GroupCost = GroupCost(rows: nat, payloadBytes: Option<nat>, files: set<string>)

  datatype Limits = Limits(rows: int, bytes: nat, files: int, groups: Option<int>)

  /** A group of unknown payload counts as a full task. */
  function BytesOf(group: GroupCost, limits: Limits): nat {
    if group.payloadBytes.Some? then group.payloadBytes.value else limits.bytes
  }

  function Rows(chunk: seq<GroupCost>): nat {
    if chunk == [] then 0 else Rows(chunk[..|chunk| - 1]) + chunk[|chunk| - 1].rows
  }

  function Bytes(chunk: seq<GroupCost>, limits: Limits): nat {
    if chunk == [] then 0 else Bytes(chunk[..|chunk| - 1], limits) + BytesOf(chunk[|chunk| - 1], limits)
  }

  function Files(chunk: seq<GroupCost>): set<string> {
    if chunk == [] then {} else Files(chunk[..|chunk| - 1]) + chunk[|chunk| - 1].files
  }

  predicate Within(chunk: seq<GroupCost>, limits: Limits) {
    Rows(chunk) <= limits.rows && Bytes(chunk, limits) <= limits.bytes && |Files(chunk)| <= limits.files
    && (limits.groups.Some? ==> |chunk| <= limits.groups.value)
  }

  /** A task: some groups within all limits, or a single group. */
  predicate IsTask(chunk: seq<GroupCost>, limits: Limits) { chunk != [] && (|chunk| == 1 || Within(chunk, limits)) }

  function Concat(chunks: seq<seq<GroupCost>>): seq<GroupCost> {
    if chunks == [] then [] else chunks[0] + Concat(chunks[1..])
  }

  /** An order-preserving split of the groups into tasks. */
  ghost predicate IsSplit(chunks: seq<seq<GroupCost>>, groups: seq<GroupCost>, limits: Limits) {
    Concat(chunks) == groups && forall k :: 0 <= k < |chunks| ==> IsTask(chunks[k], limits)
  }

  // ----- a part of a task within limits is within limits

  lemma {:induction false} SumsAppend(a: seq<GroupCost>, b: seq<GroupCost>, limits: Limits)
    ensures Rows(a + b) == Rows(a) + Rows(b) && Bytes(a + b, limits) == Bytes(a, limits) + Bytes(b, limits)
    ensures Files(a + b) == Files(a) + Files(b)
  {
    if b == [] {
      assert a + b == a;
    } else {
      var last := |b| - 1;
      assert (a + b)[..|a + b| - 1] == a + b[..last];
      SumsAppend(a, b[..last], limits);
    }
  }

  lemma FewerFiles(a: set<string>, b: set<string>)
    requires a <= b
    ensures |a| <= |b|
  {
    assert b == a + (b - a);
  }

  lemma PartWithin(groups: seq<GroupCost>, limits: Limits, a: nat, i: nat, j: nat, b: nat)
    requires a <= i <= j <= b <= |groups| && Within(groups[a..b], limits)
    ensures Within(groups[i..j], limits)
  {
    hide Rows, Bytes, Files;
    assert groups[a..b] == groups[a..i] + (groups[i..j] + groups[j..b]);
    SumsAppend(groups[a..i], groups[i..j] + groups[j..b], limits);
    SumsAppend(groups[i..j], groups[j..b], limits);
    FewerFiles(Files(groups[i..j]), Files(groups[a..b]));
  }

  // ----- the greedy split

  /** Where the task that starts at `start` and holds the groups up to `n` ends. */
  function End(groups: seq<GroupCost>, limits: Limits, start: nat, n: nat): (e: nat)
    requires start < n <= |groups|
    ensures n <= e <= |groups|
    decreases |groups| - n
  {
    if n == |groups| || !Within(groups[start..n + 1], limits) then n else End(groups, limits, start, n + 1)
  }

  function Packed(groups: seq<GroupCost>, limits: Limits, start: nat): seq<seq<GroupCost>>
    requires start <= |groups|
    decreases |groups| - start
  {
    if start == |groups| then []
    else
      var e := End(groups, limits, start, start + 1);
      [groups[start..e]] + Packed(groups, limits, e)
  }

  lemma {:induction false} EndIsTask(groups: seq<GroupCost>, limits: Limits, start: nat, n: nat)
    requires start < n <= |groups| && IsTask(groups[start..n], limits)
    ensures IsTask(groups[start..End(groups, limits, start, n)], limits)
    decreases |groups| - n
  {
    hide Within;
    if n < |groups| && Within(groups[start..n + 1], limits) { EndIsTask(groups, limits, start, n + 1); }
  }

  lemma {:induction false} PackedIsSplit(groups: seq<GroupCost>, limits: Limits, start: nat)
    requires start <= |groups|
    ensures IsSplit(Packed(groups, limits, start), groups[start..], limits)
    decreases |groups| - start
  {
    hide IsTask;
    if start < |groups| {
      var e := End(groups, limits, start, start + 1);
      SingleIsTask(groups[start], limits);
      assert groups[start..start + 1] == [groups[start]];
      EndIsTask(groups, limits, start, start + 1);
      PackedIsSplit(groups, limits, e);
      assert groups[start..] == groups[start..e] + groups[e..];
    }
  }

  lemma SingleIsTask(group: GroupCost, limits: Limits)
    ensures IsTask([group], limits)
  {
  }

  /** No task that starts at `start` within limits ends later. */
  lemma {:induction false} EndIsLatest(groups: seq<GroupCost>, limits: Limits, start: nat, n: nat, b: nat)
    requires start < n <= b <= |groups| && Within(groups[start..b], limits)
    ensures b <= End(groups, limits, start, n)
    decreases |groups| - n
  {
    hide Within;
    if n < b {
      PartWithin(groups, limits, start, start, n + 1, b);
      EndIsLatest(groups, limits, start, n + 1, b);
    }
  }

  /** Whoever starts a task no later cannot end it later. */
  lemma StaysAhead(groups: seq<GroupCost>, limits: Limits, a: nat, b: nat, start: nat)
    requires a <= start < |groups| && a < b <= |groups| && IsTask(groups[a..b], limits)
    ensures b <= End(groups, limits, start, start + 1)
  {
    hide Within;
    if b > start + 1 {
      assert |groups[a..b]| > 1;
      PartWithin(groups, limits, a, start, b, b);
      EndIsLatest(groups, limits, start, start + 1, b);
    }
  }

  lemma {:induction false} PackedIsShortest(groups: seq<GroupCost>, limits: Limits, start: nat, other: seq<seq<GroupCost>>, a: nat)
    requires a <= start <= |groups| && IsSplit(other, groups[a..], limits)
    ensures |Packed(groups, limits, start)| <= |other|
    decreases |other|
  {
    hide IsTask;
    if start < |groups| {
      SomeTask(other, groups[a..], limits);
      var b := a + |other[0]|;
      FirstTask(groups, limits, other, a);
      StaysAhead(groups, limits, a, b, start);
      PackedIsShortest(groups, limits, End(groups, limits, start, start + 1), other[1..], b);
    }
  }

  lemma SomeTask(other: seq<seq<GroupCost>>, groups: seq<GroupCost>, limits: Limits)
    requires IsSplit(other, groups, limits) && groups != []
    ensures other != []
  {
  }

  lemma FirstTask(groups: seq<GroupCost>, limits: Limits, other: seq<seq<GroupCost>>, a: nat)
    requires a <= |groups| && IsSplit(other, groups[a..], limits) && other != []
    ensures var b := a + |other[0]|;
      a < b <= |groups| && other[0] == groups[a..b] && IsTask(groups[a..b], limits) && IsSplit(other[1..], groups[b..], limits)
  {
    hide Within;
    var b := a + |other[0]|;
    var rest := groups[a..];
    assert IsTask(other[0], limits);
    assert rest == other[0] + Concat(other[1..]);
    assert rest[..|other[0]|] == other[0] && rest[|other[0]|..] == Concat(other[1..]);
    assert groups[a..b] == rest[..|other[0]|] && groups[b..] == rest[|other[0]|..];
  }

  // ----- the loop

  /** The part in the making starts at `start` and holds the groups up to `n`. */
  ghost predicate Holds(groups: seq<GroupCost>, limits: Limits, packed: seq<seq<GroupCost>>, start: nat, n: nat) {
    start <= n <= |groups| && (start == n ==> n == 0)
    && Packed(groups, limits, 0) == packed + Packed(groups, limits, start)
    && (start < n ==> End(groups, limits, start, start + 1) == End(groups, limits, start, n))
  }

  lemma Starts(groups: seq<GroupCost>, limits: Limits)
    ensures Holds(groups, limits, [], 0, 0)
  {
  }

  lemma Ends(groups: seq<GroupCost>, limits: Limits, packed: seq<seq<GroupCost>>, start: nat, n: nat)
    requires Holds(groups, limits, packed, start, n) && start < n < |groups| && !Within(groups[start..n + 1], limits)
    ensures Holds(groups, limits, packed + [groups[start..n]], n, n + 1)
  {
    hide Within;
    assert packed + ([groups[start..n]] + Packed(groups, limits, n)) == packed + [groups[start..n]] + Packed(groups, limits, n);
  }

  lemma Grows(groups: seq<GroupCost>, limits: Limits, packed: seq<seq<GroupCost>>, start: nat, n: nat)
    requires Holds(groups, limits, packed, start, n) && n < |groups|
    requires start == n || Within(groups[start..n + 1], limits)
    ensures Holds(groups, limits, packed, start, n + 1)
  {
    hide Within;
  }

  lemma Finishes(groups: seq<GroupCost>, limits: Limits, packed: seq<seq<GroupCost>>, start: nat)
    requires Holds(groups, limits, packed, start, |groups|)
    ensures groups[start..|groups|] == groups[start..]
    ensures Packed(groups, limits, 0) == if start < |groups| then packed + [groups[start..]] else packed
  {
    hide Within;
    assert groups[start..|groups|] == groups[start..];
    if start < |groups| {
      assert Packed(groups, limits, start) == [groups[start..]];
    } else {
      assert packed + [] == packed;
    }
  }

  lemma SumsPush(groups: seq<GroupCost>, limits: Limits, start: nat, n: nat)
    requires start <= n < |groups|
    ensures groups[start..n + 1] == groups[start..n] + [groups[n]]
    ensures Rows(groups[start..n + 1]) == Rows(groups[start..n]) + groups[n].rows
    ensures Bytes(groups[start..n + 1], limits) == Bytes(groups[start..n], limits) + BytesOf(groups[n], limits)
    ensures Files(groups[start..n + 1]) == Files(groups[start..n]) + groups[n].files
  {
    assert groups[start..n + 1][..n - start] == groups[start..n];
  }

  lemma NoSums(limits: Limits)
    ensures Rows([]) == 0 && Bytes([], limits) == 0 && Files([]) == {}
  {
  }

  /** `pack_group_costs`: a split of the groups into tasks, and no split into tasks has fewer. */
  method PackGroupCosts(groups: seq<GroupCost>, limits: Limits) returns (packed: seq<seq<GroupCost>>)
    ensures IsSplit(packed, groups, limits)
    ensures forall other :: IsSplit(other, groups, limits) ==> |packed| <= |other|
  {
    hide Rows, Bytes, Files, Holds, IsSplit, Packed, End;
    packed := [];
    var current: seq<GroupCost> := [];
    var currentRows, currentBytes, currentFiles := 0, 0, {};
    ghost var start := 0;
    Starts(groups, limits);
    NoSums(limits);
    for n := 0 to |groups|
      invariant start <= n && (start == n ==> n == 0) && current == groups[start..n]
      invariant Holds(groups, limits, packed, start, n)
      invariant currentRows == Rows(current) && currentBytes == Bytes(current, limits) && currentFiles == Files(current)
    {
      var group := groups[n];
      var groupBytes := BytesOf(group, limits);
      var candidateFiles := currentFiles + group.files;
      SumsPush(groups, limits, start, n);
      var exceeds := current != [] && (
        currentRows + group.rows > limits.rows
        || currentBytes + groupBytes > limits.bytes
        || |candidateFiles| > limits.files
        || (limits.groups.Some? && |current| >= limits.groups.value));
      if exceeds {
        Ends(groups, limits, packed, start, n);
        packed := packed + [current];
        current, currentRows, currentBytes, currentFiles := [], 0, 0, {};
        start := n;
        assert groups[n..n] == [];
        SumsPush(groups, limits, n, n);
      } else {
        Grows(groups, limits, packed, start, n);
      }
      current := current + [group];
      currentRows := currentRows + group.rows;
      currentBytes := currentBytes + groupBytes;
      currentFiles := currentFiles + group.files;
    }
    assert groups[0..] == groups;
    PackedIsSplit(groups, limits, 0);
    forall other | IsSplit(other, groups, limits) ensures |Packed(groups, limits, 0)| <= |other| {
      PackedIsShortest(groups, limits, 0, other, 0);
    }
    Finishes(groups, limits, packed, start);
    if current != [] { packed := packed + [current]; }
  }

  /** A group of unknown payload shares a task with groups that have no payload only (unless no bytes are
      allowed at all). */
  lemma UnknownFillsTask(chunk: seq<GroupCost>, limits: Limits, i: nat, j: nat)
    requires IsTask(chunk, limits) && i < |chunk| && j < |chunk| && i != j
    requires chunk[i].payloadBytes.None?
    ensures chunk[j].payloadBytes == Some(0) || limits.bytes == 0
  {
    TwoFit(chunk, limits, i, j);
  }

  lemma {:induction false} TwoFit(chunk: seq<GroupCost>, limits: Limits, i: nat, j: nat)
    requires i < |chunk| && j < |chunk| && i != j
    ensures BytesOf(chunk[i], limits) + BytesOf(chunk[j], limits) <= Bytes(chunk, limits)
  {
    hide BytesOf;
    var last := |chunk| - 1;
    if i == last {
      OneFits(chunk[..last], limits, j);
    } else if j == last {
      OneFits(chunk[..last], limits, i);
    } else {
      TwoFit(chunk[..last], limits, i, j);
    }
  }

  lemma {:induction false} OneFits(chunk: seq<GroupCost>, limits: Limits, i: nat)
    requires i < |chunk|
    ensures BytesOf(chunk[i], limits) <= Bytes(chunk, limits)
  {
    hide BytesOf;
    if i < |chunk| - 1 { OneFits(chunk[..|chunk| - 1], limits, i); }
  }
}
