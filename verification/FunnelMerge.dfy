/**
 * Merging recall lanes (pkg/recsyskit/funnel_merge.go) and the two other
 * keep-first passes of show control, all instances of one specification.
 */
module FunnelMerge {
  import opened Items

  // ---------- specification ----------

  /** Keep the first item of every id among the first `n` items, in order. */
  function KeepUpTo(items: seq<Item>, n: nat): seq<Item>
    requires n <= |items|
  {
    if n == 0 then []
    else
      var r := KeepUpTo(items, n - 1);
      if items[n - 1].id in IdsUpTo(items, n - 1) then r else r + [items[n - 1]]
  }

  function KeepFirst(items: seq<Item>): seq<Item> {
    KeepUpTo(items, |items|)
  }

  /** Position `i` is the first with its id. */
  ghost predicate IsFirst(items: seq<Item>, i: int) {
    0 <= i < |items| && forall j :: 0 <= j < i ==> items[j].id != items[i].id
  }

  /** All first positions below `n`. */
  ghost function FirstPositions(items: seq<Item>, n: nat): (r: seq<int>)
    requires n <= |items|
    ensures forall k :: 0 <= k < |r| ==> 0 <= r[k] < n
  {
    if n == 0 then [] else FirstPositions(items, n - 1) + if IsFirst(items, n - 1) then [n - 1] else []
  }

  /** Every `fold`-th item, starting with the first. */
  function EveryFold(items: seq<Item>, fold: nat): (r: seq<Item>)
    requires fold >= 1
    ensures |r| == (|items| + fold - 1) / fold
  {
    seq((|items| + fold - 1) / fold, k requires 0 <= k < (|items| + fold - 1) / fold =>
      (FoldCount(|items|, fold, k); items[k * fold]))
  }

  lemma {:induction false} FoldCount(n: nat, fold: nat, k: nat)
    requires fold >= 1
    ensures 0 <= k * fold
    ensures k * fold < n <==> k < (n + fold - 1) / fold
  {
    var q := (n + fold - 1) / fold;
    QuotientBounds(n + fold - 1, fold, q);
    ProductGrows(0, k, fold);
    if k < q {
      ProductGrows(k + 1, q, fold);
      NextFold(k, fold);
    } else {
      ProductGrows(q, k, fold);
    }
  }

  lemma {:induction false} QuotientBounds(a: nat, b: nat, q: int)
    requires b >= 1 && q == a / b
    ensures q * b <= a < q * b + b
  {
  }

  lemma {:induction false} ProductGrows(x: int, y: int, c: nat)
    requires x <= y
    ensures x * c <= y * c
  {
    assert (y - x) * c >= 0;
    assert (y - x) * c == y * c - x * c;
  }

  lemma {:induction false} NextFold(k: nat, fold: nat)
    ensures (k + 1) * fold == k * fold + fold
  {
  }

  /** Element `k` of the sample is item `k * fold`, and the sample stops only where there is no such item. */
  lemma {:induction false} EveryFoldMeans(items: seq<Item>, fold: nat, k: nat)
    requires fold >= 1
    ensures k * fold < |items| <==> k < |EveryFold(items, fold)|
    ensures k * fold < |items| ==> EveryFold(items, fold)[k] == items[k * fold]
  {
    FoldCount(|items|, fold, k);
  }

  // ---------- properties of the specification ----------

  /** What a keep-first loop that also maintains the ids already seen does at position `n`. */
  lemma {:induction false} KeepStep(items: seq<Item>, n: nat, out: seq<Item>, seen: set<int>)
    requires n < |items| && out == KeepUpTo(items, n) && seen == IdsUpTo(items, n)
    ensures KeepUpTo(items, n + 1) == if items[n].id in seen then out else out + [items[n]]
    ensures IdsUpTo(items, n + 1) == if items[n].id in seen then seen else seen + {items[n].id}
  {
    assert items[n].id in seen ==> seen + {items[n].id} == seen;
  }

  lemma {:induction false} KeepUpToPrefix(a: seq<Item>, b: seq<Item>, n: nat)
    requires n <= |a|
    ensures KeepUpTo(a + b, n) == KeepUpTo(a, n)
  {
    if n > 0 {
      KeepUpToPrefix(a, b, n - 1);
      IdsUpToPrefix(a, b, n - 1);
    }
  }

  lemma {:induction false} KeepUpToGrows(items: seq<Item>, m: nat, n: nat)
    requires m <= n <= |items|
    ensures KeepUpTo(items, m) <= KeepUpTo(items, n)
  {
    if m < n {
      KeepUpToGrows(items, m, n - 1);
    }
  }

  /** Ids of the result: each exactly once, none lost, none added. */
  lemma {:induction false} KeepFirstIds(items: seq<Item>)
    ensures Distinct(Ids(KeepFirst(items)))
    ensures forall x :: x in Ids(KeepFirst(items)) <==> x in Ids(items)
  {
    KeepUpToIds(items, |items|);
    var r := KeepFirst(items);
    forall x
      ensures x in Ids(r) <==> x in Ids(items)
    {
      IdsUpToMembers(items, |items|, x);
      if x in Ids(items) {
        var i :| 0 <= i < |items| && Ids(items)[i] == x;
        assert items[i].id == x;
      }
      if x in Ids(r) {
        var i :| 0 <= i < |r| && Ids(r)[i] == x;
        assert r[i].id == x;
      }
    }
  }

  lemma {:induction false} KeepUpToIds(items: seq<Item>, n: nat)
    requires n <= |items|
    ensures Distinct(Ids(KeepUpTo(items, n)))
    ensures forall k :: 0 <= k < |KeepUpTo(items, n)| ==> KeepUpTo(items, n)[k].id in IdsUpTo(items, n)
    ensures forall x :: x in IdsUpTo(items, n) ==> x in Ids(KeepUpTo(items, n))
  {
    if n > 0 {
      KeepUpToIds(items, n - 1);
      var r := KeepUpTo(items, n - 1);
      if items[n - 1].id !in IdsUpTo(items, n - 1) {
        DistinctExtend(r, items[n - 1]);
        assert Ids(r + [items[n - 1]]) == Ids(r) + [items[n - 1].id];
      }
    }
  }

  /** The loop selects exactly the positions of first occurrences, in increasing order. */
  lemma {:induction false} KeepFirstIsFirstOccurrences(items: seq<Item>)
    ensures var positions := FirstPositions(items, |items|);
            && Increasing(positions)
            && (forall i :: i in positions <==> IsFirst(items, i))
            && KeepFirst(items) == Select(items, positions)
  {
    FirstPositionsOf(items, |items|);
    KeepUpToSelects(items, |items|);
  }

  lemma {:induction false} FirstPositionsOf(items: seq<Item>, n: nat)
    requires n <= |items|
    ensures Increasing(FirstPositions(items, n))
    ensures forall i :: i in FirstPositions(items, n) <==> i < n && IsFirst(items, i)
  {
    if n > 0 {
      FirstPositionsOf(items, n - 1);
    }
  }

  lemma {:induction false} SeenIffNotFirst(items: seq<Item>, i: nat)
    requires i < |items|
    ensures items[i].id in IdsUpTo(items, i) <==> !IsFirst(items, i)
  {
    IdsUpToMembers(items, i, items[i].id);
  }

  lemma {:induction false} KeepUpToSelects(items: seq<Item>, n: nat)
    requires n <= |items|
    ensures KeepUpTo(items, n) == Select(items, FirstPositions(items, n))
  {
    if n > 0 {
      KeepUpToSelects(items, n - 1);
      SeenIffNotFirst(items, n - 1);
      if IsFirst(items, n - 1) {
        FirstSelected(items, n - 1);
      } else {
        RepeatSkipped(items, n - 1);
      }
    }
  }

  lemma {:induction false} FirstSelected(items: seq<Item>, i: nat)
    requires IsFirst(items, i)
    ensures Select(items, FirstPositions(items, i + 1)) == Select(items, FirstPositions(items, i)) + [items[i]]
  {
    SelectSnoc(items, FirstPositions(items, i), i);
  }

  lemma {:induction false} RepeatSkipped(items: seq<Item>, i: nat)
    requires i < |items| && !IsFirst(items, i)
    ensures FirstPositions(items, i + 1) == FirstPositions(items, i)
  {
  }

  /** A list without repeated ids passes through unchanged. */
  lemma {:induction false} KeepFirstDistinct(items: seq<Item>)
    requires Distinct(Ids(items))
    ensures KeepFirst(items) == items
  {
    KeepDistinctUpTo(items, |items|);
  }

  lemma {:induction false} KeepDistinctUpTo(items: seq<Item>, n: nat)
    requires Distinct(Ids(items)) && n <= |items|
    ensures KeepUpTo(items, n) == items[..n]
  {
    if n > 0 {
      KeepDistinctUpTo(items, n - 1);
      IdsUpToMembers(items, n - 1, items[n - 1].id);
      assert forall i :: 0 <= i < n - 1 ==> Ids(items)[i] != Ids(items)[n - 1];
    }
  }

  /** Every item of the result stands in the input. */
  lemma {:induction false} KeepFirstFrom(items: seq<Item>, n: nat)
    requires n <= |items|
    ensures forall it :: it in KeepUpTo(items, n) ==> it in items
  {
    if n > 0 {
      KeepFirstFrom(items, n - 1);
    }
  }

  lemma {:induction false} FlatPrefix(batches: seq<seq<Item>>, n: nat) returns (rest: seq<Item>)
    requires n <= |batches|
    ensures Flatten(batches) == Flat(batches, n) + rest
  {
    rest := [];
    var m := n;
    while m < |batches|
      invariant n <= m <= |batches| && Flat(batches, m) == Flat(batches, n) + rest
    {
      rest := rest + batches[m];
      m := m + 1;
    }
  }

  /** Once the cap is reached nothing that follows can change the result. */
  lemma {:induction false} CapReached(items: seq<Item>, n: nat, cap: int)
    requires n <= |items| && cap > 0 && |KeepUpTo(items, n)| >= cap
    ensures Cap(cap, KeepFirst(items)) == KeepUpTo(items, n)[..cap]
  {
    KeepUpToGrows(items, n, |items|);
  }

  /** A capped merge has distinct ids, all from the lanes, and is as long as cap and lanes allow. */
  lemma {:induction false} MergeGuarantee(lanes: seq<seq<Item>>, cap: int)
    ensures var out := Cap(cap, KeepFirst(Flatten(lanes)));
            var available := |set x | x in Ids(Flatten(lanes))|;
            && Distinct(Ids(out))
            && (forall it :: it in out ==> it in Flatten(lanes))
            && |out| == if cap > 0 then Min(cap, available) else available
  {
    var flat := Flatten(lanes);
    var all := KeepFirst(flat);
    KeepFirstIds(flat);
    KeepFirstFrom(flat, |flat|);
    DistinctCount(Ids(all));
    assert (set x | x in Ids(all)) == (set x | x in Ids(flat));
    CapDistinct(cap, all);
  }

  lemma {:induction false} CapDistinct(cap: int, items: seq<Item>)
    requires Distinct(Ids(items))
    ensures Distinct(Ids(Cap(cap, items)))
  {
    var out := Cap(cap, items);
    assert forall i :: 0 <= i < |out| ==> Ids(out)[i] == Ids(items)[i];
  }

  // ---------- the loops ----------

  /**
   * The closure `appendUnique` on lane `n`: extends `out` and `seen`, returning as soon as the cap is
   * reached, when `out` is already the merge of all the lanes.
   */
  method AppendUnique(ghost lanes: seq<seq<Item>>, ghost n: nat, batch: seq<Item>, seen: set<int>, out: seq<Item>,
                      allMergeNum: int)
    returns (seen': set<int>, out': seq<Item>)
    requires n < |lanes| && batch == lanes[n]
    requires out == KeepFirst(Flat(lanes, n)) && seen == IdSet(Flat(lanes, n))
    requires allMergeNum > 0 ==> |out| < allMergeNum
    ensures allMergeNum > 0 && |out'| >= allMergeNum ==> out' == Cap(allMergeNum, KeepFirst(Flatten(lanes)))
    ensures !(allMergeNum > 0 && |out'| >= allMergeNum) ==>
              out' == KeepFirst(Flat(lanes, n + 1)) && seen' == IdSet(Flat(lanes, n + 1))
  {
    ghost var base, all := |Flat(lanes, n)|, Flat(lanes, n + 1);
    LaneStarts(lanes, n);
    var k;
    seen', out', k := AppendBatch(all, base, batch, seen, out, allMergeNum);
    LaneEnds(lanes, n, k, allMergeNum, out', seen');
  }

  /** What the closure leaves behind. */
  lemma {:induction false} LaneEnds(lanes: seq<seq<Item>>, n: nat, k: nat, cap: int, out: seq<Item>, seen: set<int>)
    requires n < |lanes| && k <= |lanes[n]|
    requires var end := |Flat(lanes, n)| + k;
             end <= |Flat(lanes, n + 1)| && out == KeepUpTo(Flat(lanes, n + 1), end) && seen == IdsUpTo(Flat(lanes, n + 1), end)
    requires if cap > 0 && |out| >= cap then |out| == cap else k == |lanes[n]|
    ensures cap > 0 && |out| >= cap ==> out == Cap(cap, KeepFirst(Flatten(lanes)))
    ensures !(cap > 0 && |out| >= cap) ==> out == KeepFirst(Flat(lanes, n + 1)) && seen == IdSet(Flat(lanes, n + 1))
  {
    if cap > 0 && |out| >= cap {
      LanesCapReached(lanes, n + 1, |Flat(lanes, n)| + k, cap);
    }
  }

  /** Where lane `n` stands among the lanes, and what is merged when its turn comes. */
  lemma {:induction false} LaneStarts(lanes: seq<seq<Item>>, n: nat)
    requires n < |lanes|
    ensures var base, all := |Flat(lanes, n)|, Flat(lanes, n + 1);
            && base <= |all| && all[base..] == lanes[n]
            && KeepUpTo(all, base) == KeepFirst(Flat(lanes, n)) && IdsUpTo(all, base) == IdSet(Flat(lanes, n))
  {
    var done := Flat(lanes, n);
    KeepUpToPrefix(done, lanes[n], |done|);
    IdsUpToPrefix(done, lanes[n], |done|);
  }

  /**
   * The loop of the closure over the batch that stands in `all` from `base` on: the first `k` items of the batch are
   * merged, all of them unless the cap is reached.
   */
  method AppendBatch(ghost all: seq<Item>, ghost base: nat, batch: seq<Item>, seen: set<int>, out: seq<Item>, allMergeNum: int)
    returns (seen': set<int>, out': seq<Item>, k: nat)
    requires base <= |all| && batch == all[base..]
    requires out == KeepUpTo(all, base) && seen == IdsUpTo(all, base)
    requires allMergeNum > 0 ==> |out| < allMergeNum
    ensures k <= |batch| && out' == KeepUpTo(all, base + k) && seen' == IdsUpTo(all, base + k)
    ensures if allMergeNum > 0 && |out'| >= allMergeNum then |out'| == allMergeNum else k == |batch|
  {
    seen', out', k := seen, out, 0;
    for i := 0 to |batch|
      invariant k == i
      invariant out' == KeepUpTo(all, base + i) && seen' == IdsUpTo(all, base + i)
      invariant allMergeNum > 0 ==> |out'| < allMergeNum
    {
      var it := batch[i];
      KeepStep(all, base + i, out', seen');
      k := i + 1;
      if it.id in seen' {
        continue;
      }
      seen' := seen' + {it.id};
      out' := out' + [it];
      if allMergeNum > 0 && |out'| >= allMergeNum {
        return;
      }
    }
  }

  lemma {:induction false} LanesCapReached(lanes: seq<seq<Item>>, n: nat, k: nat, cap: int)
    requires n <= |lanes| && k <= |Flat(lanes, n)| && cap > 0 && |KeepUpTo(Flat(lanes, n), k)| == cap
    ensures Cap(cap, KeepFirst(Flatten(lanes))) == KeepUpTo(Flat(lanes, n), k)
  {
    var a := Flat(lanes, n);
    var rest := FlatPrefix(lanes, n);
    KeepUpToPrefix(a, rest, k);
    CapReached(a + rest, k, cap);
  }

  /** Exclusive lanes first, then main lanes, deduplicated by id and capped. */
  method MergeRecallLanes(exclusive: seq<seq<Item>>, main: seq<seq<Item>>, allMergeNum: int) returns (out: seq<Item>)
    ensures out == Cap(allMergeNum, KeepFirst(Flatten(exclusive + main)))
  {
    var seen: set<int> := {};
    out := [];
    ghost var lanes := exclusive + main;
    for i := 0 to |exclusive|
      invariant out == KeepFirst(Flat(lanes, i)) && seen == IdSet(Flat(lanes, i))
      invariant allMergeNum > 0 ==> |out| < allMergeNum
    {
      seen, out := AppendUnique(lanes, i, exclusive[i], seen, out, allMergeNum);
      if allMergeNum > 0 && |out| >= allMergeNum {
        return;
      }
    }
    for i := 0 to |main|
      invariant out == KeepFirst(Flat(lanes, |exclusive| + i)) && seen == IdSet(Flat(lanes, |exclusive| + i))
      invariant allMergeNum > 0 ==> |out| < allMergeNum
    {
      seen, out := AppendUnique(lanes, |exclusive| + i, main[i], seen, out, allMergeNum);
      if allMergeNum > 0 && |out| >= allMergeNum {
        return;
      }
    }
  }

  /** Prefix first, then the items, without repeats: `prependUnique`. */
  method PrependUnique(items: seq<Item>, prefix: seq<Item>) returns (out: seq<Item>)
    ensures out == KeepFirst(prefix + items)
  {
    var seen: set<int> := {};
    out := [];
    ghost var all := prefix + items;
    assert forall i :: 0 <= i < |prefix| ==> all[i] == prefix[i];
    assert forall i :: 0 <= i < |items| ==> all[|prefix| + i] == items[i];
    for i := 0 to |prefix|
      invariant out == KeepUpTo(all, i) && seen == IdsUpTo(all, i)
    {
      KeepStep(all, i, out, seen);
      if prefix[i].id !in seen {
        seen := seen + {prefix[i].id};
        out := out + [prefix[i]];
      }
    }
    for i := 0 to |items|
      invariant out == KeepUpTo(all, |prefix| + i) && seen == IdsUpTo(all, |prefix| + i)
    {
      KeepStep(all, |prefix| + i, out, seen);
      if items[i].id !in seen {
        seen := seen + {items[i].id};
        out := out + [items[i]];
      }
    }
  }

  method DedupeKeepFirst(items: seq<Item>) returns (out: seq<Item>)
    ensures out == KeepFirst(items)
  {
    var seen: set<int> := {};
    out := [];
    for i := 0 to |items|
      invariant out == KeepUpTo(items, i) && seen == IdsUpTo(items, i)
    {
      KeepStep(items, i, out, seen);
      if items[i].id !in seen {
        seen := seen + {items[i].id};
        out := out + [items[i]];
      }
    }
  }

  /** Sampling by fold, then the per-lane cap. */
  method ApplySampleFoldAndCap(items: seq<Item>, sampleFold: int, mergeMax: int) returns (picked: seq<Item>)
    ensures picked == Cap(mergeMax, EveryFold(items, if sampleFold <= 0 then 1 else sampleFold))
  {
    if |items| == 0 {
      FoldCount(0, if sampleFold <= 0 then 1 else sampleFold, 0);
      return [];
    }
    var fold := sampleFold;
    if fold <= 0 {
      fold := 1;
    }
    picked := [];
    var i := 0;
    FoldCount(|items|, fold, 0);
    while i < |items|
      invariant i == |picked| * fold
      invariant |picked| <= (|items| + fold - 1) / fold
      invariant forall k :: 0 <= k < |picked| ==> picked[k] == EveryFold(items, fold)[k]
      decreases |items| - i
    {
      FoldCount(|items|, fold, |picked|);
      NextFold(|picked|, fold);
      picked := picked + [items[i]];
      i := i + fold;
    }
    FoldCount(|items|, fold, |picked|);
    assert picked == EveryFold(items, fold);
    if mergeMax > 0 && |picked| > mergeMax {
      picked := picked[..mergeMax];
    }
  }
}
