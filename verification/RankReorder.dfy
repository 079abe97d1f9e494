/**
 * Putting the ranked scores back on the candidates: services/recommend/internal/pipeline/center.go, and the copies
 * in pkg/recsyskit/pipeline.go and services/recommend/internal/logic/recommendlogic.go.
 */
module RankReorder {
  import opened Items

  // ---------- specification ----------

  /** The last position below `n` with the given id, or -1: what the index map holds. */
  function LastAt(items: seq<Item>, id: int, n: nat): (r: int)
    requires n <= |items|
    ensures -1 <= r < n
    ensures r >= 0 ==> items[r].id == id
  {
    if n == 0 then -1 else if items[n - 1].id == id then n - 1 else LastAt(items, id, n - 1)
  }

  /** Scored items in score order, one per score of a known id. */
  function Scored(items: seq<Item>, scores: seq<ItemScore>, k: nat): seq<Item>
    requires k <= |scores|
  {
    if k == 0 then []
    else
      var at := LastAt(items, scores[k - 1].itemId, |items|);
      var before := Scored(items, scores, k - 1);
      if at >= 0 then before + [items[at].(score := scores[k - 1].rank)] else before
  }

  /** How many of the first `k` scores are for `id`. */
  function ScoreCount(scores: seq<ItemScore>, id: int, k: nat): nat
    requires k <= |scores|
  {
    if k == 0 then 0 else ScoreCount(scores, id, k - 1) + if scores[k - 1].itemId == id then 1 else 0
  }

  /** The items without a score, in their original order. */
  function Rest(items: seq<Item>, scores: seq<ItemScore>, n: nat): seq<Item>
    requires n <= |items|
  {
    if n == 0 then []
    else if ScoreCount(scores, items[n - 1].id, |scores|) == 0 then Rest(items, scores, n - 1) + [items[n - 1]]
    else Rest(items, scores, n - 1)
  }

  function Reordered(items: seq<Item>, scores: seq<ItemScore>): seq<Item> {
    Scored(items, scores, |scores|) + Rest(items, scores, |items|)
  }

  // ---------- conservation ----------

  function IdCount(items: seq<Item>, id: int, n: nat): nat
    requires n <= |items|
  {
    if n == 0 then 0 else IdCount(items, id, n - 1) + if items[n - 1].id == id then 1 else 0
  }

  lemma {:induction false} IdCountPrefix(a: seq<Item>, b: seq<Item>, id: int, n: nat)
    requires n <= |a|
    ensures IdCount(a + b, id, n) == IdCount(a, id, n)
  {
    if n > 0 {
      IdCountPrefix(a, b, id, n - 1);
    }
  }

  lemma {:induction false} IdCountAppend(a: seq<Item>, b: seq<Item>, id: int, n: nat)
    requires n <= |b|
    ensures IdCount(a + b, id, |a| + n) == IdCount(a, id, |a|) + IdCount(b, id, n)
  {
    if n == 0 {
      IdCountPrefix(a, b, id, |a|);
    } else {
      IdCountAppend(a, b, id, n - 1);
    }
  }

  lemma {:induction false} LastAtFinds(items: seq<Item>, id: int, n: nat)
    requires n <= |items|
    ensures LastAt(items, id, n) >= 0 <==> IdCount(items, id, n) > 0
  {
    if n > 0 {
      LastAtFinds(items, id, n - 1);
    }
  }

  lemma {:induction false} ScoredCounts(items: seq<Item>, scores: seq<ItemScore>, id: int, k: nat)
    requires k <= |scores|
    ensures var out := Scored(items, scores, k);
            IdCount(out, id, |out|) == if IdCount(items, id, |items|) > 0 then ScoreCount(scores, id, k) else 0
  {
    if k > 0 {
      ScoredCounts(items, scores, id, k - 1);
      var before, sc := Scored(items, scores, k - 1), scores[k - 1];
      LastAtFinds(items, sc.itemId, |items|);
      var at := LastAt(items, sc.itemId, |items|);
      if at >= 0 {
        IdCountAppend(before, [items[at].(score := sc.rank)], id, 1);
      }
    }
  }

  lemma {:induction false} RestCounts(items: seq<Item>, scores: seq<ItemScore>, id: int, n: nat)
    requires n <= |items|
    ensures var out := Rest(items, scores, n);
            IdCount(out, id, |out|) == if ScoreCount(scores, id, |scores|) == 0 then IdCount(items, id, n) else 0
  {
    if n > 0 {
      RestCounts(items, scores, id, n - 1);
      if ScoreCount(scores, items[n - 1].id, |scores|) == 0 {
        IdCountAppend(Rest(items, scores, n - 1), [items[n - 1]], id, 1);
      }
    }
  }

  /** How often an id comes out, for every input: as often as it is scored, or as often as it came in. */
  lemma {:induction false} ReorderedCounts(items: seq<Item>, scores: seq<ItemScore>, id: int)
    ensures var out, there, scored := Reordered(items, scores), IdCount(items, id, |items|), ScoreCount(scores, id, |scores|);
            IdCount(out, id, |out|) == if there == 0 then 0 else if scored == 0 then there else scored
  {
    var a, b := Scored(items, scores, |scores|), Rest(items, scores, |items|);
    ScoredCounts(items, scores, id, |scores|);
    RestCounts(items, scores, id, |items|);
    IdCountAppend(a, b, id, |b|);
  }

  /** For distinct ids every candidate comes out max(1, its number of scores) times, and nothing else comes out. */
  lemma {:induction false} ReorderConserves(items: seq<Item>, scores: seq<ItemScore>, id: int)
    requires Distinct(Ids(items))
    ensures var out, scored := Reordered(items, scores), ScoreCount(scores, id, |scores|);
            IdCount(out, id, |out|) == if id in Ids(items) then (if scored > 1 then scored else 1) else 0
  {
    ReorderedCounts(items, scores, id);
    DistinctCounts(items, id, |items|);
    if id in Ids(items) {
      var i :| 0 <= i < |items| && Ids(items)[i] == id;
      assert items[i].id == id;
    }
  }

  lemma {:induction false} DistinctCounts(items: seq<Item>, id: int, n: nat)
    requires n <= |items| && Distinct(Ids(items))
    ensures IdCount(items, id, n) == if exists i :: 0 <= i < n && items[i].id == id then 1 else 0
  {
    if n > 0 {
      DistinctCounts(items, id, n - 1);
      assert forall i :: 0 <= i < n - 1 ==> items[i].id == Ids(items)[i] != Ids(items)[n - 1] == items[n - 1].id;
    }
  }

  ghost predicate NoRepeat(items: seq<Item>, n: nat)
    requires n <= |items|
  {
    forall i, j :: 0 <= i < j < n ==> items[i].id != items[j].id
  }

  ghost predicate AtMostOnce(items: seq<Item>, n: nat)
    requires n <= |items|
  {
    forall id :: IdCount(items, id, n) <= 1
  }

  lemma {:induction false} CountsDistinct(items: seq<Item>, n: nat)
    requires n <= |items|
    ensures NoRepeat(items, n) <==> AtMostOnce(items, n)
  {
    if n > 0 {
      CountsDistinct(items, n - 1);
      var last := items[n - 1].id;
      CountFinds(items, last, n - 1);
      assert NoRepeat(items, n) <==> NoRepeat(items, n - 1) && IdCount(items, last, n - 1) == 0;
      if AtMostOnce(items, n) {
        assert IdCount(items, last, n) <= 1;
        forall id: int {:trigger IdCount(items, id, n - 1)}
          ensures IdCount(items, id, n - 1) <= 1
        {
          assert IdCount(items, id, n) <= 1;
        }
        assert AtMostOnce(items, n - 1);
      }
      if AtMostOnce(items, n - 1) && IdCount(items, last, n - 1) == 0 {
        forall id: int {:trigger IdCount(items, id, n)}
          ensures IdCount(items, id, n) <= 1
        {
          assert IdCount(items, id, n - 1) <= 1;
        }
        assert AtMostOnce(items, n);
      }
    }
  }

  lemma {:induction false} CountFinds(items: seq<Item>, id: int, n: nat)
    requires n <= |items|
    ensures IdCount(items, id, n) > 0 <==> exists i :: 0 <= i < n && items[i].id == id
  {
    if n > 0 {
      CountFinds(items, id, n - 1);
      if items[n - 1].id == id {
        assert IdCount(items, id, n) > 0;
      } else {
        assert IdCount(items, id, n) == IdCount(items, id, n - 1);
      }
    }
  }

  /** The reordered list is free of repeats exactly when no candidate is scored twice. */
  lemma {:induction false} ReorderDistinctIff(items: seq<Item>, scores: seq<ItemScore>)
    requires Distinct(Ids(items))
    ensures Distinct(Ids(Reordered(items, scores))) <==>
            forall id :: id in Ids(items) ==> ScoreCount(scores, id, |scores|) <= 1
  {
    var out := Reordered(items, scores);
    CountsDistinct(out, |out|);
    DistinctByItems(out);
    ReorderedAtMostOnce(items, scores, out);
  }

  lemma {:induction false} DistinctByItems(items: seq<Item>)
    ensures Distinct(Ids(items)) <==> NoRepeat(items, |items|)
  {
    assert forall i :: 0 <= i < |items| ==> Ids(items)[i] == items[i].id;
  }

  lemma {:induction false} ReorderedAtMostOnce(items: seq<Item>, scores: seq<ItemScore>, out: seq<Item>)
    requires Distinct(Ids(items)) && out == Reordered(items, scores)
    ensures AtMostOnce(out, |out|) <==>
            forall id :: id in Ids(items) ==> ScoreCount(scores, id, |scores|) <= 1
  {
    if AtMostOnce(out, |out|) {
      forall id | id in Ids(items)
        ensures ScoreCount(scores, id, |scores|) <= 1
      {
        ReorderConserves(items, scores, id);
        assert IdCount(out, id, |out|) <= 1;
      }
    }
    if forall id :: id in Ids(items) ==> ScoreCount(scores, id, |scores|) <= 1 {
      forall id
        ensures IdCount(out, id, |out|) <= 1
      {
        ReorderConserves(items, scores, id);
      }
    }
  }

  lemma {:induction false} ScoredAtMostOnce(scores: seq<ItemScore>, id: int, k: nat)
    requires k <= |scores| && forall i, j :: 0 <= i < j < |scores| ==> scores[i].itemId != scores[j].itemId
    ensures ScoreCount(scores, id, k) <= 1
    ensures ScoreCount(scores, id, k) == 1 ==> exists i :: 0 <= i < k && scores[i].itemId == id
  {
    if k > 0 {
      ScoredAtMostOnce(scores, id, k - 1);
    }
  }

  /** The positions of the scores whose id is known. */
  function Known(items: seq<Item>, scores: seq<ItemScore>, k: nat): seq<int>
    requires k <= |scores|
  {
    if k == 0 then []
    else if LastAt(items, scores[k - 1].itemId, |items|) >= 0 then Known(items, scores, k - 1) + [k - 1]
    else Known(items, scores, k - 1)
  }

  lemma {:induction false} KnownPositions(items: seq<Item>, scores: seq<ItemScore>, k: nat)
    requires k <= |scores|
    ensures forall a :: 0 <= a < |Known(items, scores, k)| ==> 0 <= Known(items, scores, k)[a] < k
    ensures Increasing(Known(items, scores, k))
    ensures forall c :: c in Known(items, scores, k) <==> 0 <= c < k && LastAt(items, scores[c].itemId, |items|) >= 0
  {
    if k > 0 {
      KnownPositions(items, scores, k - 1);
    }
  }

  /** Order of the scored part: the known scores in their order, each on an item with its id and its rank score. */
  lemma {:induction false} ScoredOrder(items: seq<Item>, scores: seq<ItemScore>, k: nat)
    requires k <= |scores|
    ensures |Known(items, scores, k)| == |Scored(items, scores, k)|
    ensures forall c :: 0 <= c < |Known(items, scores, k)| ==>
              && 0 <= Known(items, scores, k)[c] < k
              && Scored(items, scores, k)[c].id == scores[Known(items, scores, k)[c]].itemId
              && Scored(items, scores, k)[c].score == scores[Known(items, scores, k)[c]].rank
  {
    if k > 0 {
      ScoredOrder(items, scores, k - 1);
    }
  }

  /** The positions of the items without a score. */
  function Unscored(items: seq<Item>, scores: seq<ItemScore>, n: nat): (r: seq<int>)
    requires n <= |items|
    ensures forall a :: 0 <= a < |r| ==> 0 <= r[a] < n
  {
    if n == 0 then []
    else Unscored(items, scores, n - 1) + if ScoreCount(scores, items[n - 1].id, |scores|) == 0 then [n - 1] else []
  }

  lemma {:induction false} UnscoredPositions(items: seq<Item>, scores: seq<ItemScore>, n: nat)
    requires n <= |items|
    ensures Increasing(Unscored(items, scores, n))
    ensures forall i :: i in Unscored(items, scores, n) <==> 0 <= i < n && ScoreCount(scores, items[i].id, |scores|) == 0
  {
    if n > 0 {
      UnscoredPositions(items, scores, n - 1);
    }
  }

  lemma {:induction false} UnscoredSelected(items: seq<Item>, scores: seq<ItemScore>, i: nat)
    requires i < |items| && ScoreCount(scores, items[i].id, |scores|) == 0
    ensures Select(items, Unscored(items, scores, i + 1)) == Select(items, Unscored(items, scores, i)) + [items[i]]
  {
    SelectSnoc(items, Unscored(items, scores, i), i);
  }

  lemma {:induction false} ScoredSkipped(items: seq<Item>, scores: seq<ItemScore>, i: nat)
    requires i < |items| && ScoreCount(scores, items[i].id, |scores|) > 0
    ensures Unscored(items, scores, i + 1) == Unscored(items, scores, i)
  {
  }

  lemma {:induction false} RestSelects(items: seq<Item>, scores: seq<ItemScore>, n: nat)
    requires n <= |items|
    ensures Rest(items, scores, n) == Select(items, Unscored(items, scores, n))
  {
    if n > 0 {
      RestSelects(items, scores, n - 1);
      if ScoreCount(scores, items[n - 1].id, |scores|) == 0 {
        UnscoredSelected(items, scores, n - 1);
      } else {
        ScoredSkipped(items, scores, n - 1);
      }
    }
  }

  /** Order of the unscored part: exactly the items without a score, unchanged and in their original order. */
  lemma {:induction false} RestOrder(items: seq<Item>, scores: seq<ItemScore>)
    ensures var positions := Unscored(items, scores, |items|);
            && Increasing(positions)
            && (forall i :: i in positions <==> 0 <= i < |items| && ScoreCount(scores, items[i].id, |scores|) == 0)
            && Rest(items, scores, |items|) == Select(items, positions)
  {
    UnscoredPositions(items, scores, |items|);
    RestSelects(items, scores, |items|);
  }

  ghost predicate IsLast(items: seq<Item>, i: int) {
    0 <= i < |items| && forall j :: i < j < |items| ==> items[j].id != items[i].id
  }

  lemma {:induction false} LastAtMeans(items: seq<Item>, id: int, n: nat)
    requires n <= |items|
    ensures LastAt(items, id, n) >= 0 <==> exists i :: 0 <= i < n && items[i].id == id
    ensures forall j :: LastAt(items, id, n) < j < n ==> items[j].id != id
  {
    if n > 0 {
      LastAtMeans(items, id, n - 1);
    }
  }

  lemma {:induction false} NoScoreMeans(scores: seq<ItemScore>, id: int, k: nat)
    requires k <= |scores|
    ensures ScoreCount(scores, id, k) == 0 <==> forall c :: 0 <= c < k ==> scores[c].itemId != id
  {
    if k > 0 {
      NoScoreMeans(scores, id, k - 1);
    }
  }

  /** Each scored entry is the last item with its id, with the rank score. */
  lemma {:induction false} ScoredEntries(items: seq<Item>, scores: seq<ItemScore>, k: nat)
    requires k <= |scores|
    ensures |Known(items, scores, k)| == |Scored(items, scores, k)|
    ensures forall a :: 0 <= a < |Known(items, scores, k)| ==> 0 <= Known(items, scores, k)[a] < k
    ensures forall a :: 0 <= a < |Known(items, scores, k)| ==>
              var sc := scores[Known(items, scores, k)[a]];
              exists i :: IsLast(items, i) && items[i].id == sc.itemId && Scored(items, scores, k)[a] == items[i].(score := sc.rank)
  {
    if k > 0 {
      ScoredEntries(items, scores, k - 1);
      var at := LastAt(items, scores[k - 1].itemId, |items|);
      LastAtMeans(items, scores[k - 1].itemId, |items|);
      assert at >= 0 ==> IsLast(items, at);
    }
  }

  /**
   * The whole list: first the scores of known ids in their order, each on the last item with that id and with its rank
   * score; then the items that no score mentions, unchanged and in their original order.
   */
  lemma {:induction false} ReorderedMeans(items: seq<Item>, scores: seq<ItemScore>) returns (known: seq<int>, rest: seq<int>)
    ensures Increasing(known) && forall c :: c in known <==> 0 <= c < |scores| && exists i :: 0 <= i < |items| && items[i].id == scores[c].itemId
    ensures Increasing(rest) && forall i :: i in rest <==> 0 <= i < |items| && forall c :: 0 <= c < |scores| ==> scores[c].itemId != items[i].id
    ensures |Reordered(items, scores)| == |known| + |rest|
    ensures forall a :: 0 <= a < |known| ==> 0 <= known[a] < |scores|
    ensures forall a :: 0 <= a < |known| ==>
              exists i :: IsLast(items, i) && items[i].id == scores[known[a]].itemId
                          && Reordered(items, scores)[a] == items[i].(score := scores[known[a]].rank)
    ensures forall b :: 0 <= b < |rest| ==> 0 <= rest[b] < |items| && Reordered(items, scores)[|known| + b] == items[rest[b]]
  {
    known, rest := Known(items, scores, |scores|), Unscored(items, scores, |items|);
    KnownMeans(items, scores);
    ScoredEntries(items, scores, |scores|);
    RestMeans(items, scores);
    TwoParts(Scored(items, scores, |scores|), Rest(items, scores, |items|), Reordered(items, scores));
  }

  lemma {:induction false} KnownMeans(items: seq<Item>, scores: seq<ItemScore>)
    ensures Increasing(Known(items, scores, |scores|))
    ensures forall c :: c in Known(items, scores, |scores|) <==> 0 <= c < |scores| && exists i :: 0 <= i < |items| && items[i].id == scores[c].itemId
  {
    KnownPositions(items, scores, |scores|);
    forall c | 0 <= c < |scores|
      ensures LastAt(items, scores[c].itemId, |items|) >= 0 <==> exists i :: 0 <= i < |items| && items[i].id == scores[c].itemId
    {
      LastAtMeans(items, scores[c].itemId, |items|);
    }
  }

  lemma {:induction false} RestMeans(items: seq<Item>, scores: seq<ItemScore>)
    ensures var rest := Unscored(items, scores, |items|);
            && Increasing(rest)
            && (forall i :: i in rest <==> 0 <= i < |items| && forall c :: 0 <= c < |scores| ==> scores[c].itemId != items[i].id)
            && |Rest(items, scores, |items|)| == |rest|
            && (forall b :: 0 <= b < |rest| ==> Rest(items, scores, |items|)[b] == items[rest[b]])
  {
    RestOrder(items, scores);
    forall i | 0 <= i < |items|
      ensures ScoreCount(scores, items[i].id, |scores|) == 0 <==> forall c :: 0 <= c < |scores| ==> scores[c].itemId != items[i].id
    {
      NoScoreMeans(scores, items[i].id, |scores|);
    }
  }

  lemma {:induction false} TwoParts(front: seq<Item>, back: seq<Item>, all: seq<Item>)
    requires all == front + back
    ensures |all| == |front| + |back|
    ensures forall a :: 0 <= a < |front| ==> all[a] == front[a]
    ensures forall b :: 0 <= b < |back| ==> all[|front| + b] == back[b]
  {
  }

  /** Every item out is an item in, up to its score. */
  lemma {:induction false} ReorderSources(items: seq<Item>, scores: seq<ItemScore>)
    ensures forall it :: it in Reordered(items, scores) ==> exists i :: 0 <= i < |items| && it == items[i].(score := it.score)
  {
    ScoredFrom(items, scores, |scores|);
    RestFrom(items, scores, |items|);
  }

  lemma {:induction false} ScoredFrom(items: seq<Item>, scores: seq<ItemScore>, k: nat)
    requires k <= |scores|
    ensures forall it :: it in Scored(items, scores, k) ==> exists i :: 0 <= i < |items| && it == items[i].(score := it.score)
  {
    if k > 0 {
      ScoredFrom(items, scores, k - 1);
    }
  }

  lemma {:induction false} RestFrom(items: seq<Item>, scores: seq<ItemScore>, n: nat)
    requires n <= |items|
    ensures forall it :: it in Rest(items, scores, n) ==> exists i :: 0 <= i < |items| && it == items[i].(score := it.score)
  {
    if n > 0 {
      RestFrom(items, scores, n - 1);
      assert items[n - 1] == items[n - 1].(score := items[n - 1].score);
    }
  }

  lemma {:induction false} NoScoresNoChange(items: seq<Item>, n: nat)
    requires n <= |items|
    ensures Rest(items, [], n) == items[..n]
  {
    if n > 0 {
      NoScoresNoChange(items, n - 1);
    }
  }

  // ---------- the loops ----------

  ghost predicate IndexOf(items: seq<Item>, index: map<int, Item>, n: nat)
    requires n <= |items|
  {
    && (forall id :: id in index <==> LastAt(items, id, n) >= 0)
    && (forall id :: id in index ==> index[id] == items[LastAt(items, id, n)])
  }

  method BuildIndex(items: seq<Item>) returns (index: map<int, Item>)
    ensures IndexOf(items, index, |items|)
  {
    index := map[];
    for i := 0 to |items|
      invariant IndexOf(items, index, i)
    {
      index := index[items[i].id := items[i]];
    }
  }

  /** The copy in center.go; the one in recommendlogic.go has the same statements. */
  method ReorderByRank(items: seq<Item>, scores: seq<ItemScore>) returns (out: seq<Item>)
    ensures out == Reordered(items, scores)
  {
    var index := BuildIndex(items);
    out := [];
    var seen: set<int> := {};
    for k := 0 to |scores|
      invariant out == Scored(items, scores, k)
      invariant forall id :: id in seen <==> id in index && ScoreCount(scores, id, k) > 0
    {
      var sc := scores[k];
      if sc.itemId in index {
        out := out + [index[sc.itemId].(score := sc.rank)];
        seen := seen + {sc.itemId};
      }
    }
    ghost var scored := out;
    for n := 0 to |items|
      invariant out == scored + Rest(items, scores, n)
    {
      LastAtKnows(items, n, |items|);
      if items[n].id !in seen {
        out := out + [items[n]];
      }
    }
  }

  lemma {:induction false} LastAtKnows(items: seq<Item>, i: nat, n: nat)
    requires i < n <= |items|
    ensures LastAt(items, items[i].id, n) >= 0
  {
    if i < n - 1 {
      LastAtKnows(items, i, n - 1);
    }
  }

  /** The copy in pipeline.go returns early without scores; it computes the same list. */
  method ReorderByRankEarly(items: seq<Item>, scores: seq<ItemScore>) returns (out: seq<Item>)
    ensures out == Reordered(items, scores)
  {
    if |scores| == 0 {
      NoScoresNoChange(items, |items|);
      return items;
    }
    out := ReorderByRank(items, scores);
  }
}
