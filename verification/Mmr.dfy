/**
 * Greedy MMR re-arrangement (services/recommend/internal/centerconfig/apply.go).
 * Each round picks the unused item with the largest trade-off of relevance against repeating a recall type.
 */
module Mmr {
  import opened Items

  // ---------- specification ----------

  function Lambda(configured: real): (l: real)
    ensures 0.0 < l <= 1.0
  {
    if configured <= 0.0 || configured > 1.0 then 0.5 else configured
  }

  function MaxOut(dimension: int, n: nat): nat {
    if dimension <= 0 then n else dimension
  }

  /** Largest score among the first `n`, never below zero. */
  function TopScore(items: seq<Item>, n: nat): (m: real)
    requires n <= |items|
    ensures m >= 0.0
    ensures forall i :: 0 <= i < n ==> items[i].score <= m
  {
    if n == 0 then 0.0
    else if items[n - 1].score > TopScore(items, n - 1) then items[n - 1].score
    else TopScore(items, n - 1)
  }

  /** The divisor that normalises relevance. */
  function Norm(items: seq<Item>): (m: real)
    ensures m > 0.0
  {
    var m := TopScore(items, |items|);
    if m <= 0.0 then 1.0 else m
  }

  function Relevance(items: seq<Item>, i: int): real
    requires 0 <= i < |items|
  {
    items[i].score / Norm(items)
  }

  /** Some already picked position has the recall type of position `i`. */
  predicate TypeSeen(items: seq<Item>, picked: seq<int>, i: int)
    requires InRange(items, picked) && 0 <= i < |items|
  {
    exists k :: 0 <= k < |picked| && items[picked[k]].recallType == items[i].recallType
  }

  predicate InRange(items: seq<Item>, picked: seq<int>) {
    forall k :: 0 <= k < |picked| ==> 0 <= picked[k] < |items|
  }

  function Gain(items: seq<Item>, lam: real, picked: seq<int>, i: int): real
    requires InRange(items, picked) && 0 <= i < |items|
  {
    lam * Relevance(items, i) - if TypeSeen(items, picked, i) then 1.0 - lam else 0.0
  }

  /** The scan over the first `n` positions: the first unused one of maximal gain above -1, or -1. */
  function Best(items: seq<Item>, lam: real, picked: seq<int>, n: nat): (b: int)
    requires InRange(items, picked) && n <= |items|
    ensures -1 <= b < n
    ensures b >= 0 ==> b !in picked
  {
    if n == 0 then -1
    else
      var b := Best(items, lam, picked, n - 1);
      var bar := if b < 0 then -1.0 else Gain(items, lam, picked, b);
      if n - 1 !in picked && Gain(items, lam, picked, n - 1) > bar then n - 1 else b
  }

  /** Rounds from a partial pick until the limit, the end of the list, or a round without a winner. */
  function Rounds(items: seq<Item>, lam: real, limit: nat, picked: seq<int>): (r: seq<int>)
    requires InRange(items, picked)
    ensures InRange(items, r)
    decreases |items| - |picked|
  {
    if |picked| >= limit || |picked| >= |items| then picked
    else
      var b := Best(items, lam, picked, |items|);
      if b < 0 then picked else Rounds(items, lam, limit, picked + [b])
  }

  function Picks(items: seq<Item>, configured: real, dimension: int): (r: seq<int>)
    ensures InRange(items, r)
  {
    Rounds(items, Lambda(configured), MaxOut(dimension, |items|), [])
  }

  function Rearranged(items: seq<Item>, configured: real, dimension: int): seq<Item> {
    if |items| < 2 then items else Select(items, Picks(items, configured, dimension))
  }

  // ---------- what a run of the loop is, without its scan ----------

  /** `b` wins a round: unused, above the bar of -1, and no unused rival is better or equally good and earlier. */
  ghost predicate Wins(items: seq<Item>, lam: real, picked: seq<int>, b: int)
    requires InRange(items, picked)
  {
    && 0 <= b < |items| && b !in picked
    && Gain(items, lam, picked, b) > -1.0
    && forall i :: 0 <= i < |items| && i !in picked ==>
         Gain(items, lam, picked, i) <= Gain(items, lam, picked, b)
         && (Gain(items, lam, picked, i) == Gain(items, lam, picked, b) ==> b <= i)
  }

  ghost predicate GreedyRun(items: seq<Item>, lam: real, limit: nat, r: seq<int>) {
    && InRange(items, r)
    && |r| <= Min(limit, |items|)
    && (forall k {:trigger r[..k]} :: 0 <= k < |r| ==> Wins(items, lam, r[..k], r[k]))
    && (|r| < Min(limit, |items|) ==>
          forall i :: 0 <= i < |items| && i !in r ==> Gain(items, lam, r, i) <= -1.0)
  }

  lemma {:induction false} BestWins(items: seq<Item>, lam: real, picked: seq<int>, n: nat)
    requires InRange(items, picked) && n <= |items|
    ensures var b := Best(items, lam, picked, n);
            if b < 0 then forall i :: 0 <= i < n && i !in picked ==> Gain(items, lam, picked, i) <= -1.0
            else
              && Gain(items, lam, picked, b) > -1.0
              && forall i :: 0 <= i < n && i !in picked ==>
                   Gain(items, lam, picked, i) <= Gain(items, lam, picked, b)
                   && (Gain(items, lam, picked, i) == Gain(items, lam, picked, b) ==> b <= i)
  {
    if n > 0 {
      BestWins(items, lam, picked, n - 1);
    }
  }

  lemma {:induction false} RoundsAreGreedy(items: seq<Item>, lam: real, limit: nat, picked: seq<int>)
    requires InRange(items, picked) && |picked| <= Min(limit, |items|)
    requires forall k {:trigger picked[..k]} :: 0 <= k < |picked| ==> Wins(items, lam, picked[..k], picked[k])
    ensures GreedyRun(items, lam, limit, Rounds(items, lam, limit, picked))
    decreases |items| - |picked|
  {
    if |picked| < limit && |picked| < |items| {
      BestWins(items, lam, picked, |items|);
      var b := Best(items, lam, picked, |items|);
      if b >= 0 {
        var next := picked + [b];
        forall k | 0 <= k < |next|
          ensures Wins(items, lam, next[..k], next[k])
        {
          if k < |picked| {
            assert next[..k] == picked[..k];
          } else {
            assert next[..k] == picked;
          }
        }
        RoundsAreGreedy(items, lam, limit, next);
      }
    }
  }

  /** The picks of any input form a greedy run. */
  lemma {:induction false} PicksAreGreedy(items: seq<Item>, configured: real, dimension: int)
    ensures GreedyRun(items, Lambda(configured), MaxOut(dimension, |items|), Picks(items, configured, dimension))
  {
    RoundsAreGreedy(items, Lambda(configured), MaxOut(dimension, |items|), []);
  }

  /** Greedy runs are unique, so `GreedyRun` says everything about the result. */
  lemma {:induction false} GreedyRunUnique(items: seq<Item>, lam: real, limit: nat, r: seq<int>, s: seq<int>)
    requires GreedyRun(items, lam, limit, r) && GreedyRun(items, lam, limit, s)
    ensures r == s
  {
    if |r| <= |s| {
      GreedyRunPrefix(items, lam, limit, r, s, |r|);
    } else {
      GreedyRunPrefix(items, lam, limit, s, r, |s|);
    }
  }

  lemma {:induction false} GreedyRunPrefix(items: seq<Item>, lam: real, limit: nat, r: seq<int>, s: seq<int>, k: nat)
    requires GreedyRun(items, lam, limit, r) && GreedyRun(items, lam, limit, s)
    requires k <= |r| <= |s|
    ensures r[..k] == s[..k]
    ensures k == |r| ==> r == s
  {
    if k > 0 {
      GreedyRunPrefix(items, lam, limit, r, s, k - 1);
      assert Wins(items, lam, r[..k - 1], r[k - 1]) && Wins(items, lam, s[..k - 1], s[k - 1]);
    }
    assert r[..k] == s[..k];
    assert k == |r| ==> r == r[..k];
    assert k < |s| ==> Wins(items, lam, s[..k], s[k]);
  }

  // ---------- order and completeness ----------

  /** Score descending, ties in input order. */
  ghost predicate Before(items: seq<Item>, i: int, j: int)
    requires 0 <= i < |items| && 0 <= j < |items|
  {
    items[i].score > items[j].score || (items[i].score == items[j].score && i < j)
  }

  lemma {:induction false} RelevanceOrder(lam: real, norm: real, a: real, b: real, penalty: real, gainA: real, gainB: real)
    requires lam > 0.0 && norm > 0.0 && a <= b
    requires gainA == lam * (a / norm) - penalty && gainB == lam * (b / norm) - penalty
    ensures if a == b then gainA == gainB else gainA < gainB
  {
    var x, y := a / norm, b / norm;
    assert norm * (y - x) == b - a;
    ScaleSign(norm, y - x);
    ScaleSign(lam, y - x);
    assert lam * (y - x) == lam * y - lam * x;
  }

  /** Distinct positions: nothing is shown twice. */
  lemma {:induction false} PicksDistinct(items: seq<Item>, lam: real, limit: nat, r: seq<int>)
    requires GreedyRun(items, lam, limit, r)
    ensures Distinct(r)
  {
    forall a, b | 0 <= a < b < |r|
      ensures r[a] != r[b]
    {
      assert Wins(items, lam, r[..b], r[b]);
      assert r[..b][a] == r[a];
    }
  }

  /** A better ordered rival of the same type (of any type when lambda is 1) has a better gain, or the same and comes first. */
  lemma {:induction false} GainOrder(items: seq<Item>, lam: real, picked: seq<int>, i: int, j: int)
    requires 0.0 < lam <= 1.0 && InRange(items, picked) && 0 <= i < |items| && 0 <= j < |items|
    requires items[j].recallType == items[i].recallType || lam == 1.0
    requires Before(items, j, i)
    ensures var gi, gj := Gain(items, lam, picked, i), Gain(items, lam, picked, j);
            gj > gi || (gj == gi && j < i)
  {
    assert TypeSeen(items, picked, j) == TypeSeen(items, picked, i) || lam == 1.0;
    var penalty := if TypeSeen(items, picked, i) then 1.0 - lam else 0.0;
    RelevanceOrder(lam, Norm(items), items[i].score, items[j].score, penalty,
      Gain(items, lam, picked, i), Gain(items, lam, picked, j));
  }

  /**
   * Within a recall type (and, when lambda is 1, over all items) every item that is better ordered than a
   * picked one was picked before it: each type contributes its best prefix, whatever the signs of the scores.
   */
  lemma {:induction false} BestPrefixOfType(items: seq<Item>, lam: real, limit: nat, r: seq<int>, k: nat)
    requires 0.0 < lam <= 1.0 && GreedyRun(items, lam, limit, r) && k < |r|
    ensures forall j :: 0 <= j < |items| && (items[j].recallType == items[r[k]].recallType || lam == 1.0) ==>
              (Before(items, j, r[k]) ==> j in r[..k])
  {
    assert Wins(items, lam, r[..k], r[k]);
    forall j | 0 <= j < |items| && (items[j].recallType == items[r[k]].recallType || lam == 1.0) && Before(items, j, r[k])
      ensures j in r[..k]
    {
      GainOrder(items, lam, r[..k], r[k], j);
    }
  }

  /** With lambda 1 the result is the stable descending sort, cut at its end. */
  lemma {:induction false} PlainSortWhenLambdaIsOne(items: seq<Item>, limit: nat, r: seq<int>)
    requires GreedyRun(items, 1.0, limit, r)
    ensures forall a, b :: 0 <= a < b < |r| ==> Before(items, r[a], r[b])
    ensures forall a, j :: 0 <= a < |r| && 0 <= j < |items| && j !in r ==> Before(items, r[a], j)
  {
    PicksDistinct(items, 1.0, limit, r);
    forall a, b | 0 <= a < b < |r|
      ensures Before(items, r[a], r[b])
    {
      BestPrefixOfType(items, 1.0, limit, r, a);
      assert r[b] !in r[..a];
    }
    forall a, j | 0 <= a < |r| && 0 <= j < |items| && j !in r
      ensures Before(items, r[a], j)
    {
      BestPrefixOfType(items, 1.0, limit, r, a);
      assert j !in r[..a] && j != r[a];
    }
  }

  /** First of its type in score order. */
  ghost predicate Leader(items: seq<Item>, i: int)
    requires 0 <= i < |items|
  {
    forall j :: 0 <= j < |items| && j != i && items[j].recallType == items[i].recallType ==> Before(items, i, j)
  }

  /** The items that can ever clear the bar of -1. */
  ghost predicate Pickable(items: seq<Item>, lam: real, i: int)
    requires 0 <= i < |items|
  {
    items[i].score > -Norm(items) || (Leader(items, i) && lam * items[i].score > -Norm(items))
  }

  ghost function PickableSet(items: seq<Item>, lam: real): set<int> {
    set i | 0 <= i < |items| && Pickable(items, lam, i)
  }

  lemma {:induction false} GainBar(items: seq<Item>, lam: real, picked: seq<int>, i: int)
    requires 0.0 < lam <= 1.0 && InRange(items, picked) && 0 <= i < |items|
    ensures TypeSeen(items, picked, i) ==> (Gain(items, lam, picked, i) > -1.0 <==> items[i].score > -Norm(items))
    ensures !TypeSeen(items, picked, i) ==>
              (Gain(items, lam, picked, i) > -1.0 <==> lam * items[i].score > -Norm(items))
  {
    BarOf(lam, Norm(items), items[i].score, Relevance(items, i), TypeSeen(items, picked, i), Gain(items, lam, picked, i));
  }

  lemma {:induction false} BarOf(lam: real, norm: real, s: real, rel: real, seen: bool, gain: real)
    requires 0.0 < lam <= 1.0 && norm > 0.0 && rel == s / norm
    requires gain == lam * rel - if seen then 1.0 - lam else 0.0
    ensures seen ==> (gain > -1.0 <==> s > -norm)
    ensures !seen ==> (gain > -1.0 <==> lam * s > -norm)
  {
    assert rel * norm == s;
    BarWhenSeen(lam, norm, s, rel);
    BarWhenNew(lam, norm, s, rel);
  }

  lemma {:induction false} BarWhenSeen(lam: real, norm: real, s: real, rel: real)
    requires 0.0 < lam && norm > 0.0 && rel * norm == s
    ensures lam * rel - (1.0 - lam) > -1.0 <==> s > -norm
  {
    SumSign(norm, rel, 1.0);
    SumSign(lam, rel, 1.0);
  }

  lemma {:induction false} BarWhenNew(lam: real, norm: real, s: real, rel: real)
    requires 0.0 < lam && norm > 0.0 && rel * norm == s
    ensures lam * rel > -1.0 <==> lam * s > -norm
  {
    SumSign(norm, lam * rel, 1.0);
    Regroup(norm, lam, rel);
    assert lam * (rel * norm) == lam * s;
  }

  lemma {:induction false} SumSign(c: real, x: real, y: real)
    requires c > 0.0
    ensures c * x + c * y > 0.0 <==> x + y > 0.0
  {
    ScaleSign(c, x + y);
    assert c * (x + y) == c * x + c * y;
  }

  lemma {:induction false} Regroup(a: real, b: real, c: real)
    ensures a * (b * c) == b * (c * a)
  {
  }

  lemma {:induction false} ScaleSign(c: real, x: real)
    requires c > 0.0
    ensures c * x > 0.0 <==> x > 0.0
  {
    if x > 0.0 {
      Positive(c, x);
    } else if x < 0.0 {
      Positive(c, -x);
      assert c * x == -(c * (-x));
    }
  }

  lemma {:induction false} Positive(a: real, b: real)
    requires a > 0.0 && b > 0.0
    ensures a * b > 0.0
  {
  }

  lemma {:induction false} PickedIsPickable(items: seq<Item>, lam: real, limit: nat, r: seq<int>, k: nat)
    requires 0.0 < lam <= 1.0 && GreedyRun(items, lam, limit, r) && k < |r|
    ensures Pickable(items, lam, r[k])
  {
    var picked := r[..k];
    assert Wins(items, lam, picked, r[k]);
    GainBar(items, lam, picked, r[k]);
    if !TypeSeen(items, picked, r[k]) {
      BestPrefixOfType(items, lam, limit, r, k);
      assert forall c :: 0 <= c < k ==> items[picked[c]].recallType != items[r[k]].recallType;
      assert Leader(items, r[k]);
    }
  }

  lemma {:induction false} UnpickedAtEarlyExit(items: seq<Item>, lam: real, limit: nat, r: seq<int>, i: nat)
    requires 0.0 < lam <= 1.0 && GreedyRun(items, lam, limit, r)
    requires |r| < Min(limit, |items|) && i < |items| && i !in r
    ensures !Pickable(items, lam, i)
  {
    GainBar(items, lam, r, i);
    if TypeSeen(items, r, i) {
      var k :| 0 <= k < |r| && items[r[k]].recallType == items[i].recallType;
      BestPrefixOfType(items, lam, limit, r, k);
      assert i !in r[..k] && i != r[k];
      assert !Before(items, i, r[k]);
      assert !Leader(items, i);
    } else {
      BelowBar(lam, Norm(items), items[i].score);
    }
  }

  lemma {:induction false} BelowBar(lam: real, norm: real, s: real)
    requires 0.0 < lam <= 1.0 && norm > 0.0 && lam * s <= -norm
    ensures s <= -norm
  {
    ScaleSign(lam, s + norm);
    assert lam * (s + norm) == lam * s + lam * norm;
    ScaleAtMost(lam, norm);
  }

  lemma {:induction false} ScaleAtMost(c: real, x: real)
    requires c <= 1.0 && x > 0.0
    ensures c * x <= x
  {
    assert (1.0 - c) * x >= 0.0;
  }

  /** The exact length for every input: the limit or the number of pickable items, whichever is smaller. */
  lemma {:induction false} ExactLength(items: seq<Item>, lam: real, limit: nat, r: seq<int>)
    requires 0.0 < lam <= 1.0 && GreedyRun(items, lam, limit, r)
    ensures |r| == Min(limit, |PickableSet(items, lam)|)
  {
    var chosen := set x | x in r;
    var can := PickableSet(items, lam);
    PicksDistinct(items, lam, limit, r);
    DistinctCount(r);
    forall x | x in chosen
      ensures x in can
    {
      var k :| 0 <= k < |r| && r[k] == x;
      PickedIsPickable(items, lam, limit, r, k);
    }
    SubsetCount(chosen, can);
    RangeCount(can, |items|);
    if |r| < Min(limit, |items|) {
      forall i | i in can
        ensures i in chosen
      {
        if i !in r {
          UnpickedAtEarlyExit(items, lam, limit, r, i);
        }
      }
      assert can == chosen;
    }
  }

  ghost predicate NonNegative(items: seq<Item>) {
    forall i :: 0 <= i < |items| ==> items[i].score >= 0.0
  }

  /** No early exit for non-negative scores: everything is shown up to the limit. */
  lemma {:induction false} NonNegativeLength(items: seq<Item>, lam: real, limit: nat, r: seq<int>)
    requires 0.0 < lam <= 1.0 && GreedyRun(items, lam, limit, r) && NonNegative(items)
    ensures |r| == Min(limit, |items|)
  {
    if |r| < Min(limit, |items|) {
      forall i | 0 <= i < |items|
        ensures i in r
      {
        if i !in r {
          UnpickedAtEarlyExit(items, lam, limit, r, i);
        }
      }
      PicksDistinct(items, lam, limit, r);
      DistinctCount(r);
      FullRange(set x | x in r, |items|);
    }
  }

  lemma {:induction false} FullRange(s: set<int>, n: nat)
    requires forall x :: 0 <= x < n ==> x in s
    ensures |s| >= n
  {
    if n > 0 {
      FullRange(s - {n - 1}, n - 1);
    }
  }

  // ---------- diversity ----------

  /** A repeat of a type beats an available new type only with a lead of (1-lambda)/lambda in normalised relevance. */
  lemma {:induction false} RepeatNeedsLead(items: seq<Item>, lam: real, limit: nat, r: seq<int>, k: nat, j: nat)
    requires 0.0 < lam <= 1.0 && GreedyRun(items, lam, limit, r) && k < |r| && j < |items|
    requires TypeSeen(items, r[..k], r[k])
    ensures TypeSeen(items, r[..k], j)
         || Relevance(items, r[k]) - Relevance(items, j) >= (1.0 - lam) / lam
  {
    var picked := r[..k];
    assert Wins(items, lam, picked, r[k]);
    if !TypeSeen(items, picked, j) {
      assert forall c :: 0 <= c < |picked| ==> items[picked[c]].recallType != items[j].recallType;
      assert j !in picked;
      LeadFromGain(lam, Relevance(items, r[k]), Relevance(items, j));
    }
  }

  lemma {:induction false} LeadFromGain(lam: real, x: real, y: real)
    requires 0.0 < lam && lam * x - (1.0 - lam) >= lam * y
    ensures x - y >= (1.0 - lam) / lam
  {
    var q := (1.0 - lam) / lam;
    assert q * lam == 1.0 - lam;
    assert lam * (x - y - q) >= 0.0;
    ScaleSign(lam, -(x - y - q));
  }

  /** No type is repeated while another type present in the list is still missing. */
  ghost predicate Diverse(items: seq<Item>, r: seq<int>) {
    && InRange(items, r)
    && forall k, j {:trigger TypeSeen(items, r[..k], j)} ::
         0 <= k < |r| && 0 <= j < |items| && TypeSeen(items, r[..k], r[k]) ==> TypeSeen(items, r[..k], j)
  }

  lemma {:induction false} DiverseBelowHalf(items: seq<Item>, lam: real, limit: nat, r: seq<int>)
    requires 0.0 < lam < 0.5 && GreedyRun(items, lam, limit, r) && NonNegative(items)
    ensures Diverse(items, r)
  {
    forall k, j {:trigger TypeSeen(items, r[..k], j)} | 0 <= k < |r| && 0 <= j < |items| && TypeSeen(items, r[..k], r[k])
      ensures TypeSeen(items, r[..k], j)
    {
      RepeatNeedsLead(items, lam, limit, r, k, j);
      UnitRelevance(items, r[k]);
      UnitRelevance(items, j);
      LeadAboveOne(lam);
    }
  }

  lemma {:induction false} LeadAboveOne(lam: real)
    requires 0.0 < lam < 0.5
    ensures (1.0 - lam) / lam > 1.0
  {
    var q := (1.0 - lam) / lam;
    assert q * lam == 1.0 - lam;
    ScaleSign(lam, q - 1.0);
  }

  lemma {:induction false} UnitRelevance(items: seq<Item>, i: nat)
    requires i < |items| && NonNegative(items)
    ensures 0.0 <= Relevance(items, i) <= 1.0
  {
    UnitRatio(items[i].score, Norm(items), Relevance(items, i));
  }

  lemma {:induction false} UnitRatio(s: real, norm: real, rel: real)
    requires 0.0 <= s <= norm && norm > 0.0 && rel == s / norm
    ensures 0.0 <= rel <= 1.0
  {
    assert rel * norm == s;
    ScaleSign(norm, -rel);
    ScaleSign(norm, rel - 1.0);
    assert norm * (rel - 1.0) == s - norm;
    assert norm * (-rel) == -s;
  }

  /** From lambda 1/2 on, which is the default, the promise fails: two top items of one type precede a zero item of another. */
  lemma {:induction false} NotDiverseFromHalf(lam: real) returns (items: seq<Item>)
    requires 0.5 <= lam <= 1.0
    ensures NonNegative(items)
    ensures forall r: seq<int> :: GreedyRun(items, lam, |items|, r) ==> !Diverse(items, r)
  {
    items := [Item(1, "A", 1.0, map[], true), Item(2, "A", 1.0, map[], true), Item(3, "B", 0.0, map[], true)];
    assert TopScore(items, 1) == 1.0 && TopScore(items, 2) == 1.0 && TopScore(items, 3) == 1.0;
    forall r | GreedyRun(items, lam, |items|, r)
      ensures !Diverse(items, r)
    {
      SecondPickRepeats(items, lam, r);
    }
  }

  lemma {:induction false} SecondPickRepeats(items: seq<Item>, lam: real, r: seq<int>)
    requires 0.5 <= lam <= 1.0 && |items| == 3 && GreedyRun(items, lam, 3, r) && NonNegative(items)
    requires items[0].recallType == items[1].recallType != items[2].recallType
    requires items[0].score == items[1].score == Norm(items) == 1.0 && items[2].score == 0.0
    ensures !Diverse(items, r)
  {
    NonNegativeLength(items, lam, 3, r);
    assert Relevance(items, 0) == Relevance(items, 1) == 1.0 && Relevance(items, 2) == 0.0;
    assert r[..0] == [] && Wins(items, lam, r[..0], r[0]);
    assert !TypeSeen(items, [], 0) && Gain(items, lam, [], 0) == Gain(items, lam, [], 1) == lam && Gain(items, lam, [], 2) == 0.0;
    assert r[0] == 0 && r[..1] == [0];
    var one := [0];
    assert items[one[0]].recallType == items[1].recallType;
    assert TypeSeen(items, one, 1) && !TypeSeen(items, one, 2);
    assert Gain(items, lam, one, 1) == 2.0 * lam - 1.0 && Gain(items, lam, one, 2) == 0.0;
    assert Wins(items, lam, r[..1], r[1]);
    assert r[1] == 1;
  }

  /** The promise holds of all non-negative inputs exactly for lambda below 1/2. */
  lemma {:induction false} DiverseExactlyBelowHalf(lam: real)
    requires 0.0 < lam <= 1.0
    ensures lam < 0.5 <==>
            forall items: seq<Item>, limit: nat, r: seq<int> ::
              NonNegative(items) && GreedyRun(items, lam, limit, r) ==> Diverse(items, r)
  {
    if lam < 0.5 {
      forall items: seq<Item>, limit: nat, r: seq<int> | NonNegative(items) && GreedyRun(items, lam, limit, r)
        ensures Diverse(items, r)
      {
        DiverseBelowHalf(items, lam, limit, r);
      }
    } else {
      var items := NotDiverseFromHalf(lam);
      RoundsAreGreedy(items, lam, |items|, []);
      var r := Rounds(items, lam, |items|, []);
      assert GreedyRun(items, lam, |items|, r) && !Diverse(items, r);
    }
  }

  // ---------- the rule in plain terms ----------

  /** If some score is positive, the divisor is the largest score; otherwise it is 1. */
  lemma {:induction false} NormMeans(items: seq<Item>)
    ensures (exists i :: 0 <= i < |items| && items[i].score > 0.0) ==>
              && (forall i :: 0 <= i < |items| ==> items[i].score <= Norm(items))
              && (exists i :: 0 <= i < |items| && items[i].score == Norm(items))
    ensures (forall i :: 0 <= i < |items| ==> items[i].score <= 0.0) ==> Norm(items) == 1.0
  {
    TopScoreReached(items, |items|);
  }

  lemma {:induction false} TopScoreReached(items: seq<Item>, n: nat)
    requires n <= |items|
    ensures TopScore(items, n) > 0.0 ==> exists i :: 0 <= i < n && items[i].score == TopScore(items, n)
    ensures (forall i :: 0 <= i < n ==> items[i].score <= 0.0) ==> TopScore(items, n) == 0.0
  {
    if n > 0 {
      TopScoreReached(items, n - 1);
    }
  }

  /** The trade-off of position `i`, times the largest score `top`: no division. */
  ghost function Margin(items: seq<Item>, lam: real, top: real, picked: seq<int>, i: int): real
    requires InRange(items, picked) && 0 <= i < |items|
  {
    lam * items[i].score - if exists k :: 0 <= k < |picked| && items[picked[k]].recallType == items[i].recallType then (1.0 - lam) * top else 0.0
  }

  lemma {:induction false} MarginIsGain(items: seq<Item>, lam: real, picked: seq<int>, i: int)
    requires InRange(items, picked) && 0 <= i < |items|
    ensures Margin(items, lam, Norm(items), picked, i) == Gain(items, lam, picked, i) * Norm(items)
  {
    var norm, rel := Norm(items), Relevance(items, i);
    assert rel * norm == items[i].score;
    ScaledTradeOff(lam, rel, items[i].score, if TypeSeen(items, picked, i) then 1.0 - lam else 0.0, norm);
  }

  lemma {:induction false} ScaledTradeOff(lam: real, rel: real, s: real, penalty: real, norm: real)
    requires rel * norm == s
    ensures (lam * rel - penalty) * norm == lam * s - penalty * norm
  {
    assert (lam * rel) * norm == lam * (rel * norm);
    assert (lam * rel - penalty) * norm == (lam * rel) * norm - penalty * norm;
  }

  lemma {:induction false} ScaledOrder(x: real, y: real, norm: real)
    requires norm > 0.0
    ensures x * norm <= y * norm <==> x <= y
    ensures x * norm == y * norm <==> x == y
    ensures x * norm > -norm <==> x > -1.0
  {
    ScaleSign(norm, x - y);
    ScaleSign(norm, y - x);
    ScaleSign(norm, x + 1.0);
    assert norm * (x - y) == x * norm - y * norm;
    assert norm * (y - x) == y * norm - x * norm;
    assert norm * (x + 1.0) == x * norm + norm;
  }

  /** A round: `b` is unused, above the bar, and no unused rival has a larger trade-off, or the same and stands earlier. */
  ghost predicate BestOfRound(items: seq<Item>, lam: real, top: real, picked: seq<int>, b: int)
    requires InRange(items, picked)
  {
    && 0 <= b < |items| && b !in picked && Margin(items, lam, top, picked, b) > -top
    && forall j :: 0 <= j < |items| && j !in picked ==>
         Margin(items, lam, top, picked, j) <= Margin(items, lam, top, picked, b)
         && (Margin(items, lam, top, picked, j) == Margin(items, lam, top, picked, b) ==> b <= j)
  }

  lemma {:induction false} AboveBar(m: real, g: real, norm: real)
    requires m == g * norm && norm > 0.0
    ensures m > -norm <==> g > -1.0
  {
    ScaledOrder(g, g, norm);
  }

  lemma {:induction false} SameOrder(m: real, g: real, m': real, g': real, norm: real)
    requires m == g * norm && m' == g' * norm && norm > 0.0
    ensures m <= m' <==> g <= g'
    ensures m == m' <==> g == g'
  {
    ScaledOrder(g, g', norm);
  }

  lemma {:induction false} WinsIsBest(items: seq<Item>, lam: real, picked: seq<int>, b: int)
    requires InRange(items, picked) && Wins(items, lam, picked, b)
    ensures BestOfRound(items, lam, Norm(items), picked, b)
  {
    var norm := Norm(items);
    MarginIsGain(items, lam, picked, b);
    AboveBar(Margin(items, lam, norm, picked, b), Gain(items, lam, picked, b), norm);
    forall j | 0 <= j < |items| && j !in picked
      ensures Margin(items, lam, norm, picked, j) <= Margin(items, lam, norm, picked, b)
      ensures Margin(items, lam, norm, picked, j) == Margin(items, lam, norm, picked, b) ==> b <= j
    {
      MarginIsGain(items, lam, picked, j);
      SameOrder(Margin(items, lam, norm, picked, j), Gain(items, lam, picked, j), Margin(items, lam, norm, picked, b), Gain(items, lam, picked, b), norm);
    }
  }

  lemma {:induction false} RoundsAreBest(items: seq<Item>, lam: real, limit: nat, r: seq<int>)
    requires GreedyRun(items, lam, limit, r)
    ensures forall k {:trigger r[..k]} :: 0 <= k < |r| ==> BestOfRound(items, lam, Norm(items), r[..k], r[k])
    ensures |r| < Min(limit, |items|) ==> forall j :: 0 <= j < |items| && j !in r ==> Margin(items, lam, Norm(items), r, j) <= -Norm(items)
  {
    forall k {:trigger r[..k]} | 0 <= k < |r|
      ensures BestOfRound(items, lam, Norm(items), r[..k], r[k])
    {
      assert Wins(items, lam, r[..k], r[k]);
      WinsIsBest(items, lam, r[..k], r[k]);
    }
    if |r| < Min(limit, |items|) {
      forall j | 0 <= j < |items| && j !in r
        ensures Margin(items, lam, Norm(items), r, j) <= -Norm(items)
      {
        MarginIsGain(items, lam, r, j);
        AboveBar(Margin(items, lam, Norm(items), r, j), Gain(items, lam, r, j), Norm(items));
      }
    }
  }

  /**
   * The whole re-arrangement by raw scores: with `top` the largest score (1 if none is positive) and the configured
   * constant (1/2 if it is not in (0, 1]), every pick is the best of its round, and the picks stop at the configured
   * size, at the end of the list, or when nothing is left above the bar.
   */
  lemma {:induction false} RearrangedMeans(items: seq<Item>, configured: real, dimension: int) returns (top: real, r: seq<int>)
    requires |items| >= 2
    ensures (exists i :: 0 <= i < |items| && items[i].score > 0.0) ==>
              (forall i :: 0 <= i < |items| ==> items[i].score <= top) && (exists i :: 0 <= i < |items| && items[i].score == top)
    ensures (forall i :: 0 <= i < |items| ==> items[i].score <= 0.0) ==> top == 1.0
    ensures InRange(items, r) && Rearranged(items, configured, dimension) == Select(items, r)
    ensures var lam := if 0.0 < configured <= 1.0 then configured else 0.5;
            var limit := if 0 < dimension < |items| then dimension else |items|;
            && |r| <= limit
            && (forall k {:trigger r[..k]} :: 0 <= k < |r| ==> BestOfRound(items, lam, top, r[..k], r[k]))
            && (|r| < limit ==> forall j :: 0 <= j < |items| && j !in r ==> Margin(items, lam, top, r, j) <= -top)
  {
    top, r := Norm(items), Picks(items, configured, dimension);
    NormMeans(items);
    PicksAreGreedy(items, configured, dimension);
    RoundsAreBest(items, Lambda(configured), MaxOut(dimension, |items|), r);
  }

  /** Strictly increasing and keeping zero, like a multiplication by a positive factor. */
  ghost predicate Stretches(f: real -> real) {
    f(0.0) == 0.0 && forall x, y {:trigger f(x), f(y)} :: x < y ==> f(x) < f(y)
  }

  lemma {:induction false} StretchOrder(f: real -> real, x: real, y: real)
    requires Stretches(f)
    ensures x <= y ==> f(x) <= f(y)
  {
    assert f(x) < f(y) || x >= y;
  }

  lemma {:induction false} NormStretches(items: seq<Item>, scaled: seq<Item>, f: real -> real)
    requires Stretches(f) && |scaled| == |items| && forall j :: 0 <= j < |items| ==> scaled[j].score == f(items[j].score)
    requires exists j :: 0 <= j < |items| && items[j].score > 0.0
    ensures Norm(scaled) == f(Norm(items)) && Norm(items) > 0.0
  {
    NormMeans(items);
    NormMeans(scaled);
    var p :| 0 <= p < |items| && items[p].score > 0.0;
    assert f(items[p].score) > f(0.0);
    var i :| 0 <= i < |items| && items[i].score == Norm(items);
    var j :| 0 <= j < |scaled| && scaled[j].score == Norm(scaled);
    StretchOrder(f, items[j].score, items[i].score);
  }

  lemma {:induction false} SameRelevance(items: seq<Item>, scaled: seq<Item>, c: real, i: nat)
    requires c > 0.0 && i < |items| && i < |scaled| && Norm(items) > 0.0
    requires Norm(scaled) == c * Norm(items) && scaled[i].score == c * items[i].score
    ensures Relevance(scaled, i) == Relevance(items, i)
  {
    SameRatio(items[i].score, Norm(items), c, scaled[i].score, Norm(scaled));
  }

  function Scaling(c: real): real -> real {
    (x: real) => c * x
  }

  lemma {:induction false} ScalingStretches(c: real)
    requires c > 0.0
    ensures Stretches(Scaling(c))
  {
    forall x, y {:trigger Scaling(c)(x), Scaling(c)(y)} | x < y
      ensures Scaling(c)(x) < Scaling(c)(y)
    {
      MaxScales(c, y, x, c * y, c * x);
    }
  }

  lemma {:induction false} SameRatio(s: real, top: real, c: real, s': real, top': real)
    requires top > 0.0 && c > 0.0 && s' == c * s && top' == c * top && top' > 0.0
    ensures s' / top' == s / top
  {
    var q := s / top;
    assert q * top == s;
    assert q * top' == c * (q * top);
    OnlyRatio(s', top', q);
  }

  lemma {:induction false} OnlyRatio(s: real, top: real, q: real)
    requires top > 0.0 && q * top == s
    ensures s / top == q
  {
    var p := s / top;
    assert p * top == s;
    ScaledOrder(p, q, top);
  }

  lemma {:induction false} MaxScales(c: real, s: real, t: real, s': real, t': real)
    requires c > 0.0 && s' == c * s && t' == c * t
    ensures s' > t' <==> s > t
  {
    ScaleSign(c, s - t);
    assert c * (s - t) == s' - t';
  }

  lemma {:induction false} RelevanceStretches(items: seq<Item>, scaled: seq<Item>, c: real, f: real -> real, i: nat)
    requires c > 0.0 && Stretches(f) && |scaled| == |items| && (exists j :: 0 <= j < |items| && items[j].score > 0.0) && i < |items|
    requires forall j :: 0 <= j < |items| ==> scaled[j].score == f(items[j].score)
    requires f(items[i].score) == c * items[i].score && f(Norm(items)) == c * Norm(items)
    ensures Relevance(scaled, i) == Relevance(items, i)
  {
    NormStretches(items, scaled, f);
    SameRelevance(items, scaled, c, i);
  }

  /** Only the proportions of the scores matter: multiplying them all by the same positive factor changes no pick. */
  lemma {:induction false} PicksScale(items: seq<Item>, scaled: seq<Item>, c: real, configured: real, dimension: int)
    requires c > 0.0 && |scaled| == |items| && (exists j :: 0 <= j < |items| && items[j].score > 0.0)
    requires forall j :: 0 <= j < |items| ==> scaled[j].score == Scaling(c)(items[j].score)
    requires forall j :: 0 <= j < |items| ==> scaled[j].recallType == items[j].recallType
    ensures Picks(scaled, configured, dimension) == Picks(items, configured, dimension)
  {
    ScalingStretches(c);
    forall i | 0 <= i < |items|
      ensures Relevance(scaled, i) == Relevance(items, i)
    {
      RelevanceStretches(items, scaled, c, Scaling(c), i);
    }
    SameRounds(items, scaled, Lambda(configured), MaxOut(dimension, |items|), []);
  }

  lemma {:induction false} SameBest(items: seq<Item>, scaled: seq<Item>, lam: real, picked: seq<int>, n: nat)
    requires n <= |items| == |scaled| && InRange(items, picked)
    requires forall j :: 0 <= j < |items| ==> Relevance(scaled, j) == Relevance(items, j) && scaled[j].recallType == items[j].recallType
    ensures Best(scaled, lam, picked, n) == Best(items, lam, picked, n)
  {
    if n > 0 {
      SameBest(items, scaled, lam, picked, n - 1);
      SameGain(items, scaled, lam, picked, n - 1);
      if Best(items, lam, picked, n - 1) >= 0 {
        SameGain(items, scaled, lam, picked, Best(items, lam, picked, n - 1));
      }
    }
  }

  lemma {:induction false} SameGain(items: seq<Item>, scaled: seq<Item>, lam: real, picked: seq<int>, i: nat)
    requires i < |items| == |scaled| && InRange(items, picked) && InRange(scaled, picked)
    requires Relevance(scaled, i) == Relevance(items, i)
    requires forall j :: 0 <= j < |items| ==> scaled[j].recallType == items[j].recallType
    ensures Gain(scaled, lam, picked, i) == Gain(items, lam, picked, i)
  {
    assert TypeSeen(scaled, picked, i) <==> TypeSeen(items, picked, i);
  }

  lemma {:induction false} SameRounds(items: seq<Item>, scaled: seq<Item>, lam: real, limit: nat, picked: seq<int>)
    requires |items| == |scaled| && InRange(items, picked) && InRange(scaled, picked)
    requires forall j :: 0 <= j < |items| ==> Relevance(scaled, j) == Relevance(items, j) && scaled[j].recallType == items[j].recallType
    ensures Rounds(scaled, lam, limit, picked) == Rounds(items, lam, limit, picked)
    decreases |items| - |picked|
  {
    if |picked| < limit && |picked| < |items| {
      SameBest(items, scaled, lam, picked, |items|);
      var b := Best(items, lam, picked, |items|);
      if b >= 0 {
        SameRounds(items, scaled, lam, limit, picked + [b]);
      }
    }
  }

  // ---------- the loop ----------

  method Rearrange(items: seq<Item>, configured: real, dimension: int) returns (out: seq<Item>)
    ensures out == Rearranged(items, configured, dimension)
  {
    if |items| < 2 {
      return items;
    }
    var lam := configured;
    if lam <= 0.0 || lam > 1.0 {
      lam := 0.5;
    }
    var maxOut := dimension;
    if maxOut <= 0 {
      maxOut := |items|;
    }
    var picked := PickRounds(items, lam, maxOut);
    out := [];
    for k := 0 to |picked|
      invariant |out| == k && forall c :: 0 <= c < k ==> out[c] == items[picked[c]]
    {
      out := out + [items[picked[k]]];
    }
  }

  /** The rounds: `used` and `picked` grow until the limit, the end of the list, or a round without a winner. */
  method PickRounds(items: seq<Item>, lam: real, maxOut: nat) returns (picked: seq<int>)
    ensures InRange(items, picked) && picked == Rounds(items, lam, maxOut, [])
  {
    var rel := AllRelevances(items);
    var used := new bool[|items|](_ => false);
    picked := [];
    while |picked| < maxOut && |picked| < |items|
      invariant InRange(items, picked)
      invariant forall i :: 0 <= i < |items| ==> rel[i] == Relevance(items, i)
      invariant forall i :: 0 <= i < |items| ==> (used[i] <==> i in picked)
      invariant Rounds(items, lam, maxOut, picked) == Rounds(items, lam, maxOut, [])
      decreases |items| - |picked|
    {
      var bestI := Scan(items, lam, rel, used, picked);
      if bestI < 0 {
        break;
      }
      used[bestI] := true;
      picked := picked + [bestI];
    }
  }

  /** One round: the scan for `bestI` and `bestScore`. */
  method Scan(items: seq<Item>, lam: real, rel: array<real>, used: array<bool>, picked: seq<int>) returns (bestI: int)
    requires InRange(items, picked) && rel.Length == used.Length == |items|
    requires forall i :: 0 <= i < |items| ==> rel[i] == Relevance(items, i)
    requires forall i :: 0 <= i < |items| ==> (used[i] <==> i in picked)
    ensures bestI == Best(items, lam, picked, |items|)
  {
    var bestScore := -1.0;
    bestI := -1;
    for i := 0 to |items|
      invariant bestI == Best(items, lam, picked, i)
      invariant bestScore == if bestI < 0 then -1.0 else Gain(items, lam, picked, bestI)
    {
      if used[i] {
        continue;
      }
      var mm := TradeOff(items, lam, rel, picked, i);
      if mm > bestScore {
        bestScore := mm;
        bestI := i;
      }
    }
  }

  /** The score `mm`: weighted relevance less the penalty for a type some picked item already has. */
  method TradeOff(items: seq<Item>, lam: real, rel: array<real>, picked: seq<int>, i: int) returns (mm: real)
    requires InRange(items, picked) && 0 <= i < |items| == rel.Length && rel[i] == Relevance(items, i)
    ensures mm == Gain(items, lam, picked, i)
  {
    var div := 0.0;
    for k := 0 to |picked|
      invariant div == 0.0
      invariant forall c :: 0 <= c < k ==> items[picked[c]].recallType != items[i].recallType
    {
      if items[i].recallType == items[picked[k]].recallType {
        div := 1.0;
        break;
      }
    }
    mm := lam * rel[i] - (1.0 - lam) * div;
  }

  /** Scores divided by the largest one, or by 1 when none is positive. */
  method AllRelevances(items: seq<Item>) returns (rel: array<real>)
    ensures fresh(rel) && rel.Length == |items|
    ensures forall i :: 0 <= i < |items| ==> rel[i] == Relevance(items, i)
  {
    rel := new real[|items|];
    var maxS := 0.0;
    for i := 0 to |items|
      invariant maxS == TopScore(items, i)
    {
      if items[i].score > maxS {
        maxS := items[i].score;
      }
    }
    if maxS <= 0.0 {
      maxS := 1.0;
    }
    for i := 0 to |items|
      invariant forall c :: 0 <= c < i ==> rel[c] == Relevance(items, c)
    {
      rel[i] := items[i].score / maxS;
    }
  }
}
