/**
 * Splitting a recall budget over the tags a user is interested in (pkg/featurestore/recall_tag.go), and the CrossTag
 * lane built on it (services/recommend/internal/recall/crosstag.go). Weights are exact reals.
 */
module TagQuota {
  import opened Items
  import opened Sorting
  import opened FunnelMerge

  datatype TagWeight = TagWeight(tag: int, weight: real)

  datatype Rule = Rule(recallType: string, recallNum: int, sampleFold: int, useTopKIndex: int)

  const EPSILON := 0.000001
  const MAX_PER_TAG := 50

  // ---------- quotas ----------

  function Weight(): TagWeight -> real {
    (tw: TagWeight) => tw.weight
  }

  function WeightSum(tags: seq<TagWeight>, n: nat): real
    requires n <= |tags|
  {
    if n == 0 then 0.0 else WeightSum(tags, n - 1) + tags[n - 1].weight
  }

  /** Conversion to an integer drops the fraction, towards zero. */
  function Truncated(x: real): int {
    if x >= 0.0 then x.Floor else -((-x).Floor)
  }

  function Share(tags: seq<TagWeight>, unit: real, i: nat): real
    requires i < |tags|
  {
    tags[i].weight * unit
  }

  function Rounded(tags: seq<TagWeight>, unit: real, i: nat): int
    requires i < |tags|
  {
    Truncated(Share(tags, unit, i) + 0.5)
  }

  /** The quota of tag `i`: its rounded share, at most 50, at most what is left. */
  function Quota(tags: seq<TagWeight>, unit: real, recallNum: int, i: nat): int
    requires i < |tags|
    decreases i, 1
  {
    Min(Min(Rounded(tags, unit, i), MAX_PER_TAG), Left(tags, unit, recallNum, i))
  }

  /** What is left of the budget after the first `n` tags. */
  function Left(tags: seq<TagWeight>, unit: real, recallNum: int, n: nat): int
    requires n <= |tags|
    decreases n, 0
  {
    if n == 0 then recallNum else Left(tags, unit, recallNum, n - 1) - Quota(tags, unit, recallNum, n - 1)
  }

  function Unit(tags: seq<TagWeight>, recallNum: int): real {
    if WeightSum(tags, |tags|) == 0.0 then 0.0 else recallNum as real / WeightSum(tags, |tags|)
  }

  function Quotas(tags: seq<TagWeight>, recallNum: int): seq<int> {
    if recallNum <= 0 || tags == [] || WeightSum(tags, |tags|) < EPSILON then []
    else seq(|tags|, i requires 0 <= i < |tags| => Quota(tags, Unit(tags, recallNum), recallNum, i))
  }

  ghost predicate NonNegative(tags: seq<TagWeight>) {
    forall i :: 0 <= i < |tags| ==> tags[i].weight >= 0.0
  }

  /** What the filter lets through. */
  predicate Admissible(tw: TagWeight) {
    tw.tag >= 0 && tw.weight > EPSILON
  }

  function Sum(counts: seq<int>, n: nat): int
    requires n <= |counts|
  {
    if n == 0 then 0 else Sum(counts, n - 1) + counts[n - 1]
  }

  // ---------- the bounds ----------

  lemma {:induction false} RoundedBounds(x: real)
    requires x >= 0.0
    ensures Truncated(x + 0.5) >= 0
    ensures x - 0.5 < Truncated(x + 0.5) as real <= x + 0.5
  {
  }

  lemma {:induction false} RoundedMonotone(x: real, y: real)
    requires 0.0 <= x <= y
    ensures Truncated(x + 0.5) <= Truncated(y + 0.5)
  {
  }

  lemma {:induction false} ProductPositive(w: real, unit: real)
    requires w >= 0.0 && unit >= 0.0
    ensures w * unit >= 0.0
  {
  }

  lemma {:induction false} ProductMonotone(v: real, w: real, unit: real)
    requires v <= w && unit >= 0.0
    ensures v * unit <= w * unit
  {
    ProductPositive(w - v, unit);
    assert (w - v) * unit == w * unit - v * unit;
  }

  lemma {:induction false} QuotaBounds(tags: seq<TagWeight>, unit: real, recallNum: int, n: nat)
    requires NonNegative(tags) && unit >= 0.0 && recallNum >= 0 && n <= |tags|
    ensures 0 <= Left(tags, unit, recallNum, n) <= recallNum
    ensures n < |tags| ==> 0 <= Quota(tags, unit, recallNum, n) <= MAX_PER_TAG
  {
    if n > 0 {
      QuotaBounds(tags, unit, recallNum, n - 1);
    }
    if n < |tags| {
      ProductPositive(tags[n].weight, unit);
      RoundedBounds(Share(tags, unit, n));
    }
  }

  ghost function ShareSum(tags: seq<TagWeight>, unit: real, n: nat): real
    requires n <= |tags|
  {
    if n == 0 then 0.0 else ShareSum(tags, unit, n - 1) + Share(tags, unit, n - 1)
  }

  lemma {:induction false} Distributes(a: real, b: real, unit: real)
    ensures (a + b) * unit == a * unit + b * unit
  {
  }

  lemma {:induction false} SharesAddUp(tags: seq<TagWeight>, unit: real, n: nat)
    requires n <= |tags|
    ensures ShareSum(tags, unit, n) == WeightSum(tags, n) * unit
  {
    if n > 0 {
      SharesAddUp(tags, unit, n - 1);
      Distributes(WeightSum(tags, n - 1), tags[n - 1].weight, unit);
    }
  }

  lemma {:induction false} TimesQuotient(a: real, b: real)
    requires b != 0.0
    ensures b * (a / b) == a
  {
  }

  lemma {:induction false} QuotientPositive(a: real, b: real)
    requires a >= 0.0 && b > 0.0
    ensures a / b >= 0.0
  {
  }

  lemma {:induction false} UnitSplitsBudget(tags: seq<TagWeight>, recallNum: int)
    requires recallNum > 0 && WeightSum(tags, |tags|) >= EPSILON
    ensures Unit(tags, recallNum) >= 0.0
    ensures ShareSum(tags, Unit(tags, recallNum), |tags|) == recallNum as real
  {
    var w, r := WeightSum(tags, |tags|), recallNum as real;
    QuotientPositive(r, w);
    TimesQuotient(r, w);
    SharesAddUp(tags, Unit(tags, recallNum), |tags|);
  }

  /** What the cap of 50 cuts off the shares of the first `n` tags. */
  ghost function Excess(tags: seq<TagWeight>, unit: real, n: nat): real
    requires n <= |tags|
  {
    if n == 0 then 0.0
    else Excess(tags, unit, n - 1) +
         if Rounded(tags, unit, n - 1) > MAX_PER_TAG then Share(tags, unit, n - 1) - MAX_PER_TAG as real else 0.0
  }

  /** Either the budget is spent, or every tag so far got more than its capped share less one half. */
  lemma {:induction false} SpentOrServed(tags: seq<TagWeight>, unit: real, recallNum: int, n: nat)
    requires NonNegative(tags) && unit >= 0.0 && recallNum >= 0 && n <= |tags|
    ensures || Left(tags, unit, recallNum, n) == 0
            || n == 0
            || (recallNum - Left(tags, unit, recallNum, n)) as real > ShareSum(tags, unit, n) - Excess(tags, unit, n) - n as real * 0.5
  {
    if n > 0 {
      SpentOrServed(tags, unit, recallNum, n - 1);
      QuotaBounds(tags, unit, recallNum, n - 1);
      ProductPositive(tags[n - 1].weight, unit);
      RoundedBounds(Share(tags, unit, n - 1));
      HalfMore(n - 1);
    }
  }

  lemma {:induction false} HalfMore(n: nat)
    ensures (n + 1) as real * 0.5 == n as real * 0.5 + 0.5
  {
  }

  lemma {:induction false} QuotasSum(tags: seq<TagWeight>, recallNum: int, n: nat)
    requires n <= |Quotas(tags, recallNum)|
    ensures Sum(Quotas(tags, recallNum), n) ==
            if Quotas(tags, recallNum) == [] then 0 else recallNum - Left(tags, Unit(tags, recallNum), recallNum, n)
  {
    if n > 0 {
      QuotasSum(tags, recallNum, n - 1);
    }
  }

  /** Of admissible tags, only a missing budget or an empty list leaves nothing to allocate. */
  lemma {:induction false} QuotasExist(tags: seq<TagWeight>, recallNum: int)
    requires forall i :: 0 <= i < |tags| ==> Admissible(tags[i])
    ensures Quotas(tags, recallNum) != [] <==> recallNum > 0 && tags != []
  {
    WeightSumGrows(tags, |tags|);
  }

  lemma {:induction false} WeightSumGrows(tags: seq<TagWeight>, n: nat)
    requires (forall i :: 0 <= i < |tags| ==> Admissible(tags[i])) && n <= |tags|
    ensures WeightSum(tags, n) >= 0.0 && (n > 0 ==> WeightSum(tags, n) >= EPSILON)
  {
    if n > 0 {
      WeightSumGrows(tags, n - 1);
    }
  }

  /**
   * The quota bound, whenever no weight is negative: if anything is allocated every tag gets between 0 and 50,
   * together at most the budget, and less than half an item per tag goes unspent beyond what the cap of 50 cut off.
   */
  lemma {:induction false} QuotaBound(tags: seq<TagWeight>, recallNum: int)
    requires NonNegative(tags)
    ensures var q := Quotas(tags, recallNum);
            q == [] ||
            (&& |q| == |tags|
             && (forall i :: 0 <= i < |q| ==> 0 <= q[i] <= MAX_PER_TAG)
             && 0 <= Sum(q, |q|) <= recallNum
             && (recallNum - Sum(q, |q|)) as real < |tags| as real * 0.5 + Excess(tags, Unit(tags, recallNum), |tags|))
  {
    if Quotas(tags, recallNum) != [] {
      UnitSplitsBudget(tags, recallNum);
      var unit := Unit(tags, recallNum);
      QuotasSum(tags, recallNum, |tags|);
      forall i | 0 <= i < |tags|
        ensures 0 <= Quota(tags, unit, recallNum, i) <= MAX_PER_TAG
      {
        QuotaBounds(tags, unit, recallNum, i);
      }
      QuotaBounds(tags, unit, recallNum, |tags|);
      SpentOrServed(tags, unit, recallNum, |tags|);
      ExcessPositive(tags, unit, |tags|);
    }
  }

  lemma {:induction false} ExcessPositive(tags: seq<TagWeight>, unit: real, n: nat)
    requires NonNegative(tags) && unit >= 0.0 && n <= |tags|
    ensures Excess(tags, unit, n) >= 0.0
  {
    if n > 0 {
      ExcessPositive(tags, unit, n - 1);
      ProductPositive(tags[n - 1].weight, unit);
      RoundedBounds(Share(tags, unit, n - 1));
    }
  }

  /** A budget that is not spent has cut no tag short, so a tag below 50 was not capped. */
  lemma {:induction false} NoCapNoExcess(tags: seq<TagWeight>, unit: real, recallNum: int, n: nat)
    requires NonNegative(tags) && unit >= 0.0 && recallNum >= 0 && n <= |tags| && Left(tags, unit, recallNum, n) > 0
    requires forall i :: 0 <= i < n ==> Quota(tags, unit, recallNum, i) < MAX_PER_TAG
    ensures Excess(tags, unit, n) == 0.0
  {
    if n > 0 {
      QuotaBounds(tags, unit, recallNum, n - 1);
      NoCapNoExcess(tags, unit, recallNum, n - 1);
    }
  }

  /** If no tag gets 50, the shortfall is less than half the number of tags. */
  lemma {:induction false} ShortfallBound(tags: seq<TagWeight>, recallNum: int)
    requires NonNegative(tags) && Quotas(tags, recallNum) != []
    requires forall i :: 0 <= i < |Quotas(tags, recallNum)| ==> Quotas(tags, recallNum)[i] < MAX_PER_TAG
    ensures var q := Quotas(tags, recallNum); 2 * (recallNum - Sum(q, |q|)) < |tags|
  {
    var q, unit := Quotas(tags, recallNum), Unit(tags, recallNum);
    QuotaBound(tags, recallNum);
    UnitSplitsBudget(tags, recallNum);
    QuotasSum(tags, recallNum, |tags|);
    if Left(tags, unit, recallNum, |tags|) > 0 {
      forall i | 0 <= i < |tags|
        ensures Quota(tags, unit, recallNum, i) < MAX_PER_TAG
      {
        assert q[i] < MAX_PER_TAG;
      }
      NoCapNoExcess(tags, unit, recallNum, |tags|);
    }
  }

  lemma {:induction false} SharesDescend(tags: seq<TagWeight>, unit: real, i: nat)
    requires NonNegative(tags) && Descending(tags, Weight()) && unit >= 0.0 && i + 1 < |tags|
    ensures 0.0 <= Share(tags, unit, i + 1) <= Share(tags, unit, i)
  {
    assert Weight()(tags[i]) >= Weight()(tags[i + 1]);
    ProductMonotone(tags[i + 1].weight, tags[i].weight, unit);
    ProductPositive(tags[i + 1].weight, unit);
  }

  lemma {:induction false} RoundedDescends(tags: seq<TagWeight>, unit: real, i: nat)
    requires i + 1 < |tags| && 0.0 <= Share(tags, unit, i + 1) <= Share(tags, unit, i)
    ensures Rounded(tags, unit, i + 1) <= Rounded(tags, unit, i)
  {
    RoundedMonotone(Share(tags, unit, i + 1), Share(tags, unit, i));
  }

  lemma {:induction false} NextQuotaLess(tags: seq<TagWeight>, unit: real, recallNum: int, i: nat)
    requires NonNegative(tags) && unit >= 0.0 && recallNum >= 0 && i + 1 < |tags|
    requires Rounded(tags, unit, i + 1) <= Rounded(tags, unit, i)
    ensures Quota(tags, unit, recallNum, i) >= Quota(tags, unit, recallNum, i + 1)
  {
    QuotaBounds(tags, unit, recallNum, i);
    QuotaBounds(tags, unit, recallNum, i + 1);
  }

  /** Heavier tags never get less: descending weights give descending quotas. */
  lemma {:induction false} QuotasDescend(tags: seq<TagWeight>, recallNum: int, i: nat, j: nat)
    requires NonNegative(tags) && Descending(tags, Weight()) && i <= j < |Quotas(tags, recallNum)|
    ensures Quotas(tags, recallNum)[i] >= Quotas(tags, recallNum)[j]
  {
    UnitSplitsBudget(tags, recallNum);
    if i < j {
      QuotasDescend(tags, recallNum, i, j - 1);
      SharesDescend(tags, Unit(tags, recallNum), j - 1);
      RoundedDescends(tags, Unit(tags, recallNum), j - 1);
      NextQuotaLess(tags, Unit(tags, recallNum), recallNum, j - 1);
    }
  }

  // ---------- the quota in plain terms ----------

  /** What the filter lets through, and when nothing is allocated. */
  lemma {:induction false} AdmissibleMeans(tw: TagWeight, tags: seq<TagWeight>, recallNum: int)
    ensures Admissible(tw) <==> tw.tag >= 0 && tw.weight > 0.000001
    ensures Quotas(tags, recallNum) == [] <==> recallNum <= 0 || tags == [] || WeightSum(tags, |tags|) < 0.000001
    ensures Quotas(tags, recallNum) != [] ==> |Quotas(tags, recallNum)| == |tags|
  {
  }

  /** What the quotas before tag `i` leave of the budget. */
  lemma {:induction false} LeftMeans(tags: seq<TagWeight>, recallNum: int, i: nat)
    requires i < |Quotas(tags, recallNum)|
    ensures Left(tags, Unit(tags, recallNum), recallNum, i) == recallNum - Sum(Quotas(tags, recallNum), i)
  {
    QuotasSum(tags, recallNum, i);
  }

  predicate NearestTo(x: real, n: int) {
    n as real - 0.5 <= x < n as real + 0.5
  }

  // The sum of the weights is their sum: nothing for no tag, one weight more for one tag more.
  lemma {:induction false} WeightSumMeans(tags: seq<TagWeight>, n: nat)
    requires n < |tags|
    ensures WeightSum(tags, 0) == 0.0
    ensures WeightSum(tags, n + 1) == WeightSum(tags, n) + tags[n].weight
  {
  }

  // The budget per weight, without a division.
  lemma {:induction false} UnitTimesSum(tags: seq<TagWeight>, recallNum: int)
    requires recallNum > 0 && WeightSum(tags, |tags|) >= EPSILON
    ensures WeightSum(tags, |tags|) * Unit(tags, recallNum) == recallNum as real
  {
    UnitSplitsBudget(tags, recallNum);
    SharesAddUp(tags, Unit(tags, recallNum), |tags|);
  }

  /**
   * Each quota: the rounded share (see RoundedShare), unless that is more than 50 or more than what is left; then it is
   * the smaller of the two.
   */
  lemma {:induction false} QuotaOfRounded(tags: seq<TagWeight>, recallNum: int, i: nat, n: int)
    requires i < |Quotas(tags, recallNum)| && n == Rounded(tags, Unit(tags, recallNum), i)
    ensures recallNum > 0 && i < |tags| && WeightSum(tags, |tags|) >= EPSILON
    ensures var left, q := recallNum - Sum(Quotas(tags, recallNum), i), Quotas(tags, recallNum)[i];
            q == if n <= 50 && n <= left then n else if left < 50 then left else 50
  {
    LeftMeans(tags, recallNum, i);
  }

  /**
   * The rounded share is the integer nearest to the weight times the budget per weight (see UnitTimesSum), and the larger
   * one in the middle.
   */
  lemma {:induction false} RoundedShare(tags: seq<TagWeight>, recallNum: int, i: nat)
    requires NonNegative(tags) && i < |tags| && recallNum > 0 && WeightSum(tags, |tags|) >= EPSILON
    ensures NearestTo(tags[i].weight * Unit(tags, recallNum), Rounded(tags, Unit(tags, recallNum), i))
  {
    UnitSplitsBudget(tags, recallNum);
    ProductPositive(tags[i].weight, Unit(tags, recallNum));
    RoundedBounds(Share(tags, Unit(tags, recallNum), i));
  }

  // ---------- the quota loops ----------

  function Kept(tags: seq<TagWeight>, n: nat): seq<TagWeight>
    requires n <= |tags|
  {
    if n == 0 then []
    else Kept(tags, n - 1) + if Admissible(tags[n - 1]) then [tags[n - 1]] else []
  }

  /** What the filter may return: the tags with a positive weight, in some descending order. */
  ghost predicate Interest(list: seq<TagWeight>, tags: seq<TagWeight>) {
    SortOutcome(Kept(list, |list|), tags, Weight())
  }

  lemma {:induction false} KeptAdmissible(tags: seq<TagWeight>, n: nat)
    requires n <= |tags|
    ensures forall tw :: tw in Kept(tags, n) <==> Admissible(tw) && exists i :: 0 <= i < n && tags[i] == tw
  {
    if n > 0 {
      KeptAdmissible(tags, n - 1);
    }
  }

  /** Every outcome is in descending order and holds exactly the admissible tags. */
  lemma {:induction false} InterestOrdered(list: seq<TagWeight>, tags: seq<TagWeight>)
    requires Interest(list, tags)
    ensures Descending(tags, Weight()) && forall i :: 0 <= i < |tags| ==> Admissible(tags[i])
    ensures forall tw :: tw in tags <==> tw in list && Admissible(tw)
  {
    var kept := Kept(list, |list|);
    KeptAdmissible(list, |list|);
    forall tw
      ensures tw in tags <==> tw in kept
    {
      assert tw in multiset(tags) <==> tw in multiset(kept);
    }
    forall i | 0 <= i < |tags|
      ensures Admissible(tags[i])
    {
      assert tags[i] in kept;
    }
  }

  method FilterPositiveTagWeights(list: seq<TagWeight>) returns (out: seq<TagWeight>)
    ensures Interest(list, out)
  {
    out := [];
    for i := 0 to |list|
      invariant out == Kept(list, i)
    {
      if list[i].tag >= 0 && list[i].weight > EPSILON {
        out := out + [list[i]];
      }
    }
    out := SortSlice(out, Weight());
  }

  method AllocateTagRecallCounts(tags: seq<TagWeight>, recallNum: int) returns (tagIds: seq<int>, perTag: seq<int>)
    ensures perTag == Quotas(tags, recallNum)
    ensures |tagIds| == |perTag| && forall i :: 0 <= i < |tagIds| ==> tagIds[i] == tags[i].tag
  {
    if recallNum <= 0 || |tags| == 0 {
      return [], [];
    }
    var sum := 0.0;
    for i := 0 to |tags|
      invariant sum == WeightSum(tags, i)
    {
      sum := sum + tags[i].weight;
    }
    if sum < EPSILON {
      return [], [];
    }
    var unit := recallNum as real / sum;
    tagIds, perTag := SplitBudget(tags, unit, recallNum);
  }

  method SplitBudget(tags: seq<TagWeight>, unit: real, recallNum: int) returns (tagIds: seq<int>, perTag: seq<int>)
    ensures |tagIds| == |perTag| == |tags|
    ensures forall k :: 0 <= k < |tags| ==> tagIds[k] == tags[k].tag && perTag[k] == Quota(tags, unit, recallNum, k)
  {
    tagIds, perTag := [], [];
    var remain := recallNum;
    for i := 0 to |tags|
      invariant |tagIds| == |perTag| == i && remain == Left(tags, unit, recallNum, i)
      invariant forall k :: 0 <= k < i ==> tagIds[k] == tags[k].tag && perTag[k] == Quota(tags, unit, recallNum, k)
    {
      tagIds := tagIds + [tags[i].tag];
      var n := Truncated(tags[i].weight * unit + 0.5);
      if n > MAX_PER_TAG {
        n := MAX_PER_TAG;
      }
      if n > remain {
        n := remain;
      }
      perTag := perTag + [n];
      remain := remain - n;
    }
  }

  // ---------- the CrossTag lane ----------

  /** The item list behind tag number `i`; None where it is missing or cannot be fetched. */
  type Inverted = (nat, int) -> Option<seq<int>>

  function Budget(recallNum: int, sampleFold: int): int {
    if recallNum <= 0 then 0 else recallNum * (if sampleFold <= 0 then 1 else sampleFold)
  }

  function SamplePrefix(ids: seq<int>, n: int): (r: seq<int>)
    ensures r <= ids && |r| == if n <= 0 then 0 else Min(n, |ids|)
  {
    if n <= 0 || ids == [] then [] else if |ids| <= n then ids else ids[..n]
  }

  function Sampled(invert: Inverted, i: nat, tag: int, quota: int): seq<int> {
    match invert(i, tag)
    case None => []
    case Some(ids) => SamplePrefix(ids, quota)
  }

  /** The quota prefixes of the first `n` tags, one after the other. */
  function Pooled(tags: seq<TagWeight>, quotas: seq<int>, invert: Inverted, n: nat): seq<int>
    requires n <= |quotas| <= |tags|
  {
    if n == 0 then [] else Pooled(tags, quotas, invert, n - 1) + Sampled(invert, n - 1, tags[n - 1].tag, quotas[n - 1])
  }

  /** Candidates as a lane makes them: nothing known but the id and where it came from. */
  function Bare(ids: seq<int>, recallType: string): (items: seq<Item>)
    ensures |items| == |ids|
  {
    seq(|ids|, i requires 0 <= i < |ids| => Item(ids[i], recallType, 0.0, map[], false))
  }

  function LaneOf(tags: seq<TagWeight>, rule: Rule, invert: Inverted): Option<seq<Item>> {
    var top := Cap(rule.useTopKIndex, tags);
    var quotas := Quotas(top, Budget(rule.recallNum, rule.sampleFold));
    var pooled := Pooled(top, quotas, invert, |quotas|);
    if pooled == [] then None else Some(Cap(rule.recallNum, KeepFirst(Bare(pooled, rule.recallType))))
  }

  /** What the lane may be: that of some outcome of the sort, and none without a known interest. */
  ghost predicate LaneOutcome(interest: Option<seq<TagWeight>>, rule: Rule, invert: Inverted, lane: Option<seq<Item>>) {
    match interest
    case None => lane == None
    case Some(list) => exists tags :: Interest(list, tags) && lane == LaneOf(tags, rule, invert)
  }

  /** The budget of a rule: RecallNum times the sample fold, which counts as 1 when it is not positive. */
  lemma {:induction false} BudgetMeans(recallNum: int, sampleFold: int)
    ensures recallNum <= 0 ==> Budget(recallNum, sampleFold) == 0
    ensures recallNum > 0 && sampleFold > 0 ==> Budget(recallNum, sampleFold) == recallNum * sampleFold
    ensures recallNum > 0 && sampleFold <= 0 ==> Budget(recallNum, sampleFold) == recallNum
  {
  }

  /** What one tag yields: the first ids of its list, as many as its quota; nothing where the list is missing. */
  lemma {:induction false} SampledMeans(invert: Inverted, i: nat, tag: int, quota: int)
    ensures invert(i, tag).None? ==> Sampled(invert, i, tag, quota) == []
    ensures invert(i, tag).Some? ==>
              && Sampled(invert, i, tag, quota) <= invert(i, tag).value
              && |Sampled(invert, i, tag, quota)| == if quota <= 0 then 0 else if quota < |invert(i, tag).value| then quota else |invert(i, tag).value|
  {
  }

  /** The pool holds what the tags yield, tag after tag. */
  lemma {:induction false} PooledMeans(tags: seq<TagWeight>, quotas: seq<int>, invert: Inverted, n: nat)
    requires n < |quotas| <= |tags|
    ensures Pooled(tags, quotas, invert, 0) == []
    ensures Pooled(tags, quotas, invert, n + 1) == Pooled(tags, quotas, invert, n) + Sampled(invert, n, tags[n].tag, quotas[n])
  {
  }

  /** The lane: the ids of the pool of the first useTopKIndex tags, without repeats, as many as RecallNum. */
  lemma {:induction false} LaneMeans(tags: seq<TagWeight>, rule: Rule, invert: Inverted)
    ensures var top := if 0 < rule.useTopKIndex < |tags| then tags[..rule.useTopKIndex] else tags;
            var quotas := Quotas(top, Budget(rule.recallNum, rule.sampleFold));
            var pooled := Pooled(top, quotas, invert, |quotas|);
            && (pooled == [] <==> LaneOf(tags, rule, invert) == None)
            && (pooled != [] ==> Ids(LaneOf(tags, rule, invert).value) <= Ids(KeepFirst(Bare(pooled, rule.recallType))))
  {
    var top := if 0 < rule.useTopKIndex < |tags| then tags[..rule.useTopKIndex] else tags;
    var quotas := Quotas(top, Budget(rule.recallNum, rule.sampleFold));
    var kept := KeepFirst(Bare(Pooled(top, quotas, invert, |quotas|), rule.recallType));
    CapMeans(rule.recallNum, kept);
    assert top == Cap(rule.useTopKIndex, tags);
  }

  /** Without an interest list there is no lane; otherwise it is made of the admissible tags, heaviest first. */
  lemma {:induction false} LaneFromHeaviest(interest: Option<seq<TagWeight>>, rule: Rule, invert: Inverted, lane: Option<seq<Item>>)
    returns (tags: seq<TagWeight>)
    requires LaneOutcome(interest, rule, invert, lane)
    ensures interest.None? ==> lane.None?
    ensures interest.Some? ==>
              && lane == LaneOf(tags, rule, invert)
              && (forall i, j :: 0 <= i < j < |tags| ==> tags[i].weight >= tags[j].weight)
              && (forall tw :: tw in tags <==> tw in interest.value && tw.tag >= 0 && tw.weight > 0.000001)
  {
    tags := [];
    if interest.Some? {
      tags :| Interest(interest.value, tags) && lane == LaneOf(tags, rule, invert);
      InterestOrdered(interest.value, tags);
      forall i, j | 0 <= i < j < |tags|
        ensures tags[i].weight >= tags[j].weight
      {
        assert Weight()(tags[i]) >= Weight()(tags[j]);
      }
    }
  }

  lemma {:induction false} BareMeans(ids: seq<int>, recallType: string)
    ensures Ids(Bare(ids, recallType)) == ids
    ensures forall i :: 0 <= i < |ids| ==> Bare(ids, recallType)[i] == Item(ids[i], recallType, 0.0, map[], false)
  {
  }

  /** Every pooled id lies in the quota prefix of some tag's list. */
  ghost predicate FromQuota(tags: seq<TagWeight>, quotas: seq<int>, invert: Inverted, x: int)
    requires |quotas| <= |tags|
  {
    exists i :: 0 <= i < |quotas| && x in Sampled(invert, i, tags[i].tag, quotas[i])
  }

  lemma {:induction false} PooledFromQuota(tags: seq<TagWeight>, quotas: seq<int>, invert: Inverted, n: nat, x: int)
    requires n <= |quotas| <= |tags|
    ensures x in Pooled(tags, quotas, invert, n) <==> exists i :: 0 <= i < n && x in Sampled(invert, i, tags[i].tag, quotas[i])
  {
    if n > 0 {
      PooledFromQuota(tags, quotas, invert, n - 1, x);
    }
  }

  lemma {:induction false} PooledWithin(tags: seq<TagWeight>, quotas: seq<int>, invert: Inverted, n: nat)
    requires n <= |quotas| <= |tags| && forall i :: 0 <= i < |quotas| ==> quotas[i] >= 0
    ensures |Pooled(tags, quotas, invert, n)| <= Sum(quotas, n)
  {
    if n > 0 {
      PooledWithin(tags, quotas, invert, n - 1);
    }
  }

  /** Deduplicating bare candidates is deduplicating their ids. */
  lemma {:induction false} KeepBare(ids: seq<int>, recallType: string, n: nat)
    requires n <= |ids|
    ensures IdsUpTo(Bare(ids, recallType), n) == IdsUpTo(Bare(ids, ""), n)
    ensures KeepUpTo(Bare(ids, recallType), n) == Bare(Ids(KeepUpTo(Bare(ids, ""), n)), recallType)
  {
    if n > 0 {
      KeepBare(ids, recallType, n - 1);
    }
  }

  /** The deduplicated pool: bare, distinct, and exactly the ids of the quota prefixes. */
  lemma {:induction false} KeptFromQuota(top: seq<TagWeight>, quotas: seq<int>, invert: Inverted, recallType: string)
    requires |quotas| <= |top|
    ensures var kept := KeepFirst(Bare(Pooled(top, quotas, invert, |quotas|), recallType));
            && Distinct(Ids(kept))
            && (forall k :: 0 <= k < |kept| ==> kept[k] == Item(kept[k].id, recallType, 0.0, map[], false))
            && (forall x :: x in Ids(kept) <==> FromQuota(top, quotas, invert, x))
  {
    var ids := Pooled(top, quotas, invert, |quotas|);
    KeepBare(ids, recallType, |ids|);
    KeepFirstIds(Bare(ids, recallType));
    assert Ids(Bare(ids, recallType)) == ids;
    forall x
      ensures x in ids <==> FromQuota(top, quotas, invert, x)
    {
      PooledFromQuota(top, quotas, invert, |quotas|, x);
    }
  }

  /**
   * The lane is distinct, at most RecallNum long, of the rule's type, and each id is in the quota prefix of some tag's
   * list; a lane shorter than RecallNum holds all of them.
   */
  lemma {:induction false} LaneGuarantee(tags: seq<TagWeight>, rule: Rule, invert: Inverted)
    requires LaneOf(tags, rule, invert).Some?
    ensures var top := Cap(rule.useTopKIndex, tags);
            var quotas := Quotas(top, Budget(rule.recallNum, rule.sampleFold));
            var lane := LaneOf(tags, rule, invert).value;
            && 0 < |lane| <= rule.recallNum && Distinct(Ids(lane))
            && |quotas| <= |top|
            && (forall k :: 0 <= k < |lane| ==> lane[k] == Item(lane[k].id, rule.recallType, 0.0, map[], false))
            && (forall k :: 0 <= k < |lane| ==> FromQuota(top, quotas, invert, lane[k].id))
            && (|lane| < rule.recallNum ==> forall x :: FromQuota(top, quotas, invert, x) ==> x in Ids(lane))
  {
    var top := Cap(rule.useTopKIndex, tags);
    var quotas := Quotas(top, Budget(rule.recallNum, rule.sampleFold));
    var pooled := Bare(Pooled(top, quotas, invert, |quotas|), rule.recallType);
    var kept := KeepFirst(pooled);
    KeptFromQuota(top, quotas, invert, rule.recallType);
    CapDistinct(rule.recallNum, kept);
    KeepFirstIds(pooled);
    assert Ids(pooled)[0] in Ids(kept);
    forall k | 0 <= k < |kept|
      ensures FromQuota(top, quotas, invert, kept[k].id)
    {
      assert Ids(kept)[k] == kept[k].id;
    }
  }

  /** No more is fetched than the budget, RecallNum times the sample fold, allows. */
  lemma {:induction false} PooledWithinBudget(list: seq<TagWeight>, tags: seq<TagWeight>, rule: Rule, invert: Inverted)
    requires Interest(list, tags) && rule.recallNum > 0
    ensures var top := Cap(rule.useTopKIndex, tags);
            var quotas := Quotas(top, Budget(rule.recallNum, rule.sampleFold));
            |Pooled(top, quotas, invert, |quotas|)| <= Budget(rule.recallNum, rule.sampleFold)
  {
    InterestOrdered(list, tags);
    var top := Cap(rule.useTopKIndex, tags);
    var budget := Budget(rule.recallNum, rule.sampleFold);
    BudgetPositive(rule.recallNum, rule.sampleFold);
    QuotasExist(top, budget);
    if top != [] {
      QuotaBound(top, budget);
      PooledWithin(top, Quotas(top, budget), invert, |top|);
    }
  }

  lemma {:induction false} BudgetPositive(recallNum: int, sampleFold: int)
    requires recallNum > 0
    ensures Budget(recallNum, sampleFold) >= recallNum
  {
    var fold := if sampleFold <= 0 then 1 else sampleFold;
    assert recallNum * (fold - 1) >= 0;
  }

  lemma {:induction false} NothingKept(ids: seq<int>)
    ensures KeepFirst(Bare(ids, "")) == [] <==> ids == []
  {
    if ids != [] {
      KeepFirstIds(Bare(ids, ""));
      assert Ids(Bare(ids, ""))[0] in Ids(KeepFirst(Bare(ids, "")));
    }
  }

  method DedupeItemIdsStable(ids: seq<int>) returns (out: seq<int>)
    ensures out == Ids(KeepFirst(Bare(ids, "")))
  {
    var seen: set<int> := {};
    out := [];
    ghost var kept: seq<Item> := [];
    for i := 0 to |ids|
      invariant kept == KeepUpTo(Bare(ids, ""), i) && out == Ids(kept) && seen == IdsUpTo(Bare(ids, ""), i)
    {
      KeepStep(Bare(ids, ""), i, kept, seen);
      if ids[i] !in seen {
        seen := seen + {ids[i]};
        out := out + [ids[i]];
        kept := kept + [Bare(ids, "")[i]];
      }
    }
  }

  method PoolTags(ghost tags: seq<TagWeight>, tagIds: seq<int>, perTag: seq<int>, invert: Inverted) returns (pooled: seq<int>)
    requires |tagIds| == |perTag| <= |tags| && forall i :: 0 <= i < |tagIds| ==> tagIds[i] == tags[i].tag
    ensures pooled == Pooled(tags, perTag, invert, |perTag|)
  {
    pooled := [];
    for i := 0 to |tagIds|
      invariant pooled == Pooled(tags, perTag, invert, i)
    {
      var fetched := invert(i, tagIds[i]);
      if fetched.Some? {
        pooled := pooled + SamplePrefix(fetched.value, perTag[i]);
      }
    }
  }

  /** Deduplicate, cut to the rule's size, and make the candidates. */
  method MakeLane(pooled: seq<int>, rule: Rule) returns (lane: Option<seq<Item>>)
    ensures lane == if pooled == [] then None else Some(Cap(rule.recallNum, KeepFirst(Bare(pooled, rule.recallType))))
  {
    var unique := DedupeItemIdsStable(pooled);
    KeepBare(pooled, rule.recallType, |pooled|);
    ghost var all := unique;
    NothingKept(pooled);
    if |unique| == 0 {
      return None;
    }
    if rule.recallNum > 0 && |unique| > rule.recallNum {
      unique := unique[..rule.recallNum];
    }
    lane := Some(Bare(unique, rule.recallType));
    assert lane.value == Cap(rule.recallNum, Bare(all, rule.recallType));
  }

  /** The lane of one rule from the user's tag interest, None where the interest is missing. */
  method CrossTagLane(interest: Option<seq<TagWeight>>, rule: Rule, invert: Inverted)
    returns (lane: Option<seq<Item>>)
    ensures LaneOutcome(interest, rule, invert, lane)
  {
    if interest.None? {
      return None;
    }
    var sorted := FilterPositiveTagWeights(interest.value);
    var top := if rule.useTopKIndex <= 0 || |sorted| <= rule.useTopKIndex then sorted else sorted[..rule.useTopKIndex];
    var tagIds, perTag := AllocateTagRecallCounts(top, Budget(rule.recallNum, rule.sampleFold));
    if |tagIds| == 0 {
      lane := None;
      assert lane == LaneOf(sorted, rule, invert);
      return;
    }
    var pooled := PoolTags(top, tagIds, perTag, invert);
    lane := MakeLane(pooled, rule);
    assert lane == LaneOf(sorted, rule, invert);
  }
}
