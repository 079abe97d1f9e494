/**
 * Rule and feature filters (services/recommend/internal/centerconfig/apply.go and services/recommend/internal/filter),
 * on the main list and on every exclusive lane.
 */
module Filters {
  import opened Items

  datatype RuleFilter = LiveExposure(limit: int) | OtherRule

  datatype FeatureFilter = FeatureLess | LabelTypeWhiteList(wanted: string) | OtherFeature

  // ---------- specification ----------

  /** Impressions of an id; ids outside the table have none. */
  function Impressions(exposure: map<int, int>, id: int): int {
    if id in exposure then exposure[id] else 0
  }

  /** Whether a rule lets an item through; without an exposure table no exposure rule is active. */
  predicate RuleAdmits(rule: RuleFilter, exposure: Option<map<int, int>>, it: Item) {
    match rule
    case LiveExposure(limit) => limit <= 0 || exposure.None? || Impressions(exposure.value, it.id) <= limit
    case OtherRule => true
  }

  predicate FeatureAdmits(feat: FeatureFilter, it: Item) {
    match feat
    case FeatureLess => it.hasPortrait
    case LabelTypeWhiteList(wanted) => wanted == "" || ("label" in it.extra && it.extra["label"] == wanted)
    case OtherFeature => true
  }

  predicate Admitted(rules: seq<RuleFilter>, feats: seq<FeatureFilter>, exposure: Option<map<int, int>>, it: Item) {
    && (forall k :: 0 <= k < |rules| ==> RuleAdmits(rules[k], exposure, it))
    && (forall k :: 0 <= k < |feats| ==> FeatureAdmits(feats[k], it))
  }

  /** The items among the first `n` that satisfy `p`, in order. */
  function Keep(items: seq<Item>, p: Item -> bool, n: nat): seq<Item>
    requires n <= |items|
  {
    if n == 0 then [] else Keep(items, p, n - 1) + if p(items[n - 1]) then [items[n - 1]] else []
  }

  function Filter(items: seq<Item>, p: Item -> bool): seq<Item> {
    Keep(items, p, |items|)
  }

  /** All filters at once. */
  function Filtered(items: seq<Item>, rules: seq<RuleFilter>, feats: seq<FeatureFilter>, exposure: Option<map<int, int>>): seq<Item> {
    Filter(items, it => Admitted(rules, feats, exposure, it))
  }

  /** Every lane filtered, lanes left empty dropped. */
  function FilteredPool(pool: ExclusivePool, rules: seq<RuleFilter>, feats: seq<FeatureFilter>, exposure: Option<map<int, int>>): ExclusivePool {
    map lane | lane in pool && Filtered(pool[lane], rules, feats, exposure) != [] :: Filtered(pool[lane], rules, feats, exposure)
  }

  // ---------- properties ----------

  /** Exactly the items that satisfy `p`, and no repeats where there were none. */
  lemma {:induction false} KeepMembers(items: seq<Item>, p: Item -> bool, n: nat)
    requires n <= |items|
    ensures forall it :: it in Keep(items, p, n) <==> p(it) && exists i :: 0 <= i < n && items[i] == it
  {
    if n > 0 {
      KeepMembers(items, p, n - 1);
    }
  }

  lemma {:induction false} KeepDistinct(items: seq<Item>, p: Item -> bool, n: nat)
    requires n <= |items| && Distinct(Ids(items))
    ensures Distinct(Ids(Keep(items, p, n)))
  {
    if n > 0 {
      KeepDistinct(items, p, n - 1);
      KeepMembers(items, p, n - 1);
      var r := Keep(items, p, n - 1);
      forall i | 0 <= i < |r|
        ensures r[i].id != items[n - 1].id
      {
        assert r[i] in r;
        var j :| 0 <= j < n - 1 && items[j] == r[i];
        assert Ids(items)[j] != Ids(items)[n - 1];
      }
      DistinctExtend(r, items[n - 1]);
    }
  }

  /** Two filters in a row are one filter by both conditions. */
  lemma {:induction false} KeepFuses(items: seq<Item>, p: Item -> bool, q: Item -> bool, both: Item -> bool, n: nat)
    requires n <= |items| && forall it :: both(it) <==> p(it) && q(it)
    ensures Filter(Keep(items, p, n), q) == Keep(items, both, n)
  {
    if n > 0 {
      KeepFuses(items, p, q, both, n - 1);
      var r := Keep(items, p, n - 1);
      if p(items[n - 1]) {
        KeepPrefix(r, [items[n - 1]], q, |r|);
        var longer := r + [items[n - 1]];
        assert Keep(items, p, n) == longer && longer[|r|] == items[n - 1] && |longer| == |r| + 1;
      } else {
        assert Keep(items, p, n) == r;
      }
    }
  }

  lemma {:induction false} KeepPrefix(a: seq<Item>, b: seq<Item>, p: Item -> bool, n: nat)
    requires n <= |a|
    ensures Keep(a + b, p, n) == Keep(a, p, n)
  {
    if n > 0 {
      KeepPrefix(a, b, p, n - 1);
    }
  }

  lemma {:induction false} KeepSame(items: seq<Item>, p: Item -> bool, q: Item -> bool, n: nat)
    requires n <= |items| && forall it :: p(it) <==> q(it)
    ensures Keep(items, p, n) == Keep(items, q, n)
  {
    if n > 0 {
      KeepSame(items, p, q, n - 1);
    }
  }

  lemma {:induction false} KeepAll(items: seq<Item>, p: Item -> bool, n: nat)
    requires n <= |items| && forall it :: p(it)
    ensures Keep(items, p, n) == items[..n]
  {
    if n > 0 {
      KeepAll(items, p, n - 1);
    }
  }

  /** The positions below `n` whose item satisfies `p`. */
  function Positions(items: seq<Item>, p: Item -> bool, n: nat): (r: seq<int>)
    requires n <= |items|
    ensures forall a :: 0 <= a < |r| ==> 0 <= r[a] < n
  {
    if n == 0 then [] else Positions(items, p, n - 1) + if p(items[n - 1]) then [n - 1] else []
  }

  lemma {:induction false} PositionsOf(items: seq<Item>, p: Item -> bool, n: nat)
    requires n <= |items|
    ensures Increasing(Positions(items, p, n))
    ensures forall i :: i in Positions(items, p, n) <==> 0 <= i < n && p(items[i])
  {
    if n > 0 {
      PositionsOf(items, p, n - 1);
    }
  }

  lemma {:induction false} KeepSelects(items: seq<Item>, p: Item -> bool, n: nat)
    requires n <= |items|
    ensures Keep(items, p, n) == Select(items, Positions(items, p, n))
  {
    if n > 0 {
      KeepSelects(items, p, n - 1);
      var before := Positions(items, p, n - 1);
      if p(items[n - 1]) {
        SelectSnoc(items, before, n - 1);
      } else {
        assert before + [] == before;
      }
    }
  }

  /** Filtering keeps exactly the items that satisfy `p`, each as often as it stands there, in their order. */
  lemma {:induction false} FilterOrder(items: seq<Item>, p: Item -> bool)
    ensures var positions := Positions(items, p, |items|);
            && Increasing(positions)
            && (forall i :: i in positions <==> 0 <= i < |items| && p(items[i]))
            && Filter(items, p) == Select(items, positions)
  {
    PositionsOf(items, p, |items|);
    KeepSelects(items, p, |items|);
  }

  /** What the configured filters ask of an item. */
  lemma {:induction false} AdmittedMeans(rules: seq<RuleFilter>, feats: seq<FeatureFilter>, exposure: Option<map<int, int>>, it: Item)
    ensures Admitted(rules, feats, exposure, it) <==>
            && (forall k :: 0 <= k < |rules| && rules[k].LiveExposure? && rules[k].limit > 0 && exposure.Some? && it.id in exposure.value ==>
                  exposure.value[it.id] <= rules[k].limit)
            && (forall k :: 0 <= k < |feats| && feats[k].FeatureLess? ==> it.hasPortrait)
            && (forall k :: 0 <= k < |feats| && feats[k].LabelTypeWhiteList? && feats[k].wanted != "" ==>
                  "label" in it.extra && it.extra["label"] == feats[k].wanted)
  {
    if Admitted(rules, feats, exposure, it) {
      forall k | 0 <= k < |rules| && rules[k].LiveExposure? && rules[k].limit > 0 && exposure.Some? && it.id in exposure.value
        ensures exposure.value[it.id] <= rules[k].limit
      {
        assert RuleAdmits(rules[k], exposure, it);
      }
      forall k | 0 <= k < |feats|
        ensures FeatureAdmits(feats[k], it)
      {
      }
    }
  }

  /** A lane survives exactly if one of its items is admitted, and holds exactly those. */
  lemma {:induction false} PoolMeans(pool: ExclusivePool, rules: seq<RuleFilter>, feats: seq<FeatureFilter>, exposure: Option<map<int, int>>, lane: string)
    ensures var out := FilteredPool(pool, rules, feats, exposure);
            && (lane in out <==> lane in pool && exists it :: it in pool[lane] && Admitted(rules, feats, exposure, it))
            && (lane in out ==> out[lane] == Filter(pool[lane], it => Admitted(rules, feats, exposure, it)))
  {
    if lane in pool {
      FilteredMembers(pool[lane], rules, feats, exposure);
      var kept := Filtered(pool[lane], rules, feats, exposure);
      if kept != [] {
        assert kept[0] in kept;
      }
    }
  }

  /** The filtered lists satisfy every configured filter, on the main list and in every lane. */
  lemma {:induction false} FilteredMembers(items: seq<Item>, rules: seq<RuleFilter>, feats: seq<FeatureFilter>, exposure: Option<map<int, int>>)
    ensures forall it :: it in Filtered(items, rules, feats, exposure) <==> it in items && Admitted(rules, feats, exposure, it)
  {
    KeepMembers(items, it => Admitted(rules, feats, exposure, it), |items|);
  }

  // ---------- the loops ----------

  method FilterLiveExposure(items: seq<Item>, exposure: Option<map<int, int>>, limit: int) returns (out: seq<Item>)
    ensures out == Filter(items, it => RuleAdmits(LiveExposure(limit), exposure, it))
  {
    ghost var p := (it: Item) => RuleAdmits(LiveExposure(limit), exposure, it);
    if limit <= 0 || exposure.None? || |items| == 0 {
      if |items| > 0 {
        KeepAll(items, p, |items|);
      }
      return items;
    }
    out := [];
    for i := 0 to |items|
      invariant out == Keep(items, p, i)
    {
      if Impressions(exposure.value, items[i].id) > limit {
        continue;
      }
      out := out + [items[i]];
    }
  }

  method ApplyRuleFilters(items: seq<Item>, rules: seq<RuleFilter>, exposure: Option<map<int, int>>) returns (out: seq<Item>)
    ensures out == Filter(items, it => Admitted(rules, [], exposure, it))
  {
    out := items;
    KeepAll(items, it => Admitted(rules[..0], [], exposure, it), |items|);
    for k := 0 to |rules|
      invariant out == Filter(items, it => Admitted(rules[..k], [], exposure, it))
    {
      ghost var p, q := (it: Item) => Admitted(rules[..k], [], exposure, it), (it: Item) => RuleAdmits(rules[k], exposure, it);
      ghost var both := (it: Item) => Admitted(rules[..k + 1], [], exposure, it);
      assert rules[..k + 1] == rules[..k] + [rules[k]];
      KeepFuses(items, p, q, both, |items|);
      match rules[k]
      case LiveExposure(limit) => out := FilterLiveExposure(out, exposure, limit);
      case OtherRule => KeepAll(out, q, |out|);
    }
    assert rules[..|rules|] == rules;
  }

  method ApplyFeatureLess(items: seq<Item>) returns (out: seq<Item>)
    ensures out == Filter(items, it => FeatureAdmits(FeatureLess, it))
  {
    out := [];
    for i := 0 to |items|
      invariant out == Keep(items, it => FeatureAdmits(FeatureLess, it), i)
    {
      if items[i].hasPortrait {
        out := out + [items[i]];
      }
    }
  }

  method FilterLabelWhiteList(items: seq<Item>, wanted: string) returns (out: seq<Item>)
    ensures out == Filter(items, it => FeatureAdmits(LabelTypeWhiteList(wanted), it))
  {
    ghost var p := (it: Item) => FeatureAdmits(LabelTypeWhiteList(wanted), it);
    if wanted == "" || |items| == 0 {
      if |items| > 0 {
        KeepAll(items, p, |items|);
      }
      return items;
    }
    out := [];
    for i := 0 to |items|
      invariant out == Keep(items, p, i)
    {
      if "label" !in items[i].extra {
        continue;
      }
      if items[i].extra["label"] == wanted {
        out := out + [items[i]];
      }
    }
  }

  method ApplyFeatureFilters(items: seq<Item>, feats: seq<FeatureFilter>) returns (out: seq<Item>)
    ensures out == Filter(items, it => Admitted([], feats, None, it))
  {
    out := items;
    KeepAll(items, it => Admitted([], feats[..0], None, it), |items|);
    for k := 0 to |feats|
      invariant out == Filter(items, it => Admitted([], feats[..k], None, it))
    {
      ghost var p, q := (it: Item) => Admitted([], feats[..k], None, it), (it: Item) => FeatureAdmits(feats[k], it);
      ghost var both := (it: Item) => Admitted([], feats[..k + 1], None, it);
      assert feats[..k + 1] == feats[..k] + [feats[k]];
      KeepFuses(items, p, q, both, |items|);
      match feats[k]
      case FeatureLess => out := ApplyFeatureLess(out);
      case LabelTypeWhiteList(wanted) => out := FilterLabelWhiteList(out, wanted);
      case OtherFeature => KeepAll(out, q, |out|);
    }
    assert feats[..|feats|] == feats;
  }

  /** Rules first, then features. */
  method ApplyFilters(items: seq<Item>, rules: seq<RuleFilter>, feats: seq<FeatureFilter>, exposure: Option<map<int, int>>)
    returns (out: seq<Item>)
    ensures out == Filtered(items, rules, feats, exposure)
  {
    out := ApplyRuleFilters(items, rules, exposure);
    out := ApplyFeatureFilters(out, feats);
    KeepFuses(items, it => Admitted(rules, [], exposure, it), it => Admitted([], feats, None, it),
      it => Admitted(rules, feats, exposure, it), |items|);
  }

  /** The lanes of the pool that are not among `lanes`. */
  function Outside(pool: ExclusivePool, lanes: set<string>): ExclusivePool {
    map lane | lane in pool && lane !in lanes :: pool[lane]
  }

  /** One more lane filtered. */
  lemma {:induction false} LaneFiltered(pool: ExclusivePool, lanes: set<string>, lane: string, rules: seq<RuleFilter>, feats: seq<FeatureFilter>,
                     exposure: Option<map<int, int>>)
    requires lane in lanes && lanes <= pool.Keys
    ensures var before, items := FilteredPool(Outside(pool, lanes), rules, feats, exposure), Filtered(pool[lane], rules, feats, exposure);
            FilteredPool(Outside(pool, lanes - {lane}), rules, feats, exposure) == if items == [] then before else before[lane := items]
  {
    assert Outside(pool, lanes - {lane}) == Outside(pool, lanes)[lane := pool[lane]];
  }

  method ApplyToExclusivePool(pool: ExclusivePool, rules: seq<RuleFilter>, feats: seq<FeatureFilter>, exposure: Option<map<int, int>>)
    returns (out: ExclusivePool)
    ensures out == FilteredPool(pool, rules, feats, exposure)
  {
    if |pool| == 0 {
      return pool;
    }
    out := map[];
    var lanes := pool.Keys;
    while lanes != {}
      invariant lanes <= pool.Keys
      invariant out == FilteredPool(Outside(pool, lanes), rules, feats, exposure)
      decreases lanes
    {
      var lane :| lane in lanes;
      LaneFiltered(pool, lanes, lane, rules, feats, exposure);
      var items := ApplyFilters(pool[lane], rules, feats, exposure);
      if |items| > 0 {
        out := out[lane := items];
      }
      lanes := lanes - {lane};
    }
    assert pool == Outside(pool, lanes);
  }
}
