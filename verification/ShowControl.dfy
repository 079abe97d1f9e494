/**
 * The show-control chain (services/recommend/internal/centerconfig/show.go): configured strategies applied in
 * order to the ranked list.
 */
module ShowControl {
  import opened Items
  import F = ForcedInsert
  import H = Homogen
  import M = Mmr

  datatype Kind = ScoreControl | HomogenContent | MmrRearrange | ForcedInsert | Unknown

  /** One configured strategy; `recallTypes` is its parsed recall type list. */
  datatype Strategy = Strategy(kind: Kind, byRecallType: bool, recallTypes: set<string>, factor: real, topN: int,
                               mmrConstant: real, mmrDimension: int, paging: F.Paging, forced: seq<F.Rule>)

  // ---------- specification ----------

  function Controlled(it: Item, st: Strategy): Item {
    if it.recallType in st.recallTypes then it.(score := it.score * st.factor) else it
  }

  function ScoreControlled(items: seq<Item>, st: Strategy): (r: seq<Item>)
    ensures |r| == |items|
  {
    if items == [] || !st.byRecallType || st.factor <= 0.0 || st.recallTypes == {} then items
    else seq(|items|, i requires 0 <= i < |items| => Controlled(items[i], st))
  }

  /** One strategy, at position `s` of the configured list. */
  ghost function Step(items: seq<Item>, st: Strategy, exclusive: ExclusivePool, exchange: map<int, int>, shuffle: F.Shuffle, s: nat): seq<Item>
    requires F.IsShuffle(shuffle)
  {
    match st.kind
    case ScoreControl => ScoreControlled(items, st)
    case HomogenContent => H.HomogenContent(items, exchange, st.topN)
    case MmrRearrange => M.Rearranged(items, st.mmrConstant, st.mmrDimension)
    case ForcedInsert => F.Forced(items, exclusive, st.forced, st.paging, shuffle, s)
    case Unknown => items
  }

  /** `n` steps in a row; step `s` may depend on `s`. */
  ghost function Iterate(step: (seq<Item>, nat) -> seq<Item>, items: seq<Item>, n: nat): seq<Item> {
    if n == 0 then items else step(Iterate(step, items, n - 1), n - 1)
  }

  ghost function Steps(strategies: seq<Strategy>, exclusive: ExclusivePool, exchange: map<int, int>, shuffle: F.Shuffle)
    : (seq<Item>, nat) -> seq<Item>
    requires F.IsShuffle(shuffle)
  {
    (items: seq<Item>, s: nat) => if s < |strategies| then Step(items, strategies[s], exclusive, exchange, shuffle, s) else items
  }

  /** The whole chain, in the configured order. */
  ghost function Chain(items: seq<Item>, strategies: seq<Strategy>, exclusive: ExclusivePool, exchange: map<int, int>, shuffle: F.Shuffle): seq<Item>
    requires F.IsShuffle(shuffle)
  {
    Iterate(Steps(strategies, exclusive, exchange, shuffle), items, |strategies|)
  }

  lemma {:induction false} IterateKeeps(step: (seq<Item>, nat) -> seq<Item>, inv: seq<Item> -> bool, items: seq<Item>, n: nat)
    requires inv(items)
    requires forall list, s {:trigger step(list, s)} :: inv(list) ==> inv(step(list, s))
    ensures inv(Iterate(step, items, n))
  {
    if n > 0 {
      IterateKeeps(step, inv, items, n - 1);
    }
  }

  // ---------- invariants of the chain ----------

  lemma {:induction false} RearrangedDistinct(items: seq<Item>, configured: real, dimension: int)
    requires Distinct(Ids(items))
    ensures Distinct(Ids(M.Rearranged(items, configured, dimension)))
  {
    if |items| >= 2 {
      M.PicksAreGreedy(items, configured, dimension);
      var picks := M.Picks(items, configured, dimension);
      M.PicksDistinct(items, M.Lambda(configured), M.MaxOut(dimension, |items|), picks);
      var out := Select(items, picks);
      forall i, j | 0 <= i < j < |out|
        ensures Ids(out)[i] != Ids(out)[j]
      {
        assert Ids(items)[picks[i]] != Ids(items)[picks[j]];
      }
    }
  }

  lemma {:induction false} RearrangedFrom(items: seq<Item>, configured: real, dimension: int)
    ensures forall it :: it in M.Rearranged(items, configured, dimension) ==> it in items
  {
  }

  lemma {:induction false} ScoreControlKeepsIds(items: seq<Item>, st: Strategy)
    ensures Ids(ScoreControlled(items, st)) == Ids(items)
  {
  }

  lemma {:induction false} StepDistinct(items: seq<Item>, st: Strategy, exclusive: ExclusivePool, exchange: map<int, int>, shuffle: F.Shuffle, s: nat)
    requires F.IsShuffle(shuffle) && Distinct(Ids(items))
    ensures Distinct(Ids(Step(items, st, exclusive, exchange, shuffle, s)))
  {
    match st.kind
    case ScoreControl => ScoreControlKeepsIds(items, st);
    case HomogenContent => H.HomogenDistinct(items, exchange, st.topN);
    case MmrRearrange => RearrangedDistinct(items, st.mmrConstant, st.mmrDimension);
    case ForcedInsert => F.ForcedDistinct(items, exclusive, st.forced, st.paging, shuffle, s);
    case Unknown =>
  }

  /** Distinct ids in, distinct ids out, for any strategies in any order. */
  lemma {:induction false} ChainDistinct(items: seq<Item>, strategies: seq<Strategy>, exclusive: ExclusivePool, exchange: map<int, int>, shuffle: F.Shuffle)
    requires F.IsShuffle(shuffle) && Distinct(Ids(items))
    ensures Distinct(Ids(Chain(items, strategies, exclusive, exchange, shuffle)))
  {
    ghost var step, inv := Steps(strategies, exclusive, exchange, shuffle), (list: seq<Item>) => Distinct(Ids(list));
    forall list: seq<Item>, s: nat {:trigger step(list, s)} | inv(list)
      ensures inv(step(list, s))
    {
      if s < |strategies| {
        StepDistinct(list, strategies[s], exclusive, exchange, shuffle, s);
      }
    }
    IterateKeeps(step, inv, items, |strategies|);
  }

  /** What an item is, apart from its score. */
  function Unscored(it: Item): Item {
    it.(score := 0.0)
  }

  /** A property of items that ignores scores, holds of every exclusive item and is passed on to substitutes. */
  ghost predicate Passes(p: Item -> bool, exclusive: ExclusivePool, exchange: map<int, int>) {
    && (forall it :: p(it) <==> p(Unscored(it)))
    && (forall lane, it :: lane in exclusive && it in exclusive[lane] ==> p(it))
    && (forall from: Item, it: Item {:trigger p(from), p(it)} ::
          p(from) && from.id in exchange && exchange[from.id] == it.id && it.recallType == H.SUBSTITUTE_TYPE ==> p(it))
  }

  lemma {:induction false} StepPasses(p: Item -> bool, items: seq<Item>, st: Strategy, exclusive: ExclusivePool, exchange: map<int, int>, shuffle: F.Shuffle, s: nat)
    requires F.IsShuffle(shuffle) && Passes(p, exclusive, exchange) && forall it :: it in items ==> p(it)
    ensures forall it :: it in Step(items, st, exclusive, exchange, shuffle, s) ==> p(it)
  {
    match st.kind
    case ScoreControl =>
      forall it | it in ScoreControlled(items, st)
        ensures p(it)
      {
        var i :| 0 <= i < |items| && ScoreControlled(items, st)[i] == it;
        assert items[i] in items;
        assert Unscored(it) == Unscored(items[i]);
      }
    case HomogenContent => H.HomogenSources(items, exchange, st.topN);
    case MmrRearrange => RearrangedFrom(items, st.mmrConstant, st.mmrDimension);
    case ForcedInsert => F.ForcedSources(items, exclusive, st.forced, st.paging, shuffle, s);
    case Unknown =>
  }

  /** Such a property survives the whole chain. */
  lemma {:induction false} ChainPasses(p: Item -> bool, items: seq<Item>, strategies: seq<Strategy>, exclusive: ExclusivePool,
                    exchange: map<int, int>, shuffle: F.Shuffle)
    requires F.IsShuffle(shuffle) && Passes(p, exclusive, exchange) && forall it :: it in items ==> p(it)
    ensures forall it :: it in Chain(items, strategies, exclusive, exchange, shuffle) ==> p(it)
  {
    ghost var step, inv := Steps(strategies, exclusive, exchange, shuffle), (list: seq<Item>) => forall it :: it in list ==> p(it);
    forall list: seq<Item>, s: nat {:trigger step(list, s)} | inv(list)
      ensures inv(step(list, s))
    {
      if s < |strategies| {
        StepPasses(p, list, strategies[s], exclusive, exchange, shuffle, s);
      }
    }
    IterateKeeps(step, inv, items, |strategies|);
  }

  /** The strategies run in the configured order: each on what the ones before it left. */
  lemma {:induction false} ChainMeans(items: seq<Item>, strategies: seq<Strategy>, st: Strategy, exclusive: ExclusivePool, exchange: map<int, int>,
                     shuffle: F.Shuffle)
    requires F.IsShuffle(shuffle)
    ensures Chain(items, [], exclusive, exchange, shuffle) == items
    ensures Chain(items, strategies + [st], exclusive, exchange, shuffle) ==
            Step(Chain(items, strategies, exclusive, exchange, shuffle), st, exclusive, exchange, shuffle, |strategies|)
  {
    var f, g := Steps(strategies + [st], exclusive, exchange, shuffle), Steps(strategies, exclusive, exchange, shuffle);
    IterateFront(f, g, items, |strategies|);
  }

  lemma {:induction false} IterateFront(f: (seq<Item>, nat) -> seq<Item>, g: (seq<Item>, nat) -> seq<Item>, items: seq<Item>, n: nat)
    requires forall list, s: nat {:trigger f(list, s)} :: s < n ==> f(list, s) == g(list, s)
    ensures Iterate(f, items, n) == Iterate(g, items, n)
  {
    if n > 0 {
      IterateFront(f, g, items, n - 1);
    }
  }

  /** What each kind of strategy does. */
  lemma {:induction false} StepMeans(items: seq<Item>, st: Strategy, exclusive: ExclusivePool, exchange: map<int, int>, shuffle: F.Shuffle, s: nat)
    requires F.IsShuffle(shuffle)
    ensures var out := Step(items, st, exclusive, exchange, shuffle, s);
            && (st.kind == ScoreControl ==> out == ScoreControlled(items, st))
            && (st.kind == HomogenContent ==> out == H.HomogenContent(items, exchange, st.topN))
            && (st.kind == MmrRearrange ==> out == M.Rearranged(items, st.mmrConstant, st.mmrDimension))
            && (st.kind == ForcedInsert ==> out == F.Forced(items, exclusive, st.forced, st.paging, shuffle, s))
            && (st.kind == Unknown ==> out == items)
  {
  }

  /** With the method set, a positive factor and some types listed, a listed item's score is multiplied; nothing else changes. */
  lemma {:induction false} ScoreControlMeans(items: seq<Item>, st: Strategy, i: nat)
    requires i < |items|
    ensures |ScoreControlled(items, st)| == |items|
    ensures ScoreControlled(items, st)[i] ==
            if st.byRecallType && st.factor > 0.0 && items[i].recallType in st.recallTypes then items[i].(score := items[i].score * st.factor)
            else items[i]
  {
  }

  /** Without a homogen strategy the exchange table plays no part. */
  lemma {:induction false} ChainWithoutExchange(items: seq<Item>, strategies: seq<Strategy>, exclusive: ExclusivePool, exchange: map<int, int>,
                     other: map<int, int>, shuffle: F.Shuffle)
    requires F.IsShuffle(shuffle) && forall s :: 0 <= s < |strategies| ==> strategies[s].kind != HomogenContent
    ensures Chain(items, strategies, exclusive, exchange, shuffle) == Chain(items, strategies, exclusive, other, shuffle)
  {
    var f, g := Steps(strategies, exclusive, exchange, shuffle), Steps(strategies, exclusive, other, shuffle);
    IterateSame(f, g, items, |strategies|);
  }

  lemma {:induction false} IterateSame(f: (seq<Item>, nat) -> seq<Item>, g: (seq<Item>, nat) -> seq<Item>, items: seq<Item>, n: nat)
    requires forall list, s {:trigger f(list, s)} :: f(list, s) == g(list, s)
    ensures Iterate(f, items, n) == Iterate(g, items, n)
  {
    if n > 0 {
      IterateSame(f, g, items, n - 1);
    }
  }

  /** Closed under the exchange table. */
  ghost predicate ClosedUnder(ids: iset<int>, exchange: map<int, int>) {
    forall id :: id in ids && id in exchange ==> exchange[id] in ids
  }

  /**
   * Every output id lies in every set that contains the main and exclusive ids and is closed under the exchange,
   * that is, in the closure of the main and exclusive ids.
   */
  lemma {:induction false} ChainInClosure(items: seq<Item>, strategies: seq<Strategy>, exclusive: ExclusivePool, exchange: map<int, int>,
                       shuffle: F.Shuffle, ids: iset<int>)
    requires F.IsShuffle(shuffle) && ClosedUnder(ids, exchange)
    requires forall it :: it in items ==> it.id in ids
    requires forall lane, it :: lane in exclusive && it in exclusive[lane] ==> it.id in ids
    ensures forall it :: it in Chain(items, strategies, exclusive, exchange, shuffle) ==> it.id in ids
  {
    var p := (it: Item) => it.id in ids;
    assert forall it :: p(it) <==> p(Unscored(it));
    ChainPasses(p, items, strategies, exclusive, exchange, shuffle);
    forall it | it in Chain(items, strategies, exclusive, exchange, shuffle)
      ensures it.id in ids
    {
      assert p(it);
    }
  }

  // ---------- the loops ----------

  method ApplyScoreControl(items: seq<Item>, st: Strategy) returns (out: seq<Item>)
    ensures out == ScoreControlled(items, st)
  {
    if |items| == 0 || !st.byRecallType || st.factor <= 0.0 {
      return items;
    }
    if st.recallTypes == {} {
      return items;
    }
    out := items;
    for i := 0 to |out|
      invariant |out| == |items|
      invariant forall c :: 0 <= c < i ==> out[c] == Controlled(items[c], st)
      invariant forall c :: i <= c < |items| ==> out[c] == items[c]
    {
      if out[i].recallType in st.recallTypes {
        out := out[i := out[i].(score := out[i].score * st.factor)];
      }
    }
  }

  method ApplyStrategies(items: seq<Item>, strategies: seq<Strategy>, exclusive: ExclusivePool, exchange: map<int, int>, shuffle: F.Shuffle)
    returns (out: seq<Item>)
    requires F.IsShuffle(shuffle)
    ensures out == Chain(items, strategies, exclusive, exchange, shuffle)
  {
    out := items;
    for s := 0 to |strategies|
      invariant out == Iterate(Steps(strategies, exclusive, exchange, shuffle), items, s)
    {
      out := ApplyOne(out, strategies[s], exclusive, exchange, shuffle, s);
    }
  }

  /** The switch over the configured kind. */
  method ApplyOne(items: seq<Item>, st: Strategy, exclusive: ExclusivePool, exchange: map<int, int>, shuffle: F.Shuffle, s: nat)
    returns (out: seq<Item>)
    requires F.IsShuffle(shuffle)
    ensures out == Step(items, st, exclusive, exchange, shuffle, s)
  {
    out := items;
    match st.kind
    case ScoreControl => out := ApplyScoreControl(items, st);
    case HomogenContent => out := H.ApplyHomogenContent(items, exchange, st.topN);
    case MmrRearrange => out := M.Rearrange(items, st.mmrConstant, st.mmrDimension);
    case ForcedInsert => out := F.ApplyForcedInsert(items, exclusive, st.forced, st.paging, shuffle, s);
    case Unknown =>
  }
}
