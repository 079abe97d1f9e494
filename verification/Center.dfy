/**
 * One center request (services/recommend/internal/pipeline/center.go): recall lanes, merge, filters, rank, show
 * control, response.
 */
module Center {
  import opened Items
  import opened FunnelMerge
  import Filters
  import RankReorder
  import S = ShowControl
  import F = ForcedInsert
  import H = Homogen

  datatype RecallRule = RecallRule(recallType: string, recallNum: int, mergeMaxNum: int, sampleFold: int, useTopKIndex: int)

  /** A lane's answer for a rule: an error or its candidates. */
  datatype LaneReply = LaneFailed | Lane(items: seq<Item>)

  datatype LaneCall = LaneCall(rule: RecallRule, reply: LaneReply)

  /** The portrait store: absent, or the ids that have one and the batches of ids whose lookup fails. */
  datatype Portraits = NoStore | Store(present: set<int>, fails: seq<int> -> bool)

  datatype FilterGroup = FilterGroup(rules: seq<Filters.RuleFilter>, feats: seq<Filters.FeatureFilter>, keepItemNum: int)

  datatype RankReply = RankFailed | Ranked(groups: seq<seq<ItemScore>>)

  /** Everything one request depends on: configuration, and the answers of the services it calls. */
  datatype Request = Request(
    retCount: int, finalRetCount: int, allMergeNum: int,
    exclusiveCalls: seq<LaneCall>, mainCalls: seq<LaneCall>, portraits: Portraits,
    exposure: Option<map<int, int>>, filter: Option<FilterGroup>, rank: RankReply,
    show: Option<seq<S.Strategy>>, exchange: map<int, int>, shuffle: F.Shuffle)

  datatype Response = Response(itemIds: seq<int>, recall: seq<(int, string)>)

  datatype Outcome = RecallError | RankError | Done(items: seq<Item>, ret: int, response: Response)

  // ---------- specification ----------

  /** Go's conversion to int32. */
  function ToInt32(x: int): int {
    (x + 0x8000_0000) % 0x1_0000_0000 - 0x8000_0000
  }

  predicate HasPortrait(portraits: Portraits, id: int) {
    portraits.NoStore? || id in portraits.present
  }

  function Marked(items: seq<Item>, portraits: Portraits): Option<seq<Item>> {
    if items != [] && portraits.Store? && portraits.fails(Ids(items)) then None
    else Some(seq(|items|, i requires 0 <= i < |items| => items[i].(hasPortrait := HasPortrait(portraits, items[i].id))))
  }

  /** What a lane contributes, or None when its lookup fails. */
  function Batch(rule: RecallRule, raw: seq<Item>, portraits: Portraits): Option<seq<Item>> {
    match Marked(Cap(rule.useTopKIndex, raw), portraits)
    case None => None
    case Some(marked) =>
      var mergeMax := if rule.mergeMaxNum <= 0 then rule.recallNum else rule.mergeMaxNum;
      var fold := if rule.sampleFold <= 0 then 1 else rule.sampleFold;
      Some(Cap(mergeMax, EveryFold(Filters.Filter(marked, (it: Item) => it.hasPortrait), fold)))
  }

  /** What a call yields, or None when the lane or its portrait lookup fails. */
  function Answered(call: LaneCall, portraits: Portraits): Option<seq<Item>> {
    if call.reply.LaneFailed? then None else Batch(call.rule, call.reply.items, portraits)
  }

  /** All the first `n` parts, or nothing if one of them is missing. */
  function AllOrNothing(parts: nat -> Option<seq<Item>>, n: nat): Option<seq<seq<Item>>> {
    if n == 0 then Some([])
    else
      var before := AllOrNothing(parts, n - 1);
      if before.None? || parts(n - 1).None? then None else Some(before.value + [parts(n - 1).value])
  }

  function Answers(calls: seq<LaneCall>, portraits: Portraits): nat -> Option<seq<Item>> {
    (i: nat) => if i < |calls| then Answered(calls[i], portraits) else None
  }

  /** The main lanes: one failure fails the request. */
  function MainBatches(calls: seq<LaneCall>, portraits: Portraits, n: nat): Option<seq<seq<Item>>>
    requires n <= |calls|
  {
    AllOrNothing(Answers(calls, portraits), n)
  }

  /** What a call adds to the exclusive pool. */
  function Contribution(call: LaneCall, portraits: Portraits): seq<Item> {
    if call.reply.LaneFailed? || call.reply.items == [] then []
    else
      match Batch(call.rule, call.reply.items, portraits)
      case None => []
      case Some(batch) => batch
  }

  function Contributions(calls: seq<LaneCall>, portraits: Portraits): nat -> seq<Item> {
    (i: nat) => if i < |calls| then Contribution(calls[i], portraits) else []
  }

  function Types(calls: seq<LaneCall>): nat -> string {
    (i: nat) => if i < |calls| then calls[i].rule.recallType else ""
  }

  /** For every name the last of the first `n` parts that is not empty. */
  function LastOf(names: nat -> string, parts: nat -> seq<Item>, n: nat): ExclusivePool {
    if n == 0 then map[]
    else if parts(n - 1) == [] then LastOf(names, parts, n - 1)
    else LastOf(names, parts, n - 1)[names(n - 1) := parts(n - 1)]
  }

  /** The exclusive lanes: a failing or empty lane is skipped, a later lane of the same type wins. */
  function Pool(calls: seq<LaneCall>, portraits: Portraits, n: nat): ExclusivePool
    requires n <= |calls|
  {
    LastOf(Types(calls), Contributions(calls, portraits), n)
  }

  /** The main list that is ranked. */
  function Candidates(req: Request, batches: seq<seq<Item>>): seq<Item> {
    var merged := Cap(req.allMergeNum, KeepFirst(Flatten([] + batches)));
    match req.filter
    case None => merged
    case Some(g) => Cap(g.keepItemNum, Filters.Filtered(merged, g.rules, g.feats, req.exposure))
  }

  function Exclusive(req: Request): ExclusivePool {
    var pool := Pool(req.exclusiveCalls, req.portraits, |req.exclusiveCalls|);
    match req.filter
    case None => pool
    case Some(g) => Filters.FilteredPool(pool, g.rules, g.feats, req.exposure)
  }

  function RankedList(req: Request, main: seq<Item>): seq<Item> {
    if main != [] && req.rank.Ranked? && |req.rank.groups| > 0 && |req.rank.groups[0]| > 0
    then RankReorder.Reordered(main, req.rank.groups[0]) else main
  }

  /** The list after show control. */
  ghost function ShownList(req: Request, main: seq<Item>): seq<Item>
    requires F.IsShuffle(req.shuffle)
  {
    match req.show
    case None => RankedList(req, main)
    case Some(strategies) => S.Chain(RankedList(req, main), strategies, Exclusive(req), req.exchange, req.shuffle)
  }

  /** The response size: requested, else configured, else that of the ranked list. */
  function ReturnCount(req: Request, main: seq<Item>): int {
    var ret := if req.retCount <= 0 && req.finalRetCount > 0 then ToInt32(req.finalRetCount) else req.retCount;
    if main != [] && ret <= 0 then ToInt32(|main|) else ret
  }

  function ResponseOf(items: seq<Item>, ret: int): Response {
    var shown := Cap(ret, items);
    Response(Ids(shown), seq(|shown|, i requires 0 <= i < |shown| => (shown[i].id, shown[i].recallType)))
  }

  ghost function Outcomes(req: Request): Outcome
    requires F.IsShuffle(req.shuffle)
  {
    match MainBatches(req.mainCalls, req.portraits, |req.mainCalls|)
    case None => RecallError
    case Some(batches) =>
      var main := Candidates(req, batches);
      if main == [] && Exclusive(req) == map[] then Done([], 0, Response([], []))
      else if main != [] && req.rank.RankFailed? then RankError
      else
        var items, ret := ShownList(req, main), ReturnCount(req, main);
        Done(items, ret, ResponseOf(items, ret))
  }

  // ---------- guarantees ----------

  /** An id within every active exposure limit, with a portrait. */
  predicate Servable(req: Request, id: int) {
    && HasPortrait(req.portraits, id)
    && (req.filter.Some? && req.exposure.Some? ==>
          forall k :: 0 <= k < |req.filter.value.rules| && req.filter.value.rules[k].LiveExposure? && req.filter.value.rules[k].limit > 0 ==>
            Filters.Impressions(req.exposure.value, id) <= req.filter.value.rules[k].limit)
  }

  /** Brought in by the homogen exchange: marked as a substitute, with an id that the exchange table names. */
  predicate Exchanged(req: Request, id: int, recallType: string) {
    recallType == H.SUBSTITUTE_TYPE && id in req.exchange.Values
  }

  lemma {:induction false} BatchHasPortraits(rule: RecallRule, raw: seq<Item>, portraits: Portraits)
    ensures Batch(rule, raw, portraits).Some? ==>
              forall it :: it in Batch(rule, raw, portraits).value ==> HasPortrait(portraits, it.id)
  {
    var capped := Cap(rule.useTopKIndex, raw);
    var marked := Marked(capped, portraits);
    if marked.Some? {
      Filters.KeepMembers(marked.value, (it: Item) => it.hasPortrait, |marked.value|);
      var kept := Filters.Filter(marked.value, (it: Item) => it.hasPortrait);
      assert forall it :: it in kept ==> HasPortrait(portraits, it.id);
      FoldFrom(kept, if rule.sampleFold <= 0 then 1 else rule.sampleFold);
    }
  }

  lemma {:induction false} FoldFrom(items: seq<Item>, fold: nat)
    requires fold >= 1
    ensures forall it :: it in EveryFold(items, fold) ==> it in items
  {
    var r := EveryFold(items, fold);
    forall it | it in r
      ensures it in items
    {
      var k :| 0 <= k < |r| && r[k] == it;
      FoldCount(|items|, fold, k);
    }
  }

  lemma {:induction false} MainHasPortraits(calls: seq<LaneCall>, portraits: Portraits, n: nat)
    requires n <= |calls| && MainBatches(calls, portraits, n).Some?
    ensures forall b, it :: b in MainBatches(calls, portraits, n).value && it in b ==> HasPortrait(portraits, it.id)
  {
    if n > 0 {
      MainHasPortraits(calls, portraits, n - 1);
      BatchHasPortraits(calls[n - 1].rule, calls[n - 1].reply.items, portraits);
    }
  }

  lemma {:induction false} ContributionHasPortraits(call: LaneCall, portraits: Portraits)
    ensures forall it :: it in Contribution(call, portraits) ==> HasPortrait(portraits, it.id)
  {
    if call.reply.Lane? {
      BatchHasPortraits(call.rule, call.reply.items, portraits);
    }
  }

  lemma {:induction false} LastOfFrom(names: nat -> string, parts: nat -> seq<Item>, n: nat, lane: string) returns (i: nat)
    requires lane in LastOf(names, parts, n)
    ensures i < n && LastOf(names, parts, n)[lane] == parts(i)
  {
    if parts(n - 1) != [] && names(n - 1) == lane {
      i := n - 1;
    } else {
      i := LastOfFrom(names, parts, n - 1, lane);
    }
  }

  lemma {:induction false} PoolHasPortraits(calls: seq<LaneCall>, portraits: Portraits, n: nat)
    requires n <= |calls|
    ensures forall lane, it :: lane in Pool(calls, portraits, n) && it in Pool(calls, portraits, n)[lane] ==> HasPortrait(portraits, it.id)
  {
    forall lane, it | lane in Pool(calls, portraits, n) && it in Pool(calls, portraits, n)[lane]
      ensures HasPortrait(portraits, it.id)
    {
      var i := LastOfFrom(Types(calls), Contributions(calls, portraits), n, lane);
      ContributionHasPortraits(calls[i], portraits);
    }
  }

  lemma {:induction false} FlatMembers(batches: seq<seq<Item>>, n: nat)
    requires n <= |batches|
    ensures forall it :: it in Flat(batches, n) ==> exists b :: b in batches && it in b
  {
    if n > 0 {
      FlatMembers(batches, n - 1);
    }
  }

  /** What is ranked has distinct ids, all servable. */
  lemma {:induction false} CandidatesServable(req: Request, batches: seq<seq<Item>>)
    requires MainBatches(req.mainCalls, req.portraits, |req.mainCalls|) == Some(batches)
    ensures Distinct(Ids(Candidates(req, batches)))
    ensures forall it :: it in Candidates(req, batches) ==> Servable(req, it.id)
  {
    MainHasPortraits(req.mainCalls, req.portraits, |req.mainCalls|);
    assert [] + batches == batches;
    FlatMembers(batches, |batches|);
    MergeGuarantee(batches, req.allMergeNum);
    var merged := Cap(req.allMergeNum, KeepFirst(Flatten(batches)));
    if req.filter.Some? {
      var g := req.filter.value;
      var kept := Filters.Filtered(merged, g.rules, g.feats, req.exposure);
      Filters.KeepDistinct(merged, it => Filters.Admitted(g.rules, g.feats, req.exposure, it), |merged|);
      Filters.FilteredMembers(merged, g.rules, g.feats, req.exposure);
      CapDistinct(g.keepItemNum, kept);
      forall it | it in Cap(g.keepItemNum, kept)
        ensures Servable(req, it.id)
      {
        assert it in kept;
        AdmittedServable(req, g, it);
      }
    }
  }

  lemma {:induction false} AdmittedServable(req: Request, g: FilterGroup, it: Item)
    requires req.filter == Some(g) && HasPortrait(req.portraits, it.id)
    requires Filters.Admitted(g.rules, g.feats, req.exposure, it)
    ensures Servable(req, it.id)
  {
    forall k | 0 <= k < |g.rules| && g.rules[k].LiveExposure? && g.rules[k].limit > 0 && req.exposure.Some?
      ensures Filters.Impressions(req.exposure.value, it.id) <= g.rules[k].limit
    {
      assert Filters.RuleAdmits(g.rules[k], req.exposure, it);
    }
  }

  /** The exclusive lanes are held to the same standard. */
  lemma {:induction false} ExclusiveServable(req: Request)
    ensures forall lane, it :: lane in Exclusive(req) && it in Exclusive(req)[lane] ==> Servable(req, it.id)
  {
    PoolHasPortraits(req.exclusiveCalls, req.portraits, |req.exclusiveCalls|);
    var pool := Pool(req.exclusiveCalls, req.portraits, |req.exclusiveCalls|);
    if req.filter.Some? {
      var g := req.filter.value;
      forall lane, it | lane in Exclusive(req) && it in Exclusive(req)[lane]
        ensures Servable(req, it.id)
      {
        Filters.FilteredMembers(pool[lane], g.rules, g.feats, req.exposure);
        AdmittedServable(req, g, it);
      }
    }
  }

  ghost predicate DistinctScores(scores: seq<ItemScore>) {
    forall i, j :: 0 <= i < j < |scores| ==> scores[i].itemId != scores[j].itemId
  }

  ghost predicate RankerRepeatsNothing(rank: RankReply) {
    rank.Ranked? && |rank.groups| > 0 ==> DistinctScores(rank.groups[0])
  }

  lemma {:induction false} RankedServable(req: Request, main: seq<Item>)
    requires forall it :: it in main ==> Servable(req, it.id)
    ensures forall it :: it in RankedList(req, main) ==> Servable(req, it.id)
  {
    var out := RankedList(req, main);
    if out != main {
      RankReorder.ReorderSources(main, req.rank.groups[0]);
      forall it | it in out
        ensures Servable(req, it.id)
      {
        var i :| 0 <= i < |main| && it == main[i].(score := it.score);
        assert main[i] in main;
      }
    }
  }

  lemma {:induction false} RankedDistinct(req: Request, main: seq<Item>)
    requires Distinct(Ids(main)) && RankerRepeatsNothing(req.rank)
    ensures Distinct(Ids(RankedList(req, main)))
  {
    if RankedList(req, main) != main {
      var scores := req.rank.groups[0];
      RankReorder.ReorderDistinctIff(main, scores);
      forall id | id in Ids(main)
        ensures RankReorder.ScoreCount(scores, id, |scores|) <= 1
      {
        RankReorder.ScoredAtMostOnce(scores, id, |scores|);
      }
    }
  }

  /** However much the ranker truncates, ranking loses no candidate and adds none. */
  lemma {:induction false} RankLosesNothing(req: Request, main: seq<Item>)
    requires Distinct(Ids(main))
    ensures forall id :: id in Ids(main) <==> id in Ids(RankedList(req, main))
    ensures RankerRepeatsNothing(req.rank) ==> |RankedList(req, main)| == |main|
  {
    var out := RankedList(req, main);
    if out != main {
      forall id
        ensures id in Ids(main) <==> id in Ids(out)
      {
        RankReorder.ReorderConserves(main, req.rank.groups[0], id);
        CountedIn(out, id);
      }
    }
    if RankerRepeatsNothing(req.rank) {
      RankedDistinct(req, main);
      DistinctCount(Ids(main));
      DistinctCount(Ids(out));
      assert (set x | x in Ids(main)) == (set x | x in Ids(out));
    }
  }

  lemma {:induction false} CountedIn(items: seq<Item>, id: int)
    ensures id in Ids(items) <==> RankReorder.IdCount(items, id, |items|) > 0
  {
    RankReorder.CountFinds(items, id, |items|);
    if id in Ids(items) {
      var i :| 0 <= i < |items| && Ids(items)[i] == id;
      assert items[i].id == id;
    }
    if RankReorder.IdCount(items, id, |items|) > 0 {
      var i :| 0 <= i < |items| && items[i].id == id;
      assert Ids(items)[i] == id;
    }
  }

  /**
   * Every answered request: distinct ids if the ranker repeats none, exactly as many as asked for and available, and
   * every entry not introduced by the homogen exchange is servable, whether it came through the main lanes or an
   * exclusive one.
   */
  lemma {:induction false} EndToEnd(req: Request)
    requires F.IsShuffle(req.shuffle) && Outcomes(req).Done?
    ensures var out, resp := Outcomes(req).items, Outcomes(req).response;
            && |resp.itemIds| == |resp.recall| == (if Outcomes(req).ret > 0 then Min(Outcomes(req).ret, |out|) else |out|)
            && (forall k :: 0 <= k < |resp.itemIds| ==> resp.itemIds[k] == out[k].id && resp.recall[k] == (out[k].id, out[k].recallType))
            && (RankerRepeatsNothing(req.rank) ==> Distinct(resp.itemIds))
            && (forall k :: 0 <= k < |resp.recall| ==> Exchanged(req, resp.recall[k].0, resp.recall[k].1) || Servable(req, resp.recall[k].0))
  {
    var main := Candidates(req, MainBatches(req.mainCalls, req.portraits, |req.mainCalls|).value);
    if !(main == [] && Exclusive(req) == map[]) {
      ShownGuarantee(req);
      ResponseGuarantee(req, ShownList(req, main), ReturnCount(req, main));
    }
  }

  // ---------- what is answered, in plain terms ----------

  /**
   * The size of every response: what was asked for, else what is configured, else the number of candidates. A configured
   * number keeps its lowest 32 bits; one that is then not positive counts as absent.
   */
  lemma {:induction false} ResponseSize(req: Request)
    requires F.IsShuffle(req.shuffle) && Outcomes(req).Done?
    ensures var n, size := |Outcomes(req).items|, |Outcomes(req).response.itemIds|;
            var low := (req.finalRetCount + 0x8000_0000) % 0x1_0000_0000 - 0x8000_0000;
            var cands := |Candidates(req, MainBatches(req.mainCalls, req.portraits, |req.mainCalls|).value)|;
            && (req.retCount > 0 ==> size == if req.retCount < n then req.retCount else n)
            && (req.retCount <= 0 && 0 < req.finalRetCount < 0x8000_0000 ==> size == if req.finalRetCount < n then req.finalRetCount else n)
            && (req.retCount <= 0 && req.finalRetCount > 0 && low > 0 ==> size == if low < n then low else n)
            && (req.retCount <= 0 && (req.finalRetCount <= 0 || low <= 0) && cands < 0x8000_0000 ==>
                  size == if 0 < cands < n then cands else n)
  {
    var main := Candidates(req, MainBatches(req.mainCalls, req.portraits, |req.mainCalls|).value);
    EndToEnd(req);
    if 0 < req.finalRetCount < 0x8000_0000 {
      SmallInt32(req.finalRetCount);
    }
    if |main| < 0x8000_0000 {
      SmallInt32(|main|);
    }
  }

  /** Whatever the ranker answers, as long as it repeats nothing, it ranks as many as there are candidates. */
  lemma {:induction false} RankedSize(req: Request, batches: seq<seq<Item>>)
    requires MainBatches(req.mainCalls, req.portraits, |req.mainCalls|) == Some(batches) && RankerRepeatsNothing(req.rank)
    ensures |RankedList(req, Candidates(req, batches))| == |Candidates(req, batches)|
  {
    CandidatesServable(req, batches);
    RankLosesNothing(req, Candidates(req, batches));
  }

  lemma {:induction false} SmallInt32(x: int)
    requires -0x8000_0000 <= x < 0x8000_0000
    ensures ToInt32(x) == x
  {
  }

  /** The conversion keeps the lowest 32 bits. */
  lemma {:induction false} ToInt32Means(x: int)
    ensures -0x8000_0000 <= ToInt32(x) < 0x8000_0000 && (ToInt32(x) - x) % 0x1_0000_0000 == 0
  {
  }

  /** Which of its outcomes a request has. */
  lemma {:induction false} OutcomeMeans(req: Request)
    requires F.IsShuffle(req.shuffle)
    ensures Outcomes(req) == RecallError <==>
              exists i :: 0 <= i < |req.mainCalls| && Answered(req.mainCalls[i], req.portraits).None?
    ensures Outcomes(req) == RankError <==>
              && MainBatches(req.mainCalls, req.portraits, |req.mainCalls|).Some?
              && Candidates(req, MainBatches(req.mainCalls, req.portraits, |req.mainCalls|).value) != [] && req.rank == RankFailed
    ensures Outcomes(req).Done? ==> MainBatches(req.mainCalls, req.portraits, |req.mainCalls|).Some?
  {
    AllMeans(Answers(req.mainCalls, req.portraits), |req.mainCalls|);
    assert forall i :: 0 <= i < |req.mainCalls| ==> Answers(req.mainCalls, req.portraits)(i) == Answered(req.mainCalls[i], req.portraits);
  }

  /** One failing lane fails them all; otherwise there is one batch per lane, in order. */
  lemma {:induction false} AllMeans(parts: nat -> Option<seq<Item>>, n: nat)
    ensures AllOrNothing(parts, n).None? <==> exists i :: 0 <= i < n && parts(i).None?
    ensures AllOrNothing(parts, n).Some? ==>
              && |AllOrNothing(parts, n).value| == n
              && forall i :: 0 <= i < n ==> parts(i) == Some(AllOrNothing(parts, n).value[i])
  {
    if n > 0 {
      AllMeans(parts, n - 1);
    }
  }

  /** When a call has no batch. */
  lemma {:induction false} AnsweredMeans(call: LaneCall, portraits: Portraits)
    ensures Answered(call, portraits).None? <==>
            call.reply.LaneFailed?
            || (var raw, k := call.reply.items, call.rule.useTopKIndex;
                portraits.Store? && raw != [] && portraits.fails(Ids(if 0 < k < |raw| then raw[..k] else raw)))
    ensures call.reply.Lane? ==> Answered(call, portraits) == Batch(call.rule, call.reply.items, portraits)
  {
  }

  lemma {:induction false} MarkedMeans(items: seq<Item>, portraits: Portraits, i: nat)
    requires Marked(items, portraits).Some? && i < |items|
    ensures |Marked(items, portraits).value| == |items|
    ensures Marked(items, portraits).value[i] == items[i].(hasPortrait := portraits.NoStore? || items[i].id in portraits.present)
  {
  }

  lemma {:induction false} MarkedKeeps(top: seq<Item>, portraits: Portraits) returns (positions: seq<int>)
    requires Marked(top, portraits).Some?
    ensures Increasing(positions) && forall p :: p in positions <==> 0 <= p < |top| && (portraits.NoStore? || top[p].id in portraits.present)
    ensures forall a :: 0 <= a < |positions| ==> 0 <= positions[a] < |top|
    ensures var kept := Filters.Filter(Marked(top, portraits).value, (it: Item) => it.hasPortrait);
            |kept| == |positions| && forall a :: 0 <= a < |positions| ==> kept[a] == top[positions[a]].(hasPortrait := true)
  {
    var marked, p := Marked(top, portraits).value, (it: Item) => it.hasPortrait;
    Filters.FilterOrder(marked, p);
    positions := Filters.Positions(marked, p, |marked|);
    forall a | 0 <= a < |positions|
      ensures Filters.Filter(marked, p)[a] == top[positions[a]].(hasPortrait := true)
    {
      assert positions[a] in positions;
    }
  }

  lemma {:induction false} SampledAt(kept: seq<Item>, fold: nat, most: int, k: nat)
    requires fold >= 1
    ensures var batch := Cap(most, EveryFold(kept, fold));
            && (k < |batch| <==> k * fold < |kept| && (most > 0 ==> k < most))
            && (k < |batch| ==> 0 <= k * fold < |kept| && batch[k] == kept[k * fold])
  {
    CapMeans(most, EveryFold(kept, fold));
    EveryFoldMeans(kept, fold, k);
    FoldCount(|kept|, fold, k);
  }

  /**
   * A batch: of the first useTopKIndex candidates those with a portrait, of those every sampleFold-th from the first on, and
   * of those as many as mergeMaxNum, or else recallNum, allows.
   */
  lemma {:induction false} BatchMeans(rule: RecallRule, raw: seq<Item>, portraits: Portraits) returns (positions: seq<int>)
    requires Batch(rule, raw, portraits).Some?
    ensures Increasing(positions)
    ensures forall p :: p in positions <==>
              && 0 <= p < (if 0 < rule.useTopKIndex < |raw| then rule.useTopKIndex else |raw|)
              && (portraits.NoStore? || raw[p].id in portraits.present)
    ensures forall a :: 0 <= a < |positions| ==> 0 <= positions[a] < |raw|
    ensures var batch, fold := Batch(rule, raw, portraits).value, if rule.sampleFold <= 0 then 1 else rule.sampleFold;
            var most := if rule.mergeMaxNum > 0 then rule.mergeMaxNum else rule.recallNum;
            && (forall k: nat :: k < |batch| <==> k * fold < |positions| && (most > 0 ==> k < most))
            && (forall k: nat :: k < |batch| ==> 0 <= k * fold < |positions| && batch[k] == raw[positions[k * fold]].(hasPortrait := true))
  {
    var top := Cap(rule.useTopKIndex, raw);
    CapMeans(rule.useTopKIndex, raw);
    positions := MarkedKeeps(top, portraits);
    var kept := Filters.Filter(Marked(top, portraits).value, (it: Item) => it.hasPortrait);
    var fold := if rule.sampleFold <= 0 then 1 else rule.sampleFold;
    var most := if rule.mergeMaxNum > 0 then rule.mergeMaxNum else rule.recallNum;
    forall k: nat
      ensures k < |Cap(most, EveryFold(kept, fold))| <==> k * fold < |positions| && (most > 0 ==> k < most)
      ensures k < |Cap(most, EveryFold(kept, fold))| ==>
                0 <= k * fold < |positions| && Cap(most, EveryFold(kept, fold))[k] == raw[positions[k * fold]].(hasPortrait := true)
    {
      SampledAt(kept, fold, most, k);
    }
    BatchIs(rule, raw, portraits, kept, fold, most);
  }

  lemma {:induction false} BatchIs(rule: RecallRule, raw: seq<Item>, portraits: Portraits, kept: seq<Item>, fold: nat, most: int)
    requires Batch(rule, raw, portraits).Some? && kept == Filters.Filter(Marked(Cap(rule.useTopKIndex, raw), portraits).value, (it: Item) => it.hasPortrait)
    requires fold == (if rule.sampleFold <= 0 then 1 else rule.sampleFold) && most == if rule.mergeMaxNum > 0 then rule.mergeMaxNum else rule.recallNum
    ensures Batch(rule, raw, portraits).value == Cap(most, EveryFold(kept, fold))
  {
  }

  ghost predicate LastNonEmpty(names: nat -> string, parts: nat -> seq<Item>, n: nat, name: string, i: nat) {
    && i < n && names(i) == name && parts(i) != []
    && forall j :: i < j < n && names(j) == name ==> parts(j) == []
  }

  lemma {:induction false} LastOfMeans(names: nat -> string, parts: nat -> seq<Item>, n: nat, name: string)
    ensures name in LastOf(names, parts, n) <==> exists i: nat :: i < n && names(i) == name && parts(i) != []
    ensures name in LastOf(names, parts, n) ==> exists i :: LastNonEmpty(names, parts, n, name, i) && LastOf(names, parts, n)[name] == parts(i)
  {
    if n > 0 {
      LastOfMeans(names, parts, n - 1, name);
      if parts(n - 1) != [] && names(n - 1) == name {
        assert LastNonEmpty(names, parts, n, name, n - 1);
      } else if name in LastOf(names, parts, n - 1) {
        var i :| LastNonEmpty(names, parts, n - 1, name, i) && LastOf(names, parts, n - 1)[name] == parts(i);
        assert LastNonEmpty(names, parts, n, name, i);
      }
    }
  }

  /** The lane of a type in the exclusive pool is the last call of that type that contributes anything. */
  lemma {:induction false} PoolMeans(calls: seq<LaneCall>, portraits: Portraits, lane: string) returns (i: nat)
    ensures lane in Pool(calls, portraits, |calls|) ==>
              && i < |calls| && calls[i].rule.recallType == lane && Pool(calls, portraits, |calls|)[lane] == Contribution(calls[i], portraits) != []
              && forall j :: i < j < |calls| && calls[j].rule.recallType == lane ==> Contribution(calls[j], portraits) == []
    ensures lane !in Pool(calls, portraits, |calls|) ==> forall j :: 0 <= j < |calls| && calls[j].rule.recallType == lane ==> Contribution(calls[j], portraits) == []
  {
    var names, parts := Types(calls), Contributions(calls, portraits);
    LastOfMeans(names, parts, |calls|, lane);
    assert forall j :: 0 <= j < |calls| ==> names(j) == calls[j].rule.recallType && parts(j) == Contribution(calls[j], portraits);
    if lane in LastOf(names, parts, |calls|) {
      i :| LastNonEmpty(names, parts, |calls|, lane, i) && LastOf(names, parts, |calls|)[lane] == parts(i);
    } else {
      i := 0;
    }
  }

  /** A failing lane contributes nothing, any other its batch. */
  lemma {:induction false} ContributionMeans(call: LaneCall, portraits: Portraits)
    ensures Contribution(call, portraits) == if Answered(call, portraits).None? then [] else Answered(call, portraits).value
  {
    if call.reply.Lane? && call.reply.items == [] {
      EmptyBatch(call.rule, portraits);
    }
  }

  lemma {:induction false} EmptyBatch(rule: RecallRule, portraits: Portraits)
    ensures Batch(rule, [], portraits) == Some([])
  {
    var positions := MarkedKeeps([], portraits);
    assert positions == [] by {
      assert forall p :: p !in positions;
    }
    SampledAt([], if rule.sampleFold <= 0 then 1 else rule.sampleFold, if rule.mergeMaxNum > 0 then rule.mergeMaxNum else rule.recallNum, 0);
  }

  /** What is ranked: the merged batches, filtered if a filter group applies, and cut as configured. */
  lemma {:induction false} CandidatesMean(req: Request, batches: seq<seq<Item>>)
    ensures var merged := KeepFirst(Flatten(batches));
            var capped := if 0 < req.allMergeNum < |merged| then merged[..req.allMergeNum] else merged;
            && (req.filter.None? ==> Candidates(req, batches) == capped)
            && (req.filter.Some? ==>
                  var g := req.filter.value;
                  var kept := Filters.Filter(capped, it => Filters.Admitted(g.rules, g.feats, req.exposure, it));
                  Candidates(req, batches) == if 0 < g.keepItemNum < |kept| then kept[..g.keepItemNum] else kept)
  {
    assert [] + batches == batches;
  }

  /** The lanes that strategies insert from: as recalled, or with what the filter group admits of each. */
  lemma {:induction false} ExclusiveMeans(req: Request, lane: string)
    ensures var pool, out := Pool(req.exclusiveCalls, req.portraits, |req.exclusiveCalls|), Exclusive(req);
            && (req.filter.None? ==> out == pool)
            && (req.filter.Some? ==>
                  var g := req.filter.value;
                  && (lane in out <==> lane in pool && exists it :: it in pool[lane] && Filters.Admitted(g.rules, g.feats, req.exposure, it))
                  && (lane in out ==> out[lane] == Filters.Filter(pool[lane], it => Filters.Admitted(g.rules, g.feats, req.exposure, it))))
  {
    if req.filter.Some? {
      var g := req.filter.value;
      Filters.PoolMeans(Pool(req.exclusiveCalls, req.portraits, |req.exclusiveCalls|), g.rules, g.feats, req.exposure, lane);
    }
  }

  /** What is ranked as the ranker says: only by a first group that holds scores. */
  lemma {:induction false} RankedMeans(req: Request, main: seq<Item>)
    ensures if main != [] && req.rank.Ranked? && req.rank.groups != [] && req.rank.groups[0] != []
            then RankedList(req, main) == RankReorder.Reordered(main, req.rank.groups[0])
            else RankedList(req, main) == main
  {
  }

  /** What the response is cut from: nothing, the ranked list, or the ranked list after the configured strategies. */
  lemma {:induction false} ItemsMean(req: Request, batches: seq<seq<Item>>)
    requires F.IsShuffle(req.shuffle) && Outcomes(req).Done? && MainBatches(req.mainCalls, req.portraits, |req.mainCalls|) == Some(batches)
    ensures var main, items := Candidates(req, batches), Outcomes(req).items;
            if main == [] && Exclusive(req) == map[] then items == [] && Outcomes(req).ret == 0
            else if req.show.None? then items == RankedList(req, main)
            else items == S.Chain(RankedList(req, main), req.show.value, Exclusive(req), req.exchange, req.shuffle)
  {
  }

  /** Without a strategy the response follows the ranker: scored candidates in score order, then the others in merge order. */
  lemma {:induction false} OrderWithoutStrategies(req: Request, batches: seq<seq<Item>>) returns (known: seq<int>, rest: seq<int>)
    requires F.IsShuffle(req.shuffle) && Outcomes(req).Done? && MainBatches(req.mainCalls, req.portraits, |req.mainCalls|) == Some(batches)
    requires (req.show.None? || req.show == Some([])) && Candidates(req, batches) != []
    requires req.rank.Ranked? && req.rank.groups != [] && req.rank.groups[0] != []
    ensures var main, scores, items := Candidates(req, batches), req.rank.groups[0], Outcomes(req).items;
            && Increasing(known) && Increasing(rest) && |items| == |known| + |rest|
            && (forall c :: c in known <==> 0 <= c < |scores| && exists i :: 0 <= i < |main| && main[i].id == scores[c].itemId)
            && (forall i :: i in rest <==> 0 <= i < |main| && forall c :: 0 <= c < |scores| ==> scores[c].itemId != main[i].id)
            && (forall a :: 0 <= a < |known| ==> 0 <= known[a] < |scores| && items[a].id == scores[known[a]].itemId && items[a].score == scores[known[a]].rank)
            && (forall b :: 0 <= b < |rest| ==> 0 <= rest[b] < |main| && items[|known| + b] == main[rest[b]])
  {
    ItemsMean(req, batches);
    var main := Candidates(req, batches);
    RankedMeans(req, main);
    known, rest := RankReorder.ReorderedMeans(main, req.rank.groups[0]);
  }

  /** No configured strategy exchanges anything. */
  ghost predicate ExchangesNothing(req: Request) {
    req.show.Some? ==> forall s :: 0 <= s < |req.show.value| ==> req.show.value[s].kind != S.HomogenContent
  }

  /** Without a homogen strategy every entry of every response is servable, substitutes by name included. */
  lemma {:induction false} EndToEndWithoutExchange(req: Request)
    requires F.IsShuffle(req.shuffle) && ExchangesNothing(req)
    ensures Outcomes(req).Done? ==> forall k :: 0 <= k < |Outcomes(req).response.itemIds| ==> Servable(req, Outcomes(req).response.itemIds[k])
  {
    if Outcomes(req).Done? {
      var batches := MainBatches(req.mainCalls, req.portraits, |req.mainCalls|).value;
      var main := Candidates(req, batches);
      CandidatesServable(req, batches);
      RankedServable(req, main);
      ExclusiveServable(req);
      ShownWithoutExchange(req, main);
      ResponseWithin(req, ShownList(req, main), ReturnCount(req, main));
    }
  }

  lemma {:induction false} ShownWithoutExchange(req: Request, main: seq<Item>)
    requires F.IsShuffle(req.shuffle) && ExchangesNothing(req)
    requires forall it :: it in RankedList(req, main) ==> Servable(req, it.id)
    requires forall lane, it :: lane in Exclusive(req) && it in Exclusive(req)[lane] ==> Servable(req, it.id)
    ensures forall it :: it in ShownList(req, main) ==> Servable(req, it.id)
  {
    if req.show.Some? {
      var ranked, strategies, pool := RankedList(req, main), req.show.value, Exclusive(req);
      var p := (it: Item) => Servable(req, it.id);
      assert forall it :: p(it) <==> p(S.Unscored(it));
      S.ChainWithoutExchange(ranked, strategies, pool, req.exchange, map[], req.shuffle);
      S.ChainPasses(p, ranked, strategies, pool, map[], req.shuffle);
      forall it | it in ShownList(req, main)
        ensures Servable(req, it.id)
      {
        assert p(it);
      }
    }
  }

  lemma {:induction false} ResponseWithin(req: Request, items: seq<Item>, ret: int)
    requires forall it :: it in items ==> Servable(req, it.id)
    ensures forall k :: 0 <= k < |ResponseOf(items, ret).itemIds| ==> Servable(req, ResponseOf(items, ret).itemIds[k])
  {
    var shown := Cap(ret, items);
    assert forall k :: 0 <= k < |shown| ==> shown[k] == items[k] && items[k] in items;
  }

  /** What `ShownList` promises of its items. */
  ghost predicate Presentable(req: Request, items: seq<Item>) {
    && (RankerRepeatsNothing(req.rank) ==> Distinct(Ids(items)))
    && (forall it :: it in items ==> Exchanged(req, it.id, it.recallType) || Servable(req, it.id))
  }

  lemma {:induction false} ShownGuarantee(req: Request)
    requires F.IsShuffle(req.shuffle)
    ensures match MainBatches(req.mainCalls, req.portraits, |req.mainCalls|)
            case None => Outcomes(req) == RecallError
            case Some(batches) => Presentable(req, ShownList(req, Candidates(req, batches)))
  {
    match MainBatches(req.mainCalls, req.portraits, |req.mainCalls|)
    case None =>
    case Some(batches) =>
      var main := Candidates(req, batches);
      CandidatesServable(req, batches);
      RankedServable(req, main);
      ExclusiveServable(req);
      if RankerRepeatsNothing(req.rank) {
        RankedDistinct(req, main);
      }
      ShownServable(req, main);
  }

  lemma {:induction false} ResponseGuarantee(req: Request, items: seq<Item>, ret: int)
    requires Presentable(req, items)
    ensures var resp := ResponseOf(items, ret);
            && |resp.itemIds| == |resp.recall| == (if ret > 0 then Min(ret, |items|) else |items|)
            && (forall k :: 0 <= k < |resp.itemIds| ==> resp.itemIds[k] == items[k].id && resp.recall[k] == (items[k].id, items[k].recallType))
            && (RankerRepeatsNothing(req.rank) ==> Distinct(resp.itemIds))
            && (forall k :: 0 <= k < |resp.recall| ==> Exchanged(req, resp.recall[k].0, resp.recall[k].1) || Servable(req, resp.recall[k].0))
  {
    CapDistinctIds(ret, items);
    var shown := Cap(ret, items);
    assert forall k :: 0 <= k < |shown| ==> shown[k] == items[k] && items[k] in items;
  }

  lemma {:induction false} CapDistinctIds(cap: int, items: seq<Item>)
    ensures Distinct(Ids(items)) ==> Distinct(Ids(Cap(cap, items)))
  {
    if Distinct(Ids(items)) {
      CapDistinct(cap, items);
    }
  }

  lemma {:induction false} ShownServable(req: Request, main: seq<Item>)
    requires F.IsShuffle(req.shuffle)
    requires forall it :: it in RankedList(req, main) ==> Servable(req, it.id)
    requires forall lane, it :: lane in Exclusive(req) && it in Exclusive(req)[lane] ==> Servable(req, it.id)
    ensures forall it :: it in ShownList(req, main) ==> Exchanged(req, it.id, it.recallType) || Servable(req, it.id)
    ensures Distinct(Ids(RankedList(req, main))) ==> Distinct(Ids(ShownList(req, main)))
  {
    if req.show.Some? {
      var ranked, strategies, pool := RankedList(req, main), req.show.value, Exclusive(req);
      var p := (it: Item) => Exchanged(req, it.id, it.recallType) || Servable(req, it.id);
      assert forall it :: p(it) <==> p(S.Unscored(it));
      S.ChainPasses(p, ranked, strategies, pool, req.exchange, req.shuffle);
      forall it | it in ShownList(req, main)
        ensures Exchanged(req, it.id, it.recallType) || Servable(req, it.id)
      {
        assert p(it);
      }
      if Distinct(Ids(ranked)) {
        S.ChainDistinct(ranked, strategies, pool, req.exchange, req.shuffle);
      }
    }
  }

  // ---------- the stages ----------

  method MarkItemPortraits(items: seq<Item>, portraits: Portraits) returns (r: Option<seq<Item>>)
    ensures r == Marked(items, portraits)
  {
    if |items| > 0 && portraits.Store? {
      if portraits.fails(Ids(items)) {
        return None;
      }
    }
    var out: seq<Item> := [];
    for i := 0 to |items|
      invariant |out| == i && forall c :: 0 <= c < i ==> out[c] == items[c].(hasPortrait := HasPortrait(portraits, items[c].id))
    {
      var it := items[i];
      out := out + [it.(hasPortrait := portraits.NoStore? || it.id in portraits.present)];
    }
    assert out == seq(|items|, i requires 0 <= i < |items| => items[i].(hasPortrait := HasPortrait(portraits, items[i].id)));
    r := Some(out);
  }

  method DropWithoutPortrait(items: seq<Item>) returns (out: seq<Item>)
    ensures out == Filters.Filter(items, (it: Item) => it.hasPortrait)
  {
    out := Filters.ApplyFeatureLess(items);
    Filters.KeepSame(items, (it: Item) => Filters.FeatureAdmits(Filters.FeatureLess, it), (it: Item) => it.hasPortrait, |items|);
  }

  /** The shared middle of both lane loops. */
  method RunLane(rule: RecallRule, reply: seq<Item>, portraits: Portraits) returns (r: Option<seq<Item>>)
    ensures r == Batch(rule, reply, portraits)
  {
    var raw := reply;
    if rule.useTopKIndex > 0 && |raw| > rule.useTopKIndex {
      raw := raw[..rule.useTopKIndex];
    }
    var marked := MarkItemPortraits(raw, portraits);
    if marked.None? {
      return None;
    }
    var kept := DropWithoutPortrait(marked.value);
    var mergeMax := rule.mergeMaxNum;
    if mergeMax <= 0 {
      mergeMax := rule.recallNum;
    }
    var batch := ApplySampleFoldAndCap(kept, rule.sampleFold, mergeMax);
    r := Some(batch);
  }

  method RunExclusiveLanes(calls: seq<LaneCall>, portraits: Portraits) returns (pool: ExclusivePool)
    ensures pool == Pool(calls, portraits, |calls|)
  {
    pool := map[];
    for i := 0 to |calls|
      invariant pool == Pool(calls, portraits, i)
    {
      pool := RunExclusiveLane(calls, i, portraits, pool);
    }
  }

  /** One turn of the loop: a failing or empty lane is skipped. */
  method RunExclusiveLane(calls: seq<LaneCall>, i: nat, portraits: Portraits, pool: ExclusivePool) returns (next: ExclusivePool)
    requires i < |calls|
    ensures pool == Pool(calls, portraits, i) ==> next == Pool(calls, portraits, i + 1)
  {
    next := pool;
    if calls[i].reply.LaneFailed? || |calls[i].reply.items| == 0 {
      return;
    }
    var batch := RunLane(calls[i].rule, calls[i].reply.items, portraits);
    if batch.None? {
      return;
    }
    if |batch.value| > 0 {
      next := pool[calls[i].rule.recallType := batch.value];
    }
  }

  lemma {:induction false} FailureIsFinal(calls: seq<LaneCall>, portraits: Portraits, m: nat, n: nat)
    requires m <= n <= |calls| && MainBatches(calls, portraits, m).None?
    ensures MainBatches(calls, portraits, n).None?
  {
    if m < n {
      FailureIsFinal(calls, portraits, m, n - 1);
    }
  }

  method RunRecallLanes(calls: seq<LaneCall>, portraits: Portraits) returns (r: Option<seq<seq<Item>>>)
    ensures r == MainBatches(calls, portraits, |calls|)
  {
    r := Some([]);
    for i := 0 to |calls|
      invariant r.Some? && r == MainBatches(calls, portraits, i)
    {
      r := RunMainLane(calls, i, portraits, r.value);
      if r.None? {
        FailureIsFinal(calls, portraits, i + 1, |calls|);
        return;
      }
    }
  }

  /** One turn of the loop: a failing lane fails the request. */
  method RunMainLane(calls: seq<LaneCall>, i: nat, portraits: Portraits, batches: seq<seq<Item>>) returns (r: Option<seq<seq<Item>>>)
    requires i < |calls| && MainBatches(calls, portraits, i) == Some(batches)
    ensures r == MainBatches(calls, portraits, i + 1)
  {
    if calls[i].reply.LaneFailed? {
      return None;
    }
    var batch := RunLane(calls[i].rule, calls[i].reply.items, portraits);
    if batch.None? {
      return None;
    }
    r := Some(batches + [batch.value]);
  }

  method BuildResponse(items: seq<Item>, capCount: int) returns (resp: Response)
    ensures resp == ResponseOf(items, capCount)
  {
    var limit := |items|;
    if capCount > 0 && capCount < limit {
      limit := capCount;
    }
    var ids: seq<int>, recall: seq<(int, string)> := [], [];
    for i := 0 to limit
      invariant |ids| == |recall| == i
      invariant forall c :: 0 <= c < i ==> ids[c] == items[c].id && recall[c] == (items[c].id, items[c].recallType)
    {
      ids := ids + [items[i].id];
      recall := recall + [(items[i].id, items[i].recallType)];
    }
    resp := Response(ids, recall);
    assert resp.itemIds == Ids(Cap(capCount, items));
  }

  method RankAndShow(req: Request, main: seq<Item>, exclusive: ExclusivePool, asked: int) returns (outcome: Outcome)
    requires F.IsShuffle(req.shuffle) && exclusive == Exclusive(req)
    requires asked == if req.retCount <= 0 && req.finalRetCount > 0 then ToInt32(req.finalRetCount) else req.retCount
    ensures outcome == if main != [] && req.rank.RankFailed? then RankError
                       else Done(ShownList(req, main), ReturnCount(req, main), ResponseOf(ShownList(req, main), ReturnCount(req, main)))
  {
    var out, ret := main, asked;
    if |main| > 0 {
      if ret <= 0 {
        ret := ToInt32(|main|);
      }
      if req.rank.RankFailed? {
        return RankError;
      }
      if |req.rank.groups| > 0 && |req.rank.groups[0]| > 0 {
        out := RankReorder.ReorderByRank(main, req.rank.groups[0]);
      }
    }
    if req.show.Some? {
      out := S.ApplyStrategies(out, req.show.value, exclusive, req.exchange, req.shuffle);
    }
    var resp := BuildResponse(out, ret);
    outcome := Done(out, ret, resp);
  }

  method Run(req: Request) returns (outcome: Outcome)
    requires F.IsShuffle(req.shuffle)
    ensures outcome == Outcomes(req)
  {
    var exclusive := RunExclusiveLanes(req.exclusiveCalls, req.portraits);
    var batches := RunRecallLanes(req.mainCalls, req.portraits);
    if batches.None? {
      return RecallError;
    }
    var main := MergeRecallLanes([], batches.value, req.allMergeNum);
    if req.filter.Some? {
      var g := req.filter.value;
      main := Filters.ApplyFilters(main, g.rules, g.feats, req.exposure);
      exclusive := Filters.ApplyToExclusivePool(exclusive, g.rules, g.feats, req.exposure);
      if g.keepItemNum > 0 && |main| > g.keepItemNum {
        main := main[..g.keepItemNum];
      }
    }
    assert main == Candidates(req, batches.value) && exclusive == Exclusive(req);
    if |main| == 0 && |exclusive| == 0 {
      return Done([], 0, Response([], []));
    }
    var ret := req.retCount;
    if ret <= 0 && req.finalRetCount > 0 {
      ret := ToInt32(req.finalRetCount);
    }
    outcome := RankAndShow(req, main, exclusive, ret);
  }
}
