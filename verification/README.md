# A verified model of the recommender

A Dafny 4.11 model of the list algorithms, the scoring arithmetic and the small concurrent components of the
recommender, with proofs of what they promise. `dafny verify dfyconfig.toml` checks everything.

| file | what it models |
|---|---|
| `Items.dfy` | candidates, ids, caps, positions: the vocabulary of all stages |
| `FunnelMerge.dfy` | lane merge, the keep-first passes, sampling |
| `Filters.dfy` | exposure, portrait and label filters, on the main list and on the exclusive lanes |
| `Mmr.dfy`, `Homogen.dfy`, `ForcedInsert.dfy`, `ShowControl.dfy` | the show strategies and their chain |
| `RankReorder.dfy` | putting scored candidates back in order, in all three copies |
| `Center.dfy`, `Service.dfy` | a whole center request, and the same with the rank engine behind it |
| `Fm.dfy`, `RankEngine.dfy`, `Sorting.dfy` | the factorisation machine, the rank pipeline, the unstable sort |
| `RedisDecrypt.dfy` | password chaining with its trailer byte |
| `Upstream.dfy`, `Fleet.dfy` | round robin and failover: one call, and any number of interleaved calls |
| `KafkaPool.dfy` | the push pool: a step system, and the pool object whose operations take its steps |
| `TagQuota.dfy` | the tag quota and the CrossTag lane |

Loops of the original are methods with loops, proved against a specification function; the lemmas then prove what the
original promises about that function. Scores and weights are exact reals. An unstable sort is any descending
permutation, and a shuffle any permutation, so claims hold for every outcome. Answers of other services (lanes, portrait
store, ranker, TF-Serving, endpoints, exchange table, tag lists) are inputs. Lemmas whose name ends in `Means` say what a
specification function returns without its helpers, with the constants as numbers; those about one branch or one
constant have no row below.

Six places where the code does not do what its settings or comments suggest (the model follows the code):

- MMR gives diversity of recall types for all non-negative scores only with a constant below 1/2; its default is 1/2
  (`Mmr.DiverseExactlyBelowHalf`).
- Paged forced insertion skips a window of main items when the inserts run out before the last page, because the tail
  starts at the configured number of pages; exactly when an id is lost is `ForcedInsert.MainSurvivesIff`, with an input in
  `ForcedInsert.MainCanBeLost`. Inserts beyond the last page are not shown either, unless the main list is empty
  (`ForcedInsert.ForcedShownIff`, `ForcedInsert.InsertCanBeLost`).
- The homogen strategy keeps to its top N when there is no exchange table. With one it exchanges within the top N, and
  every position's own or substituted id stays (`Homogen.NothingLost`), so the output is longer than N unless enough positions yield nothing:
  `Homogen.TopNHoldsIff`, `Homogen.TopNHoldsByCount`, and an input in `Homogen.TopNFails`.
- The empty password encrypts to an empty string, which decryption refuses (`RedisDecrypt.RoundTrip`).
- "Try all endpoints once" (pkg/upstream/httpcall.go:17) holds for a call whose draws are not interleaved with others.
  Otherwise a call can fail without trying every endpoint (`Fleet.FailedTriedAllIff`, `Fleet.InterleavedMisses`).
- The perturbation of the final rank is a hundredth of a score that is negative for some ids, so its effect can reach
  nearly 0.02 (`RankEngine.TightBoundIff`).

## Model

| member | source | states |
|---|---|---|
| Mmr.DiverseExactlyBelowHalf | services/recommend/internal/centerconfig/apply.go:139-187 | For each λ in (0,1]: no recall type is repeated while one is still missing, on every non-negative input, if and only if λ < 1/2 |
| Mmr.DiverseBelowHalf | services/recommend/internal/centerconfig/apply.go:162-187 | Below 1/2 and with non-negative scores every recall type present comes out once before any type repeats, up to the output cap |
| Mmr.NotDiverseFromHalf | services/recommend/internal/centerconfig/apply.go:140-142 | A non-negative list on which diversity fails for every λ from 1/2 on, the default 1/2 included |
| Mmr.RepeatNeedsLead | services/recommend/internal/centerconfig/apply.go:165-180 | A repeat of a type beats an available new type only with a lead of (1-λ)/λ in normalised relevance, whatever the scores |
| Mmr.ExactLength | services/recommend/internal/centerconfig/apply.go:162-187 | The output length for every input and every sign of scores: the cap or the number of items that can clear the bar of -1, whichever is smaller; which items these are is stated without the loop |
| Mmr.NonNegativeLength | services/recommend/internal/centerconfig/apply.go:162-187 | Non-negative scores never end the loop early: the length is min(cap, n) |
| Mmr.BestPrefixOfType | services/recommend/internal/centerconfig/apply.go:162-187 | Each recall type contributes its best prefix by score descending, ties in input order; over all items when λ is 1 |
| Mmr.PlainSortWhenLambdaIsOne | services/recommend/internal/centerconfig/apply.go:139-192 | With λ = 1 the output is the stable descending sort, truncated |
| Mmr.PicksDistinct | services/recommend/internal/centerconfig/apply.go:160-187 | No input position is picked twice |
| Mmr.PicksAreGreedy | services/recommend/internal/centerconfig/apply.go:162-187 | Every pick has the maximal trade-off among the unused positions, the earliest on ties, and exceeds -1; a short result means nothing else exceeds it |
| Mmr.GreedyRunUnique | services/recommend/internal/centerconfig/apply.go:162-187 | That description has exactly one solution, so it says everything about the result |
| Mmr.Rearrange | services/recommend/internal/centerconfig/apply.go:135-193 | The loops return the items at the greedy picks; lists shorter than two pass through |
| Mmr.RearrangedMeans | services/recommend/internal/centerconfig/apply.go:135-193 | The whole strategy by raw scores, for lists of two or more: with `top` the largest score (1 if none is positive), each pick maximises λ·score less (1-λ)·top for a type already picked, the earliest on ties, and lies above -top; picking stops at the configured size, at the end, or when nothing lies above the bar |
| Mmr.PicksScale | services/recommend/internal/centerconfig/apply.go:147-193 | Only the proportions of the scores matter: multiplying them all by any positive factor changes no pick |
| Mmr.NormMeans | services/recommend/internal/centerconfig/apply.go:148-156 | The divisor is at least every score and equals one of them if some score is positive, and is 1 otherwise |
| Mmr.PickRounds | services/recommend/internal/centerconfig/apply.go:160-187 | The outer loop with its `used` marks computes the greedy picks and stops early exactly when no item wins a round |
| Mmr.Scan | services/recommend/internal/centerconfig/apply.go:163-181 | One round finds the first unused position of maximal gain above -1 |
| Mmr.TradeOff | services/recommend/internal/centerconfig/apply.go:169-176 | The inner loop computes relevance less the penalty for a type already picked |
| Mmr.AllRelevances | services/recommend/internal/centerconfig/apply.go:147-159 | Scores are divided by the largest one, or by 1 when none is positive |
| ForcedInsert.MainSurvivesIff | services/recommend/internal/centerconfig/show.go:141-167 | For all inputs, repeats and inserts drawn from the main list included: every main id survives if and only if every id of the skipped window also stands outside the window or among the inserts that find a page |
| ForcedInsert.MainSurvivesByCount | services/recommend/internal/centerconfig/show.go:141-167 | When main ids neither repeat nor stand among the inserts, that is: there is no page, or the inserts exceed (actualPages-1)·pageInsert |
| ForcedInsert.PagedShows | services/recommend/internal/centerconfig/show.go:150-167 | For all inputs, exactly which ids the paged result shows: those of the pages' main items, of the tail, and of the inserts that find a page |
| ForcedInsert.ForcedShownIff | services/recommend/internal/centerconfig/show.go:93-102 | Every forced id is shown if and only if there are no pages, or the main list is empty, where the queue is prepended instead, or the ids of inserts that find no page stand elsewhere in the layout |
| ForcedInsert.InsertsSurviveByCount | services/recommend/internal/centerconfig/show.go:141-167 | When insert ids neither repeat nor stand in the main list, all inserts are shown by the pages if and only if there are at most actualPages·pageInsert of them |
| ForcedInsert.MainCanBeLost | services/recommend/internal/centerconfig/show.go:152-167 | Four main items, two pages, one insert: a main id is lost |
| ForcedInsert.InsertCanBeLost | services/recommend/internal/centerconfig/show.go:152-167 | Two main items, one page, two inserts: an insert is lost |
| ForcedInsert.InsertsSurviveIff | services/recommend/internal/centerconfig/show.go:150-167 | The same for the paged form on its own |
| ForcedInsert.PagesAreTaken | services/recommend/internal/centerconfig/show.go:96-102 | With a non-empty queue the prepending fallback is taken only on an empty main list |
| ForcedInsert.NothingSkippedIff | services/recommend/internal/centerconfig/show.go:152-166 | For all inputs: the window between the pages written and the tail is empty exactly under that guard |
| ForcedInsert.AllKept | services/recommend/internal/centerconfig/show.go:152-167 | For all inputs, repeats included: when no window is skipped every main id is in the layout |
| ForcedInsert.LayoutConserves | services/recommend/internal/centerconfig/show.go:150-166 | Before deduplication every item occurs as often as in the main list and the paged inserts together, less its occurrences in the window ori[pagesDone·pageOri .. actualPages·pageOri) |
| ForcedInsert.PageLayout | services/recommend/internal/centerconfig/show.go:152-163 | Page p starts at position p·pageSize with its pageOri main items at their exact positions, followed by its inserts |
| ForcedInsert.PageFits | services/recommend/internal/centerconfig/show.go:145-157 | The bound test of the copying loop never cuts a page short |
| ForcedInsert.PagesDoneIsCeiling | services/recommend/internal/centerconfig/show.go:152-163 | The number of pages written is min(actualPages, ceil(inserts/pageInsert)) |
| ForcedInsert.InsertsShown | services/recommend/internal/centerconfig/show.go:158-161 | The pages written hold the inserts that actualPages full pages would hold |
| ForcedInsert.ForcedDistinct | services/recommend/internal/centerconfig/show.go:81-103 | Distinct ids in, distinct ids out, in the paged and the prepending form |
| ForcedInsert.ForcedSources | services/recommend/internal/centerconfig/show.go:81-103 | Every item of the result is from the main list or an exclusive lane |
| ForcedInsert.UnpagedLeads | services/recommend/internal/centerconfig/show.go:170-188 | Without pages the deduplicated inserts lead the list and no main id is lost |
| ForcedInsert.ApplyForcedInsert | services/recommend/internal/centerconfig/show.go:81-103 | The queue over all rules, then pages, then the prepending fallback |
| ForcedInsert.ForcedMeans | services/recommend/internal/centerconfig/show.go:81-103 | Which list comes out for which queue, paging settings and main list |
| ForcedInsert.QueueMeans | services/recommend/internal/centerconfig/show.go:84-92 | Each rule's contribution stands behind those of the rules before it |
| ForcedInsert.ContributionMeans | services/recommend/internal/centerconfig/show.go:85-136 | A rule contributes the first items, in order or as shuffled and as many as it asks for, of its exclusive lane, or of the main items of its type at increasing positions when that lane is missing or empty |
| ForcedInsert.TailLayout | services/recommend/internal/centerconfig/show.go:150-166 | Behind the completed pages, whose length is given in numbers, stands the main list from actualPages·pageOri on, nothing else |
| ForcedInsert.ActualPagesMean | services/recommend/internal/centerconfig/show.go:145-149 | actualPages is the largest number, up to the configured one, of whole pages that fit into the main list |
| ForcedInsert.FillQueue | services/recommend/internal/centerconfig/show.go:85-92 | The loop over rules gathers their contributions in order |
| ForcedInsert.PickForRule | services/recommend/internal/centerconfig/show.go:87-91 | One rule: from its exclusive lane, or from the main list when that is empty |
| ForcedInsert.ApplyPaged | services/recommend/internal/centerconfig/show.go:138-168 | The paged layout without repeats, or the prepending form when a page has no room for main items |
| ForcedInsert.LayOut | services/recommend/internal/centerconfig/show.go:150-166 | The pages followed by the main list from actualPages pages on |
| ForcedInsert.FillPages | services/recommend/internal/centerconfig/show.go:151-163 | The page loop, which stops when pages or inserts run out |
| ForcedInsert.FillPage | services/recommend/internal/centerconfig/show.go:153-161 | The two copying loops of one page and the advance of the insert index |
| ForcedInsert.PickForcedInsert | services/recommend/internal/centerconfig/show.go:115-136 | The first forcedInsertCount of the lane in order or of any shuffle of it |
| ForcedInsert.PickFromMain | services/recommend/internal/centerconfig/show.go:105-113 | The main items of one recall type, in order |
| Homogen.TopNHoldsIff | services/recommend/internal/centerconfig/show.go:34-78 | For every input and a positive topN the output keeps to topN items if and only if there is no table, or the positions that yield nothing bring the list down to it |
| Homogen.TopNHoldsByCount | services/recommend/internal/centerconfig/show.go:34-78 | For distinct ids that no substitute names: if and only if there is no table or the list has at most topN items |
| Homogen.TopNFails | services/recommend/internal/centerconfig/show.go:46-77 | Two items, top 1, and a table about another id: both come out |
| Homogen.NothingLost | services/recommend/internal/centerconfig/show.go:55-77 | For every input each position's own id stands in the output, or, within the top N, that of its substitute; past the top N always its own |
| Homogen.SilentCounts | services/recommend/internal/centerconfig/show.go:55-77 | The output is the input less exactly the positions that yield nothing |
| Homogen.EmittedIsShown | services/recommend/internal/centerconfig/show.go:53-78 | What the `seen` map holds is exactly the ids of the output |
| Homogen.NothingOnlyAfterSubstitute | services/recommend/internal/centerconfig/show.go:55-77 | For distinct inputs a position yields nothing exactly when its own id already came out as the substitute of an earlier position and it has no fresh substitute itself |
| Homogen.OwnIdEmittedEarlier | services/recommend/internal/centerconfig/show.go:55-77 | For distinct inputs an id is out before its own position only as a substitute |
| Homogen.ScoresAreSubsequence | services/recommend/internal/centerconfig/show.go:55-77 | The output scores are those of an increasing choice of input positions; each output item is that input item or its substitute |
| Homogen.ExchangedDistinct | services/recommend/internal/centerconfig/show.go:53-78 | With an exchange table the output never repeats an id, whatever the input and the table |
| Homogen.HomogenDistinct | services/recommend/internal/centerconfig/show.go:33-79 | Distinct ids stay distinct on every path, the capped fallback included |
| Homogen.HomogenSources | services/recommend/internal/centerconfig/show.go:33-79 | Every output item is an input item or the substitute the table names for one |
| Homogen.ApplyHomogenContent | services/recommend/internal/centerconfig/show.go:33-79 | The two loops with the `seen` map compute the exchange; without a table the list is capped instead |
| Homogen.ExchangeRule | services/recommend/internal/centerconfig/show.go:55-77 | Given what is out before it, each position adds its positive other id from the table with empty features and the type HomogeneityContent, or itself, or nothing |
| Homogen.HomogenMeans | services/recommend/internal/centerconfig/show.go:33-52 | Which of the three lists comes out: all, a prefix, or the exchange of the first topN |
| Homogen.ApplyHomogenCap | services/recommend/internal/centerconfig/apply.go:128-133 | The result is a prefix of the list, of length min(topN, n) for a positive topN and the whole list otherwise |
| ShowControl.ChainDistinct | services/recommend/internal/centerconfig/show.go:16-31 | For any strategies in any order, distinct ids in give distinct ids out |
| ShowControl.ChainInClosure | services/recommend/internal/centerconfig/show.go:16-31 | Every output id lies in each set that contains the main and exclusive ids and is closed under the exchange map |
| ShowControl.ChainWithoutExchange | services/recommend/internal/centerconfig/show.go:16-31 | Without a homogen strategy the exchange table plays no part |
| ShowControl.ChainPasses | services/recommend/internal/centerconfig/show.go:16-31 | Any item property that survives re-scoring, holds of all exclusive items and of all substitutes holds of the whole output if it holds of the input |
| ShowControl.StepDistinct | services/recommend/internal/centerconfig/show.go:18-29 | Each single strategy keeps ids distinct |
| ShowControl.ScoreControlKeepsIds | services/recommend/internal/centerconfig/apply.go:96-111 | Score control changes neither ids nor order |
| ShowControl.ApplyScoreControl | services/recommend/internal/centerconfig/apply.go:96-111 | Scores of the listed recall types are multiplied in place on a copy; other settings leave the list alone |
| ShowControl.ApplyStrategies | services/recommend/internal/centerconfig/show.go:16-31 | The loop that reassigns the list is the composition of the steps |
| ShowControl.ChainMeans | services/recommend/internal/centerconfig/show.go:16-31 | Strategies run in the configured order, each on what the ones before it left |
| ShowControl.ScoreControlMeans | services/recommend/internal/centerconfig/apply.go:96-111 | At each position: the score of a listed type is multiplied by a positive factor under the configured method, and nothing else changes |
| ShowControl.ApplyOne | services/recommend/internal/centerconfig/show.go:19-28 | The switch over the configured kind; unknown kinds change nothing |
| FunnelMerge.MergeRecallLanes | pkg/recsyskit/funnel_merge.go:4-32 | With its three early exits, the merge is the first allMergeNum of the keep-first deduplication of all lanes in order, all of it without a positive cap |
| FunnelMerge.AppendUnique | pkg/recsyskit/funnel_merge.go:19-30 | The closure on one lane extends the deduplication by that lane, or ends with the final result |
| FunnelMerge.AppendBatch | pkg/recsyskit/funnel_merge.go:7-18 | The loop of the closure merges a prefix of the batch, all of it unless the cap is reached |
| FunnelMerge.CapReached | pkg/recsyskit/funnel_merge.go:14-16 | Once the cap is reached nothing that follows can change the result |
| FunnelMerge.KeepFirstIsFirstOccurrences | pkg/recsyskit/funnel_merge.go:8-13 | Keep-first selects exactly the positions of first occurrences, in increasing order |
| FunnelMerge.KeepFirstIds | pkg/recsyskit/funnel_merge.go:8-13 | Each id exactly once, none lost, none added |
| FunnelMerge.KeepFirstDistinct | services/recommend/internal/centerconfig/show.go:190-201 | A list without repeats passes through unchanged |
| FunnelMerge.MergeGuarantee | pkg/recsyskit/funnel_merge.go:4-32 | A merge has distinct ids, all from the lanes, and its length is min(cap, distinct ids available) |
| FunnelMerge.PrependUnique | services/recommend/internal/centerconfig/show.go:170-188 | An instance of keep-first: prefix, then items |
| FunnelMerge.DedupeKeepFirst | services/recommend/internal/centerconfig/show.go:190-201 | An instance of keep-first |
| FunnelMerge.ApplySampleFoldAndCap | pkg/recsyskit/funnel_merge.go:35-51 | Every fold-th item from the first on, then the cap |
| FunnelMerge.EveryFoldMeans | pkg/recsyskit/funnel_merge.go:35-46 | Element k of the sample is item k·fold, for every k that has one |
| Filters.FilteredMembers | services/recommend/internal/centerconfig/apply.go:11-51 | An item is in the filtered list exactly when it was in the list and every configured filter admits it |
| Filters.FilterOrder | services/recommend/internal/centerconfig/apply.go:11-51 | A filter selects, at increasing positions, exactly the items that satisfy its condition |
| Filters.AdmittedMeans | services/recommend/internal/centerconfig/apply.go:11-81 | When an item passes all configured filters, without naming any of them: impressions within every positive limit, a portrait, the wanted label |
| Filters.PoolMeans | services/recommend/internal/filter/exclusive.go:9-22 | A lane survives exactly if one of its items is admitted, and holds exactly those |
| Filters.KeepFuses | services/recommend/internal/centerconfig/apply.go:12-21 | Two filters in a row are one filter by both conditions |
| Filters.KeepDistinct | services/recommend/internal/centerconfig/apply.go:24-36 | Filtering keeps ids distinct |
| Filters.FilterLiveExposure | services/recommend/internal/centerconfig/apply.go:24-36 | Drops exactly the items over a positive limit when exposure is known |
| Filters.ApplyRuleFilters | services/recommend/internal/filter/registry.go:9-11 | The loop over rules keeps exactly the items all rules admit |
| Filters.ApplyFeatureLess | services/recommend/internal/filter/portrait.go:6-14 | Keeps exactly the items with a portrait |
| Filters.FilterLabelWhiteList | services/recommend/internal/centerconfig/apply.go:67-81 | Keeps exactly the items with the wanted label, all of them when none is configured |
| Filters.ApplyFeatureFilters | services/recommend/internal/filter/registry.go:14-26 | The loop over feature filters keeps exactly the items all of them admit |
| Filters.ApplyToExclusivePool | services/recommend/internal/filter/exclusive.go:9-22 | Every lane filtered by the same filters; lanes left empty disappear |
| RankReorder.ReorderConserves | services/recommend/internal/pipeline/center.go:169-189 | For distinct items each id comes out max(1, its number of scores) times and nothing else comes out, however much the ranker truncated |
| RankReorder.ReorderedMeans | services/recommend/internal/pipeline/center.go:169-189 | The whole list for every input: first the scores of known ids in their order, each on the last item with that id and with its rank score, then the items without a score, unchanged and in order; nothing else |
| RankReorder.ReorderedCounts | services/recommend/internal/pipeline/center.go:169-189 | The count of each id for every input, repeated ids included |
| RankReorder.ReorderDistinctIff | services/recommend/internal/pipeline/center.go:169-189 | The result is free of repeats exactly when no candidate is scored twice |
| RankReorder.ScoredOrder | services/recommend/internal/pipeline/center.go:176-182 | Scored items come first, in score order, each with its rank score |
| RankReorder.RestOrder | services/recommend/internal/pipeline/center.go:183-187 | The unscored part is exactly the items without a score, unchanged and in their original order |
| RankReorder.KnownPositions | services/recommend/internal/pipeline/center.go:176-182 | The scores used are exactly those of known ids, in order |
| RankReorder.ReorderSources | services/recommend/internal/pipeline/center.go:169-189 | Every item out is an item in, up to its score |
| RankReorder.ReorderByRank | services/recommend/internal/logic/recommendlogic.go:233-253 | The loops of this copy, and of the identical one in center.go, compute the reordered list |
| RankReorder.ReorderByRankEarly | pkg/recsyskit/pipeline.go:77-100 | The copy with the early return computes the same list |
| Center.EndToEnd | services/recommend/internal/pipeline/center.go:24-63 | Every answered request: distinct ids if the ranker repeats none, response rows in list order with id and recall type, and every entry that is not a substitute named by the exchange table has a portrait and is within every active exposure limit, exclusive lanes included |
| Center.ResponseSize | services/recommend/internal/pipeline/center.go:58-62 | How many rows are answered: the requested count, else the configured one reduced to 32 bits, else the number of candidates, as far as there are that many items |
| Center.OrderWithoutStrategies | services/recommend/internal/pipeline/center.go:138-167 | Without show strategies the answer is the scored candidates in score order, then the others in merge order |
| Center.CandidatesMean | services/recommend/internal/pipeline/center.go:38-53 | What is ranked: the keep-first merge of the batches, cut, then what the filter group admits of it, cut again |
| Center.BatchMeans | services/recommend/internal/pipeline/center.go:96-111 | A batch, element by element: of the first useTopKIndex items those with a portrait, of those every sampleFold-th, of those as many as mergeMaxNum or else recallNum allows |
| Center.OutcomeMeans | services/recommend/internal/pipeline/center.go:24-63 | A request fails exactly if some main lane does, or if the ranker fails on a non-empty candidate list |
| Center.AnsweredMeans | services/recommend/internal/pipeline/center.go:95-104 | A lane fails exactly if its recall does, or the portrait lookup of its first useTopKIndex items |
| Center.PoolMeans | services/recommend/internal/pipeline/center.go:65-90 | The exclusive lane of a type is the last one of that type that is not empty; there is none exactly if all are empty |
| Center.ExclusiveMeans | services/recommend/internal/pipeline/center.go:49-53 | The exclusive lanes as recalled, or with what the filter group admits of each |
| Center.EndToEndWithoutExchange | services/recommend/internal/pipeline/center.go:24-63 | With no homogen strategy configured every id of every response has a portrait and is within every active limit |
| Center.ShownGuarantee | services/recommend/internal/pipeline/center.go:138-167 | The list after rank and show control meets the end-to-end conditions before it is cut |
| Center.CandidatesServable | services/recommend/internal/pipeline/center.go:38-53 | What is ranked has distinct ids, all with a portrait and within the limits |
| Center.ExclusiveServable | services/recommend/internal/filter/exclusive.go:9-22 | The exclusive lanes are held to the same standard |
| Center.RankLosesNothing | services/recommend/internal/pipeline/center.go:155-157 | Ranking neither loses nor adds a candidate, whatever the ranker answers |
| Center.RankedDistinct | services/recommend/internal/pipeline/center.go:155-157 | Reordering keeps ids distinct if the ranker repeats none |
| Center.Run | services/recommend/internal/pipeline/center.go:24-63 | The stages in order, the empty response, and the errors of recall and rank |
| Center.RankAndShow | services/recommend/internal/pipeline/center.go:138-167 | Rank errors, reordering only by a non-empty first group, show control, response |
| Center.RunRecallLanes | services/recommend/internal/pipeline/center.go:92-115 | One failing lane or portrait lookup fails the request |
| Center.RunExclusiveLanes | services/recommend/internal/pipeline/center.go:65-90 | A failing or empty lane is skipped, a later lane of the same type replaces an earlier one |
| Center.RunMainLane | services/recommend/internal/pipeline/center.go:95-112 | One turn of the loop over main lanes |
| Center.RunExclusiveLane | services/recommend/internal/pipeline/center.go:68-87 | One turn of the loop over exclusive lanes |
| Center.RunLane | services/recommend/internal/pipeline/center.go:72-84 | Top-K cut, portraits, fold and cap of one lane |
| Center.MarkItemPortraits | pkg/featurestore/portrait.go:10-49 | Marks every item, or fails as a whole |
| Center.DropWithoutPortrait | pkg/featurestore/portrait.go:52-63 | Keeps exactly the items with a portrait |
| Center.BuildResponse | services/recommend/internal/pipeline/center.go:191-205 | Ids and recall types of the first entries, as many as asked for |
| Service.ServedDistinct | services/recommend/internal/pipeline/center.go:138-167 | With the engine as ranker, in pipeline or mock mode, a response never repeats an id, for every model, fine score, sort outcome and truncation: the assumption about the ranker is discharged |
| Service.AnswerRepeatsNothing | services/rank/internal/rankengine/engine.go:74-158 | Every answer of the engine to distinct ids, in either mode, has distinct ids |
| Service.MockRepeatsNothing | services/rank/internal/rankengine/engine.go:160-187 | The mock answer to distinct ids has distinct ids |
| Service.EngineRepeatsNothing | services/rank/internal/rankengine/engine.go:106-157 | For distinct ids the engine scores no candidate twice |
| RankEngine.DroppedBarelyBetter | services/rank/internal/rankengine/engine.go:99-157 | For every outcome of the three unstable sorts, without TF-Serving: a dropped item exceeds a kept one in PreRank by less than 0.02, and by less than 0.01 when neither mock argument is negative or overflows |
| RankEngine.DroppedGap | services/rank/internal/rankengine/engine.go:99-157 | A dropped item's lead in PreRank over a kept one is at most a hundredth of the kept one's lead in the mock score |
| RankEngine.ScoresOfRanked | services/rank/internal/rankengine/engine.go:106-142 | With any limits and sort outcomes each ranked candidate has, from one place in what the truncations left, its PreRank, the fine score of TF-Serving at that place or the mock score of salt 2 where the prediction failed, and a final score a hundredth of the mock score of salt 3 above it |
| RankEngine.LeftOverGap | services/rank/internal/rankengine/engine.go:122-157 | With or without TF-Serving a left-over candidate's fine score leads a kept one's by at most 0.01·(mock of the kept − mock of the left over) |
| RankEngine.AnswerMeans | services/rank/internal/rankengine/engine.go:99-157 | Every row of an answer: an id of the request with the PreRank of its features, fine and final score as above, in descending final score, and as many rows as the limits leave |
| RankEngine.MockMeans | services/rank/internal/rankengine/engine.go:189-191 | The mock score is the signed remainder by 1000, in thousandths, of the 64-bit number congruent to 31·user + 17·id + 13·salt |
| RankEngine.CutMeans | services/rank/internal/rankengine/engine.go:107-121 | The two truncations leave a prefix as long as the positive ones of the two sizes allow |
| RankEngine.GapBoundIff | services/rank/internal/rankengine/engine.go:99-157 | For two ids and any c > 0: over all models, features, limits and runs that drop the one and keep the other the PreRank gap is below c, if and only if 0.01·(mock of the kept − mock of the dropped) < c |
| RankEngine.GapReached | services/rank/internal/rankengine/engine.go:99-157 | A model, features and a run that reach any positive gap up to 0.01·(mock of the kept − mock of the dropped), the scores coming from the scoring stage |
| RankEngine.TightBoundIff | services/rank/internal/rankengine/engine.go:140-157 | The bound of 0.01 holds for two ids if and only if the kept one's mock score leads by less than 1, which the caller can compute from the ids |
| RankEngine.NegativeIdsNeedTheWiderBound | services/rank/internal/rankengine/engine.go:189-191 | An instance with a negative id, where the condition fails: with a model and features an item 0.015 better is dropped |
| RankEngine.CutOffIsWorse | services/rank/internal/rankengine/engine.go:106-121 | An item cut off after the first sort never beats a kept one in PreRank, with or without TF-Serving |
| RankEngine.RunConserves | services/rank/internal/rankengine/engine.go:106-157 | Every candidate is kept, cut off or left over exactly once, its PreRank unchanged |
| RankEngine.RunShape | services/rank/internal/rankengine/engine.go:106-157 | The length is the minimum of n and the positive limits, and the result is ReRank-descending |
| RankEngine.FinalScore | services/rank/internal/rankengine/engine.go:133-141 | Without TF-Serving the final score is PreRank plus a hundredth of the mock score |
| RankEngine.MockBounds | services/rank/internal/rankengine/engine.go:189-191 | The mock score is within ±0.999, and not negative when its argument neither is nor overflows |
| RankEngine.MockReverses | services/rank/internal/rankengine/engine.go:160-171 | Outside pipeline mode every sort outcome is the input backwards |
| RankEngine.MockRankGroup | services/rank/internal/rankengine/engine.go:160-187 | A mock answer: the input backwards with descending scores, cut to the result size |
| RankEngine.RankPipeline | services/rank/internal/rankengine/engine.go:99-157 | Score, sort, cut, re-score, sort, perturb, sort, cut: the answer is the kept part of such a run over the scored candidates, both truncations after the first sort |
| RankEngine.PreRank | services/rank/internal/rankengine/engine.go:99-105 | Every candidate gets its model score, or the mock score without a model |
| RankEngine.FineRank | services/rank/internal/rankengine/engine.go:122-137 | TF score, mock score on a failed prediction, PreRank without TF-Serving |
| RankEngine.ReRank | services/rank/internal/rankengine/engine.go:140-142 | Rank plus a hundredth of the mock score |
| RankEngine.Truncate | services/rank/internal/rankengine/engine.go:107-121 | Both truncations, a positive limit of the request overriding the configured one |
| Sorting.SortSlice | services/rank/internal/rankengine/engine.go:106 | Some descending permutation, which is all that callers rely on |
| Fm.FastIsPairwise | services/rank/internal/rankengine/fm.go:119-138 | For every model and feature list half the sum-of-squares difference is the sum over all pairs of ⟨v_i,v_j⟩ x_i x_j, unknown keys and vectors of the wrong length contributing zero |
| Fm.LogitOfOneMore | services/rank/internal/rankengine/fm.go:115-138 | One more feature adds its linear term and its interaction with each feature before it |
| Fm.InteractionMeans | services/rank/internal/rankengine/fm.go:124-137 | An interaction is the inner product of both vectors times both weights, and 0 if a vector is missing or of the wrong length |
| Fm.LogitPermutes | services/rank/internal/rankengine/fm.go:115-138 | The logit does not depend on the order of the features |
| Fm.LogitGrows | services/rank/internal/rankengine/fm.go:115-138 | Raising non-negative feature weights never lowers the logit of a non-negative model |
| Fm.ScoreFollowsClicks | pkg/featurestore/merge.go:102-129 | Between items that differ only in click-through rate and revenue, the larger values never score lower |
| Fm.ItemSlotsRaised | pkg/featurestore/merge.go:116-127 | Larger item values give the same slots with weights at least as large |
| Fm.SlotsBounded | pkg/featurestore/merge.go:102-139 | Clamping keeps every slot weight non-negative and all but the revenue at most 1 |
| Fm.Predict | services/rank/internal/rankengine/fm.go:111-141 | The score is the link of the pairwise logit, 0 without a model |
| Fm.Scan | services/rank/internal/rankengine/fm.go:115-130 | After the loop over the features the accumulators hold, for every component, the sum and the sum of squares of the scaled vectors |
| Fm.Accumulate | services/rank/internal/rankengine/fm.go:123-129 | One feature enters both accumulators of every component, or none when its key is unknown or its vector has the wrong length |
| Fm.AddVector | services/rank/internal/rankengine/fm.go:124-128 | The inner loop over the components |
| Fm.ScaledDot | services/rank/internal/rankengine/fm.go:124-137 | The products of two scaled vectors add up to the inner product times both weights |
| Fm.Combine | services/rank/internal/rankengine/fm.go:133-137 | The closing loop sums the square differences over the components |
| Fm.AddLinear | services/rank/internal/rankengine/fm.go:120-122 | The linear term, zero for an unknown key |
| Fm.AppendSemanticSlots | pkg/featurestore/merge.go:102-129 | The slots appended for the fields present, in order and clamped |
| Fm.SlotsMean | pkg/featurestore/merge.go:102-139 | The appended slots with their keys, ranges and divisors as numbers |
| RedisDecrypt.RoundTrip | pkg/redisdecrypt/encrypt.go:22-40 | Decrypting the encryption gives back every non-empty password; only the empty one is refused, as too short |
| RedisDecrypt.ConverseIff | pkg/redisdecrypt/decrypt.go:25-69 | Encrypting an accepted plaintext gives the same bytes exactly when the bytes trimmed from the last block were zero, which is always so without a trailer |
| RedisDecrypt.RecoversPadded | pkg/redisdecrypt/decrypt.go:52-61 | Each block recovers the plaintext block, zero-filled at the end: cipher block chaining as in section 6.2 of NIST SP 800-38A with a zero vector |
| RedisDecrypt.FirstBlock | pkg/redisdecrypt/encrypt.go:22-36 | The first cipher block is the encryption of the first 16 bytes, followed by zeros if there are fewer: the vector is zero |
| RedisDecrypt.NextBlock | pkg/redisdecrypt/encrypt.go:24-36 | Every further cipher block is the encryption of the next bytes, zero-filled, each combined with the cipher byte 16 places back |
| RedisDecrypt.EncryptedBytes | pkg/redisdecrypt/encrypt.go:9-41 | The size of the output, and a last byte that says how much of an incomplete block is used |
| RedisDecrypt.DecryptedByte | pkg/redisdecrypt/decrypt.go:50-69 | Each byte of an accepted plaintext: that of the decrypted block, combined with the cipher byte 16 places back from the second block on |
| RedisDecrypt.DecryptedMeans | pkg/redisdecrypt/decrypt.go:21-69 | Exactly which ciphertexts are refused, with which error, and how long the plaintext of any other is |
| RedisDecrypt.BlockOfChain | pkg/redisdecrypt/encrypt.go:24-36 | Block j of the output is the j-th chained cipher block |
| RedisDecrypt.EncryptPassword | pkg/redisdecrypt/encrypt.go:9-41 | The buffer-reusing loop and the trailer byte compute the zero-padded chain |
| RedisDecrypt.EncryptBlocks | pkg/redisdecrypt/encrypt.go:22-36 | The loop over blocks |
| RedisDecrypt.EncryptBlock | pkg/redisdecrypt/encrypt.go:25-35 | One turn: combine, encrypt, keep the cipher block in the buffer |
| RedisDecrypt.XorInto | pkg/redisdecrypt/encrypt.go:29-31 | What a short last block leaves untouched in the buffer is the previous cipher block, as if combined with zeros |
| RedisDecrypt.DecryptPassword | pkg/redisdecrypt/decrypt.go:21-69 | Every length and trailer check and the trim, with the outcome of each |
| RedisDecrypt.UnchainAll | pkg/redisdecrypt/decrypt.go:50-61 | The loop over whole blocks |
| RedisDecrypt.UnchainBlock | pkg/redisdecrypt/decrypt.go:53-60 | One turn: decrypt, combine with the previous cipher block, remember this one |
| RedisDecrypt.Unchain | pkg/redisdecrypt/decrypt.go:54-58 | The in-place combination with the previous cipher block |
| Upstream.FailoverComplete | pkg/upstream/httpcall.go:104-153 | An uninterrupted call, for any number of attempts and repeated URLs: its result is that of the first endpoint in cyclic order, among those within reach, that neither errors nor answers 5xx, and it fails only when all of them fail; with one attempt per slot all are within reach |
| Upstream.FirstAttempt | pkg/upstream/httpcall.go:104-148 | The first attempt goes to the slot that the counter selects: 200 delivers, another answer below 500 rejects, and if it is the only attempt anything else fails with that error |
| Upstream.BreakIff | pkg/upstream/httpcall.go:116-118 | The tried-set break is taken exactly at the end of that reach, so never with at most one attempt per slot |
| Upstream.RetryFindsFirst | pkg/upstream/httpcall.go:109-148 | From any attempt on the loop finds the first decisive answer |
| Upstream.DrawsAreCyclic | pkg/upstream/balancer.go:21-27 | Before the counter wraps the draws visit the slots in turn |
| Upstream.VisitedDistinct | pkg/upstream/httpcall.go:108-119 | With distinct URLs the tried set grows by one per attempt for a full round |
| Upstream.RoundRobin.Next | pkg/upstream/balancer.go:21-27 | The ticket selects the slot and the 64-bit counter advances, wrap included; no draw without endpoints |
| Upstream.HttpDoer.PostBytes | pkg/upstream/httpcall.go:104-153 | The retry loop over the shared balancer; the error kept is that of the last failed attempt |
| Upstream.HttpDoer.Judge | pkg/upstream/httpcall.go:129-147 | The checks on one attempt: errors and 5xx are retried, 200 delivers, anything else rejects |
| Fleet.Fair | pkg/upstream/balancer.go:21-27 | In every reachable state of every interleaving of requests and retries, before the counter wraps, the draws on any two slots differ by at most one and together are the tickets issued |
| Fleet.Accounted | pkg/upstream/httpcall.go:104-153 | Every ticket belongs to exactly one draw of one request; no request draws more than allowed; the outcome is what its own replies call for; with at most one attempt per named slot every draw was an attempt that ran its course |
| Fleet.FinishesAsAlone | pkg/upstream/httpcall.go:104-153 | However requests interleave, each ends as the retry loop on its own ends over the endpoints that its tickets select and the replies that it reads |
| Fleet.DecisiveIsFinal | pkg/upstream/httpcall.go:140-148 | After a fully read response below 500 a request is finished and never changes again |
| Fleet.FailedTriedAllIff | pkg/upstream/httpcall.go:104-153 | With distinct endpoints and one attempt for each, a failed request tried every endpoint if and only if its own tickets select pairwise different slots, in every reachable state |
| Fleet.FailedTriedAllAlone | pkg/upstream/httpcall.go:104-153 | It tried every endpoint if its tickets are consecutive |
| Fleet.InterleavedMisses | pkg/upstream/balancer.go:21-27 | A run of two requests over two endpoints in which one fails without ever trying the second |
| Fleet.StepKeepsInv | pkg/upstream/httpcall.go:109-148 | Every step of every request keeps the invariant |
| Fleet.Reachable | pkg/upstream/httpcall.go:104-153 | The invariant holds in every reachable state |
| Fleet.SlotShare | pkg/upstream/balancer.go:25-26 | Of n tickets a slot gets n/m, and one more if its number is below n mod m |
| KafkaPool.FirstInFirstOut | pkg/kafkapush/pool.go:61-82 | In every reachable state handed over ++ in hand ++ queued is the accepted sequence, in order; the queue fits its capacity; nothing is dropped while no more was offered than fits |
| KafkaPool.CloseDrains | pkg/kafkapush/pool.go:85-96 | When any Close has returned everything accepted was handed over and the writer was closed exactly once; nothing is accepted or written afterwards, whoever closes again |
| KafkaPool.PushMeans | pkg/kafkapush/pool.go:74-82 | What a push does for every configuration, with the default size 2048: queued behind the others, dropped when full, ignored when the pool is off or the message empty |
| KafkaPool.CloseCompletes | pkg/kafkapush/pool.go:85-96 | From every state that keeps the invariant, so from every reachable one, a call of Close that has begun can return within a bounded number of steps of the consumer and of callers already there; on a disabled pool too |
| KafkaPool.CloseGoesOn | pkg/kafkapush/pool.go:85-96 | While a caller of Close is not back some such step is possible and brings it closer |
| KafkaPool.DrainRun | pkg/kafkapush/pool.go:61-71 | From every state with a closed channel exactly DrainMeasure consumer steps hand over everything and end with the consumer gone |
| KafkaPool.DrainProgress | pkg/kafkapush/pool.go:61-71 | After the channel is closed every consumer step lowers the measure by one and no other step changes it |
| KafkaPool.DoneStays | pkg/kafkapush/pool.go:86-94 | A repeated Close repeats nothing |
| KafkaPool.StepKeepsInv | pkg/kafkapush/pool.go:61-96 | Every push, consumer and close step keeps the invariant |
| KafkaPool.Reachable | pkg/kafkapush/pool.go:61-96 | The invariant holds in every reachable state |
| KafkaPool.Pool.constructor | pkg/kafkapush/pool.go:40-59 | A new pool is open and empty; its consumer runs exactly when the configuration is on |
| KafkaPool.Pool.Push | pkg/kafkapush/pool.go:74-82 | Takes the message exactly when the pool is on, the message is not empty and the queue has room |
| KafkaPool.Pool.Loop | pkg/kafkapush/pool.go:61-71 | The loop over a closed channel hands over everything, in order, and leaves |
| KafkaPool.Pool.Close | pkg/kafkapush/pool.go:85-96 | An uninterrupted Close drains the pool and closes the writer; a repeated one changes nothing but its caller |
| TagQuota.QuotaBound | pkg/featurestore/recall_tag.go:46-74 | Whenever there is something to allocate and no weight is negative: counts in [0,50], their sum at most recallNum, and a shortfall below half the number of tags plus what the cap of 50 cut off |
| TagQuota.RoundedShare | pkg/featurestore/recall_tag.go:59-63 | What a tag is due is the integer nearest to its weight times the budget per weight, the larger one in the middle |
| TagQuota.UnitTimesSum | pkg/featurestore/recall_tag.go:50-59 | The budget per weight times the sum of the weights is the budget |
| TagQuota.QuotaOfRounded | pkg/featurestore/recall_tag.go:60-72 | A tag gets what it is due, or 50, or what the quotas before it leave, whichever is least |
| TagQuota.AdmissibleMeans | pkg/featurestore/recall_tag.go:35-56 | The bound 0.000001 on a weight and on the sum of weights, and when nothing is allocated |
| TagQuota.ShortfallBound | pkg/featurestore/recall_tag.go:46-74 | If no tag gets 50 the shortfall is strictly less than half the number of tags |
| TagQuota.QuotasDescend | pkg/featurestore/recall_tag.go:60-73 | Descending weights give descending counts |
| TagQuota.SpentOrServed | pkg/featurestore/recall_tag.go:60-72 | After any number of tags either the budget is spent or they got more than their capped shares less one half each |
| TagQuota.QuotasExist | pkg/featurestore/recall_tag.go:47-56 | For filtered tags the allocation is empty exactly without a budget or without tags |
| TagQuota.InterestOrdered | pkg/featurestore/recall_tag.go:35-44 | Every outcome of the filter and its unstable sort is descending and holds exactly the admissible tags |
| TagQuota.FilterPositiveTagWeights | pkg/featurestore/recall_tag.go:35-44 | The admissible tags in some descending order |
| TagQuota.AllocateTagRecallCounts | pkg/featurestore/recall_tag.go:46-74 | The loops compute the quotas and keep the tags beside them |
| TagQuota.SplitBudget | pkg/featurestore/recall_tag.go:60-73 | The running remainder |
| TagQuota.SamplePrefix | pkg/featurestore/recall_tag.go:119-127 | A prefix of the list, of the length asked for as far as there is one |
| TagQuota.DedupeItemIdsStable | pkg/featurestore/recall_tag.go:106-117 | An instance of the keep-first deduplication of the merge |
| TagQuota.LaneGuarantee | services/recommend/internal/recall/crosstag.go:36-56 | The lane is not empty, distinct, at most RecallNum long, of the rule's type; each id is in the quota prefix of some tag's list, and a lane shorter than RecallNum holds all of those |
| TagQuota.LaneFromHeaviest | services/recommend/internal/recall/crosstag.go:12-57 | For every outcome of the sort the lane is made of the admissible tags in descending weight; without an interest list there is none |
| TagQuota.LaneMeans | services/recommend/internal/recall/crosstag.go:31-56 | The lane's ids are a prefix of the keep-first ids of the pool of the first useTopKIndex tags, and there is none exactly if that pool is empty |
| TagQuota.PooledWithinBudget | services/recommend/internal/recall/crosstag.go:31-44 | No more is pooled than RecallNum times the sample fold |
| TagQuota.PoolTags | services/recommend/internal/recall/crosstag.go:36-44 | The quota prefixes one after the other, missing lists skipped |
| TagQuota.MakeLane | services/recommend/internal/recall/crosstag.go:45-56 | Deduplicate, cut, make the candidates; nothing when nothing was pooled |
| TagQuota.CrossTagLane | services/recommend/internal/recall/crosstag.go:12-57 | The lane of a rule from the user's tag interest, for every outcome of the sort |

## Left out

- HTTP handlers, JSON decoding, Redis and Kafka clients, file loading and environment overrides: their parsed results are inputs.
- AES and its key-length errors: an arbitrary pair of mutually inverse functions on 16-byte blocks stands for them; so does the error a bad key would give.
- The hexadecimal text form of an encrypted password: the model starts at the bytes.
- `exp` in the sigmoid: an arbitrary strictly increasing link stands for it, onto the values between 0 and 1 where a score has to be reached; `denseFeatures` only feeds TF-Serving, whose scores are arbitrary.
- Floating-point rounding and `float32` narrowing: exact reals throughout, so also no NaN or infinite score.
- Parsing of recall-type lists and trimming of method names in strategies: taken as parsed.
- Aliasing of slices that share an array: lists are values, and no stage modeled writes to a list another stage still reads.
- Nil configurations and unresolved profiles, on which a center run returns nothing: experiment and user-group resolution is not part of this model.
- The funnel mode of the recommend service: the same merge, reorder and response steps with easier glue.
- `randomPick` and `HTTPDoer.Post`: no guarantee of their own beyond those of the round robin and of `PostBytes`.
- Context cancellation and timeouts of upstream calls: they appear as transport errors.
- Building and packing of FM keys, model loading, `coalesceFeatDoc`: documents and models come as parsed tables.
- Recall stubs, audit-log formatting, user-group choice: easy members.
- Fleet.Fair: before the 64-bit counter wraps; `Upstream.RoundRobin.Next` itself models the wrap, where a number of slots that does not divide 2^64 breaks the cycle once.
- Upstream.FailoverComplete: for a call that is not interleaved with others, whose case `Fleet.FailedTriedAllIff` decides; likewise before the counter wraps, and with non-empty URLs, as the configuration resolves them.
- KafkaPool.Pool.Push: requires an open channel, as pushes stop before close; a push on a closed channel panics in the original.
- KafkaPool.Pool.Close: one uninterrupted schedule of the caller and the consumer; interleavings are the step system's subject.
- Center.EndToEnd: an entry that carries the substitute's recall type and an id named by the exchange table counts as brought in by the exchange.
- TagQuota.QuotaBound: for non-negative weights, which the filter before it guarantees; the method itself is modeled for all weights.
- RankEngine.DroppedBarelyBetter: relates PreRank to the result without TF-Serving only; with it `RankEngine.LeftOverGap` bounds the fine scores instead.
