/**
 * The center and the rank engine together: what the center assumes of its ranker is what the engine delivers
 * (services/recommend/internal/pipeline/center.go, services/rank/internal/rankengine/engine.go).
 */
module Service {
  import opened Items
  import opened Sorting
  import Center
  import Fm
  import R = RankEngine
  import F = ForcedInsert

  // ---------- repeats and bags ----------

  lemma {:induction false} TwiceInBag<T>(s: seq<T>, i: nat, j: nat)
    requires i < j < |s| && s[i] == s[j]
    ensures multiset(s)[s[i]] >= 2
  {
    assert s == s[..j] + s[j..];
    assert s[j..][0] == s[j] && s[..j][i] == s[i];
    assert s[i] in multiset(s[..j]) && s[i] in multiset(s[j..]);
  }

  lemma {:induction false} TwicePlaced<T>(s: seq<T>, x: T) returns (i: nat, j: nat)
    requires multiset(s)[x] >= 2
    ensures i < j < |s| && s[i] == s[j] == x
  {
    var n := |s| - 1;
    assert s == s[..n] + [s[n]];
    if s[n] == x {
      j := n;
      assert x in multiset(s[..n]);
      i :| 0 <= i < n && s[i] == x;
    } else {
      i, j := TwicePlaced(s[..n], x);
    }
  }

  ghost predicate OncePerId(labels: seq<(int, real)>) {
    forall i, j :: 0 <= i < j < |labels| ==> labels[i].0 != labels[j].0
  }

  lemma {:induction false} NoneTwice(labels: seq<(int, real)>, x: (int, real))
    requires OncePerId(labels)
    ensures multiset(labels)[x] <= 1
  {
    if multiset(labels)[x] >= 2 {
      var i, j := TwicePlaced(labels, x);
    }
  }

  /** What is part of a bag without repeated ids has none either. */
  lemma {:induction false} PartOncePerId(part: seq<(int, real)>, all: seq<(int, real)>)
    requires OncePerId(all) && multiset(part) <= multiset(all)
    ensures OncePerId(part)
  {
    forall i, j | 0 <= i < j < |part|
      ensures part[i].0 != part[j].0
    {
      if part[i] == part[j] {
        NoneTwice(all, part[i]);
        TwiceInBag(part, i, j);
      } else {
        assert part[i] in multiset(part) && part[j] in multiset(part);
        assert part[i] in multiset(all) && part[j] in multiset(all);
        var p :| 0 <= p < |all| && all[p] == part[i];
        var q :| 0 <= q < |all| && all[q] == part[j];
        assert p < q || q < p;
      }
    }
  }

  /** The engine scores no candidate twice: for distinct ids, whatever the sorts do and however much is truncated. */
  lemma {:induction false} EngineRepeatsNothing(user: int, work: seq<R.Work>, limits: R.Limits, fine: R.FineScores, run: R.Run)
    requires R.IsRun(user, work, limits, fine, run)
    requires forall i, j :: 0 <= i < j < |work| ==> work[i].id != work[j].id
    ensures Center.DistinctScores(R.Scores(R.Kept(run, limits)))
  {
    var kept := R.Kept(run, limits);
    R.RunConserves(user, work, limits, fine, run);
    assert forall i :: 0 <= i < |work| ==> R.Labels(work)[i].0 == work[i].id;
    PartOncePerId(R.Labels(kept), R.Labels(work));
    assert forall i :: 0 <= i < |kept| ==> R.Labels(kept)[i].0 == R.Scores(kept)[i].itemId;
  }

  /** What the engine may answer in either mode. */
  ghost predicate EngineAnswers(pipeline: bool, user: int, fm: Option<Fm.Model>, link: real -> real, ids: seq<int>, sparse: seq<seq<Fm.Feature>>,
                                fine: R.FineScores, limits: R.Limits, scores: seq<ItemScore>) {
    if pipeline then |sparse| == |ids| && R.Answer(user, fm, link, ids, sparse, fine, limits, scores)
    else R.MockAnswer(ids, limits.ret, scores)
  }

  /**
   * A request answered by a center whose ranker is the engine, in either mode: the response never repeats an id, for
   * every model, every fine score, every outcome of the unstable sorts and every truncation.
   */
  lemma {:induction false} ServedDistinct(req: Center.Request, batches: seq<seq<Item>>, pipeline: bool, user: int, fm: Option<Fm.Model>,
                     link: real -> real, sparse: seq<seq<Fm.Feature>>, fine: R.FineScores, limits: R.Limits, scores: seq<ItemScore>)
    requires F.IsShuffle(req.shuffle)
    requires Center.MainBatches(req.mainCalls, req.portraits, |req.mainCalls|) == Some(batches)
    requires req.rank == Center.Ranked([scores])
    requires EngineAnswers(pipeline, user, fm, link, Ids(Center.Candidates(req, batches)), sparse, fine, limits, scores)
    ensures Center.Outcomes(req).Done? && Distinct(Center.Outcomes(req).response.itemIds)
  {
    Center.CandidatesServable(req, batches);
    AnswerRepeatsNothing(pipeline, user, fm, link, Ids(Center.Candidates(req, batches)), sparse, fine, limits, scores);
    Center.EndToEnd(req);
  }

  /** Every answer of the engine to distinct ids scores each at most once. */
  lemma {:induction false} AnswerRepeatsNothing(pipeline: bool, user: int, fm: Option<Fm.Model>, link: real -> real, ids: seq<int>,
                     sparse: seq<seq<Fm.Feature>>, fine: R.FineScores, limits: R.Limits, scores: seq<ItemScore>)
    requires EngineAnswers(pipeline, user, fm, link, ids, sparse, fine, limits, scores) && Distinct(ids)
    ensures Center.DistinctScores(scores)
  {
    if pipeline {
      var work: seq<R.Work>, run: R.Run :| R.PreRanked(user, fm, link, ids, sparse, work) && R.IsRun(user, work, limits, fine, run)
                       && scores == R.Scores(R.Kept(run, limits));
      assert forall i :: 0 <= i < |work| ==> work[i].id == ids[i];
      EngineRepeatsNothing(user, work, limits, fine, run);
    } else {
      MockRepeatsNothing(ids, limits.ret, scores);
    }
  }

  lemma {:induction false} ReversedIds(ids: seq<int>, sorted: seq<R.Work>)
    requires |sorted| == |ids| && Distinct(ids)
    requires forall i :: 0 <= i < |ids| ==> sorted[i] == R.Numbered(ids)[|ids| - 1 - i]
    ensures Center.DistinctScores(R.Scores(sorted))
  {
    forall i, j | 0 <= i < j < |ids|
      ensures R.Scores(sorted)[i].itemId != R.Scores(sorted)[j].itemId
    {
      assert sorted[i].id == ids[|ids| - 1 - i] && sorted[j].id == ids[|ids| - 1 - j];
    }
  }

  lemma {:induction false} MockRepeatsNothing(ids: seq<int>, ret: int, scores: seq<ItemScore>)
    requires R.MockAnswer(ids, ret, scores) && Distinct(ids)
    ensures Center.DistinctScores(scores)
  {
    var sorted :| SortOutcome(R.Numbered(ids), sorted, R.Re()) && scores == Cap(ret, R.Scores(sorted));
    R.MockReverses(ids, sorted);
    ReversedIds(ids, sorted);
    assert forall i :: 0 <= i < |scores| ==> scores[i] == R.Scores(sorted)[i];
  }
}
