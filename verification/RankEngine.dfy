/**
 * The rank engine (services/rank/internal/rankengine/engine.go): score, sort, cut, re-score, sort, perturb, sort, cut.
 * The library sort is unstable, so a run records some sorted permutation for each of the three sorts, and every
 * statement holds of all such runs. Scores are exact reals.
 */
module RankEngine {
  import opened Items
  import opened Sorting
  import Fm

  datatype Work = Work(id: int, sparse: seq<Fm.Feature>, pre: real, rank: real, re: real)

  /** Truncation sizes in force, and the number of results asked for; none of them limits when not positive. */
  datatype Limits = Limits(preRank: int, rank: int, ret: int)

  /** Fine scores by position and candidate: absent without TF-Serving, None for a failed prediction. */
  type FineScores = Option<(nat, Work) -> Option<real>>

  // ---------- specification ----------

  function Wrap64(x: int): int {
    (x + 0x8000_0000_0000_0000) % 0x1_0000_0000_0000_0000 - 0x8000_0000_0000_0000
  }

  /** Remainder by 1000 with the sign of the dividend. */
  function Rem1000(x: int): int {
    if x >= 0 then x % 1000 else -((-x) % 1000)
  }

  /** `mockFloat64`: a pseudo-random score below 1 in magnitude. */
  function Mock(user: int, id: int, salt: int): real {
    Rem1000(Wrap64(user * 31 + id * 17 + salt * 13)) as real / 1000.0
  }

  function Pre(): Work -> real { (w: Work) => w.pre }
  function Rank(): Work -> real { (w: Work) => w.rank }
  function Re(): Work -> real { (w: Work) => w.re }

  function Cut(work: seq<Work>, limits: Limits): seq<Work> {
    Cap(limits.rank, Cap(limits.preRank, work))
  }

  function FineScore(user: int, fine: FineScores, i: nat, w: Work): real {
    match fine
    case None => w.pre
    case Some(tf) =>
      match tf(i, w)
      case Some(score) => score
      case None => Mock(user, w.id, 2)
  }

  function Fined(user: int, fine: FineScores, work: seq<Work>): (r: seq<Work>)
    ensures |r| == |work|
  {
    seq(|work|, i requires 0 <= i < |work| => work[i].(rank := FineScore(user, fine, i, work[i])))
  }

  function Perturbed(user: int, work: seq<Work>): (r: seq<Work>)
    ensures |r| == |work|
  {
    seq(|work|, i requires 0 <= i < |work| => work[i].(re := work[i].rank + 0.01 * Mock(user, work[i].id, 3)))
  }

  /** The three sort outcomes of one run. */
  datatype Run = Run(byPre: seq<Work>, byRank: seq<Work>, byRe: seq<Work>)

  ghost predicate IsRun(user: int, work: seq<Work>, limits: Limits, fine: FineScores, run: Run) {
    && SortOutcome(work, run.byPre, Pre())
    && SortOutcome(Fined(user, fine, Cut(run.byPre, limits)), run.byRank, Rank())
    && SortOutcome(Perturbed(user, run.byRank), run.byRe, Re())
  }

  function Kept(run: Run, limits: Limits): seq<Work> {
    Cap(limits.ret, run.byRe)
  }

  /** Dropped by the truncations after the first sort. */
  function CutOff(run: Run, limits: Limits): seq<Work> {
    run.byPre[|Cut(run.byPre, limits)|..]
  }

  /** Dropped by the final cut to the result size. */
  function LeftOver(run: Run, limits: Limits): seq<Work> {
    run.byRe[|Kept(run, limits)|..]
  }

  function Scores(work: seq<Work>): (r: seq<ItemScore>)
    ensures |r| == |work|
  {
    seq(|work|, i requires 0 <= i < |work| => ItemScore(work[i].id, work[i].pre, work[i].rank, work[i].re))
  }

  // ---------- conservation ----------

  /** What the later stages leave alone. */
  function Label(w: Work): (int, real) {
    (w.id, w.pre)
  }

  function Labels(work: seq<Work>): (r: seq<(int, real)>)
    ensures |r| == |work| && forall i :: 0 <= i < |work| ==> r[i] == Label(work[i])
  {
    seq(|work|, i requires 0 <= i < |work| => Label(work[i]))
  }

  lemma {:induction false} LabelsWithout(work: seq<Work>, j: nat)
    requires j < |work|
    ensures Labels(work[..j] + work[j + 1..]) == Labels(work)[..j] + Labels(work)[j + 1..]
  {
  }

  lemma {:induction false} LabelsPermute(a: seq<Work>, b: seq<Work>)
    requires multiset(a) == multiset(b)
    ensures multiset(Labels(a)) == multiset(Labels(b)) && |a| == |b|
    decreases |a|
  {
    assert |multiset(a)| == |multiset(b)|;
    if a != [] {
      var n := |a| - 1;
      assert a[n] in multiset(b);
      var j :| 0 <= j < |b| && b[j] == a[n];
      BagWithout(a, n);
      BagWithout(b, j);
      LabelsPermute(a[..n] + a[n + 1..], b[..j] + b[j + 1..]);
      LabelsWithout(a, n);
      LabelsWithout(b, j);
      BagWithout(Labels(a), n);
      BagWithout(Labels(b), j);
      RestoreOne(multiset(Labels(a)), multiset(Labels(b)), Label(a[n]));
    } else {
      assert Labels(a) == Labels(b);
    }
  }

  lemma {:induction false} RestoreOne<T>(a: multiset<T>, b: multiset<T>, x: T)
    requires x in a && x in b && a - multiset{x} == b - multiset{x}
    ensures a == b
  {
    assert a == (a - multiset{x}) + multiset{x};
    assert b == (b - multiset{x}) + multiset{x};
  }

  lemma {:induction false} LabelsSplit(work: seq<Work>, n: nat)
    requires n <= |work|
    ensures multiset(Labels(work)) == multiset(Labels(work[..n])) + multiset(Labels(work[n..]))
  {
    assert Labels(work) == Labels(work[..n]) + Labels(work[n..]);
  }

  lemma {:induction false} CutIsPrefix(work: seq<Work>, limits: Limits)
    ensures |Cut(work, limits)| <= |work| && Cut(work, limits) == work[..|Cut(work, limits)|]
  {
  }

  /** Every candidate is kept, cut off or left over, exactly once, with its PreRank unchanged. */
  lemma {:induction false} RunConserves(user: int, work: seq<Work>, limits: Limits, fine: FineScores, run: Run)
    requires IsRun(user, work, limits, fine, run)
    ensures multiset(Labels(work)) ==
            multiset(Labels(Kept(run, limits))) + multiset(Labels(LeftOver(run, limits))) + multiset(Labels(CutOff(run, limits)))
  {
    var cut := Cut(run.byPre, limits);
    LabelsPermute(work, run.byPre);
    CutIsPrefix(run.byPre, limits);
    LabelsSplit(run.byPre, |cut|);
    StagesKeepLabels(user, limits, fine, run);
    LabelsSplit(run.byRe, |Kept(run, limits)|);
    assert Kept(run, limits) == run.byRe[..|Kept(run, limits)|];
  }

  lemma {:induction false} StagesKeepLabels(user: int, limits: Limits, fine: FineScores, run: Run)
    requires SortOutcome(Fined(user, fine, Cut(run.byPre, limits)), run.byRank, Rank())
    requires SortOutcome(Perturbed(user, run.byRank), run.byRe, Re())
    ensures multiset(Labels(run.byRe)) == multiset(Labels(Cut(run.byPre, limits)))
    ensures |run.byRe| == |Cut(run.byPre, limits)|
  {
    var cut := Cut(run.byPre, limits);
    LabelsPermute(Fined(user, fine, cut), run.byRank);
    LabelsPermute(Perturbed(user, run.byRank), run.byRe);
    assert Labels(Fined(user, fine, cut)) == Labels(cut);
    assert Labels(Perturbed(user, run.byRank)) == Labels(run.byRank);
  }

  function Limited(n: nat, limit: int): nat {
    if limit > 0 then Min(n, limit) else n
  }

  /** Length and order of the result, for any fine scores. */
  lemma {:induction false} RunShape(user: int, work: seq<Work>, limits: Limits, fine: FineScores, run: Run)
    requires IsRun(user, work, limits, fine, run)
    ensures |Kept(run, limits)| == Limited(Limited(Limited(|work|, limits.preRank), limits.rank), limits.ret)
    ensures Descending(Kept(run, limits), Re())
  {
    LabelsPermute(work, run.byPre);
    StagesKeepLabels(user, limits, fine, run);
  }

  // ---------- selection quality without TF-Serving ----------

  lemma {:induction false} MockBounds(user: int, id: int, salt: int)
    ensures -0.999 <= Mock(user, id, salt) <= 0.999
    ensures 0 <= user * 31 + id * 17 + salt * 13 < 0x8000_0000_0000_0000 ==> 0.0 <= Mock(user, id, salt)
  {
    var x := Wrap64(user * 31 + id * 17 + salt * 13);
    assert -999 <= Rem1000(x) <= 999;
  }

  lemma {:induction false} SameMembers(a: seq<Work>, b: seq<Work>)
    requires multiset(a) == multiset(b)
    ensures forall w :: w in b ==> w in a
  {
    forall w | w in b
      ensures w in a
    {
      assert w in multiset(b) && w in multiset(a);
    }
  }

  /** Without TF-Serving the final score is PreRank plus a hundredth of the mock score. */
  lemma {:induction false} FinalScore(user: int, limits: Limits, run: Run)
    requires SortOutcome(Fined(user, None, Cut(run.byPre, limits)), run.byRank, Rank())
    requires SortOutcome(Perturbed(user, run.byRank), run.byRe, Re())
    ensures forall w :: w in run.byRe ==> w.re == w.pre + 0.01 * Mock(user, w.id, 3)
  {
    SameMembers(Fined(user, None, Cut(run.byPre, limits)), run.byRank);
    SameMembers(Perturbed(user, run.byRank), run.byRe);
    assert forall w :: w in run.byRank ==> w.rank == w.pre;
    forall w | w in run.byRe
      ensures w.re == w.pre + 0.01 * Mock(user, w.id, 3)
    {
      var i :| 0 <= i < |run.byRank| && Perturbed(user, run.byRank)[i] == w;
      assert run.byRank[i] in run.byRank;
    }
  }

  /** A candidate cut off early never beats a kept one in PreRank, whatever the fine scores. */
  lemma {:induction false} CutOffIsWorse(user: int, work: seq<Work>, limits: Limits, fine: FineScores, run: Run, d: Work, k: Work)
    requires IsRun(user, work, limits, fine, run) && d in CutOff(run, limits) && k in Kept(run, limits)
    ensures d.pre <= k.pre
  {
    var cut := Cut(run.byPre, limits);
    StagesKeepLabels(user, limits, fine, run);
    var i :| 0 <= i < |Kept(run, limits)| && Kept(run, limits)[i] == k;
    assert Labels(run.byRe)[i] == Label(k);
    assert Label(k) in multiset(Labels(run.byRe));
    assert Label(k) in multiset(Labels(cut));
    var c :| 0 <= c < |cut| && Labels(cut)[c] == Label(k);
    CutIsPrefix(run.byPre, limits);
    var j :| |cut| <= j < |run.byPre| && run.byPre[j] == d;
    assert Pre()(run.byPre[c]) >= Pre()(run.byPre[j]);
  }

  /** In this run `d` is dropped and `k` is kept. */
  ghost predicate Drops(user: int, work: seq<Work>, limits: Limits, run: Run, d: Work, k: Work) {
    && IsRun(user, work, limits, None, run)
    && (d in CutOff(run, limits) || d in LeftOver(run, limits)) && k in Kept(run, limits)
  }

  /** A dropped candidate's lead in PreRank is at most a hundredth of the kept one's lead in the mock score. */
  lemma {:induction false} DroppedGap(user: int, work: seq<Work>, limits: Limits, run: Run, d: Work, k: Work)
    requires Drops(user, work, limits, run, d, k)
    ensures d.pre <= k.pre || d.pre - k.pre <= 0.01 * (Mock(user, k.id, 3) - Mock(user, d.id, 3))
  {
    if d in CutOff(run, limits) {
      CutOffIsWorse(user, work, limits, None, run, d, k);
    } else {
      FinalScore(user, limits, run);
      var i :| 0 <= i < |Kept(run, limits)| && Kept(run, limits)[i] == k;
      var j :| |Kept(run, limits)| <= j < |run.byRe| && run.byRe[j] == d;
      assert run.byRe[i] == k && run.byRe[i] in run.byRe && run.byRe[j] in run.byRe;
      assert Re()(run.byRe[i]) >= Re()(run.byRe[j]);
    }
  }

  /**
   * For every unstable sort outcome: a dropped candidate's PreRank exceeds a kept one's by less than 0.02, and by
   * less than 0.01 when neither mock argument is negative or overflows.
   */
  lemma {:induction false} DroppedBarelyBetter(user: int, work: seq<Work>, limits: Limits, run: Run, d: Work, k: Work)
    requires IsRun(user, work, limits, None, run)
    requires d in CutOff(run, limits) || d in LeftOver(run, limits)
    requires k in Kept(run, limits)
    ensures d.pre - k.pre < 0.02
    ensures 0 <= user * 31 + d.id * 17 + 39 < 0x8000_0000_0000_0000 && 0 <= user * 31 + k.id * 17 + 39 < 0x8000_0000_0000_0000
            ==> d.pre - k.pre < 0.01
  {
    DroppedGap(user, work, limits, run, d, k);
    MockBounds(user, d.id, 3);
    MockBounds(user, k.id, 3);
  }

  /** The same, over candidates that the scoring stage scored. */
  ghost predicate DropsScored(user: int, link: real -> real, fm: Option<Fm.Model>, ids: seq<int>, sparse: seq<seq<Fm.Feature>>, work: seq<Work>,
                              limits: Limits, run: Run, d: Work, k: Work) {
    |sparse| == |ids| && PreRanked(user, fm, link, ids, sparse, work) && Drops(user, work, limits, run, d, k)
  }

  /** No model, features, limits and run in which `dId` is dropped and `kId` is kept give a PreRank gap of `c` or more. */
  ghost predicate GapsBelow(user: int, link: real -> real, dId: int, kId: int, c: real) {
    forall fm, ids, sparse, work, limits, run, d, k ::
      DropsScored(user, link, fm, ids, sparse, work, limits, run, d, k) && d.id == dId && k.id == kId ==> d.pre - k.pre < c
  }

  /** The exact bound for two ids: the gap stays below `c` in all runs exactly if their mock scores say so. */
  lemma {:induction false} GapBoundIff(user: int, link: real -> real, dId: int, kId: int, c: real)
    requires c > 0.0 && Fm.IsSigmoid(link)
    ensures GapsBelow(user, link, dId, kId, c) <==> 0.01 * (Mock(user, kId, 3) - Mock(user, dId, 3)) < c
  {
    if 0.01 * (Mock(user, kId, 3) - Mock(user, dId, 3)) < c {
      forall fm, ids, sparse, work, limits, run, d, k |
        DropsScored(user, link, fm, ids, sparse, work, limits, run, d, k) && d.id == dId && k.id == kId
        ensures d.pre - k.pre < c
      {
        DroppedGap(user, work, limits, run, d, k);
      }
    } else {
      var sparse, work, run, d, k := GapReached(user, link, dId, kId, c);
      assert DropsScored(user, link, Some(Fm.Ramp()), [dId, kId], sparse, work, Limits(0, 0, 1), run, d, k);
    }
  }

  /** A model, features and a run that reach the gap. */
  lemma {:induction false} GapReached(user: int, link: real -> real, dId: int, kId: int, c: real)
    returns (sparse: seq<seq<Fm.Feature>>, work: seq<Work>, run: Run, dropped: Work, kept: Work)
    requires 0.0 < c <= 0.01 * (Mock(user, kId, 3) - Mock(user, dId, 3)) && Fm.IsSigmoid(link)
    ensures |sparse| == 2 && PreRanked(user, Some(Fm.Ramp()), link, [dId, kId], sparse, work)
    ensures IsRun(user, work, Limits(0, 0, 1), None, run)
    ensures LeftOver(run, Limits(0, 0, 1)) == [dropped] && dropped.id == dId
    ensures Kept(run, Limits(0, 0, 1)) == [kept] && kept.id == kId && dropped.pre - kept.pre == c
  {
    MockBounds(user, kId, 3);
    MockBounds(user, dId, 3);
    assert Fm.Reaches(link, 0.5 + c) && Fm.Reaches(link, 0.5);
    var x, y :| link(x) == 0.5 + c && link(y) == 0.5;
    sparse := [[Fm.Feature(1, x)], [Fm.Feature(1, y)]];
    work, run, dropped, kept := TwoCandidates(user, Work(dId, sparse[0], 0.5 + c, 0.0, 0.0), Work(kId, sparse[1], 0.5, 0.0, 0.0));
    Fm.RampLogit(x);
    Fm.RampLogit(y);
  }

  /** The bound of 0.01 holds for two ids exactly if the kept one's mock score leads by less than 1. */
  lemma {:induction false} TightBoundIff(user: int, link: real -> real, dId: int, kId: int)
    requires Fm.IsSigmoid(link)
    ensures GapsBelow(user, link, dId, kId, 0.01) <==> Mock(user, kId, 3) - Mock(user, dId, 3) < 1.0
  {
    GapBoundIff(user, link, dId, kId, 0.01);
  }

  /** With a negative id the wider bound is needed: a candidate 0.015 better is dropped. */
  lemma {:induction false} NegativeIdsNeedTheWiderBound(link: real -> real)
    returns (sparse: seq<seq<Fm.Feature>>, work: seq<Work>, run: Run, d: Work, k: Work)
    requires Fm.IsSigmoid(link)
    ensures !GapsBelow(0, link, -414, 880, 0.01)
    ensures DropsScored(0, link, Some(Fm.Ramp()), [-414, 880], sparse, work, Limits(0, 0, 1), run, d, k)
    ensures d.id == -414 && k.id == 880 && d.pre - k.pre == 0.015
  {
    ExtremeMocks();
    TightBoundIff(0, link, -414, 880);
    sparse, work, run, d, k := GapReached(0, link, -414, 880, 0.015);
  }

  lemma {:induction false} ExtremeMocks()
    ensures Mock(0, 880, 3) == 0.999 && Mock(0, -414, 3) == -0.999
  {
    assert Wrap64(14999) == 14999 && Wrap64(-6999) == -6999;
    assert Rem1000(14999) == 999 && Rem1000(-6999) == -999;
  }

  lemma {:induction false} InOrder(a: Work, b: Work, key: Work -> real)
    requires key(a) >= key(b)
    ensures SortOutcome([a, b], [a, b], key)
  {
  }

  lemma {:induction false} Swapped(a: Work, b: Work, key: Work -> real)
    requires key(b) >= key(a)
    ensures SortOutcome([a, b], [b, a], key)
  {
    assert multiset([a, b]) == multiset{a, b} == multiset([b, a]);
  }

  lemma {:induction false} FinedPair(user: int, a: Work, b: Work)
    ensures Fined(user, None, [a, b]) == [a.(rank := a.pre), b.(rank := b.pre)]
  {
  }

  lemma {:induction false} PerturbedPair(user: int, a: Work, b: Work)
    ensures Perturbed(user, [a, b]) == [a.(re := a.rank + 0.01 * Mock(user, a.id, 3)), b.(re := b.rank + 0.01 * Mock(user, b.id, 3))]
  {
  }

  lemma {:induction false} KeepOne(run: Run, a: Work, b: Work)
    requires run.byRe == [a, b]
    ensures Kept(run, Limits(0, 0, 1)) == [a] && LeftOver(run, Limits(0, 0, 1)) == [b]
  {
  }

  lemma {:induction false} RunOfTwo(user: int, d: Work, k: Work, d1: Work, k1: Work, d2: Work, k2: Work)
    requires Fined(user, None, [d, k]) == [d1, k1] && Perturbed(user, [d1, k1]) == [d2, k2]
    requires d.pre >= k.pre && d1.rank >= k1.rank && d2.re <= k2.re
    ensures IsRun(user, [d, k], Limits(0, 0, 1), None, Run([d, k], [d1, k1], [k2, d2]))
  {
    InOrder(d, k, Pre());
    InOrder(d1, k1, Rank());
    Swapped(d2, k2, Re());
    assert Cut([d, k], Limits(0, 0, 1)) == [d, k];
  }

  lemma {:induction false} LeadMadeUp(a: real, b: real, ma: real, mb: real)
    requires a <= b + 0.01 * (mb - ma)
    ensures a + 0.01 * ma <= b + 0.01 * mb
  {
  }

  /** A run in which the better of two candidates in PreRank is dropped because the other's mock score makes up for it. */
  lemma {:induction false} TwoCandidates(user: int, d: Work, k: Work) returns (work: seq<Work>, run: Run, dropped: Work, kept: Work)
    requires k.pre <= d.pre <= k.pre + 0.01 * (Mock(user, k.id, 3) - Mock(user, d.id, 3))
    ensures work == [d, k] && IsRun(user, work, Limits(0, 0, 1), None, run)
    ensures LeftOver(run, Limits(0, 0, 1)) == [dropped] && dropped.id == d.id && dropped.pre == d.pre
    ensures Kept(run, Limits(0, 0, 1)) == [kept] && kept.id == k.id && kept.pre == k.pre
  {
    var d1, k1 := d.(rank := d.pre), k.(rank := k.pre);
    FinedPair(user, d, k);
    PerturbedPair(user, d1, k1);
    LeadMadeUp(d.pre, k.pre, Mock(user, d.id, 3), Mock(user, k.id, 3));
    dropped, kept := Perturbed(user, [d1, k1])[0], Perturbed(user, [d1, k1])[1];
    work, run := [d, k], Run([d, k], [d1, k1], [kept, dropped]);
    RunOfTwo(user, d, k, d1, k1, dropped, kept);
    KeepOne(run, kept, dropped);
  }

  // ---------- the stages in plain terms ----------

  /** The mock score from the number that 64-bit arithmetic leaves of its argument. */
  lemma {:induction false} MockMeans(user: int, id: int, salt: int, x: int)
    requires -0x8000_0000_0000_0000 <= x < 0x8000_0000_0000_0000
    requires (x - (31 * user + 17 * id + 13 * salt)) % 0x1_0000_0000_0000_0000 == 0
    ensures Mock(user, id, salt) == (if x >= 0 then (x % 1000) as real else -(((-x) % 1000) as real)) / 1000.0
  {
    OnlyWrap(31 * user + 17 * id + 13 * salt, x);
  }

  lemma {:induction false} OnlyWrap(a: int, x: int)
    requires -0x8000_0000_0000_0000 <= x < 0x8000_0000_0000_0000 && (x - a) % 0x1_0000_0000_0000_0000 == 0
    ensures Wrap64(a) == x
  {
  }

  /** What the truncations leave is a prefix, cut to the positive ones of the two sizes. */
  lemma {:induction false} CutMeans(work: seq<Work>, limits: Limits)
    ensures Cut(work, limits) <= work
    ensures |Cut(work, limits)| <= |work| && (limits.preRank > 0 ==> |Cut(work, limits)| <= limits.preRank) && (limits.rank > 0 ==> |Cut(work, limits)| <= limits.rank)
    ensures |Cut(work, limits)| == |work| || |Cut(work, limits)| == limits.preRank || |Cut(work, limits)| == limits.rank
  {
    CapMeans(limits.preRank, work);
    CapMeans(limits.rank, Cap(limits.preRank, work));
  }

  /** The kept candidates are the first ones of the last sort. */
  lemma {:induction false} KeptMeans(run: Run, limits: Limits)
    ensures Kept(run, limits) <= run.byRe
    ensures |Kept(run, limits)| == if 0 < limits.ret < |run.byRe| then limits.ret else |run.byRe|
  {
    CapMeans(limits.ret, run.byRe);
  }

  /** A positive size of the request overrides the configured one. */
  lemma {:induction false} EffectiveMeans(configured: Limits, asked: Limits)
    ensures Effective(configured, asked).ret == asked.ret
    ensures asked.preRank > 0 ==> Effective(configured, asked).preRank == asked.preRank
    ensures asked.preRank <= 0 ==> Effective(configured, asked).preRank == configured.preRank
    ensures asked.rank > 0 ==> Effective(configured, asked).rank == asked.rank
    ensures asked.rank <= 0 ==> Effective(configured, asked).rank == configured.rank
  {
  }

  /**
   * Where the scores of a ranked candidate come from: from its place in what the truncations left, its PreRank; its fine
   * score is that of TF-Serving there, or the mock score of salt 2 where the prediction failed, or PreRank without
   * TF-Serving; its final score adds a hundredth of the mock score of salt 3.
   */
  lemma {:induction false} ScoresOfRanked(user: int, work: seq<Work>, limits: Limits, fine: FineScores, run: Run, w: Work) returns (i: nat)
    requires IsRun(user, work, limits, fine, run) && w in run.byRe
    ensures var cut := Cut(run.byPre, limits);
            && i < |cut| && w.id == cut[i].id && w.pre == cut[i].pre
            && (fine.None? ==> w.rank == w.pre)
            && (fine.Some? && fine.value(i, cut[i]).Some? ==> w.rank == fine.value(i, cut[i]).value)
            && (fine.Some? && fine.value(i, cut[i]).None? ==> w.rank == Mock(user, w.id, 2))
            && w.re == w.rank + 0.01 * Mock(user, w.id, 3)
  {
    var fined := Fined(user, fine, Cut(run.byPre, limits));
    SameMembers(Perturbed(user, run.byRank), run.byRe);
    var j :| 0 <= j < |run.byRank| && Perturbed(user, run.byRank)[j] == w;
    SameMembers(fined, run.byRank);
    assert run.byRank[j] in run.byRank;
    i :| 0 <= i < |fined| && fined[i] == run.byRank[j];
  }

  /** With or without TF-Serving: a left-over candidate's fine score leads a kept one's by no more than the mock scores make up. */
  lemma {:induction false} LeftOverGap(user: int, work: seq<Work>, limits: Limits, fine: FineScores, run: Run, d: Work, k: Work)
    requires IsRun(user, work, limits, fine, run) && d in LeftOver(run, limits) && k in Kept(run, limits)
    ensures d.rank - k.rank <= 0.01 * (Mock(user, k.id, 3) - Mock(user, d.id, 3))
  {
    var i :| 0 <= i < |Kept(run, limits)| && Kept(run, limits)[i] == k;
    var j :| |Kept(run, limits)| <= j < |run.byRe| && run.byRe[j] == d;
    assert run.byRe[i] == k && Re()(run.byRe[i]) >= Re()(run.byRe[j]);
    var p := ScoresOfRanked(user, work, limits, fine, run, d);
    var q := ScoresOfRanked(user, work, limits, fine, run, k);
    LeadBack(d.rank, k.rank, Mock(user, d.id, 3), Mock(user, k.id, 3));
  }

  lemma {:induction false} LeadBack(a: real, b: real, ma: real, mb: real)
    requires b + 0.01 * mb >= a + 0.01 * ma
    ensures a - b <= 0.01 * (mb - ma)
  {
  }

  /** Every row of an answer: its id and PreRank from the request, its other scores as above. */
  lemma {:induction false} AnswerMeans(user: int, fm: Option<Fm.Model>, link: real -> real, ids: seq<int>, sparse: seq<seq<Fm.Feature>>, fine: FineScores,
                     limits: Limits, out: seq<ItemScore>, c: nat) returns (p: nat, i: nat, w: Work)
    requires |sparse| == |ids| && Answer(user, fm, link, ids, sparse, fine, limits, out) && c < |out|
    ensures p < |ids| && out[c].itemId == ids[p] == w.id && out[c].preRank == w.pre
    ensures out[c].preRank == if fm.Some? then link(Fm.Logit(fm.value, sparse[p])) else Mock(user, ids[p], 1)
    ensures fine.None? ==> out[c].rank == out[c].preRank
    ensures fine.Some? && fine.value(i, w).Some? ==> out[c].rank == fine.value(i, w).value
    ensures fine.Some? && fine.value(i, w).None? ==> out[c].rank == Mock(user, ids[p], 2)
    ensures out[c].reRank == out[c].rank + 0.01 * Mock(user, ids[p], 3)
    ensures forall b :: 0 <= b < c ==> out[b].reRank >= out[c].reRank
    ensures |out| <= |ids| && (limits.preRank > 0 ==> |out| <= limits.preRank) && (limits.rank > 0 ==> |out| <= limits.rank) && (limits.ret > 0 ==> |out| <= limits.ret)
    ensures |out| == |ids| || |out| == limits.preRank || |out| == limits.rank || |out| == limits.ret
  {
    var work: seq<Work>, run: Run :| PreRanked(user, fm, link, ids, sparse, work) && IsRun(user, work, limits, fine, run) && out == Scores(Kept(run, limits));
    var kept := Kept(run, limits);
    KeptMeans(run, limits);
    CutMeans(run.byPre, limits);
    StagesKeepLabels(user, limits, fine, run);
    LabelsPermute(work, run.byPre);
    RowScores(kept, out);
    i := ScoresOfRanked(user, work, limits, fine, run, kept[c]);
    w := Cut(run.byPre, limits)[i];
    p := ComesFrom(work, run.byPre, w);
    forall b | 0 <= b < c
      ensures out[b].reRank >= out[c].reRank
    {
      assert Re()(run.byRe[b]) >= Re()(run.byRe[c]);
    }
  }

  lemma {:induction false} ComesFrom(work: seq<Work>, sorted: seq<Work>, w: Work) returns (p: nat)
    requires SortOutcome(work, sorted, Pre()) && w in sorted
    ensures p < |work| && work[p] == w
  {
    SameMembers(work, sorted);
    p :| 0 <= p < |work| && work[p] == w;
  }

  lemma {:induction false} RowScores(kept: seq<Work>, out: seq<ItemScore>)
    requires out == Scores(kept)
    ensures |out| == |kept|
    ensures forall c :: 0 <= c < |out| ==>
              out[c].itemId == kept[c].id && out[c].preRank == kept[c].pre && out[c].rank == kept[c].rank && out[c].reRank == kept[c].re
  {
  }

  // ---------- the mock ranker ----------

  function Numbered(ids: seq<int>): (r: seq<Work>)
    ensures |r| == |ids|
  {
    seq(|ids|, i requires 0 <= i < |ids| => var s := (i + 1) as real; Work(ids[i], [], s, s, s))
  }

  /** Outside pipeline mode every sort outcome is the input backwards. */
  lemma {:induction false} MockReverses(ids: seq<int>, sorted: seq<Work>)
    requires SortOutcome(Numbered(ids), sorted, Re())
    ensures |sorted| == |ids| && forall i :: 0 <= i < |ids| ==> sorted[i] == Numbered(ids)[|ids| - 1 - i]
    decreases |ids|
  {
    LabelsPermute(Numbered(ids), sorted);
    if ids != [] {
      var n := |ids| - 1;
      RestOutcome(ids, sorted);
      MockReverses(ids[..n], sorted[1..]);
      forall i | 0 <= i < |ids|
        ensures sorted[i] == Numbered(ids)[n - i]
      {
        if i == 0 {
          LastComesFirst(ids, sorted);
        } else {
          assert sorted[i] == sorted[1..][i - 1];
        }
      }
    }
  }

  lemma {:induction false} RestOutcome(ids: seq<int>, sorted: seq<Work>)
    requires ids != [] && SortOutcome(Numbered(ids), sorted, Re()) && |sorted| == |ids|
    ensures SortOutcome(Numbered(ids[..|ids| - 1]), sorted[1..], Re())
  {
    var rows, n := Numbered(ids), |ids| - 1;
    LastComesFirst(ids, sorted);
    assert Numbered(ids[..n]) == rows[..n];
    assert rows == rows[..n] + [rows[n]];
    assert sorted == [sorted[0]] + sorted[1..];
    assert multiset(rows[..n]) == multiset(rows) - multiset{rows[n]};
    assert multiset(sorted[1..]) == multiset(sorted) - multiset{sorted[0]};
  }

  lemma {:induction false} LastComesFirst(ids: seq<int>, sorted: seq<Work>)
    requires ids != [] && SortOutcome(Numbered(ids), sorted, Re()) && |sorted| == |ids|
    ensures sorted[0] == Numbered(ids)[|ids| - 1]
  {
    var rows, n := Numbered(ids), |ids| - 1;
    assert rows[n] in multiset(sorted);
    var j :| 0 <= j < |sorted| && sorted[j] == rows[n];
    assert j == 0 || Re()(sorted[0]) >= Re()(sorted[j]);
    assert sorted[0] in multiset(rows);
    var c :| 0 <= c < |rows| && rows[c] == sorted[0];
    assert rows[c].re == (c + 1) as real && rows[n].re == (n + 1) as real;
  }

  // ---------- the stages ----------

  /** What the engine may answer outside pipeline mode. */
  ghost predicate MockAnswer(ids: seq<int>, ret: int, out: seq<ItemScore>) {
    exists sorted :: SortOutcome(Numbered(ids), sorted, Re()) && out == Cap(ret, Scores(sorted))
  }

  /** What the scoring stage needs of the FM model: a score per candidate, or the mock score without one. */
  ghost predicate PreRanked(user: int, fm: Option<Fm.Model>, link: real -> real, ids: seq<int>, sparse: seq<seq<Fm.Feature>>, work: seq<Work>)
    requires |sparse| == |ids|
  {
    |work| == |ids| && forall i :: 0 <= i < |ids| ==>
      work[i] == Work(ids[i], sparse[i], if fm.Some? then link(Fm.Logit(fm.value, sparse[i])) else Mock(user, ids[i], 1), 0.0, 0.0)
  }

  /** What the engine may answer: the kept part of some run over the scored candidates. */
  ghost predicate Answer(user: int, fm: Option<Fm.Model>, link: real -> real, ids: seq<int>, sparse: seq<seq<Fm.Feature>>, fine: FineScores,
                         limits: Limits, out: seq<ItemScore>)
    requires |sparse| == |ids|
  {
    exists work, run :: PreRanked(user, fm, link, ids, sparse, work) && IsRun(user, work, limits, fine, run) && out == Scores(Kept(run, limits))
  }

  method PreRank(user: int, fm: Option<Fm.Model>, link: real -> real, ids: seq<int>, sparse: seq<seq<Fm.Feature>>) returns (work: seq<Work>)
    requires |sparse| == |ids|
    ensures PreRanked(user, fm, link, ids, sparse, work)
  {
    work := [];
    for i := 0 to |ids|
      invariant |work| == i && forall c :: 0 <= c < i ==>
        work[c] == Work(ids[c], sparse[c], if fm.Some? then link(Fm.Logit(fm.value, sparse[c])) else Mock(user, ids[c], 1), 0.0, 0.0)
    {
      var pre;
      if fm.Some? {
        pre := Fm.Predict(fm, sparse[i], link);
      } else {
        pre := Mock(user, ids[i], 1);
      }
      work := work + [Work(ids[i], sparse[i], pre, 0.0, 0.0)];
    }
  }

  method FineRank(user: int, fine: FineScores, work: seq<Work>) returns (out: seq<Work>)
    ensures out == Fined(user, fine, work)
  {
    out := work;
    for i := 0 to |work|
      invariant |out| == |work| && forall c :: i <= c < |work| ==> out[c] == work[c]
      invariant forall c :: 0 <= c < i ==> out[c] == Fined(user, fine, work)[c]
    {
      var score := work[i].pre;
      if fine.Some? {
        var predicted := fine.value(i, work[i]);
        score := if predicted.Some? then predicted.value else Mock(user, work[i].id, 2);
      }
      out := out[i := work[i].(rank := score)];
    }
  }

  method ReRank(user: int, work: seq<Work>) returns (out: seq<Work>)
    ensures out == Perturbed(user, work)
  {
    out := work;
    for i := 0 to |work|
      invariant |out| == |work| && forall c :: i <= c < |work| ==> out[c] == work[c]
      invariant forall c :: 0 <= c < i ==> out[c] == Perturbed(user, work)[c]
    {
      out := out[i := work[i].(re := work[i].rank + 0.01 * Mock(user, work[i].id, 3))];
    }
  }

  /** Pipeline mode. */
  method RankPipeline(user: int, fm: Option<Fm.Model>, link: real -> real, ids: seq<int>, sparse: seq<seq<Fm.Feature>>,
                      fine: FineScores, configured: Limits, asked: Limits)
    returns (out: seq<ItemScore>)
    requires |sparse| == |ids|
    ensures Answer(user, fm, link, ids, sparse, fine, Effective(configured, asked), out)
  {
    var batch := PreRank(user, fm, link, ids, sparse);
    var byPre := SortSlice(batch, Pre());
    var cut := Truncate(byPre, configured, asked);
    var fined := FineRank(user, fine, cut);
    var byRank := SortSlice(fined, Rank());
    var perturbed := ReRank(user, byRank);
    var byRe := SortSlice(perturbed, Re());
    ghost var run := Run(byPre, byRank, byRe);
    out := Scores(byRe);
    if asked.ret > 0 && asked.ret < |out| {
      out := out[..asked.ret];
    }
    assert IsRun(user, batch, Effective(configured, asked), fine, run);
    assert out == Scores(Kept(run, Effective(configured, asked)));
  }

  /** Both truncations, the limits of the request overriding the configured ones when positive. */
  method Truncate(work: seq<Work>, configured: Limits, asked: Limits) returns (cut: seq<Work>)
    ensures cut == Cut(work, Effective(configured, asked))
  {
    cut := work;
    var preN := configured.preRank;
    if asked.preRank > 0 {
      preN := asked.preRank;
    }
    if preN > 0 && |cut| > preN {
      cut := cut[..preN];
    }
    var rankN := configured.rank;
    if asked.rank > 0 {
      rankN := asked.rank;
    }
    if rankN > 0 && |cut| > rankN {
      cut := cut[..rankN];
    }
  }

  function Effective(configured: Limits, asked: Limits): Limits {
    Limits(if asked.preRank > 0 then asked.preRank else configured.preRank, if asked.rank > 0 then asked.rank else configured.rank, asked.ret)
  }

  /** Every candidate scored by its place. */
  method NumberRows(ids: seq<int>) returns (rows: seq<Work>)
    ensures rows == Numbered(ids)
  {
    rows := [];
    for i := 0 to |ids|
      invariant |rows| == i && forall c :: 0 <= c < i ==> rows[c] == Numbered(ids)[c]
    {
      var s := (i + 1) as real;
      rows := rows + [Work(ids[i], [], s, s, s)];
    }
  }

  /** Outside pipeline mode: the input backwards, cut to the result size. */
  method MockRankGroup(ids: seq<int>, ret: int) returns (out: seq<ItemScore>)
    ensures MockAnswer(ids, ret, out)
    ensures |out| == Limited(|ids|, ret)
    ensures forall i :: 0 <= i < |out| ==> var s := (|ids| - i) as real; out[i] == ItemScore(ids[|ids| - 1 - i], s, s, s)
  {
    var rows := NumberRows(ids);
    var sorted := SortSlice(rows, Re());
    out := Scores(sorted);
    if ret > 0 && ret < |out| {
      out := out[..ret];
    }
    MockShape(ids, ret, sorted, out);
  }

  lemma {:induction false} MockShape(ids: seq<int>, ret: int, sorted: seq<Work>, out: seq<ItemScore>)
    requires SortOutcome(Numbered(ids), sorted, Re()) && out == Cap(ret, Scores(sorted))
    ensures MockAnswer(ids, ret, out) && |out| == Limited(|ids|, ret)
    ensures forall i :: 0 <= i < |out| ==> var s := (|ids| - i) as real; out[i] == ItemScore(ids[|ids| - 1 - i], s, s, s)
  {
    MockReverses(ids, sorted);
    forall i | 0 <= i < |out|
      ensures var s := (|ids| - i) as real; out[i] == ItemScore(ids[|ids| - 1 - i], s, s, s)
    {
      assert out[i] == Scores(sorted)[i] && sorted[i] == Numbered(ids)[|ids| - 1 - i];
    }
  }
}
