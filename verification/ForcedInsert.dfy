/** Forced insertion, plain and paged (services/recommend/internal/centerconfig/show.go). */
module ForcedInsert {
  import opened Items
  import opened FunnelMerge

  datatype ExtractMethod = TopNOrder | TopNRand

  datatype Rule = Rule(recallType: string, count: int, extract: ExtractMethod)

  datatype Paging = Paging(num: int, size: int, insertCount: int)

  /** The permutations drawn for TopNRand, by position of the strategy and of the rule within it. */
  type Shuffle = (nat, nat, seq<Item>) -> seq<Item>

  ghost predicate Permutes(shuffled: seq<Item>, items: seq<Item>) {
    multiset(shuffled) == multiset(items)
  }

  ghost predicate IsShuffle(shuffle: Shuffle) {
    forall s, r, items {:trigger Permutes(shuffle(s, r, items), items)} :: Permutes(shuffle(s, r, items), items)
  }

  // ---------- the insert queue ----------

  /** The first `n` items restricted to one recall type. */
  function OfType(items: seq<Item>, recallType: string, n: nat): seq<Item>
    requires n <= |items|
  {
    if n == 0 then []
    else OfType(items, recallType, n - 1) + if items[n - 1].recallType == recallType then [items[n - 1]] else []
  }

  function Source(items: seq<Item>, exclusive: ExclusivePool, rule: Rule): seq<Item> {
    if rule.recallType in exclusive && exclusive[rule.recallType] != [] then exclusive[rule.recallType]
    else OfType(items, rule.recallType, |items|)
  }

  function Picked(src: seq<Item>, rule: Rule, shuffled: seq<Item>): seq<Item> {
    var candidates := if rule.extract.TopNRand? then shuffled else src;
    if rule.count <= 0 then [] else candidates[..Min(rule.count, |candidates|)]
  }

  /** What the rule at position `r` contributes. */
  function Contribution(items: seq<Item>, exclusive: ExclusivePool, rule: Rule, shuffle: Shuffle, s: nat, r: nat): seq<Item> {
    var src := Source(items, exclusive, rule);
    Picked(src, rule, shuffle(s, r, src))
  }

  /** The first `n` parts, one after the other. */
  function Gather(parts: nat -> seq<Item>, n: nat): seq<Item> {
    if n == 0 then [] else Gather(parts, n - 1) + parts(n - 1)
  }

  /** What all the rules contribute, in order. */
  function Queue(items: seq<Item>, exclusive: ExclusivePool, rules: seq<Rule>, shuffle: Shuffle, s: nat): seq<Item> {
    Gather(Contributions(items, exclusive, rules, shuffle, s), |rules|)
  }

  function Contributions(items: seq<Item>, exclusive: ExclusivePool, rules: seq<Rule>, shuffle: Shuffle, s: nat): nat -> seq<Item> {
    (r: nat) => if r < |rules| then Contribution(items, exclusive, rules[r], shuffle, s, r) else []
  }

  lemma {:induction false} ShuffleLength(shuffle: Shuffle, s: nat, r: nat, items: seq<Item>)
    requires IsShuffle(shuffle)
    ensures |shuffle(s, r, items)| == |items|
    ensures forall it :: it in shuffle(s, r, items) ==> it in items
  {
    var shuffled := shuffle(s, r, items);
    assert Permutes(shuffled, items);
    assert |multiset(shuffled)| == |multiset(items)|;
    forall it | it in shuffled
      ensures it in items
    {
      assert it in multiset(shuffled);
    }
  }

  // ---------- pages ----------

  lemma {:induction false} TimesGrows(p: nat, q: nat, c: nat)
    requires p <= q
    ensures Times(p, c) <= Times(q, c)
    ensures p < q && c > 0 ==> Times(p, c) < Times(q, c)
  {
    if p < q {
      TimesGrows(p, q - 1, c);
    }
  }

  lemma {:induction false} TimesAdds(p: nat, c: nat, d: nat)
    ensures Times(p, c + d) == Times(p, c) + Times(p, d)
  {
    if p > 0 {
      TimesAdds(p - 1, c, d);
    }
  }

  /** `s[a:b]`, cut at the end of `s`. */
  function Window(s: seq<Item>, a: nat, b: nat): seq<Item> {
    if b <= a then [] else Window(s, a, b - 1) + if b - 1 < |s| then [s[b - 1]] else []
  }

  /** Page `p`: its share of the main list, then its share of the inserts. */
  function Page(ori: seq<Item>, inserts: seq<Item>, pageOri: nat, pageInsert: nat, p: nat): seq<Item> {
    Window(ori, Times(p, pageOri), Times(p + 1, pageOri)) + Window(inserts, Times(p, pageInsert), Times(p + 1, pageInsert))
  }

  function ActualPages(total: nat, paging: Paging): int
    requires paging.size > 0
  {
    Min(paging.num, total / paging.size)
  }

  /** The pages completed: up to the last page that still finds an insert. */
  function PagesDone(actual: nat, inserts: nat, pageInsert: nat): (r: nat)
    ensures r <= actual
  {
    if actual == 0 || Times(actual - 1, pageInsert) < inserts then actual
    else PagesDone(actual - 1, inserts, pageInsert)
  }

  function PagesUpTo(ori: seq<Item>, inserts: seq<Item>, pageOri: nat, pageInsert: nat, n: nat): seq<Item> {
    if n == 0 then []
    else PagesUpTo(ori, inserts, pageOri, pageInsert, n - 1) + Page(ori, inserts, pageOri, pageInsert, n - 1)
  }

  /** The list before its final dedupe: the completed pages, then the main list from `actual` pages on. */
  function Layout(ori: seq<Item>, inserts: seq<Item>, pageOri: nat, pageInsert: nat, actual: nat): seq<Item>
    requires pageInsert > 0
  {
    PagesUpTo(ori, inserts, pageOri, pageInsert, PagesDone(actual, |inserts|, pageInsert))
    + Window(ori, Times(actual, pageOri), |ori|)
  }

  ghost predicate PagingOn(paging: Paging) {
    paging.num > 0 && 0 < paging.insertCount < paging.size
  }

  /** The list before its final dedupe, for a paging configuration that leaves room for main items. */
  function LayoutOf(ori: seq<Item>, inserts: seq<Item>, paging: Paging): seq<Item>
    requires PagingOn(paging)
  {
    Layout(ori, inserts, paging.size - paging.insertCount, paging.insertCount, ActualPages(|ori|, paging))
  }

  function Paged(ori: seq<Item>, inserts: seq<Item>, paging: Paging): seq<Item>
    requires paging.size > 0 && paging.insertCount > 0 && paging.num > 0
  {
    if paging.size - paging.insertCount <= 0 then KeepFirst(inserts + ori)
    else KeepFirst(LayoutOf(ori, inserts, paging))
  }

  ghost function Forced(items: seq<Item>, exclusive: ExclusivePool, rules: seq<Rule>, paging: Paging, shuffle: Shuffle, s: nat): seq<Item>
    requires IsShuffle(shuffle)
  {
    var queue := Queue(items, exclusive, rules, shuffle, s);
    if queue == [] then items
    else if paging.size > 0 && paging.insertCount > 0 && paging.num > 0 && Paged(items, queue, paging) != [] then
      Paged(items, queue, paging)
    else KeepFirst(queue + items)
  }

  // ---------- layout of the pages ----------

  /** The main items of the pages are always there: the bound check of the copying loop never cuts a page short. */
  lemma {:induction false} PageFits(total: nat, paging: Paging, p: nat)
    requires PagingOn(paging) && p <= ActualPages(total, paging)
    ensures Times(p, paging.size - paging.insertCount) <= total
  {
    var q := total / paging.size;
    assert q * paging.size <= total;
    TimesIsProduct(q, paging.size);
    TimesGrows(p, q, paging.size);
    TimesAdds(p, paging.size - paging.insertCount, paging.insertCount);
  }

  lemma {:induction false} InsertsLeft(actual: nat, inserts: nat, pageInsert: nat, p: nat)
    ensures p < PagesDone(actual, inserts, pageInsert) <==> p < actual && Times(p, pageInsert) < inserts
  {
    if actual > 0 {
      if Times(actual - 1, pageInsert) < inserts {
        if p < actual {
          TimesGrows(p, actual - 1, pageInsert);
        }
      } else {
        InsertsLeft(actual - 1, inserts, pageInsert, p);
      }
    }
  }

  /** In numbers: the smaller of the page count and the inserts divided by the inserts per page, rounded up. */
  lemma {:induction false} PagesDoneIsCeiling(actual: nat, inserts: nat, pageInsert: nat)
    requires pageInsert > 0
    ensures PagesDone(actual, inserts, pageInsert) == Min(actual, (inserts + pageInsert - 1) / pageInsert)
  {
    var done := PagesDone(actual, inserts, pageInsert);
    InsertsLeft(actual, inserts, pageInsert, done);
    FoldCount(inserts, pageInsert, done);
    TimesIsProduct(done, pageInsert);
    if done > 0 {
      InsertsLeft(actual, inserts, pageInsert, done - 1);
      FoldCount(inserts, pageInsert, done - 1);
      TimesIsProduct(done - 1, pageInsert);
    }
  }

  lemma {:induction false} WindowLength(s: seq<Item>, a: nat, b: nat)
    requires a <= b && a <= |s|
    ensures |Window(s, a, b)| == Min(b, |s|) - a
    ensures forall i :: 0 <= i < |Window(s, a, b)| ==> Window(s, a, b)[i] == s[a + i]
  {
    if a < b {
      WindowLength(s, a, b - 1);
    }
  }

  lemma {:induction false} WindowsJoin(s: seq<Item>, a: nat, b: nat, c: nat)
    requires a <= b <= c
    ensures Window(s, a, c) == Window(s, a, b) + Window(s, b, c)
  {
    if b < c {
      WindowsJoin(s, a, b, c - 1);
    }
  }

  lemma {:induction false} WholeWindow(s: seq<Item>)
    ensures Window(s, 0, |s|) == s
  {
    WindowLength(s, 0, |s|);
  }

  lemma {:induction false} PastTheEnd(s: seq<Item>, b: nat, c: nat)
    requires |s| <= b
    ensures Window(s, b, c) == []
  {
    if b < c {
      PastTheEnd(s, b, c - 1);
    }
  }

  /** A page with inserts left starts where all pages before it are full. */
  lemma {:induction false} PagesLength(ori: seq<Item>, inserts: seq<Item>, pageOri: nat, pageInsert: nat, p: nat)
    requires Times(p, pageOri) <= |ori| && Times(p, pageInsert) <= |inserts|
    ensures |PagesUpTo(ori, inserts, pageOri, pageInsert, p)| == Times(p, pageOri + pageInsert)
  {
    if p > 0 {
      PagesLength(ori, inserts, pageOri, pageInsert, p - 1);
      WindowLength(ori, Times(p - 1, pageOri), Times(p, pageOri));
      WindowLength(inserts, Times(p - 1, pageInsert), Times(p, pageInsert));
    }
  }

  /** `part` stands in `whole` from position `start` on. */
  ghost predicate StandsAt(whole: seq<Item>, start: int, part: seq<Item>) {
    0 <= start && start + |part| <= |whole| && forall i :: 0 <= i < |part| ==> whole[start + i] == part[i]
  }

  lemma {:induction false} StandsInFront(whole: seq<Item>, more: seq<Item>, start: int, part: seq<Item>)
    requires StandsAt(whole, start, part)
    ensures StandsAt(whole + more, start, part)
  {
  }

  lemma {:induction false} PageInside(ori: seq<Item>, inserts: seq<Item>, pageOri: nat, pageInsert: nat, p: nat, n: nat)
    requires p < n
    ensures StandsAt(PagesUpTo(ori, inserts, pageOri, pageInsert, n), |PagesUpTo(ori, inserts, pageOri, pageInsert, p)|,
              Page(ori, inserts, pageOri, pageInsert, p))
  {
    if p < n - 1 {
      var front, page := PagesUpTo(ori, inserts, pageOri, pageInsert, p), Page(ori, inserts, pageOri, pageInsert, p);
      PageInside(ori, inserts, pageOri, pageInsert, p, n - 1);
      StandsInFront(PagesUpTo(ori, inserts, pageOri, pageInsert, n - 1), Page(ori, inserts, pageOri, pageInsert, n - 1), |front|, page);
    }
  }

  /** Exact positions: page `p` starts at `p` page sizes with its main items, then come its inserts. */
  lemma {:induction false} PageLayout(ori: seq<Item>, inserts: seq<Item>, paging: Paging, p: nat)
    requires PagingOn(paging)
    requires p < PagesDone(ActualPages(|ori|, paging), |inserts|, paging.insertCount)
    ensures var pageOri, pageInsert := paging.size - paging.insertCount, paging.insertCount;
            var page := Page(ori, inserts, pageOri, pageInsert, p);
            && StandsAt(LayoutOf(ori, inserts, paging), p * paging.size, page)
            && |page| == pageOri + Min(pageInsert, |inserts| - p * pageInsert) > pageOri
            && StandsAt(ori, p * pageOri, page[..pageOri])
            && StandsAt(inserts, p * pageInsert, page[pageOri..])
  {
    PageLayoutInSums(ori, inserts, paging, p);
    TimesIsProduct(p, paging.size);
    TimesIsProduct(p, paging.size - paging.insertCount);
    TimesIsProduct(p, paging.insertCount);
  }

  lemma {:induction false} PageLayoutInSums(ori: seq<Item>, inserts: seq<Item>, paging: Paging, p: nat)
    requires PagingOn(paging)
    requires p < PagesDone(ActualPages(|ori|, paging), |inserts|, paging.insertCount)
    ensures var pageOri, pageInsert := paging.size - paging.insertCount, paging.insertCount;
            var page := Page(ori, inserts, pageOri, pageInsert, p);
            && StandsAt(LayoutOf(ori, inserts, paging), Times(p, paging.size), page)
            && |page| == pageOri + Min(pageInsert, |inserts| - Times(p, pageInsert)) > pageOri
            && StandsAt(ori, Times(p, pageOri), page[..pageOri])
            && StandsAt(inserts, Times(p, pageInsert), page[pageOri..])
  {
    var pageOri, pageInsert := paging.size - paging.insertCount, paging.insertCount;
    PageFits(|ori|, paging, p + 1);
    InsertsLeft(ActualPages(|ori|, paging), |inserts|, pageInsert, p);
    PageInLayout(ori, inserts, pageOri, pageInsert, ActualPages(|ori|, paging), p);
    PageParts(ori, inserts, pageOri, pageInsert, p);
  }

  lemma {:induction false} PageInLayout(ori: seq<Item>, inserts: seq<Item>, pageOri: nat, pageInsert: nat, actual: nat, p: nat)
    requires pageInsert > 0 && p < PagesDone(actual, |inserts|, pageInsert)
    requires Times(p, pageOri) <= |ori| && Times(p, pageInsert) <= |inserts|
    ensures StandsAt(Layout(ori, inserts, pageOri, pageInsert, actual), Times(p, pageOri + pageInsert),
              Page(ori, inserts, pageOri, pageInsert, p))
  {
    PagesLength(ori, inserts, pageOri, pageInsert, p);
    PageInside(ori, inserts, pageOri, pageInsert, p, PagesDone(actual, |inserts|, pageInsert));
  }

  lemma {:induction false} PageParts(ori: seq<Item>, inserts: seq<Item>, pageOri: nat, pageInsert: nat, p: nat)
    requires Times(p + 1, pageOri) <= |ori| && Times(p, pageInsert) < |inserts|
    ensures var page := Page(ori, inserts, pageOri, pageInsert, p);
            && |page| == pageOri + Min(pageInsert, |inserts| - Times(p, pageInsert))
            && StandsAt(ori, Times(p, pageOri), page[..pageOri])
            && StandsAt(inserts, Times(p, pageInsert), page[pageOri..])
  {
    WindowLength(ori, Times(p, pageOri), Times(p + 1, pageOri));
    WindowLength(inserts, Times(p, pageInsert), Times(p + 1, pageInsert));
  }

  // ---------- what survives ----------

  /** Occurrences of `it` among the first `n` items. */
  function CountUpTo(s: seq<Item>, it: Item, n: nat): nat
    requires n <= |s|
  {
    if n == 0 then 0 else CountUpTo(s, it, n - 1) + if s[n - 1] == it then 1 else 0
  }

  function Count(s: seq<Item>, it: Item): nat {
    CountUpTo(s, it, |s|)
  }

  lemma {:induction false} CountPrefix(a: seq<Item>, b: seq<Item>, it: Item, n: nat)
    requires n <= |a|
    ensures CountUpTo(a + b, it, n) == CountUpTo(a, it, n)
  {
    if n > 0 {
      CountPrefix(a, b, it, n - 1);
    }
  }

  lemma {:induction false} CountSuffix(a: seq<Item>, b: seq<Item>, it: Item, n: nat)
    requires n <= |b|
    ensures CountUpTo(a + b, it, |a| + n) == Count(a, it) + CountUpTo(b, it, n)
  {
    if n == 0 {
      CountPrefix(a, b, it, |a|);
    } else {
      CountSuffix(a, b, it, n - 1);
    }
  }

  lemma {:induction false} CountAppend(a: seq<Item>, b: seq<Item>, it: Item)
    ensures Count(a + b, it) == Count(a, it) + Count(b, it)
  {
    CountSuffix(a, b, it, |b|);
  }

  lemma {:induction false} CountIn(s: seq<Item>, it: Item, n: nat)
    requires n <= |s|
    ensures CountUpTo(s, it, n) > 0 <==> exists i :: 0 <= i < n && s[i] == it
  {
    if n > 0 {
      CountIn(s, it, n - 1);
    }
  }

  lemma {:induction false} CountWindows(s: seq<Item>, a: nat, b: nat, c: nat, it: Item)
    requires a <= b <= c
    ensures Count(Window(s, a, c), it) == Count(Window(s, a, b), it) + Count(Window(s, b, c), it)
  {
    WindowsJoin(s, a, b, c);
    CountAppend(Window(s, a, b), Window(s, b, c), it);
  }

  lemma {:induction false} PageHolds(ori: seq<Item>, inserts: seq<Item>, pageOri: nat, pageInsert: nat, p: nat, n: nat, it: Item)
    requires n == p + 1
    ensures Count(Window(ori, 0, Times(p, pageOri)), it) + Count(Window(inserts, 0, Times(p, pageInsert)), it)
            + Count(Page(ori, inserts, pageOri, pageInsert, p), it)
            == Count(Window(ori, 0, Times(n, pageOri)), it) + Count(Window(inserts, 0, Times(n, pageInsert)), it)
  {
    var a, b, c, d := Times(p, pageOri), Times(n, pageOri), Times(p, pageInsert), Times(n, pageInsert);
    CountWindows(ori, 0, a, b, it);
    CountWindows(inserts, 0, c, d, it);
    CountAppend(Window(ori, a, b), Window(inserts, c, d), it);
  }

  lemma {:induction false} OnePageMore(ori: seq<Item>, inserts: seq<Item>, pageOri: nat, pageInsert: nat, p: nat, n: nat, it: Item)
    requires n == p + 1
    ensures Count(PagesUpTo(ori, inserts, pageOri, pageInsert, n), it) ==
            Count(PagesUpTo(ori, inserts, pageOri, pageInsert, p), it) + Count(Page(ori, inserts, pageOri, pageInsert, p), it)
  {
    CountAppend(PagesUpTo(ori, inserts, pageOri, pageInsert, p), Page(ori, inserts, pageOri, pageInsert, p), it);
  }

  /** The first `n` pages hold their shares of main items and of inserts, each once. */
  lemma {:induction false} PagesHold(ori: seq<Item>, inserts: seq<Item>, pageOri: nat, pageInsert: nat, n: nat, it: Item)
    ensures Count(PagesUpTo(ori, inserts, pageOri, pageInsert, n), it) ==
            Count(Window(ori, 0, Times(n, pageOri)), it) + Count(Window(inserts, 0, Times(n, pageInsert)), it)
  {
    if n > 0 {
      var p: nat := n - 1;
      PagesHold(ori, inserts, pageOri, pageInsert, p, it);
      PageHolds(ori, inserts, pageOri, pageInsert, p, n, it);
      OnePageMore(ori, inserts, pageOri, pageInsert, p, n, it);
    }
  }

  /** The main items skipped when the inserts run out before the last page. */
  function SkippedWindow(ori: seq<Item>, inserts: nat, paging: Paging): seq<Item>
    requires PagingOn(paging)
  {
    var pageOri, actual := paging.size - paging.insertCount, ActualPages(|ori|, paging);
    Window(ori, Times(PagesDone(actual, inserts, paging.insertCount), pageOri), Times(actual, pageOri))
  }

  /** The inserts that find a page. */
  function InsertsPaged(ori: seq<Item>, inserts: seq<Item>, paging: Paging): seq<Item>
    requires PagingOn(paging)
  {
    Window(inserts, 0, Times(ActualPages(|ori|, paging), paging.insertCount))
  }

  /** The main items that stand in the layout: those of the completed pages, and those from `actualPages` pages on. */
  function MainShown(ori: seq<Item>, inserts: nat, paging: Paging): seq<Item>
    requires PagingOn(paging)
  {
    var pageOri, actual := paging.size - paging.insertCount, ActualPages(|ori|, paging);
    Window(ori, 0, Times(PagesDone(actual, inserts, paging.insertCount), pageOri)) + Window(ori, Times(actual, pageOri), |ori|)
  }

  lemma {:induction false} MainCounts(ori: seq<Item>, inserts: nat, paging: Paging, it: Item)
    requires PagingOn(paging)
    ensures Count(MainShown(ori, inserts, paging), it) + Count(SkippedWindow(ori, inserts, paging), it) == Count(ori, it)
  {
    var pageOri, actual := paging.size - paging.insertCount, ActualPages(|ori|, paging);
    var done := PagesDone(actual, inserts, paging.insertCount);
    PageFits(|ori|, paging, actual);
    TimesGrows(done, actual, pageOri);
    var a, b := Times(done, pageOri), Times(actual, pageOri);
    CountAppend(Window(ori, 0, a), Window(ori, b, |ori|), it);
    CountWindows(ori, 0, a, b, it);
    CountWindows(ori, 0, b, |ori|, it);
    WholeWindow(ori);
  }

  lemma {:induction false} LayoutCounts(ori: seq<Item>, inserts: seq<Item>, paging: Paging, it: Item)
    requires PagingOn(paging)
    ensures Count(LayoutOf(ori, inserts, paging), it) ==
            Count(MainShown(ori, |inserts|, paging), it) + Count(InsertsPaged(ori, inserts, paging), it)
  {
    var pageOri, pageInsert := paging.size - paging.insertCount, paging.insertCount;
    var actual := ActualPages(|ori|, paging);
    var done := PagesDone(actual, |inserts|, pageInsert);
    var tail := Window(ori, Times(actual, pageOri), |ori|);
    PagesHold(ori, inserts, pageOri, pageInsert, done, it);
    InsertsShown(inserts, pageInsert, actual);
    CountAppend(PagesUpTo(ori, inserts, pageOri, pageInsert, done), tail, it);
    CountAppend(Window(ori, 0, Times(done, pageOri)), tail, it);
  }

  /** Conservation: the main items less exactly the skipped window, plus exactly the inserts that found a page. */
  lemma {:induction false} LayoutConserves(ori: seq<Item>, inserts: seq<Item>, paging: Paging, it: Item)
    requires PagingOn(paging)
    ensures Count(LayoutOf(ori, inserts, paging), it) + Count(SkippedWindow(ori, |inserts|, paging), it)
            == Count(ori, it) + Count(InsertsPaged(ori, inserts, paging), it)
  {
    MainCounts(ori, |inserts|, paging, it);
    LayoutCounts(ori, inserts, paging, it);
  }

  lemma {:induction false} InsertsShown(inserts: seq<Item>, pageInsert: nat, actual: nat)
    requires pageInsert > 0
    ensures Window(inserts, 0, Times(PagesDone(actual, |inserts|, pageInsert), pageInsert))
            == Window(inserts, 0, Times(actual, pageInsert))
  {
    var done := PagesDone(actual, |inserts|, pageInsert);
    InsertsLeft(actual, |inserts|, pageInsert, done);
    TimesGrows(done, actual, pageInsert);
    if done < actual {
      WindowsJoin(inserts, 0, Times(done, pageInsert), Times(actual, pageInsert));
      PastTheEnd(inserts, Times(done, pageInsert), Times(actual, pageInsert));
    }
  }

  /** The guard a caller can check: no window is skipped exactly when the inserts reach the last page. */
  lemma {:induction false} NothingSkippedIff(ori: seq<Item>, inserts: nat, paging: Paging)
    requires PagingOn(paging)
    ensures var actual := ActualPages(|ori|, paging);
            SkippedWindow(ori, inserts, paging) == [] <==> actual == 0 || inserts > (actual - 1) * paging.insertCount
  {
    var actual := ActualPages(|ori|, paging);
    var done, pageOri := PagesDone(actual, inserts, paging.insertCount), paging.size - paging.insertCount;
    PageFits(|ori|, paging, actual);
    TimesGrows(done, actual, pageOri);
    WindowLength(ori, Times(done, pageOri), Times(actual, pageOri));
    if actual > 0 {
      InsertsLeft(actual, inserts, paging.insertCount, actual - 1);
      TimesIsProduct(actual - 1, paging.insertCount);
    }
  }

  lemma {:induction false} IdsAppend(a: seq<Item>, b: seq<Item>)
    ensures Ids(a + b) == Ids(a) + Ids(b)
  {
  }

  lemma {:induction false} WindowIds(s: seq<Item>, a: nat, b: nat, c: nat, x: int)
    requires a <= b <= c
    ensures x in Ids(Window(s, a, c)) <==> x in Ids(Window(s, a, b)) || x in Ids(Window(s, b, c))
  {
    WindowsJoin(s, a, b, c);
    IdsAppend(Window(s, a, b), Window(s, b, c));
  }

  /** The ids of the first `n` pages are those of their shares of the main list and of the inserts. */
  lemma {:induction false} PagesShow(ori: seq<Item>, inserts: seq<Item>, pageOri: nat, pageInsert: nat, n: nat, x: int)
    ensures x in Ids(PagesUpTo(ori, inserts, pageOri, pageInsert, n)) <==>
            x in Ids(Window(ori, 0, Times(n, pageOri))) || x in Ids(Window(inserts, 0, Times(n, pageInsert)))
  {
    if n > 0 {
      PagesShow(ori, inserts, pageOri, pageInsert, n - 1, x);
      var a, b, c, d := Times(n - 1, pageOri), Times(n, pageOri), Times(n - 1, pageInsert), Times(n, pageInsert);
      WindowIds(ori, 0, a, b, x);
      WindowIds(inserts, 0, c, d, x);
      IdsAppend(Window(ori, a, b), Window(inserts, c, d));
      IdsAppend(PagesUpTo(ori, inserts, pageOri, pageInsert, n - 1), Page(ori, inserts, pageOri, pageInsert, n - 1));
    }
  }

  /** For all inputs, the ids shown by the pages: those of the main items shown and of the inserts that find a page. */
  lemma {:induction false} PagedShows(ori: seq<Item>, inserts: seq<Item>, paging: Paging, x: int)
    requires PagingOn(paging)
    ensures x in Ids(Paged(ori, inserts, paging)) <==>
            x in Ids(MainShown(ori, |inserts|, paging)) || x in Ids(InsertsPaged(ori, inserts, paging))
  {
    var pageOri, pageInsert := paging.size - paging.insertCount, paging.insertCount;
    var actual := ActualPages(|ori|, paging);
    var done := PagesDone(actual, |inserts|, pageInsert);
    var tail := Window(ori, Times(actual, pageOri), |ori|);
    PagesShow(ori, inserts, pageOri, pageInsert, done, x);
    InsertsShown(inserts, pageInsert, actual);
    IdsAppend(PagesUpTo(ori, inserts, pageOri, pageInsert, done), tail);
    IdsAppend(Window(ori, 0, Times(done, pageOri)), tail);
    KeepFirstIds(LayoutOf(ori, inserts, paging));
  }

  /** The main list is what is shown of it and the skipped window. */
  lemma {:induction false} MainSplits(ori: seq<Item>, inserts: nat, paging: Paging, x: int)
    requires PagingOn(paging)
    ensures x in Ids(ori) <==> x in Ids(MainShown(ori, inserts, paging)) || x in Ids(SkippedWindow(ori, inserts, paging))
  {
    var pageOri, actual := paging.size - paging.insertCount, ActualPages(|ori|, paging);
    var done := PagesDone(actual, inserts, paging.insertCount);
    PageFits(|ori|, paging, actual);
    TimesGrows(done, actual, pageOri);
    var a, b := Times(done, pageOri), Times(actual, pageOri);
    WholeWindow(ori);
    WindowIds(ori, 0, b, |ori|, x);
    WindowIds(ori, 0, a, b, x);
    IdsAppend(Window(ori, 0, a), Window(ori, b, |ori|));
  }

  /**
   * For all inputs, repeats and inserts drawn from the main list included: every main id survives exactly if every id
   * of the skipped window also stands outside the window or among the inserts that find a page.
   */
  lemma {:induction false} MainSurvivesIff(ori: seq<Item>, inserts: seq<Item>, paging: Paging)
    requires PagingOn(paging)
    ensures (forall x :: x in Ids(ori) ==> x in Ids(Paged(ori, inserts, paging)))
            <==> forall x :: x in Ids(SkippedWindow(ori, |inserts|, paging)) ==>
                   x in Ids(MainShown(ori, |inserts|, paging)) || x in Ids(InsertsPaged(ori, inserts, paging))
  {
    forall x
      ensures x in Ids(Paged(ori, inserts, paging)) <==>
              x in Ids(MainShown(ori, |inserts|, paging)) || x in Ids(InsertsPaged(ori, inserts, paging))
      ensures x in Ids(ori) <==> x in Ids(MainShown(ori, |inserts|, paging)) || x in Ids(SkippedWindow(ori, |inserts|, paging))
    {
      PagedShows(ori, inserts, paging, x);
      MainSplits(ori, |inserts|, paging, x);
    }
  }

  /** When main ids neither repeat nor stand among the inserts, that condition is the guard on the counts. */
  lemma {:induction false} MainSurvivesByCount(ori: seq<Item>, inserts: seq<Item>, paging: Paging)
    requires PagingOn(paging) && Distinct(Ids(ori)) && forall x :: x in Ids(ori) ==> x !in Ids(inserts)
    ensures var actual := ActualPages(|ori|, paging);
            (forall x :: x in Ids(ori) ==> x in Ids(Paged(ori, inserts, paging)))
            <==> actual == 0 || |inserts| > (actual - 1) * paging.insertCount
  {
    MainSurvivesIff(ori, inserts, paging);
    NothingSkippedIff(ori, |inserts|, paging);
    var window := SkippedWindow(ori, |inserts|, paging);
    if window != [] {
      var x := window[0].id;
      SkippedOnlyOnce(ori, |inserts|, paging);
      MainSplits(ori, |inserts|, paging, x);
      InsertsSplit(ori, inserts, paging, x);
      assert x == Ids(window)[0];
    }
  }

  /** Without repeats the first id of a skipped window stands nowhere else in the main list. */
  lemma {:induction false} SkippedOnlyOnce(ori: seq<Item>, inserts: nat, paging: Paging)
    requires PagingOn(paging) && Distinct(Ids(ori)) && SkippedWindow(ori, inserts, paging) != []
    ensures SkippedWindow(ori, inserts, paging)[0].id !in Ids(MainShown(ori, inserts, paging))
  {
    var pageOri, actual := paging.size - paging.insertCount, ActualPages(|ori|, paging);
    var done := PagesDone(actual, inserts, paging.insertCount);
    PageFits(|ori|, paging, actual);
    TimesGrows(done, actual, pageOri);
    var a, b := Times(done, pageOri), Times(actual, pageOri);
    WindowLength(ori, a, b);
    OnlyAt(ori, a, 0, a);
    OnlyAt(ori, a, b, |ori|);
    IdsAppend(Window(ori, 0, a), Window(ori, b, |ori|));
  }

  lemma {:induction false} OnlyAt(s: seq<Item>, p: nat, a: nat, b: nat)
    requires Distinct(Ids(s)) && p < |s| && a <= b <= |s| && !(a <= p < b)
    ensures s[p].id !in Ids(Window(s, a, b))
  {
    WindowLength(s, a, b);
    assert forall i :: 0 <= i < |s| ==> Ids(s)[i] == s[i].id;
  }

  /** The inserts that find no page. */
  function InsertsLate(ori: seq<Item>, inserts: seq<Item>, paging: Paging): seq<Item>
    requires PagingOn(paging)
  {
    var n := Times(ActualPages(|ori|, paging), paging.insertCount);
    if n <= |inserts| then Window(inserts, n, |inserts|) else []
  }

  lemma {:induction false} InsertsSplit(ori: seq<Item>, inserts: seq<Item>, paging: Paging, x: int)
    requires PagingOn(paging)
    ensures x in Ids(inserts) <==> x in Ids(InsertsPaged(ori, inserts, paging)) || x in Ids(InsertsLate(ori, inserts, paging))
  {
    var n := Times(ActualPages(|ori|, paging), paging.insertCount);
    WholeWindow(inserts);
    if n <= |inserts| {
      WindowIds(inserts, 0, n, |inserts|, x);
    } else {
      WindowIds(inserts, 0, |inserts|, n, x);
      PastTheEnd(inserts, |inserts|, n);
    }
  }

  /** Every insert is shown exactly if every id that finds no page also stands among those that do, or in the main items shown. */
  lemma {:induction false} InsertsSurviveIff(ori: seq<Item>, inserts: seq<Item>, paging: Paging)
    requires PagingOn(paging)
    ensures (forall x :: x in Ids(inserts) ==> x in Ids(Paged(ori, inserts, paging)))
            <==> forall x :: x in Ids(InsertsLate(ori, inserts, paging)) ==>
                   x in Ids(MainShown(ori, |inserts|, paging)) || x in Ids(InsertsPaged(ori, inserts, paging))
  {
    forall x
      ensures x in Ids(Paged(ori, inserts, paging)) <==>
              x in Ids(MainShown(ori, |inserts|, paging)) || x in Ids(InsertsPaged(ori, inserts, paging))
      ensures x in Ids(inserts) <==> x in Ids(InsertsPaged(ori, inserts, paging)) || x in Ids(InsertsLate(ori, inserts, paging))
    {
      PagedShows(ori, inserts, paging, x);
      InsertsSplit(ori, inserts, paging, x);
    }
  }

  /** When insert ids neither repeat nor stand in the main list, that condition is a guard on the counts. */
  lemma {:induction false} InsertsSurviveByCount(ori: seq<Item>, inserts: seq<Item>, paging: Paging)
    requires PagingOn(paging) && Distinct(Ids(inserts)) && forall x :: x in Ids(inserts) ==> x !in Ids(ori)
    ensures (forall x :: x in Ids(inserts) ==> x in Ids(Paged(ori, inserts, paging)))
            <==> |inserts| <= ActualPages(|ori|, paging) * paging.insertCount
  {
    InsertsSurviveIff(ori, inserts, paging);
    var late, n := InsertsLate(ori, inserts, paging), Times(ActualPages(|ori|, paging), paging.insertCount);
    TimesIsProduct(ActualPages(|ori|, paging), paging.insertCount);
    if n < |inserts| {
      WindowLength(inserts, n, |inserts|);
      OnlyAt(inserts, n, 0, n);
      var x := Ids(late)[0];
      MainSplits(ori, |inserts|, paging, x);
      InsertsSplit(ori, inserts, paging, x);
    } else {
      PastTheEnd(inserts, n, |inserts|);
    }
  }

  function Plain(id: int): Item {
    Item(id, "A", 1.0, map[], true)
  }

  /** Two pages of two with one insert each, and only one insert: a main id is lost. */
  lemma {:induction false} MainCanBeLost() returns (ori: seq<Item>, inserts: seq<Item>, lost: int)
    ensures Ids(ori) == [1, 2, 3, 4] && Ids(inserts) == [9]
    ensures lost in Ids(ori) && lost !in Ids(Paged(ori, inserts, Paging(2, 2, 1)))
  {
    ori, inserts := [Plain(1), Plain(2), Plain(3), Plain(4)], [Plain(9)];
    MainSurvivesByCount(ori, inserts, Paging(2, 2, 1));
    lost :| lost in Ids(ori) && lost !in Ids(Paged(ori, inserts, Paging(2, 2, 1)));
  }

  /** One page of two with one insert, and two inserts: the second one is lost. */
  lemma {:induction false} InsertCanBeLost() returns (ori: seq<Item>, inserts: seq<Item>, lost: int)
    ensures Ids(ori) == [1, 2] && Ids(inserts) == [8, 9]
    ensures lost in Ids(inserts) && lost !in Ids(Paged(ori, inserts, Paging(1, 2, 1)))
  {
    ori, inserts := [Plain(1), Plain(2)], [Plain(8), Plain(9)];
    InsertsSurviveByCount(ori, inserts, Paging(1, 2, 1));
    lost :| lost in Ids(inserts) && lost !in Ids(Paged(ori, inserts, Paging(1, 2, 1)));
  }

  lemma {:induction false} AllKept(ori: seq<Item>, inserts: seq<Item>, paging: Paging)
    requires PagingOn(paging) && SkippedWindow(ori, |inserts|, paging) == []
    ensures forall it :: it in ori ==> it.id in Ids(LayoutOf(ori, inserts, paging))
  {
    var layout := LayoutOf(ori, inserts, paging);
    forall it | it in ori
      ensures it.id in Ids(layout)
    {
      LayoutConserves(ori, inserts, paging, it);
      CountIn(ori, it, |ori|);
      CountIn(layout, it, |layout|);
      var i :| 0 <= i < |layout| && layout[i] == it;
      assert Ids(layout)[i] == it.id;
    }
  }

  lemma {:induction false} AtMostAll(ori: seq<Item>, inserts: seq<Item>, paging: Paging, it: Item)
    requires PagingOn(paging)
    ensures Count(LayoutOf(ori, inserts, paging), it) + Count(SkippedWindow(ori, |inserts|, paging), it) <= Count(ori + inserts, it)
  {
    LayoutConserves(ori, inserts, paging, it);
    var n := Times(ActualPages(|ori|, paging), paging.insertCount);
    ShownAndRest(inserts, n);
    CountAppend(Window(inserts, 0, n), Window(inserts, n, if n <= |inserts| then |inserts| else n), it);
    CountAppend(ori, inserts, it);
  }

  lemma {:induction false} ShownAndRest(inserts: seq<Item>, n: nat)
    ensures inserts == Window(inserts, 0, n) + Window(inserts, n, if n <= |inserts| then |inserts| else n)
  {
    WholeWindow(inserts);
    if n <= |inserts| {
      WindowsJoin(inserts, 0, n, |inserts|);
    } else {
      WindowsJoin(inserts, 0, |inserts|, n);
      PastTheEnd(inserts, |inserts|, n);
    }
  }

  // ---------- the whole strategy ----------

  lemma {:induction false} OfTypeFrom(items: seq<Item>, recallType: string, n: nat)
    requires n <= |items|
    ensures forall it :: it in OfType(items, recallType, n) ==> it in items && it.recallType == recallType
  {
    if n > 0 {
      OfTypeFrom(items, recallType, n - 1);
    }
  }

  ghost predicate FromInputs(items: seq<Item>, exclusive: ExclusivePool, it: Item) {
    it in items || exists lane :: lane in exclusive && it in exclusive[lane]
  }

  lemma {:induction false} SourceFrom(items: seq<Item>, exclusive: ExclusivePool, rule: Rule, it: Item)
    requires it in Source(items, exclusive, rule)
    ensures FromInputs(items, exclusive, it)
  {
    OfTypeFrom(items, rule.recallType, |items|);
  }

  lemma {:induction false} PickedFrom(src: seq<Item>, rule: Rule, shuffled: seq<Item>, it: Item)
    requires (forall x :: x in shuffled ==> x in src) && it in Picked(src, rule, shuffled)
    ensures it in src
  {
    if rule.extract.TopNRand? {
      assert it in shuffled;
    }
  }

  lemma {:induction false} Gathered(parts: nat -> seq<Item>, n: nat, it: Item) returns (r: nat)
    requires it in Gather(parts, n)
    ensures r < n && it in parts(r)
  {
    if it in parts(n - 1) {
      r := n - 1;
    } else {
      r := Gathered(parts, n - 1, it);
    }
  }

  /** Every queued item comes from the main list or from an exclusive lane. */
  lemma {:induction false} QueueSources(items: seq<Item>, exclusive: ExclusivePool, rules: seq<Rule>, shuffle: Shuffle, s: nat, it: Item)
    requires IsShuffle(shuffle) && it in Queue(items, exclusive, rules, shuffle, s)
    ensures FromInputs(items, exclusive, it)
  {
    var r := Gathered(Contributions(items, exclusive, rules, shuffle, s), |rules|, it);
    var src := Source(items, exclusive, rules[r]);
    ShuffleLength(shuffle, s, r, src);
    PickedFrom(src, rules[r], shuffle(s, r, src), it);
    SourceFrom(items, exclusive, rules[r], it);
  }

  /** Every item of the result comes from the main list or from an exclusive lane. */
  lemma {:induction false} ForcedSources(items: seq<Item>, exclusive: ExclusivePool, rules: seq<Rule>, paging: Paging, shuffle: Shuffle, s: nat)
    requires IsShuffle(shuffle)
    ensures forall it :: it in Forced(items, exclusive, rules, paging, shuffle, s) ==>
              it in items || exists lane :: lane in exclusive && it in exclusive[lane]
  {
    var queue := Queue(items, exclusive, rules, shuffle, s);
    forall it | it in queue
      ensures FromInputs(items, exclusive, it)
    {
      QueueSources(items, exclusive, rules, shuffle, s, it);
    }
    KeepFirstFrom(queue + items, |queue + items|);
    if PagingOn(paging) {
      var layout := LayoutOf(items, queue, paging);
      KeepFirstFrom(layout, |layout|);
      LayoutSources(items, queue, paging);
    }
  }

  lemma {:induction false} LayoutSources(ori: seq<Item>, inserts: seq<Item>, paging: Paging)
    requires PagingOn(paging)
    ensures forall it :: it in LayoutOf(ori, inserts, paging) ==> it in ori || it in inserts
  {
    var layout := LayoutOf(ori, inserts, paging);
    forall it | it in layout
      ensures it in ori || it in inserts
    {
      AtMostAll(ori, inserts, paging, it);
      CountIn(layout, it, |layout|);
      CountIn(ori + inserts, it, |ori + inserts|);
    }
  }

  lemma {:induction false} ForcedDistinct(items: seq<Item>, exclusive: ExclusivePool, rules: seq<Rule>, paging: Paging, shuffle: Shuffle, s: nat)
    requires IsShuffle(shuffle) && Distinct(Ids(items))
    ensures Distinct(Ids(Forced(items, exclusive, rules, paging, shuffle, s)))
  {
    var queue := Queue(items, exclusive, rules, shuffle, s);
    KeepFirstIds(queue + items);
    if PagingOn(paging) {
      KeepFirstIds(LayoutOf(items, queue, paging));
    }
  }

  /** With pages on, a non-empty queue and a non-empty main list the pages are the result: there is no falling back. */
  lemma {:induction false} PagesAreTaken(items: seq<Item>, exclusive: ExclusivePool, rules: seq<Rule>, paging: Paging, shuffle: Shuffle, s: nat)
    requires IsShuffle(shuffle) && PagingOn(paging) && Queue(items, exclusive, rules, shuffle, s) != []
    ensures Forced(items, exclusive, rules, paging, shuffle, s) ==
            var queue := Queue(items, exclusive, rules, shuffle, s);
            if items == [] then KeepFirst(queue + items) else Paged(items, queue, paging)
  {
    var queue := Queue(items, exclusive, rules, shuffle, s);
    if items != [] {
      SomethingPaged(items, queue, paging);
    }
  }

  lemma {:induction false} SomeMainShown(ori: seq<Item>, inserts: nat, paging: Paging)
    requires PagingOn(paging) && ori != [] && inserts > 0
    ensures |MainShown(ori, inserts, paging)| > 0
  {
    var pageOri, actual := paging.size - paging.insertCount, ActualPages(|ori|, paging);
    var done := PagesDone(actual, inserts, paging.insertCount);
    if actual == 0 {
      WholeWindow(ori);
    } else {
      InsertsLeft(actual, inserts, paging.insertCount, 0);
      TimesGrows(0, done, pageOri);
      WindowLength(ori, 0, Times(done, pageOri));
    }
  }

  lemma {:induction false} SomethingPaged(ori: seq<Item>, inserts: seq<Item>, paging: Paging)
    requires PagingOn(paging) && ori != [] && inserts != []
    ensures Paged(ori, inserts, paging) != []
  {
    SomeMainShown(ori, |inserts|, paging);
    PagedShows(ori, inserts, paging, Ids(MainShown(ori, |inserts|, paging))[0]);
  }

  /**
   * When every forced id is shown: always without pages, and on an empty main list, where the pages are empty and the
   * queue is prepended instead; otherwise exactly if the ids that find no page stand elsewhere in the layout.
   */
  lemma {:induction false} ForcedShownIff(items: seq<Item>, exclusive: ExclusivePool, rules: seq<Rule>, paging: Paging, shuffle: Shuffle, s: nat)
    requires IsShuffle(shuffle)
    ensures var queue := Queue(items, exclusive, rules, shuffle, s);
            (forall x :: x in Ids(queue) ==> x in Ids(Forced(items, exclusive, rules, paging, shuffle, s)))
            <==> !PagingOn(paging) || items == [] || forall x :: x in Ids(InsertsLate(items, queue, paging)) ==>
                   x in Ids(MainShown(items, |queue|, paging)) || x in Ids(InsertsPaged(items, queue, paging))
  {
    var queue := Queue(items, exclusive, rules, shuffle, s);
    if !PagingOn(paging) {
      KeepFirstIds(queue + items);
      IdsAppend(queue, items);
    } else if queue == [] {
      forall x
        ensures x !in Ids(InsertsLate(items, queue, paging))
      {
        InsertsSplit(items, queue, paging, x);
      }
    } else {
      PagesAreTaken(items, exclusive, rules, paging, shuffle, s);
      InsertsSurviveIff(items, queue, paging);
      KeepFirstIds(queue + items);
      IdsAppend(queue, items);
    }
  }

  /** Without pages the forced items lead the list, each once, and no main id is lost. */
  lemma {:induction false} UnpagedLeads(items: seq<Item>, queue: seq<Item>)
    ensures KeepFirst(queue) <= KeepFirst(queue + items)
    ensures forall x :: x in Ids(items) ==> x in Ids(KeepFirst(queue + items))
  {
    KeepUpToPrefix(queue, items, |queue|);
    KeepUpToGrows(queue + items, |queue|, |queue + items|);
    KeepFirstIds(queue + items);
    assert Ids(queue + items) == Ids(queue) + Ids(items);
  }

  // ---------- the strategy in plain terms ----------

  /** Which list comes out: the main list without inserts, the pages if they are on and not empty, else inserts first. */
  lemma {:induction false} ForcedMeans(items: seq<Item>, exclusive: ExclusivePool, rules: seq<Rule>, paging: Paging, shuffle: Shuffle, s: nat)
    requires IsShuffle(shuffle)
    ensures var queue, out := Queue(items, exclusive, rules, shuffle, s), Forced(items, exclusive, rules, paging, shuffle, s);
            && (queue == [] ==> out == items)
            && (queue != [] && !(paging.num > 0 && 0 < paging.insertCount < paging.size) ==> out == KeepFirst(queue + items))
            && (queue != [] && paging.num > 0 && 0 < paging.insertCount < paging.size && items == [] ==> out == KeepFirst(queue))
            && (queue != [] && paging.num > 0 && 0 < paging.insertCount < paging.size && items != [] ==> out == KeepFirst(LayoutOf(items, queue, paging)))
  {
    var queue := Queue(items, exclusive, rules, shuffle, s);
    if PagingOn(paging) && queue != [] {
      PagesAreTaken(items, exclusive, rules, paging, shuffle, s);
      assert queue + [] == queue;
    }
  }

  /** Each rule adds its contribution behind those of the rules before it. */
  lemma {:induction false} QueueMeans(items: seq<Item>, exclusive: ExclusivePool, rules: seq<Rule>, rule: Rule, shuffle: Shuffle, s: nat)
    ensures Queue(items, exclusive, [], shuffle, s) == []
    ensures Queue(items, exclusive, rules + [rule], shuffle, s) ==
            Queue(items, exclusive, rules, shuffle, s) + Contribution(items, exclusive, rule, shuffle, s, |rules|)
  {
    GatherSame(Contributions(items, exclusive, rules + [rule], shuffle, s), Contributions(items, exclusive, rules, shuffle, s), |rules|);
  }

  lemma {:induction false} GatherSame(f: nat -> seq<Item>, g: nat -> seq<Item>, n: nat)
    requires forall r :: 0 <= r < n ==> f(r) == g(r)
    ensures Gather(f, n) == Gather(g, n)
  {
    if n > 0 {
      GatherSame(f, g, n - 1);
    }
  }

  /**
   * What a rule contributes: of the exclusive lane of its type, or of the main items of that type if that lane is missing or
   * empty, the first ones, in order or as shuffled, as many as it asks for.
   */
  lemma {:induction false} ContributionMeans(items: seq<Item>, exclusive: ExclusivePool, rule: Rule, shuffle: Shuffle, s: nat, r: nat)
    returns (src: seq<Item>, positions: seq<int>)
    requires IsShuffle(shuffle)
    ensures rule.recallType in exclusive && exclusive[rule.recallType] != [] ==> src == exclusive[rule.recallType]
    ensures Increasing(positions) && forall i :: i in positions <==> 0 <= i < |items| && items[i].recallType == rule.recallType
    ensures forall a :: 0 <= a < |positions| ==> 0 <= positions[a] < |items|
    ensures !(rule.recallType in exclusive && exclusive[rule.recallType] != []) ==> src == Select(items, positions)
    ensures var out := Contribution(items, exclusive, rule, shuffle, s, r);
            && |out| == (if rule.count <= 0 then 0 else if rule.count < |src| then rule.count else |src|)
            && (rule.extract == TopNOrder ==> out <= src)
            && (rule.extract == TopNRand ==> out <= shuffle(s, r, src))
  {
    positions := TypePositions(items, rule.recallType, |items|);
    src := Source(items, exclusive, rule);
    ShuffleLength(shuffle, s, r, src);
  }

  lemma {:induction false} TypePositions(items: seq<Item>, recallType: string, n: nat) returns (positions: seq<int>)
    requires n <= |items|
    ensures Increasing(positions) && forall i :: i in positions <==> 0 <= i < n && items[i].recallType == recallType
    ensures forall a :: 0 <= a < |positions| ==> 0 <= positions[a] < n
    ensures OfType(items, recallType, n) == Select(items, positions)
  {
    if n == 0 {
      positions := [];
    } else {
      positions := TypePositions(items, recallType, n - 1);
      if items[n - 1].recallType == recallType {
        SelectSnoc(items, positions, n - 1);
        positions := positions + [n - 1];
      }
    }
  }

  /** The number of pages: as configured, as far as whole pages fit into the main list. */
  lemma {:induction false} ActualPagesMean(total: nat, paging: Paging)
    requires PagingOn(paging)
    ensures var actual := ActualPages(total, paging);
            && 0 <= actual <= paging.num && actual * paging.size <= total
            && (actual < paging.num ==> total < (actual + 1) * paging.size)
  {
    var q := total / paging.size;
    QuotientBounds(total, paging.size, q);
    NextFold(q, paging.size);
    ProductGrows(0, q, paging.size);
    if paging.num < q {
      ProductGrows(paging.num, q, paging.size);
    }
    assert q >= 0;
  }

  /** The length of the completed pages. */
  lemma {:induction false} PagesTogether(ori: seq<Item>, inserts: seq<Item>, paging: Paging, done: nat)
    requires PagingOn(paging) && done == PagesDone(ActualPages(|ori|, paging), |inserts|, paging.insertCount)
    ensures |PagesUpTo(ori, inserts, paging.size - paging.insertCount, paging.insertCount, done)|
            == Times(done, paging.size - paging.insertCount) + Min(Times(done, paging.insertCount), |inserts|)
  {
    if done > 0 {
      LastPage(ori, inserts, paging, done - 1);
    }
  }

  lemma {:induction false} LastPage(ori: seq<Item>, inserts: seq<Item>, paging: Paging, p: nat)
    requires PagingOn(paging) && p < PagesDone(ActualPages(|ori|, paging), |inserts|, paging.insertCount)
    ensures |PagesUpTo(ori, inserts, paging.size - paging.insertCount, paging.insertCount, p + 1)|
            == Times(p + 1, paging.size - paging.insertCount) + Min(Times(p + 1, paging.insertCount), |inserts|)
  {
    var pageOri, pageInsert, actual := paging.size - paging.insertCount, paging.insertCount, ActualPages(|ori|, paging);
    InsertsLeft(actual, |inserts|, pageInsert, p);
    PageFits(|ori|, paging, p + 1);
    PageFits(|ori|, paging, p);
    PagesLength(ori, inserts, pageOri, pageInsert, p);
    TimesAdds(p, pageOri, pageInsert);
    PageParts(ori, inserts, pageOri, pageInsert, p);
  }

  /** Behind the completed pages, of `start` items, stands the main list from `skip` = actualPages·pageOri on. */
  lemma {:induction false} TailLayout(ori: seq<Item>, inserts: seq<Item>, paging: Paging, done: nat, start: nat, skip: nat)
    requires PagingOn(paging) && done == PagesDone(ActualPages(|ori|, paging), |inserts|, paging.insertCount)
    requires start == done * (paging.size - paging.insertCount) + Min(done * paging.insertCount, |inserts|)
    requires skip == ActualPages(|ori|, paging) * (paging.size - paging.insertCount)
    ensures skip <= |ori| && start <= |LayoutOf(ori, inserts, paging)| && LayoutOf(ori, inserts, paging)[start..] == ori[skip..]
  {
    TimesIsProduct(ActualPages(|ori|, paging), paging.size - paging.insertCount);
    TimesIsProduct(done, paging.size - paging.insertCount);
    TimesIsProduct(done, paging.insertCount);
    PageFits(|ori|, paging, ActualPages(|ori|, paging));
    PagesTogether(ori, inserts, paging, done);
    WindowLength(ori, skip, |ori|);
  }

  // ---------- the loops ----------

  method PickFromMain(items: seq<Item>, recallType: string) returns (out: seq<Item>)
    ensures out == OfType(items, recallType, |items|)
  {
    out := [];
    for i := 0 to |items|
      invariant out == OfType(items, recallType, i)
    {
      if items[i].recallType == recallType {
        out := out + [items[i]];
      }
    }
  }

  method PickForcedInsert(src: seq<Item>, rule: Rule, shuffle: Shuffle, s: nat, r: nat) returns (out: seq<Item>)
    requires IsShuffle(shuffle)
    ensures |shuffle(s, r, src)| == |src| && out == Picked(src, rule, shuffle(s, r, src))
  {
    ShuffleLength(shuffle, s, r, src);
    if |src| == 0 || rule.count <= 0 {
      return [];
    }
    var n := rule.count;
    if n > |src| {
      n := |src|;
    }
    match rule.extract
    case TopNRand =>
      var shuffled := shuffle(s, r, src);
      out := shuffled[..n];
    case TopNOrder =>
      out := src[..n];
  }

  /** One turn of the loop over rules: from the exclusive lane, or from the main list if that is empty. */
  method PickForRule(items: seq<Item>, exclusive: ExclusivePool, rule: Rule, shuffle: Shuffle, s: nat, r: nat) returns (picked: seq<Item>)
    requires IsShuffle(shuffle)
    ensures picked == Contribution(items, exclusive, rule, shuffle, s, r)
  {
    var src: seq<Item> := if rule.recallType in exclusive then exclusive[rule.recallType] else [];
    if |src| == 0 {
      src := PickFromMain(items, rule.recallType);
    }
    picked := PickForcedInsert(src, rule, shuffle, s, r);
  }

  /** The loop over rules. */
  method FillQueue(items: seq<Item>, exclusive: ExclusivePool, rules: seq<Rule>, shuffle: Shuffle, s: nat) returns (queue: seq<Item>)
    requires IsShuffle(shuffle)
    ensures queue == Queue(items, exclusive, rules, shuffle, s)
  {
    queue := [];
    for r := 0 to |rules|
      invariant queue == Gather(Contributions(items, exclusive, rules, shuffle, s), r)
    {
      var picked := PickForRule(items, exclusive, rules[r], shuffle, s, r);
      queue := queue + picked;
    }
  }

  method ApplyForcedInsert(items: seq<Item>, exclusive: ExclusivePool, rules: seq<Rule>, paging: Paging, shuffle: Shuffle, s: nat)
    returns (out: seq<Item>)
    requires IsShuffle(shuffle)
    ensures out == Forced(items, exclusive, rules, paging, shuffle, s)
  {
    if |rules| == 0 {
      return items;
    }
    var queue := FillQueue(items, exclusive, rules, shuffle, s);
    if |queue| == 0 {
      return items;
    }
    if paging.size > 0 && paging.insertCount > 0 && paging.num > 0 {
      out := ApplyPaged(items, queue, paging);
      if |out| > 0 {
        return;
      }
    }
    out := PrependUnique(items, queue);
  }

  method ApplyPaged(ori: seq<Item>, inserts: seq<Item>, paging: Paging) returns (out: seq<Item>)
    requires paging.size > 0 && paging.insertCount > 0 && paging.num > 0
    ensures out == Paged(ori, inserts, paging)
  {
    var pageInsert := paging.insertCount;
    var pageOri := paging.size - pageInsert;
    if pageOri <= 0 {
      out := PrependUnique(ori, inserts);
      return;
    }
    var total := |ori|;
    var actualPages := paging.num;
    var maxP := total / paging.size;
    if maxP < actualPages {
      actualPages := maxP;
    }
    out := LayOut(ori, inserts, pageOri, pageInsert, actualPages);
    out := DedupeKeepFirst(out);
  }

  /** The pages and, after them, the main list from `actualPages` pages on. */
  method LayOut(ori: seq<Item>, inserts: seq<Item>, pageOri: nat, pageInsert: nat, actualPages: nat) returns (out: seq<Item>)
    requires pageInsert > 0
    ensures out == Layout(ori, inserts, pageOri, pageInsert, actualPages)
  {
    out := FillPages(ori, inserts, pageOri, pageInsert, actualPages);
    TimesIsProduct(actualPages, pageOri);
    var baseOff := actualPages * pageOri;
    Tail(ori, baseOff);
    if baseOff < |ori| {
      out := out + ori[baseOff..];
    }
  }

  lemma {:induction false} Tail(s: seq<Item>, offset: nat)
    ensures Window(s, offset, |s|) == if offset < |s| then s[offset..] else []
  {
    if offset < |s| {
      WindowLength(s, offset, |s|);
    }
  }

  /** The loop over pages. */
  method FillPages(ori: seq<Item>, inserts: seq<Item>, pageOri: nat, pageInsert: nat, actualPages: nat)
    returns (out: seq<Item>)
    requires pageInsert > 0
    ensures out == PagesUpTo(ori, inserts, pageOri, pageInsert, PagesDone(actualPages, |inserts|, pageInsert))
  {
    out := [];
    var insIdx, page := 0, 0;
    while page < actualPages && insIdx < |inserts|
      invariant 0 <= page <= actualPages && (page > 0 ==> Times(page - 1, pageInsert) < |inserts|)
      invariant insIdx == Min(Times(page, pageInsert), |inserts|)
      invariant out == PagesUpTo(ori, inserts, pageOri, pageInsert, page)
      decreases actualPages - page
    {
      var pageList;
      pageList, insIdx := FillPage(ori, inserts, pageOri, pageInsert, page, insIdx);
      out := out + pageList;
      page := page + 1;
    }
    PagesOver(actualPages, |inserts|, pageInsert, page);
  }

  /** Where the loop over pages stops. */
  lemma {:induction false} PagesOver(actual: nat, inserts: nat, pageInsert: nat, page: nat)
    requires page <= actual && (page > 0 ==> Times(page - 1, pageInsert) < inserts)
    requires page == actual || Times(page, pageInsert) >= inserts
    ensures page == PagesDone(actual, inserts, pageInsert)
  {
    InsertsLeft(actual, inserts, pageInsert, page);
    if page > 0 {
      InsertsLeft(actual, inserts, pageInsert, page - 1);
    }
  }

  /** The two copying loops of one page. */
  method FillPage(ori: seq<Item>, inserts: seq<Item>, pageOri: nat, pageInsert: nat, page: nat, start: nat)
    returns (pageList: seq<Item>, insIdx: nat)
    requires start == Times(page, pageInsert) < |inserts|
    ensures pageList == Page(ori, inserts, pageOri, pageInsert, page)
    ensures insIdx == Min(Times(page + 1, pageInsert), |inserts|)
  {
    TimesIsProduct(page, pageOri);
    var baseOff := page * pageOri;
    pageList := [];
    var i := 0;
    while i < pageOri && baseOff + i < |ori|
      invariant 0 <= i <= pageOri && (i == 0 || baseOff + i <= |ori|)
      invariant pageList == Window(ori, baseOff, baseOff + i)
    {
      pageList := pageList + [ori[baseOff + i]];
      i := i + 1;
    }
    WindowRest(ori, baseOff, baseOff + i, baseOff + pageOri);
    insIdx := start;
    ghost var main := pageList;
    var k := 0;
    while k < pageInsert && insIdx < |inserts|
      invariant 0 <= k <= pageInsert && insIdx == start + k <= |inserts|
      invariant pageList == main + Window(inserts, start, insIdx)
    {
      pageList := pageList + [inserts[insIdx]];
      insIdx := insIdx + 1;
      k := k + 1;
    }
    WindowRest(inserts, start, insIdx, start + pageInsert);
  }

  lemma {:induction false} WindowRest(s: seq<Item>, a: nat, b: nat, c: nat)
    requires a <= b <= c && (b < c ==> |s| <= b)
    ensures Window(s, a, c) == Window(s, a, b)
  {
    WindowsJoin(s, a, b, c);
    if b < c {
      PastTheEnd(s, b, c);
    }
  }
}
