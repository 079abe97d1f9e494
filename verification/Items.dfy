/** Candidates and the list vocabulary shared by every stage (pkg/recsyskit/item.go). */
module Items {

  datatype Option<+T> = None | Some(value: T)

  /** Per-candidate state. `extra` is empty where the original map is nil. */
  datatype Item = Item(id: int, recallType: string, score: real, extra: map<string, string>, hasPortrait: bool)

  /** The ranker's scores for one id. */
  datatype ItemScore = ItemScore(itemId: int, preRank: real, rank: real, reRank: real)

  /** Lanes kept apart from the main list, keyed by recall type (pkg/recsyskit/exclusive.go). */
  type ExclusivePool = map<string, seq<Item>>

  function Ids(items: seq<Item>): (ids: seq<int>)
    ensures |ids| == |items|
    ensures forall i :: 0 <= i < |items| ==> ids[i] == items[i].id
  {
    seq(|items|, i requires 0 <= i < |items| => items[i].id)
  }

  /** The ids of the first `n` items. */
  function IdsUpTo(items: seq<Item>, n: nat): set<int>
    requires n <= |items|
  {
    if n == 0 then {} else IdsUpTo(items, n - 1) + {items[n - 1].id}
  }

  function IdSet(items: seq<Item>): set<int> {
    IdsUpTo(items, |items|)
  }

  ghost predicate Distinct(ids: seq<int>) {
    forall i, j :: 0 <= i < j < |ids| ==> ids[i] != ids[j]
  }

  function Min(a: int, b: int): int {
    if a < b then a else b
  }

  /** `s[:k]` guarded the way the stages guard it: a non-positive cap means "no cap". */
  function Cap<T>(k: int, s: seq<T>): seq<T> {
    if k <= 0 || |s| <= k then s else s[..k]
  }

  /** The elements of `s` at the given positions, in that order. */
  function Select<T>(s: seq<T>, positions: seq<int>): (r: seq<T>)
    requires forall k :: 0 <= k < |positions| ==> 0 <= positions[k] < |s|
    ensures |r| == |positions|
    ensures forall k :: 0 <= k < |positions| ==> r[k] == s[positions[k]]
  {
    seq(|positions|, k requires 0 <= k < |positions| => s[positions[k]])
  }

  /** The first `n` batches, one after the other. */
  function Flat<T>(batches: seq<seq<T>>, n: nat): seq<T>
    requires n <= |batches|
  {
    if n == 0 then [] else Flat(batches, n - 1) + batches[n - 1]
  }

  function Flatten<T>(batches: seq<seq<T>>): seq<T> {
    Flat(batches, |batches|)
  }

  ghost predicate Increasing(positions: seq<int>) {
    forall a, b :: 0 <= a < b < |positions| ==> positions[a] < positions[b]
  }

  /** A positive cap takes that many from the front, as far as there are; any other takes all. */
  lemma {:induction false} CapMeans<T>(k: int, s: seq<T>)
    ensures Cap(k, s) <= s
    ensures |Cap(k, s)| == if 0 < k < |s| then k else |s|
  {
  }

  lemma {:induction false} FlatOfFront<T>(a: seq<seq<T>>, b: seq<seq<T>>, n: nat)
    requires n <= |a|
    ensures Flat(a + b, n) == Flat(a, n)
  {
    if n > 0 {
      FlatOfFront(a, b, n - 1);
    }
  }

  lemma {:induction false} FlatOfBoth<T>(a: seq<seq<T>>, b: seq<seq<T>>, n: nat)
    requires n <= |b|
    ensures Flat(a + b, |a| + n) == Flatten(a) + Flat(b, n)
  {
    if n == 0 {
      FlatOfFront(a, b, |a|);
    } else {
      FlatOfBoth(a, b, n - 1);
    }
  }

  /** What is flattened stands there batch after batch, in order. */
  lemma {:induction false} FlattenMeans<T>(a: seq<seq<T>>, b: seq<seq<T>>, one: seq<T>)
    ensures Flatten<T>([]) == [] && Flatten([one]) == one
    ensures Flatten(a + b) == Flatten(a) + Flatten(b)
  {
    assert Flat([one], 1) == Flat([one], 0) + one;
    FlatOfBoth(a, b, |b|);
  }

  lemma {:induction false} IdsUpToMembers(items: seq<Item>, n: nat, x: int)
    requires n <= |items|
    ensures x in IdsUpTo(items, n) <==> exists i :: 0 <= i < n && items[i].id == x
  {
    if n > 0 {
      IdsUpToMembers(items, n - 1, x);
    }
  }

  lemma {:induction false} IdsUpToPrefix(a: seq<Item>, b: seq<Item>, n: nat)
    requires n <= |a|
    ensures IdsUpTo(a + b, n) == IdsUpTo(a, n)
  {
    if n > 0 {
      IdsUpToPrefix(a, b, n - 1);
    }
  }

  lemma {:induction false} DistinctExtend(items: seq<Item>, it: Item)
    requires Distinct(Ids(items)) && forall i :: 0 <= i < |items| ==> items[i].id != it.id
    ensures Distinct(Ids(items + [it]))
  {
    forall i, j | 0 <= i < j < |items + [it]|
      ensures Ids(items + [it])[i] != Ids(items + [it])[j]
    {
      assert Ids(items)[i] == items[i].id;
      if j < |items| {
        assert Ids(items)[j] == items[j].id;
      }
    }
  }

  lemma {:induction false} SelectSnoc<T>(s: seq<T>, positions: seq<int>, p: int)
    requires forall k :: 0 <= k < |positions| ==> 0 <= positions[k] < |s|
    requires 0 <= p < |s|
    ensures Select(s, positions + [p]) == Select(s, positions) + [s[p]]
  {
  }

  /** A sequence without repeats has as many elements as its set. */
  lemma {:induction false} DistinctCount(ids: seq<int>)
    requires Distinct(ids)
    ensures |set x | x in ids| == |ids|
  {
    if ids != [] {
      var n := |ids| - 1;
      DistinctCount(ids[..n]);
      assert (set x | x in ids) == (set x | x in ids[..n]) + {ids[n]} by {
        assert ids == ids[..n] + [ids[n]];
      }
    }
  }

  lemma {:induction false} BagWithout<T>(s: seq<T>, j: nat)
    requires j < |s|
    ensures multiset(s[..j] + s[j + 1..]) == multiset(s) - multiset{s[j]}
  {
    assert s == s[..j] + [s[j]] + s[j + 1..];
  }

  /** `p * c`, kept as a sum so that arithmetic on it stays linear; TimesIsProduct connects the two. */
  function Times(p: nat, c: nat): nat {
    if p == 0 then 0 else Times(p - 1, c) + c
  }

  lemma {:induction false} TimesIsProduct(p: nat, c: nat)
    ensures Times(p, c) == p * c
  {
    if p > 0 {
      TimesIsProduct(p - 1, c);
    }
  }

  lemma {:induction false} RangeCount(s: set<int>, n: nat)
    requires forall x :: x in s ==> 0 <= x < n
    ensures |s| <= n
    ensures |s| == n ==> forall x :: 0 <= x < n ==> x in s
  {
    if n == 0 {
      assert forall x :: x !in s;
      assert s == {};
    } else {
      RangeCount(s - {n - 1}, n - 1);
    }
  }

  lemma {:induction false} SubsetCount<T>(a: set<T>, b: set<T>)
    requires a <= b
    ensures |a| <= |b|
    ensures |a| == |b| ==> a == b
  {
    assert b == a + (b - a);
    if |a| == |b| {
      assert |b - a| == 0;
    }
  }
}
