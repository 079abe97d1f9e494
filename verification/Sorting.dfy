/** The library's unstable sort, as used by the rank engine and the tag quotas: callers rely on any sorted permutation. */
module Sorting {

  ghost predicate Descending<T>(s: seq<T>, key: T -> real) {
    forall i, j :: 0 <= i < j < |s| ==> key(s[i]) >= key(s[j])
  }

  /** Any outcome of an unstable descending sort. */
  ghost predicate SortOutcome<T>(before: seq<T>, after: seq<T>, key: T -> real) {
    multiset(before) == multiset(after) && Descending(after, key)
  }

  /** The library sort: callers learn only that the result is some descending permutation. */
  method SortSlice<T>(s: seq<T>, key: T -> real) returns (sorted: seq<T>)
    ensures SortOutcome(s, sorted, key)
  {
    sorted := [];
    for i := 0 to |s|
      invariant multiset(sorted) == multiset(s[..i]) && Descending(sorted, key)
    {
      assert s[..i + 1] == s[..i] + [s[i]];
      sorted := Insert(sorted, s[i], key);
    }
    assert s[..|s|] == s;
  }

  method Insert<T>(sorted: seq<T>, x: T, key: T -> real) returns (out: seq<T>)
    requires Descending(sorted, key)
    ensures multiset(out) == multiset(sorted) + multiset{x} && Descending(out, key)
  {
    if sorted == [] || key(x) >= key(sorted[0]) {
      DescendingCons(x, sorted, key);
      return [x] + sorted;
    }
    assert sorted == [sorted[0]] + sorted[1..];
    var rest := Insert(sorted[1..], x, key);
    forall y | y in rest
      ensures key(sorted[0]) >= key(y)
    {
      assert y in multiset(rest);
    }
    DescendingCons(sorted[0], rest, key);
    out := [sorted[0]] + rest;
  }

  lemma {:induction false} DescendingCons<T>(x: T, rest: seq<T>, key: T -> real)
    requires Descending(rest, key)
    requires (rest != [] ==> key(x) >= key(rest[0])) || forall y :: y in rest ==> key(x) >= key(y)
    ensures Descending([x] + rest, key)
  {
  }
}
