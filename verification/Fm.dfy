/**
 * The factorisation machine that pre-ranks candidates (services/rank/internal/rankengine/fm.go) and the five
 * semantic slots it is fed (pkg/featurestore/merge.go). Scores are exact reals.
 */
module Fm {
  import opened Items

  datatype Feature = Feature(key: int, weight: real)

  datatype Model = Model(factor: nat, w0: real, w1: map<int, real>, w2: map<int, seq<real>>)

  // ---------- specification ----------

  /** The sum of `g` over the first `n` features. */
  function Sum(fs: seq<Feature>, g: Feature -> real, n: nat): real
    requires n <= |fs|
  {
    if n == 0 then 0.0 else Sum(fs, g, n - 1) + g(fs[n - 1])
  }

  /** Linear weight of a key; unknown keys have none. */
  function Weight(m: Model, key: int): real {
    if key in m.w1 then m.w1[key] else 0.0
  }

  /** Component `f` of a key's vector; unknown keys and vectors of the wrong length count as zero. */
  function Component(m: Model, key: int, f: nat): real {
    if key in m.w2 && |m.w2[key]| == m.factor && f < m.factor then m.w2[key][f] else 0.0
  }

  function Linear(m: Model): Feature -> real {
    (fe: Feature) => Weight(m, fe.key) * fe.weight
  }

  function Scaled(m: Model, f: nat): Feature -> real {
    (fe: Feature) => Component(m, fe.key, f) * fe.weight
  }

  /** The scaled vectors, component by component. */
  function Vectors(m: Model): nat -> Feature -> real {
    (f: nat) => Scaled(m, f)
  }

  function Squared(g: Feature -> real): Feature -> real {
    (fe: Feature) => Square(g(fe))
  }

  function Vector(m: Model, key: int): nat -> real {
    (f: nat) => Component(m, key, f)
  }

  /** The inner product of two vectors over the first `k` components. */
  function Dot(a: nat -> real, b: nat -> real, k: nat): real {
    if k == 0 then 0.0 else Dot(a, b, k - 1) + a(k - 1) * b(k - 1)
  }

  /** One pairwise interaction. */
  function Interaction(m: Model, a: Feature, b: Feature): real {
    Dot(Vector(m, a.key), Vector(m, b.key), m.factor) * (a.weight * b.weight)
  }

  function With(m: Model, b: Feature): Feature -> real {
    (a: Feature) => Interaction(m, a, b)
  }

  /** All pairwise interactions among the first `n` features. */
  function Pairs(m: Model, fs: seq<Feature>, n: nat): real
    requires n <= |fs|
  {
    if n == 0 then 0.0 else Pairs(m, fs, n - 1) + Sum(fs, With(m, fs[n - 1]), n - 1)
  }

  /** The definition of the logit: bias, linear terms, and every pair once. */
  function Logit(m: Model, fs: seq<Feature>): real {
    m.w0 + Sum(fs, Linear(m), |fs|) + Pairs(m, fs, |fs|)
  }

  /** What the linear-time form accumulates: over `k` components, square of the sum less sum of the squares. */
  function Fast(vs: nat -> Feature -> real, fs: seq<Feature>, n: nat, k: nat): real
    requires n <= |fs|
  {
    if k == 0 then 0.0
    else Fast(vs, fs, n, k - 1) + (Square(Sum(fs, vs(k - 1), n)) - Sum(fs, Squared(vs(k - 1)), n))
  }

  function Square(x: real): real {
    x * x
  }

  // ---------- the fast form equals the definition ----------

  /** Over the first `k` components: the sum of the first `n` scaled features times the scaled feature `b`. */
  function Cross(vs: nat -> Feature -> real, fs: seq<Feature>, n: nat, b: Feature, k: nat): real
    requires n <= |fs|
  {
    if k == 0 then 0.0 else Cross(vs, fs, n, b, k - 1) + Sum(fs, vs(k - 1), n) * vs(k - 1)(b)
  }

  lemma {:induction false} SumOfOne(a: Feature, g: Feature -> real)
    ensures Sum([a], g, 1) == g(a)
  {
    assert Sum([a], g, 1) == Sum([a], g, 0) + g([a][0]);
  }

  function Total(h: nat -> real, k: nat): real {
    if k == 0 then 0.0 else Total(h, k - 1) + h(k - 1)
  }

  function Products(vs: nat -> Feature -> real, a: Feature, b: Feature): nat -> real {
    (f: nat) => vs(f)(a) * vs(f)(b)
  }

  lemma {:induction false} CrossOfOne(vs: nat -> Feature -> real, a: Feature, b: Feature, k: nat)
    ensures Cross(vs, [a], 1, b, k) == Total(Products(vs, a, b), k)
  {
    if k > 0 {
      CrossOfOne(vs, a, b, k - 1);
      SumOfOne(a, vs(k - 1));
    }
  }

  lemma {:induction false} TotalScales(h: nat -> real, a: nat -> real, b: nat -> real, w: real, k: nat)
    requires forall f :: h(f) == (a(f) * b(f)) * w
    ensures Total(h, k) == Dot(a, b, k) * w
  {
    if k > 0 {
      TotalScales(h, a, b, w, k - 1);
      Distribute(Dot(a, b, k - 1), a(k - 1) * b(k - 1), w);
    }
  }

  lemma {:induction false} Regroup(a: real, x: real, b: real, y: real)
    ensures (a * x) * (b * y) == (a * b) * (x * y)
  {
    assert (a * x) * (b * y) == a * (x * (b * y));
    assert x * (b * y) == b * (x * y);
  }

  lemma {:induction false} ProductsRegroup(m: Model, a: Feature, b: Feature, f: nat)
    ensures Products(Vectors(m), a, b)(f) == (Vector(m, a.key)(f) * Vector(m, b.key)(f)) * (a.weight * b.weight)
  {
    Regroup(Vector(m, a.key)(f), a.weight, Vector(m, b.key)(f), b.weight);
  }

  /** The components of one product of scaled vectors add up to the interaction. */
  lemma {:induction false} ScaledDot(m: Model, a: Feature, b: Feature)
    ensures Cross(Vectors(m), [a], 1, b, m.factor) == With(m, b)(a)
  {
    forall f {
      ProductsRegroup(m, a, b, f);
    }
    CrossOfOne(Vectors(m), a, b, m.factor);
    TotalScales(Products(Vectors(m), a, b), Vector(m, a.key), Vector(m, b.key), a.weight * b.weight, m.factor);
  }

  lemma {:induction false} Distribute(a: real, b: real, c: real)
    ensures (a + b) * c == a * c + b * c
  {
  }

  /** One more feature in the sum adds its own products; for any vectors. */
  lemma {:induction false} CrossStep(vs: nat -> Feature -> real, fs: seq<Feature>, n: nat, b: Feature, k: nat)
    requires n < |fs|
    ensures Cross(vs, fs, n + 1, b, k) == Cross(vs, fs, n, b, k) + Cross(vs, [fs[n]], 1, b, k)
  {
    if k > 0 {
      CrossStep(vs, fs, n, b, k - 1);
      var g := vs(k - 1);
      SumOfOne(fs[n], g);
      SplitProduct(Sum(fs, g, n + 1), Sum(fs, g, n), Sum([fs[n]], g, 1), g(b));
    }
  }

  lemma {:induction false} SplitProduct(whole: real, a: real, b: real, c: real)
    requires whole == a + b
    ensures whole * c == a * c + b * c
  {
    Distribute(a, b, c);
  }

  lemma {:induction false} CrossNothing(vs: nat -> Feature -> real, fs: seq<Feature>, b: Feature, k: nat)
    ensures Cross(vs, fs, 0, b, k) == 0.0
  {
    if k > 0 {
      CrossNothing(vs, fs, b, k - 1);
    }
  }

  lemma {:induction false} CrossIsInteractions(m: Model, fs: seq<Feature>, n: nat, b: Feature)
    requires n <= |fs|
    ensures Cross(Vectors(m), fs, n, b, m.factor) == Sum(fs, With(m, b), n)
  {
    if n == 0 {
      CrossNothing(Vectors(m), fs, b, m.factor);
    } else {
      CrossIsInteractions(m, fs, n - 1, b);
      CrossStep(Vectors(m), fs, n - 1, b, m.factor);
      ScaledDot(m, fs[n - 1], b);
    }
  }

  lemma {:induction false} SquareStep(f: real, f': real, c: real, s: real, s': real, d: real, q: real, q': real)
    requires f' == f + 2.0 * c && s' == s + d && q' == q + Square(d)
    ensures f' + (Square(s') - q') == (f + (Square(s) - q)) + 2.0 * (c + s * d)
  {
    assert (s + d) * (s + d) == s * s + 2.0 * (s * d) + d * d;
  }

  /** One more feature adds twice its products with those before it; for any vectors. */
  lemma {:induction false} FastStep(vs: nat -> Feature -> real, fs: seq<Feature>, n: nat, k: nat)
    requires n < |fs|
    ensures Fast(vs, fs, n + 1, k) == Fast(vs, fs, n, k) + 2.0 * Cross(vs, fs, n, fs[n], k)
  {
    if k > 0 {
      FastStep(vs, fs, n, k - 1);
      var g := vs(k - 1);
      SumStep(fs, g, n);
      SumStep(fs, Squared(g), n);
      SquareStep(Fast(vs, fs, n, k - 1), Fast(vs, fs, n + 1, k - 1), Cross(vs, fs, n, fs[n], k - 1),
        Sum(fs, g, n), Sum(fs, g, n + 1), g(fs[n]), Sum(fs, Squared(g), n), Sum(fs, Squared(g), n + 1));
    }
  }

  lemma {:induction false} SumStep(fs: seq<Feature>, g: Feature -> real, n: nat)
    requires n < |fs|
    ensures Sum(fs, g, n + 1) == Sum(fs, g, n) + g(fs[n])
  {
  }

  lemma {:induction false} FastNothing(vs: nat -> Feature -> real, fs: seq<Feature>, k: nat)
    ensures Fast(vs, fs, 0, k) == 0.0
  {
    if k > 0 {
      FastNothing(vs, fs, k - 1);
    }
  }

  /** Half the accumulated difference is the sum over all pairs, for every model and feature list. */
  lemma {:induction false} FastIsPairwise(m: Model, fs: seq<Feature>, n: nat)
    requires n <= |fs|
    ensures 0.5 * Fast(Vectors(m), fs, n, m.factor) == Pairs(m, fs, n)
  {
    if n == 0 {
      FastNothing(Vectors(m), fs, m.factor);
    } else {
      FastIsPairwise(m, fs, n - 1);
      FastStep(Vectors(m), fs, n - 1, m.factor);
      CrossIsInteractions(m, fs, n - 1, fs[n - 1]);
    }
  }

  // ---------- the logit in plain terms ----------

  function Inner(u: seq<real>, v: seq<real>, k: nat): real
    requires k <= |u| && k <= |v|
  {
    if k == 0 then 0.0 else Inner(u, v, k - 1) + u[k - 1] * v[k - 1]
  }

  lemma {:induction false} DotIsInner(m: Model, a: int, b: int, k: nat)
    requires a in m.w2 && b in m.w2 && |m.w2[a]| == m.factor == |m.w2[b]| && k <= m.factor
    ensures Dot(Vector(m, a), Vector(m, b), k) == Inner(m.w2[a], m.w2[b], k)
  {
    if k > 0 {
      DotIsInner(m, a, b, k - 1);
    }
  }

  lemma {:induction false} DotIsNothing(m: Model, a: int, b: int, k: nat)
    requires !(a in m.w2 && |m.w2[a]| == m.factor) || !(b in m.w2 && |m.w2[b]| == m.factor)
    ensures Dot(Vector(m, a), Vector(m, b), k) == 0.0
  {
    if k > 0 {
      DotIsNothing(m, a, b, k - 1);
    }
  }

  /** One pair: the inner product of the two vectors times both weights, and nothing if a vector is missing or of the wrong length. */
  lemma {:induction false} InteractionMeans(m: Model, a: Feature, b: Feature)
    ensures if a.key in m.w2 && |m.w2[a.key]| == m.factor && b.key in m.w2 && |m.w2[b.key]| == m.factor
            then Interaction(m, a, b) == Inner(m.w2[a.key], m.w2[b.key], m.factor) * (a.weight * b.weight)
            else Interaction(m, a, b) == 0.0
  {
    if a.key in m.w2 && |m.w2[a.key]| == m.factor && b.key in m.w2 && |m.w2[b.key]| == m.factor {
      DotIsInner(m, a.key, b.key, m.factor);
    } else {
      DotIsNothing(m, a.key, b.key, m.factor);
    }
  }

  /** Without features the logit is the bias. */
  lemma {:induction false} LogitOfNothing(m: Model)
    ensures Logit(m, []) == m.w0
  {
  }

  /** One more feature adds its linear term, zero for an unknown key, and its interaction with each feature before it. */
  lemma {:induction false} LogitOfOneMore(m: Model, fs: seq<Feature>, f: Feature)
    ensures Logit(m, fs + [f]) == Logit(m, fs) + (if f.key in m.w1 then m.w1[f.key] * f.weight else 0.0) + InteractionsWith(m, fs, f, |fs|)
  {
    var longer := fs + [f];
    SumPrefix(fs, [f], Linear(m), |fs|);
    PairsPrefix(m, fs, [f], |fs|);
    SumPrefix(fs, [f], With(m, f), |fs|);
    InteractionsAre(m, fs, f, |fs|);
    assert longer[|fs|] == f && |longer| == |fs| + 1;
    LinearTerm(m, f);
  }

  lemma {:induction false} LinearTerm(m: Model, f: Feature)
    ensures Linear(m)(f) == if f.key in m.w1 then m.w1[f.key] * f.weight else 0.0
  {
  }

  function InteractionsWith(m: Model, fs: seq<Feature>, f: Feature, n: nat): real
    requires n <= |fs|
  {
    if n == 0 then 0.0 else InteractionsWith(m, fs, f, n - 1) + Interaction(m, fs[n - 1], f)
  }

  lemma {:induction false} InteractionsAre(m: Model, fs: seq<Feature>, f: Feature, n: nat)
    requires n <= |fs|
    ensures Sum(fs, With(m, f), n) == InteractionsWith(m, fs, f, n)
  {
    if n > 0 {
      InteractionsAre(m, fs, f, n - 1);
    }
  }

  lemma {:induction false} PairsPrefix(m: Model, a: seq<Feature>, b: seq<Feature>, n: nat)
    requires n <= |a|
    ensures Pairs(m, a + b, n) == Pairs(m, a, n)
  {
    if n > 0 {
      PairsPrefix(m, a, b, n - 1);
      SumPrefix(a, b, With(m, a[n - 1]), n - 1);
    }
  }

  // ---------- order of the features ----------

  lemma {:induction false} SumPrefix(a: seq<Feature>, b: seq<Feature>, g: Feature -> real, n: nat)
    requires n <= |a|
    ensures Sum(a + b, g, n) == Sum(a, g, n)
  {
    if n > 0 {
      SumPrefix(a, b, g, n - 1);
    }
  }

  lemma {:induction false} SumAppend(a: seq<Feature>, b: seq<Feature>, g: Feature -> real, n: nat)
    requires n <= |b|
    ensures Sum(a + b, g, |a| + n) == Sum(a, g, |a|) + Sum(b, g, n)
  {
    if n == 0 {
      SumPrefix(a, b, g, |a|);
    } else {
      SumAppend(a, b, g, n - 1);
    }
  }

  lemma {:induction false} SumWithout(fs: seq<Feature>, g: Feature -> real, j: nat)
    requires j < |fs|
    ensures Sum(fs, g, |fs|) == Sum(fs[..j] + fs[j + 1..], g, |fs| - 1) + g(fs[j])
  {
    var a, x, b := fs[..j], [fs[j]], fs[j + 1..];
    assert fs == (a + x) + b;
    SumAppend(a + x, b, g, |b|);
    SumAppend(a, x, g, 1);
    SumAppend(a, b, g, |b|);
    assert Sum(x, g, 1) == Sum(x, g, 0) + g(x[0]);
  }

  /** Sums do not depend on the order of the features. */
  lemma {:induction false} SumPermutes(fs: seq<Feature>, gs: seq<Feature>, g: Feature -> real)
    requires multiset(fs) == multiset(gs)
    ensures |fs| == |gs| && Sum(fs, g, |fs|) == Sum(gs, g, |gs|)
    decreases |fs|
  {
    assert |multiset(fs)| == |multiset(gs)|;
    if fs != [] {
      var n := |fs| - 1;
      assert fs[n] in multiset(gs);
      var j :| 0 <= j < |gs| && gs[j] == fs[n];
      BagWithout(fs, n);
      BagWithout(gs, j);
      SumPermutes(fs[..n] + fs[n + 1..], gs[..j] + gs[j + 1..], g);
      SumWithout(fs, g, n);
      SumWithout(gs, g, j);
    }
  }

  lemma {:induction false} FastPermutes(vs: nat -> Feature -> real, fs: seq<Feature>, gs: seq<Feature>, k: nat)
    requires multiset(fs) == multiset(gs) && |fs| == |gs|
    ensures Fast(vs, fs, |fs|, k) == Fast(vs, gs, |gs|, k)
  {
    if k > 0 {
      FastPermutes(vs, fs, gs, k - 1);
      SumPermutes(fs, gs, vs(k - 1));
      SumPermutes(fs, gs, Squared(vs(k - 1)));
    }
  }

  /** The logit does not depend on the order of the features. */
  lemma {:induction false} LogitPermutes(m: Model, fs: seq<Feature>, gs: seq<Feature>)
    requires multiset(fs) == multiset(gs)
    ensures Logit(m, fs) == Logit(m, gs)
  {
    SumPermutes(fs, gs, Linear(m));
    FastPermutes(Vectors(m), fs, gs, m.factor);
    FastIsPairwise(m, fs, |fs|);
    FastIsPairwise(m, gs, |gs|);
  }

  // ---------- monotonicity ----------

  ghost predicate NonNegative(m: Model) {
    && (forall key :: key in m.w1 ==> m.w1[key] >= 0.0)
    && (forall key, f :: key in m.w2 && 0 <= f < |m.w2[key]| ==> m.w2[key][f] >= 0.0)
  }

  /** The same features with weights at least as large, none negative. */
  ghost predicate Raised(fs: seq<Feature>, gs: seq<Feature>) {
    |fs| == |gs| && forall i :: 0 <= i < |fs| ==> fs[i].key == gs[i].key && 0.0 <= fs[i].weight <= gs[i].weight
  }

  lemma {:induction false} ProductGrows(a: real, b: real, x: real, y: real)
    requires 0.0 <= a <= x && 0.0 <= b <= y
    ensures 0.0 <= a * b <= x * y
  {
    assert (x - a) * y >= 0.0 && a * (y - b) >= 0.0;
    assert x * y - a * b == (x - a) * y + a * (y - b);
  }

  lemma {:induction false} DotNonNegative(a: nat -> real, b: nat -> real, k: nat)
    requires forall f :: a(f) >= 0.0
    requires forall f :: b(f) >= 0.0
    ensures Dot(a, b, k) >= 0.0
  {
    if k > 0 {
      DotNonNegative(a, b, k - 1);
      ProductGrows(a(k - 1), b(k - 1), a(k - 1), b(k - 1));
    }
  }

  lemma {:induction false} InteractionGrows(m: Model, a: Feature, b: Feature, x: Feature, y: Feature)
    requires NonNegative(m) && a.key == x.key && b.key == y.key
    requires 0.0 <= a.weight <= x.weight && 0.0 <= b.weight <= y.weight
    ensures Interaction(m, a, b) <= Interaction(m, x, y)
  {
    var dot := Dot(Vector(m, a.key), Vector(m, b.key), m.factor);
    DotNonNegative(Vector(m, a.key), Vector(m, b.key), m.factor);
    ProductGrows(a.weight, b.weight, x.weight, y.weight);
    ProductGrows(dot, a.weight * b.weight, dot, x.weight * y.weight);
  }

  lemma {:induction false} SumGrows(fs: seq<Feature>, gs: seq<Feature>, g: Feature -> real, h: Feature -> real, n: nat)
    requires n <= |fs| == |gs| && forall i :: 0 <= i < n ==> g(fs[i]) <= h(gs[i])
    ensures Sum(fs, g, n) <= Sum(gs, h, n)
  {
    if n > 0 {
      SumGrows(fs, gs, g, h, n - 1);
    }
  }

  lemma {:induction false} PairsGrow(m: Model, fs: seq<Feature>, gs: seq<Feature>, n: nat)
    requires NonNegative(m) && Raised(fs, gs) && n <= |fs|
    ensures Pairs(m, fs, n) <= Pairs(m, gs, n)
  {
    if n > 0 {
      PairsGrow(m, fs, gs, n - 1);
      forall i | 0 <= i < n - 1
        ensures With(m, fs[n - 1])(fs[i]) <= With(m, gs[n - 1])(gs[i])
      {
        InteractionGrows(m, fs[i], fs[n - 1], gs[i], gs[n - 1]);
      }
      SumGrows(fs, gs, With(m, fs[n - 1]), With(m, gs[n - 1]), n - 1);
    }
  }

  /** Raising feature weights never lowers the logit of a non-negative model. */
  lemma {:induction false} LogitGrows(m: Model, fs: seq<Feature>, gs: seq<Feature>)
    requires NonNegative(m) && Raised(fs, gs)
    ensures Logit(m, fs) <= Logit(m, gs)
  {
    forall i | 0 <= i < |fs|
      ensures Linear(m)(fs[i]) <= Linear(m)(gs[i])
    {
      ProductGrows(Weight(m, fs[i].key), fs[i].weight, Weight(m, fs[i].key), gs[i].weight);
    }
    SumGrows(fs, gs, Linear(m), Linear(m), |fs|);
    PairsGrow(m, fs, gs, |fs|);
  }

  // ---------- semantic slots ----------

  /** The named fields of a user or item document, after its nested sections were merged in. */
  datatype FeatDoc = FeatDoc(age: Option<real>, gender: Option<real>, incomeWan: Option<real>, ctr7d: Option<real>, revenue7d: Option<real>)

  function Clamp(v: real, lo: real, hi: real): real {
    if v < lo then lo else if v > hi then hi else v
  }

  /** The field number in the upper half of a 64-bit key. */
  function SlotKey(field: int): int {
    if field <= 0 then 0 else field % 0x1_0000_0000 * 0x1_0000_0000
  }

  /** A list with one slot appended when the field is present. */
  function WithSlot(out: seq<Feature>, field: int, value: Option<real>, weight: real -> real): seq<Feature> {
    if value.Some? then out + [Feature(SlotKey(field), weight(value.value))] else out
  }

  function UserSlots(out: seq<Feature>, user: FeatDoc): seq<Feature> {
    var a := WithSlot(out, 1, user.age, v => Clamp(v, 0.0, 100.0) / 100.0);
    var b := WithSlot(a, 2, user.gender, v => Clamp(v, 0.0, 1.0));
    WithSlot(b, 3, user.incomeWan, v => Clamp(v, 1.0, 10.0) / 10.0)
  }

  function ItemSlots(out: seq<Feature>, item: FeatDoc): seq<Feature> {
    var a := WithSlot(out, 4, item.ctr7d, v => Clamp(v, 0.0, 1.0));
    WithSlot(a, 5, item.revenue7d, v => (if v < 0.0 then 0.0 else v) / 100000.0)
  }

  /** The explicit features followed by the semantic slots. */
  function WithSlots(sparse: seq<Feature>, user: FeatDoc, item: FeatDoc): seq<Feature> {
    ItemSlots(UserSlots(sparse, user), item)
  }

  /** The slot of one field: none without a value. */
  function SlotIf(present: bool, key: int, weight: real): seq<Feature> {
    if present then [Feature(key, weight)] else []
  }

  /** Keys, order and weights of the five slots: `field * 2^32`, and the value cut to its range and scaled. */
  lemma {:induction false} SlotsMean(sparse: seq<Feature>, user: FeatDoc, item: FeatDoc, age: real, gender: real, income: real, ctr: real, revenue: real)
    requires user.age.Some? ==> age == (if user.age.value < 0.0 then 0.0 else if user.age.value > 100.0 then 100.0 else user.age.value)
    requires user.gender.Some? ==> gender == (if user.gender.value < 0.0 then 0.0 else if user.gender.value > 1.0 then 1.0 else user.gender.value)
    requires user.incomeWan.Some? ==>
               income == (if user.incomeWan.value < 1.0 then 1.0 else if user.incomeWan.value > 10.0 then 10.0 else user.incomeWan.value)
    requires item.ctr7d.Some? ==> ctr == (if item.ctr7d.value < 0.0 then 0.0 else if item.ctr7d.value > 1.0 then 1.0 else item.ctr7d.value)
    requires item.revenue7d.Some? ==> revenue == if item.revenue7d.value < 0.0 then 0.0 else item.revenue7d.value
    ensures WithSlots(sparse, user, item) == sparse
            + SlotIf(user.age.Some?, 0x1_0000_0000, age / 100.0) + SlotIf(user.gender.Some?, 0x2_0000_0000, gender)
            + SlotIf(user.incomeWan.Some?, 0x3_0000_0000, income / 10.0) + SlotIf(item.ctr7d.Some?, 0x4_0000_0000, ctr)
            + SlotIf(item.revenue7d.Some?, 0x5_0000_0000, revenue / 100000.0)
  {
  }

  ghost predicate AllWithin(fs: seq<Feature>, hi: real) {
    forall i :: 0 <= i < |fs| ==> 0.0 <= fs[i].weight <= hi
  }

  /** Clamping keeps every slot weight non-negative, and all but the revenue at most 1. */
  lemma {:induction false} SlotsBounded(user: FeatDoc, item: FeatDoc)
    ensures AllWithin(UserSlots([], user), 1.0)
    ensures AllWithin(ItemSlots([], item.(revenue7d := None)), 1.0)
    ensures forall i :: 0 <= i < |WithSlots([], user, item)| ==> WithSlots([], user, item)[i].weight >= 0.0
  {
    var users := UserSlots([], user);
    assert AllWithin(users, 1.0);
    var clicks := WithSlot(users, 4, item.ctr7d, v => Clamp(v, 0.0, 1.0));
    assert AllWithin(clicks, 1.0);
  }

  ghost predicate AtMost(a: Option<real>, b: Option<real>) {
    match (a, b)
    case (Some(x), Some(y)) => x <= y
    case (None, None) => true
    case _ => false
  }

  lemma {:induction false} SlotRaised(a: seq<Feature>, b: seq<Feature>, field: int, x: Option<real>, y: Option<real>, weight: real -> real)
    requires Raised(a, b) && AtMost(x, y)
    requires x.Some? ==> 0.0 <= weight(x.value) <= weight(y.value)
    ensures Raised(WithSlot(a, field, x, weight), WithSlot(b, field, y, weight))
  {
  }

  lemma {:induction false} UserSlotsNonNegative(out: seq<Feature>, user: FeatDoc)
    requires Raised(out, out)
    ensures Raised(UserSlots(out, user), UserSlots(out, user))
  {
    var a := WithSlot(out, 1, user.age, v => Clamp(v, 0.0, 100.0) / 100.0);
    SlotRaised(out, out, 1, user.age, user.age, v => Clamp(v, 0.0, 100.0) / 100.0);
    var b := WithSlot(a, 2, user.gender, v => Clamp(v, 0.0, 1.0));
    SlotRaised(a, a, 2, user.gender, user.gender, v => Clamp(v, 0.0, 1.0));
    SlotRaised(b, b, 3, user.incomeWan, user.incomeWan, v => Clamp(v, 1.0, 10.0) / 10.0);
  }

  /** Documents with the same fields, each item value at least as large. */
  lemma {:induction false} ItemSlotsRaised(out: seq<Feature>, low: FeatDoc, high: FeatDoc)
    requires Raised(out, out) && AtMost(low.ctr7d, high.ctr7d) && AtMost(low.revenue7d, high.revenue7d)
    ensures Raised(ItemSlots(out, low), ItemSlots(out, high))
  {
    var clicks := (v: real) => Clamp(v, 0.0, 1.0);
    SlotRaised(out, out, 4, low.ctr7d, high.ctr7d, clicks);
    SlotRaised(WithSlot(out, 4, low.ctr7d, clicks), WithSlot(out, 4, high.ctr7d, clicks), 5, low.revenue7d, high.revenue7d,
      v => (if v < 0.0 then 0.0 else v) / 100000.0);
  }

  /** The link from logits to scores: any strictly increasing function, such as the logistic one. */
  ghost predicate IsLink(link: real -> real) {
    forall a, b {:trigger link(a), link(b)} :: a < b ==> link(a) < link(b)
  }

  ghost predicate Reaches(link: real -> real, y: real) {
    exists x :: link(x) == y
  }

  /** What the proofs use of the logistic function: increasing, and onto the values between 0 and 1. */
  ghost predicate IsSigmoid(link: real -> real) {
    && IsLink(link)
    && (forall x :: 0.0 < link(x) < 1.0)
    && (forall y :: 0.0 < y < 1.0 ==> Reaches(link, y))
  }

  /** A model with one linear feature of weight 1. */
  function Ramp(): Model {
    Model(1, 0.0, map[1 := 1.0], map[])
  }

  lemma {:induction false} RampLogit(x: real)
    ensures Logit(Ramp(), [Feature(1, x)]) == x
  {
    var fs := [Feature(1, x)];
    assert Sum(fs, Linear(Ramp()), 1) == Sum(fs, Linear(Ramp()), 0) + Linear(Ramp())(fs[0]);
    assert Pairs(Ramp(), fs, 1) == Pairs(Ramp(), fs, 0) + Sum(fs, With(Ramp(), fs[0]), 0);
  }

  /**
   * Between two items that agree on everything but click-through rate and revenue, the one with the larger values
   * never scores lower, for every non-negative model and non-negative explicit features.
   */
  lemma {:induction false} ScoreFollowsClicks(m: Model, link: real -> real, sparse: seq<Feature>, user: FeatDoc, low: FeatDoc, high: FeatDoc)
    requires NonNegative(m) && IsLink(link) && forall i :: 0 <= i < |sparse| ==> sparse[i].weight >= 0.0
    requires AtMost(low.ctr7d, high.ctr7d) && AtMost(low.revenue7d, high.revenue7d)
    ensures link(Logit(m, WithSlots(sparse, user, low))) <= link(Logit(m, WithSlots(sparse, user, high)))
  {
    UserSlotsNonNegative(sparse, user);
    ItemSlotsRaised(UserSlots(sparse, user), low, high);
    LogitGrows(m, WithSlots(sparse, user, low), WithSlots(sparse, user, high));
  }

  // ---------- the loops ----------

  /** The scoring loop: one pass over the features, then one over the components. */
  method Predict(model: Option<Model>, features: seq<Feature>, link: real -> real) returns (score: real)
    ensures score == if model.Some? then link(Logit(model.value, features)) else 0.0
  {
    if model.None? {
      return 0.0;
    }
    var m := model.value;
    var supScore, supVec, supSqr := Scan(m, features);
    var tmp := Combine(Vectors(m), features, supVec, supSqr);
    FastIsPairwise(m, features, |features|);
    score := link(supScore + 0.5 * tmp);
  }

  /** The loop over the features. */
  method Scan(m: Model, features: seq<Feature>) returns (supScore: real, supVec: array<real>, supSqr: array<real>)
    ensures supScore == m.w0 + Sum(features, Linear(m), |features|)
    ensures supVec.Length == m.factor && Accumulated(Vectors(m), features, |features|, supVec[..], supSqr[..])
  {
    supScore := m.w0;
    supVec := new real[m.factor](_ => 0.0);
    supSqr := new real[m.factor](_ => 0.0);
    for i := 0 to |features|
      invariant supScore == m.w0 + Sum(features, Linear(m), i)
      invariant Accumulated(Vectors(m), features, i, supVec[..], supSqr[..])
    {
      supScore := AddLinear(m, features[i], supScore);
      Accumulate(m, Vectors(m), features, i, supVec, supSqr);
    }
  }

  method AddLinear(m: Model, fe: Feature, score: real) returns (supScore: real)
    ensures supScore == score + Linear(m)(fe)
  {
    supScore := score;
    if fe.key in m.w1 {
      supScore := supScore + m.w1[fe.key] * fe.weight;
    }
  }

  /** What the accumulators hold after `n` features. */
  ghost predicate Accumulated(vs: nat -> Feature -> real, fs: seq<Feature>, n: nat, vec: seq<real>, sqr: seq<real>)
    requires n <= |fs|
  {
    |vec| == |sqr| && forall f :: 0 <= f < |vec| ==> vec[f] == Sum(fs, vs(f), n) && sqr[f] == Sum(fs, Squared(vs(f)), n)
  }

  /** The closing loop over the components. */
  method Combine(ghost vs: nat -> Feature -> real, features: seq<Feature>, supVec: array<real>, supSqr: array<real>) returns (tmp: real)
    requires Accumulated(vs, features, |features|, supVec[..], supSqr[..])
    ensures tmp == Fast(vs, features, |features|, supVec.Length)
  {
    tmp := 0.0;
    for f := 0 to supVec.Length
      invariant tmp == Fast(vs, features, |features|, f)
    {
      var s := supVec[f];
      assert s == supVec[..][f] && supSqr[f] == supSqr[..][f];
      tmp := tmp + (s * s - supSqr[f]);
    }
  }

  /** The inner loop: feature `i` enters the accumulators of every component. */
  method Accumulate(m: Model, ghost vs: nat -> Feature -> real, features: seq<Feature>, i: nat, supVec: array<real>, supSqr: array<real>)
    requires i < |features| && vs == Vectors(m) && supVec != supSqr && supVec.Length == m.factor
    requires Accumulated(vs, features, i, supVec[..], supSqr[..])
    modifies supVec, supSqr
    ensures Accumulated(vs, features, i + 1, supVec[..], supSqr[..])
  {
    var fe := features[i];
    if fe.key in m.w2 && |m.w2[fe.key]| == m.factor {
      AddVector(m.w2[fe.key], vs, features, i, supVec, supSqr);
    } else {
      NothingToAdd(m, fe);
    }
  }

  lemma {:induction false} NothingToAdd(m: Model, fe: Feature)
    requires !(fe.key in m.w2 && |m.w2[fe.key]| == m.factor)
    ensures forall f: nat :: Vectors(m)(f)(fe) == 0.0 && Squared(Vectors(m)(f))(fe) == 0.0
  {
  }

  method AddVector(w2: seq<real>, ghost vs: nat -> Feature -> real, features: seq<Feature>, i: nat, supVec: array<real>, supSqr: array<real>)
    requires i < |features| && supVec != supSqr && supVec.Length == |w2|
    requires forall f :: 0 <= f < |w2| ==> vs(f)(features[i]) == w2[f] * features[i].weight
    requires Accumulated(vs, features, i, supVec[..], supSqr[..])
    modifies supVec, supSqr
    ensures Accumulated(vs, features, i + 1, supVec[..], supSqr[..])
  {
    assert |supVec[..]| == |supSqr[..]|;
    for f := 0 to supVec.Length
      invariant forall c :: 0 <= c < f ==> supVec[c] == Sum(features, vs(c), i + 1) && supSqr[c] == Sum(features, Squared(vs(c)), i + 1)
      invariant forall c :: f <= c < supVec.Length ==> supVec[c] == old(supVec[..])[c] && supSqr[c] == old(supSqr[..])[c]
    {
      var d := w2[f] * features[i].weight;
      AddTerm(vs(f), features, i, supVec, supSqr, f, d);
    }
  }

  method AddTerm(ghost g: Feature -> real, features: seq<Feature>, i: nat, supVec: array<real>, supSqr: array<real>, f: nat, d: real)
    requires i < |features| && supVec != supSqr && f < supVec.Length == supSqr.Length && d == g(features[i])
    requires supVec[f] == Sum(features, g, i) && supSqr[f] == Sum(features, Squared(g), i)
    modifies supVec, supSqr
    ensures supVec[..] == old(supVec[..])[f := Sum(features, g, i + 1)]
    ensures supSqr[..] == old(supSqr[..])[f := Sum(features, Squared(g), i + 1)]
  {
    supVec[f] := supVec[f] + d;
    supSqr[f] := supSqr[f] + d * d;
  }

  method AppendSemanticSlots(sparse: seq<Feature>, user: FeatDoc, item: FeatDoc) returns (out: seq<Feature>)
    ensures out == WithSlots(sparse, user, item)
  {
    out := sparse;
    if user.age.Some? {
      var a := Clamp(user.age.value, 0.0, 100.0);
      out := out + [Feature(SlotKey(1), a / 100.0)];
    }
    if user.gender.Some? {
      out := out + [Feature(SlotKey(2), Clamp(user.gender.value, 0.0, 1.0))];
    }
    if user.incomeWan.Some? {
      var inc := Clamp(user.incomeWan.value, 1.0, 10.0);
      out := out + [Feature(SlotKey(3), inc / 10.0)];
    }
    if item.ctr7d.Some? {
      out := out + [Feature(SlotKey(4), Clamp(item.ctr7d.value, 0.0, 1.0))];
    }
    if item.revenue7d.Some? {
      var rev := item.revenue7d.value;
      if rev < 0.0 {
        rev := 0.0;
      }
      out := out + [Feature(SlotKey(5), rev / 100000.0)];
    }
  }
}
