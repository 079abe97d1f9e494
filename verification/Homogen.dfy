/** Homogeneous-content exchange (services/recommend/internal/centerconfig/show.go). */
module Homogen {
  import opened Items

  const SUBSTITUTE_TYPE := "HomogeneityContent"

  // ---------- specification ----------

  /** The substitute configured for an id, if it is a usable one. */
  function Substitute(exchange: map<int, int>, id: int): Option<int> {
    if id in exchange && exchange[id] > 0 && exchange[id] != id then Some(exchange[id]) else None
  }

  function Substituted(it: Item, alt: int): Item {
    Item(alt, SUBSTITUTE_TYPE, it.score, map[], false)
  }

  /** What an item contributes, given the ids already emitted; only active positions may exchange. */
  function SlotOf(it: Item, active: bool, exchange: map<int, int>, seen: set<int>): Option<Item> {
    var alt := Substitute(exchange, it.id);
    if active && alt.Some? && alt.value !in seen then Some(Substituted(it, alt.value))
    else if it.id !in seen then Some(it)
    else None
  }

  /** The ids emitted by the first `k` positions, of which only those below `n` may exchange. */
  function Emitted(items: seq<Item>, n: nat, exchange: map<int, int>, k: nat): set<int>
    requires k <= |items|
  {
    if k == 0 then {}
    else
      var seen := Emitted(items, n, exchange, k - 1);
      match SlotOf(items[k - 1], k - 1 < n, exchange, seen)
      case None => seen
      case Some(it) => seen + {it.id}
  }

  function Slot(items: seq<Item>, n: nat, exchange: map<int, int>, k: nat): Option<Item>
    requires k < |items|
  {
    SlotOf(items[k], k < n, exchange, Emitted(items, n, exchange, k))
  }

  function Exchanged(items: seq<Item>, n: nat, exchange: map<int, int>, k: nat): seq<Item>
    requires k <= |items|
  {
    if k == 0 then []
    else
      match Slot(items, n, exchange, k - 1)
      case None => Exchanged(items, n, exchange, k - 1)
      case Some(it) => Exchanged(items, n, exchange, k - 1) + [it]
  }

  /** The whole strategy. A missing or unreadable exchange table is the empty table, and then the list is cut at topN. */
  function HomogenContent(items: seq<Item>, exchange: map<int, int>, topN: int): seq<Item> {
    if topN <= 0 || items == [] || exchange == map[] then Cap(topN, items)
    else Exchanged(items, Min(topN, |items|), exchange, |items|)
  }

  // ---------- properties ----------

  lemma {:induction false} EmittedBySlot(items: seq<Item>, n: nat, exchange: map<int, int>, k: nat, x: int)
    requires k <= |items|
    ensures x in Emitted(items, n, exchange, k) <==>
            exists j :: 0 <= j < k && Slot(items, n, exchange, j).Some? && Slot(items, n, exchange, j).value.id == x
  {
    if k > 0 {
      EmittedBySlot(items, n, exchange, k - 1, x);
      var last := Slot(items, n, exchange, k - 1);
      if last.Some? && last.value.id == x {
        assert x in Emitted(items, n, exchange, k);
      } else {
        assert x in Emitted(items, n, exchange, k) <==> x in Emitted(items, n, exchange, k - 1);
      }
    }
  }

  /** The output never repeats an id, whatever the input and the table. */
  lemma {:induction false} ExchangedDistinct(items: seq<Item>, n: nat, exchange: map<int, int>, k: nat)
    requires k <= |items|
    ensures Distinct(Ids(Exchanged(items, n, exchange, k)))
    ensures forall i :: 0 <= i < |Exchanged(items, n, exchange, k)| ==>
              Exchanged(items, n, exchange, k)[i].id in Emitted(items, n, exchange, k)
  {
    if k > 0 {
      ExchangedDistinct(items, n, exchange, k - 1);
      var slot := Slot(items, n, exchange, k - 1);
      if slot.Some? {
        DistinctExtend(Exchanged(items, n, exchange, k - 1), slot.value);
      }
    }
  }

  /** An earlier position emitted the id of position `k` as its substitute. */
  ghost predicate SubstitutedEarlier(items: seq<Item>, n: nat, exchange: map<int, int>, k: nat)
    requires k < |items|
  {
    exists j :: 0 <= j < k && j < n && Substitute(exchange, items[j].id) == Some(items[k].id)
                && items[k].id !in Emitted(items, n, exchange, j)
  }

  /** In an input without repeats an id comes out before its own position only as a substitute. */
  lemma {:induction false} OwnIdEmittedEarlier(items: seq<Item>, n: nat, exchange: map<int, int>, k: nat)
    requires k < |items| && Distinct(Ids(items))
    ensures items[k].id in Emitted(items, n, exchange, k) <==> SubstitutedEarlier(items, n, exchange, k)
  {
    EmittedBySlot(items, n, exchange, k, items[k].id);
    if items[k].id in Emitted(items, n, exchange, k) {
      var j :| 0 <= j < k && Slot(items, n, exchange, j).Some? && Slot(items, n, exchange, j).value.id == items[k].id;
      assert Ids(items)[j] != Ids(items)[k];
      assert Substitute(exchange, items[j].id) == Some(items[k].id);
    }
    if SubstitutedEarlier(items, n, exchange, k) {
      var j :| 0 <= j < k && j < n && Substitute(exchange, items[j].id) == Some(items[k].id)
               && items[k].id !in Emitted(items, n, exchange, j);
      assert Slot(items, n, exchange, j).Some? && Slot(items, n, exchange, j).value.id == items[k].id;
    }
  }

  /**
   * For an input without repeats, a position yields nothing exactly when its own id already came out as the
   * substitute of an earlier position and it has no fresh substitute of its own.
   */
  lemma {:induction false} NothingOnlyAfterSubstitute(items: seq<Item>, n: nat, exchange: map<int, int>, k: nat)
    requires k < |items| && Distinct(Ids(items))
    ensures Slot(items, n, exchange, k) == None <==>
            && SubstitutedEarlier(items, n, exchange, k)
            && !(k < n && Substitute(exchange, items[k].id).Some?
                 && Substitute(exchange, items[k].id).value !in Emitted(items, n, exchange, k))
  {
    OwnIdEmittedEarlier(items, n, exchange, k);
  }

  /** Relative order and scores: the output scores are those of an increasing choice of input positions. */
  lemma {:induction false} ScoresAreSubsequence(items: seq<Item>, n: nat, exchange: map<int, int>, k: nat)
    returns (positions: seq<int>)
    requires k <= |items|
    ensures Increasing(positions) && forall c :: 0 <= c < |positions| ==> 0 <= positions[c] < k
    ensures |Exchanged(items, n, exchange, k)| == |positions|
    ensures forall c :: 0 <= c < |positions| ==>
              var out, from := Exchanged(items, n, exchange, k)[c], items[positions[c]];
              && out.score == from.score
              && (out == from || (positions[c] < n && Substitute(exchange, from.id) == Some(out.id)
                                  && out.recallType == SUBSTITUTE_TYPE))
  {
    if k == 0 {
      positions := [];
    } else {
      positions := ScoresAreSubsequence(items, n, exchange, k - 1);
      if Slot(items, n, exchange, k - 1).Some? {
        positions := positions + [k - 1];
      }
    }
  }

  /** Every output item is an input item or the substitute of one. */
  lemma {:induction false} HomogenSources(items: seq<Item>, exchange: map<int, int>, topN: int)
    ensures forall it :: it in HomogenContent(items, exchange, topN) ==>
              it in items
              || (it.recallType == SUBSTITUTE_TYPE
                  && exists from :: from in items && from.id in exchange && exchange[from.id] == it.id)
  {
    var n := Min(topN, |items|);
    if !(topN <= 0 || items == [] || exchange == map[]) {
      var positions := ScoresAreSubsequence(items, n, exchange, |items|);
      var out := Exchanged(items, n, exchange, |items|);
      forall it | it in out
        ensures it in items
             || (it.recallType == SUBSTITUTE_TYPE
                 && exists from :: from in items && from.id in exchange && exchange[from.id] == it.id)
      {
        var c :| 0 <= c < |out| && out[c] == it;
        assert items[positions[c]] in items;
      }
    }
  }

  lemma {:induction false} HomogenDistinct(items: seq<Item>, exchange: map<int, int>, topN: int)
    requires Distinct(Ids(items))
    ensures Distinct(Ids(HomogenContent(items, exchange, topN)))
  {
    if topN <= 0 || items == [] || exchange == map[] {
      var out := Cap(topN, items);
      assert forall i :: 0 <= i < |out| ==> Ids(out)[i] == Ids(items)[i];
    } else {
      ExchangedDistinct(items, Min(topN, |items|), exchange, |items|);
    }
  }

  // ---------- what comes out, and how much ----------

  /** What the `seen` map holds is what is out: exactly the ids of the output. */
  lemma {:induction false} EmittedIsShown(items: seq<Item>, n: nat, exchange: map<int, int>, k: nat, x: int)
    requires k <= |items|
    ensures x in Emitted(items, n, exchange, k) <==> x in Ids(Exchanged(items, n, exchange, k))
  {
    if k > 0 {
      EmittedIsShown(items, n, exchange, k - 1, x);
      var before, slot := Exchanged(items, n, exchange, k - 1), Slot(items, n, exchange, k - 1);
      if slot.Some? {
        assert Ids(before + [slot.value]) == Ids(before) + [slot.value.id];
      }
    }
  }

  lemma {:induction false} EmittedGrows(items: seq<Item>, n: nat, exchange: map<int, int>, j: nat, k: nat)
    requires j <= k <= |items|
    ensures Emitted(items, n, exchange, j) <= Emitted(items, n, exchange, k)
  {
    if j < k {
      EmittedGrows(items, n, exchange, j, k - 1);
    }
  }

  /**
   * Nothing is lost, for every input and table: each position's own id stands in the output, or, within the first `n`,
   * that of its substitute; past them always its own.
   */
  lemma {:induction false} NothingLost(items: seq<Item>, n: nat, exchange: map<int, int>, i: nat)
    requires i < |items|
    ensures var shown := Ids(Exchanged(items, n, exchange, |items|));
            items[i].id in shown
            || (i < n && Substitute(exchange, items[i].id).Some? && Substitute(exchange, items[i].id).value in shown)
  {
    var own, alt := items[i].id, Substitute(exchange, items[i].id);
    EmittedGrows(items, n, exchange, i + 1, |items|);
    EmittedIsShown(items, n, exchange, |items|, own);
    if alt.Some? {
      EmittedIsShown(items, n, exchange, |items|, alt.value);
    }
    assert own in Emitted(items, n, exchange, i + 1) || (i < n && alt.Some? && alt.value in Emitted(items, n, exchange, i + 1));
  }

  /** How many of the first `k` positions yield nothing. */
  function Silent(items: seq<Item>, n: nat, exchange: map<int, int>, k: nat): nat
    requires k <= |items|
  {
    if k == 0 then 0 else Silent(items, n, exchange, k - 1) + if Slot(items, n, exchange, k - 1).None? then 1 else 0
  }

  lemma {:induction false} SilentCounts(items: seq<Item>, n: nat, exchange: map<int, int>, k: nat)
    requires k <= |items|
    ensures |Exchanged(items, n, exchange, k)| + Silent(items, n, exchange, k) == k
  {
    if k > 0 {
      SilentCounts(items, n, exchange, k - 1);
    }
  }

  /** For every input, when the output keeps to the top N: without a table, or when enough positions yield nothing. */
  lemma {:induction false} TopNHoldsIff(items: seq<Item>, exchange: map<int, int>, topN: int)
    requires topN > 0
    ensures |HomogenContent(items, exchange, topN)| <= topN <==>
            exchange == map[] || |items| - Silent(items, Min(topN, |items|), exchange, |items|) <= topN
  {
    SilentCounts(items, Min(topN, |items|), exchange, |items|);
  }

  /** No substitute of the first `n` positions stands in the list itself. */
  ghost predicate OutsideSubstitutes(items: seq<Item>, n: nat, exchange: map<int, int>) {
    forall i, j :: 0 <= i < n && i < |items| && 0 <= j < |items| ==> Substitute(exchange, items[i].id) != Some(items[j].id)
  }

  lemma {:induction false} NoneSilent(items: seq<Item>, n: nat, exchange: map<int, int>, k: nat)
    requires k <= |items| && Distinct(Ids(items)) && OutsideSubstitutes(items, n, exchange)
    ensures Silent(items, n, exchange, k) == 0
  {
    if k > 0 {
      NoneSilent(items, n, exchange, k - 1);
      NothingOnlyAfterSubstitute(items, n, exchange, k - 1);
    }
  }

  /** Then, for distinct ids, the top N is kept exactly when there is no table or no more than N items. */
  lemma {:induction false} TopNHoldsByCount(items: seq<Item>, exchange: map<int, int>, topN: int)
    requires topN > 0 && Distinct(Ids(items)) && OutsideSubstitutes(items, Min(topN, |items|), exchange)
    ensures |HomogenContent(items, exchange, topN)| <= topN <==> exchange == map[] || |items| <= topN
  {
    TopNHoldsIff(items, exchange, topN);
    NoneSilent(items, Min(topN, |items|), exchange, |items|);
  }

  /** A table that has nothing to do with the list keeps it from being cut. */
  lemma {:induction false} TopNFails() returns (items: seq<Item>, exchange: map<int, int>)
    ensures |HomogenContent(items, exchange, 1)| == 2
  {
    items, exchange := [Item(1, "A", 1.0, map[], true), Item(2, "A", 0.5, map[], true)], map[9 := 8];
    assert Ids(items) == [1, 2] && 9 in exchange;
    NoneSilent(items, 1, exchange, 2);
    SilentCounts(items, 1, exchange, 2);
  }

  /** Which list comes out: all of it without a size, a prefix without a table, and else the exchange of the first topN. */
  lemma {:induction false} HomogenMeans(items: seq<Item>, exchange: map<int, int>, topN: int)
    ensures topN <= 0 ==> HomogenContent(items, exchange, topN) == items
    ensures topN > 0 && exchange == map[] ==> HomogenContent(items, exchange, topN) == if topN < |items| then items[..topN] else items
    ensures topN > 0 && exchange != map[] ==>
              var n := if topN < |items| then topN else |items|;
              HomogenContent(items, exchange, topN) == Exchanged(items, n, exchange, |items|) && Exchanged(items, n, exchange, 0) == []
  {
  }

  /**
   * One position, given what is out before it: within the first `n` an id with another positive id in the table comes out
   * as that one, unless it is out already; otherwise the item itself comes out, unless its id is out already.
   */
  lemma {:induction false} ExchangeRule(items: seq<Item>, n: nat, exchange: map<int, int>, i: nat)
    requires i < |items|
    ensures var out, it := Exchanged(items, n, exchange, i), items[i];
            Exchanged(items, n, exchange, i + 1) ==
            if i < n && it.id in exchange && exchange[it.id] > 0 && exchange[it.id] != it.id && exchange[it.id] !in Ids(out)
            then out + [Item(exchange[it.id], "HomogeneityContent", it.score, map[], false)]
            else if it.id !in Ids(out) then out + [it] else out
  {
    EmittedIsShown(items, n, exchange, i, items[i].id);
    if items[i].id in exchange {
      EmittedIsShown(items, n, exchange, i, exchange[items[i].id]);
    }
  }

  // ---------- the loop ----------

  /** One turn of either loop. */
  lemma {:induction false} ExchangeStep(items: seq<Item>, n: nat, exchange: map<int, int>, k: nat, out: seq<Item>, seen: set<int>)
    requires k < |items| && out == Exchanged(items, n, exchange, k) && seen == Emitted(items, n, exchange, k)
    ensures match SlotOf(items[k], k < n, exchange, seen)
            case None =>
              Exchanged(items, n, exchange, k + 1) == out && Emitted(items, n, exchange, k + 1) == seen
            case Some(it) =>
              Exchanged(items, n, exchange, k + 1) == out + [it] && Emitted(items, n, exchange, k + 1) == seen + {it.id}
  {
  }

  method ApplyHomogenContent(items: seq<Item>, exchange: map<int, int>, topN: int) returns (out: seq<Item>)
    ensures out == HomogenContent(items, exchange, topN)
  {
    if topN <= 0 || |items| == 0 || |exchange| == 0 {
      out := ApplyHomogenCap(items, topN);
      return;
    }
    var n := topN;
    if n > |items| {
      n := |items|;
    }
    var seen: set<int> := {};
    out := [];
    for i := 0 to n
      invariant out == Exchanged(items, n, exchange, i) && seen == Emitted(items, n, exchange, i)
    {
      var it := items[i];
      ExchangeStep(items, n, exchange, i, out, seen);
      if it.id in exchange && exchange[it.id] > 0 && exchange[it.id] != it.id {
        var altId := exchange[it.id];
        if altId !in seen {
          out := out + [Substituted(it, altId)];
          seen := seen + {altId};
          continue;
        }
      }
      if it.id !in seen {
        out := out + [it];
        seen := seen + {it.id};
      }
    }
    for i := n to |items|
      invariant out == Exchanged(items, n, exchange, i) && seen == Emitted(items, n, exchange, i)
    {
      var it := items[i];
      ExchangeStep(items, n, exchange, i, out, seen);
      if it.id in seen {
        continue;
      }
      out := out + [it];
      seen := seen + {it.id};
    }
  }

  /** A prefix of the list, as long as asked for; all of it without a positive size. */
  method ApplyHomogenCap(items: seq<Item>, topN: int) returns (out: seq<Item>)
    ensures out <= items && |out| == if topN > 0 then Min(topN, |items|) else |items|
  {
    if topN <= 0 || |items| <= topN {
      return items;
    }
    return items[..topN];
  }
}
