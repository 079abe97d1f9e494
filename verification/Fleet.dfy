/**
 * Many `PostBytes` calls at once over one round-robin counter (pkg/upstream), as a step system: drawing a ticket is
 * atomic, everything between two draws of a request belongs to that request alone, and steps of different requests
 * interleave freely. The counter starts at zero and has not wrapped.
 */
module Fleet {
  import opened Items
  import opened Upstream

  /** Ticket in hand, attempt under way, or neither; a finished request keeps its outcome. */
  datatype Phase = Ready | Holding | Flying | Finished(outcome: Outcome)

  /** One request: its tickets in order, the endpoints it tried, and the replies it read. */
  datatype Req = Req(mine: seq<nat>, tried: set<string>, replies: seq<Reply>, phase: Phase)

  /** The request that drew each ticket, in ticket order; the draws that fell on each slot; every request's own state. */
  datatype State = State(issued: seq<int>, hits: seq<nat>, reqs: map<int, Req>)

  datatype Config = Config(urls: seq<string>, attempts: nat)

  function Slot(cfg: Config, ticket: nat): nat
    requires cfg.urls != []
  {
    ticket % |cfg.urls|
  }

  function Url(cfg: Config, ticket: nat): string
    requires cfg.urls != []
  {
    cfg.urls[Slot(cfg, ticket)]
  }

  function LastError(replies: seq<Reply>): Outcome {
    Failed(if replies == [] then None else Some(replies[|replies| - 1]))
  }

  // ---------- steps ----------

  ghost predicate Init(cfg: Config, s: State) {
    && s.issued == [] && s.reqs == map[]
    && |s.hits| == |cfg.urls| && forall k :: 0 <= k < |s.hits| ==> s.hits[k] == 0
  }

  /** One more draw on the slot of the next ticket. */
  function CountHit(cfg: Config, s: State): seq<nat>
    requires cfg.urls != [] && |s.hits| == |cfg.urls|
  {
    var slot := Slot(cfg, |s.issued|);
    s.hits[slot := s.hits[slot] + 1]
  }

  ghost predicate Start(s: State, t: State, r: int) {
    r !in s.reqs && t == s.(reqs := s.reqs[r := Req([], {}, [], Ready)])
  }

  /** The atomic increment: the next ticket goes to `r`. */
  ghost predicate Draw(cfg: Config, s: State, t: State, r: int) {
    && cfg.urls != [] && |s.hits| == |cfg.urls|
    && r in s.reqs && s.reqs[r].phase == Ready && |s.reqs[r].mine| < cfg.attempts
    && |s.issued| < COUNTER_SIZE
    && t == State(s.issued + [r], CountHit(cfg, s), s.reqs[r := s.reqs[r].(mine := s.reqs[r].mine + [|s.issued|], phase := Holding)])
  }

  /** All attempts used up. */
  ghost predicate GiveUp(cfg: Config, s: State, t: State, r: int) {
    && r in s.reqs && s.reqs[r].phase == Ready && |s.reqs[r].mine| >= cfg.attempts
    && t == s.(reqs := s.reqs[r := s.reqs[r].(phase := Finished(LastError(s.reqs[r].replies)))])
  }

  ghost predicate WouldBreak(cfg: Config, q: Req)
    requires cfg.urls != [] && q.mine != []
  {
    var base := Url(cfg, q.mine[|q.mine| - 1]);
    base == "" || (base in q.tried && |q.tried| >= |cfg.urls|)
  }

  /** The checks after the draw: stop, or send the request. */
  ghost predicate Dispatch(cfg: Config, s: State, t: State, r: int) {
    && cfg.urls != [] && r in s.reqs && s.reqs[r].phase == Holding && s.reqs[r].mine != []
    && var q := s.reqs[r];
       t == s.(reqs := s.reqs[r := if WouldBreak(cfg, q) then q.(phase := Finished(LastError(q.replies)))
                                   else q.(tried := q.tried + {Url(cfg, q.mine[|q.mine| - 1])}, phase := Flying)])
  }

  ghost predicate Reply(s: State, t: State, r: int, reply: Reply) {
    && r in s.reqs && s.reqs[r].phase == Flying
    && var q := s.reqs[r];
       t == s.(reqs := s.reqs[r := q.(replies := q.replies + [reply], phase := if Decisive(reply) then Finished(Result(reply)) else Ready)])
  }

  ghost predicate Next(cfg: Config, s: State, t: State) {
    exists r :: StepOf(cfg, s, t, r)
  }

  ghost predicate StepOf(cfg: Config, s: State, t: State, r: int) {
    || Start(s, t, r) || Draw(cfg, s, t, r) || GiveUp(cfg, s, t, r) || Dispatch(cfg, s, t, r)
    || exists reply :: Reply(s, t, r, reply)
  }

  ghost predicate IsTrace(cfg: Config, trace: seq<State>) {
    && trace != [] && Init(cfg, trace[0])
    && forall i :: 0 <= i < |trace| - 1 ==> Next(cfg, trace[i], trace[i + 1])
  }

  // ---------- invariant ----------

  /** What one request knows: its tickets are its own and increasing, its replies are one per completed attempt. */
  ghost predicate ReqInv(cfg: Config, issued: seq<int>, r: int, q: Req) {
    && |q.mine| <= cfg.attempts
    && (forall k :: 0 <= k < |q.mine| ==> q.mine[k] < |issued| && issued[q.mine[k]] == r)
    && (forall k, l :: 0 <= k < l < |q.mine| ==> q.mine[k] < q.mine[l])
    && (forall k :: 0 <= k < |q.replies| - 1 ==> !Decisive(q.replies[k]))
    && |q.tried| <= |q.replies| + (if q.phase == Flying then 1 else 0)
    && match q.phase
       case Ready => |q.replies| == |q.mine| && NoneDecisive(q.replies)
       case Holding => |q.replies| + 1 == |q.mine| && NoneDecisive(q.replies)
       case Flying => |q.replies| + 1 == |q.mine| && NoneDecisive(q.replies)
       case Finished(out) => |q.replies| <= |q.mine| <= |q.replies| + 1 && out == Verdict(q.replies)
                             && (cfg.attempts <= |cfg.urls| && AllNamed(cfg.urls) ==> |q.replies| == |q.mine|)
                             && (!NoneDecisive(q.replies) ==> |q.replies| == |q.mine|)
  }

  ghost predicate NoneDecisive(replies: seq<Reply>) {
    forall k :: 0 <= k < |replies| ==> !Decisive(replies[k])
  }

  /** The outcome that the replies call for. */
  ghost function Verdict(replies: seq<Reply>): Outcome {
    if replies != [] && Decisive(replies[|replies| - 1]) then Result(replies[|replies| - 1]) else LastError(replies)
  }

  /** How many of the first `n` tickets select slot `s` of `m`. */
  ghost function SlotCount(n: nat, m: nat, s: nat): nat
    requires m > 0
  {
    if n == 0 then 0 else SlotCount(n - 1, m, s) + if (n - 1) % m == s then 1 else 0
  }

  /** The draws on each slot are those of the tickets that select it. */
  ghost predicate HitsInv(cfg: Config, s: State) {
    && |s.hits| == |cfg.urls|
    && forall k :: 0 <= k < |s.hits| ==> s.hits[k] == SlotCount(|s.issued|, |cfg.urls|, k)
  }

  ghost predicate Inv(cfg: Config, s: State) {
    && |s.issued| <= COUNTER_SIZE && HitsInv(cfg, s)
    && TicketsInv(s)
    && (forall r :: r in s.reqs ==> ReqInv(cfg, s.issued, r, s.reqs[r]))
  }

  /** Nothing but request `r` changed, and the tickets already drawn stay drawn. */
  ghost predicate Touches(s: State, t: State, r: int) {
    && s.issued <= t.issued && t.reqs.Keys == s.reqs.Keys + {r}
    && forall q :: q in s.reqs && q != r ==> t.reqs[q] == s.reqs[q]
  }

  lemma {:induction false} ReqInvKept(cfg: Config, issued: seq<int>, more: seq<int>, r: int, q: Req)
    requires ReqInv(cfg, issued, r, q) && issued <= more
    ensures ReqInv(cfg, more, r, q)
  {
  }

  lemma {:induction false} StepTouches(cfg: Config, s: State, t: State, r: int)
    requires StepOf(cfg, s, t, r)
    ensures Touches(s, t, r)
  {
  }

  /** The stepping request keeps its invariant. */
  lemma {:induction false} StepKeepsReq(cfg: Config, s: State, t: State, r: int)
    requires Inv(cfg, s) && StepOf(cfg, s, t, r)
    ensures ReqInv(cfg, t.issued, r, t.reqs[r])
  {
    if Draw(cfg, s, t, r) {
      ReqInvKept(cfg, s.issued, t.issued, r, s.reqs[r]);
    } else if Dispatch(cfg, s, t, r) {
      DispatchKeeps(cfg, s, t, r);
    } else if exists reply :: Reply(s, t, r, reply) {
      var reply :| Reply(s, t, r, reply);
      ReplyKeeps(cfg, s, t, r, reply);
    }
  }

  lemma {:induction false} DispatchKeeps(cfg: Config, s: State, t: State, r: int)
    requires Inv(cfg, s) && Dispatch(cfg, s, t, r)
    ensures ReqInv(cfg, t.issued, r, t.reqs[r])
  {
    var q := s.reqs[r];
    assert ReqInv(cfg, s.issued, r, q);
    assert AllNamed(cfg.urls) && cfg.attempts <= |cfg.urls| ==> !WouldBreak(cfg, q);
  }

  lemma {:induction false} ReplyKeeps(cfg: Config, s: State, t: State, r: int, reply: Reply)
    requires Inv(cfg, s) && Reply(s, t, r, reply)
    ensures ReqInv(cfg, t.issued, r, t.reqs[r])
  {
    assert ReqInv(cfg, s.issued, r, s.reqs[r]);
  }

  ghost predicate TicketsInv(s: State) {
    forall k :: 0 <= k < |s.issued| ==> s.issued[k] in s.reqs && k in s.reqs[s.issued[k]].mine
  }

  lemma {:induction false} DrawKeepsTickets(cfg: Config, s: State, t: State, r: int)
    requires TicketsInv(s) && Draw(cfg, s, t, r)
    ensures TicketsInv(t)
  {
    var n := |s.issued|;
    assert t.reqs[r].mine == s.reqs[r].mine + [n];
    forall k | 0 <= k <= n
      ensures t.issued[k] in t.reqs && k in t.reqs[t.issued[k]].mine
    {
      if k == n {
        assert t.reqs[r].mine[|s.reqs[r].mine|] == n;
      } else {
        var q := s.issued[k];
        var c :| 0 <= c < |s.reqs[q].mine| && s.reqs[q].mine[c] == k;
        assert t.reqs[q].mine[c] == k;
      }
    }
  }

  lemma {:induction false} SameTickets(s: State, t: State, r: int)
    requires TicketsInv(s) && Touches(s, t, r) && t.issued == s.issued
    requires r in s.reqs ==> t.reqs[r].mine == s.reqs[r].mine
    ensures TicketsInv(t)
  {
    forall k | 0 <= k < |t.issued|
      ensures t.issued[k] in t.reqs && k in t.reqs[t.issued[k]].mine
    {
      var q := s.issued[k];
      assert q in s.reqs && k in s.reqs[q].mine;
      assert t.reqs[q].mine == s.reqs[q].mine;
    }
  }

  lemma {:induction false} StepKeepsTickets(cfg: Config, s: State, t: State, r: int)
    requires Inv(cfg, s) && StepOf(cfg, s, t, r)
    ensures |t.issued| <= COUNTER_SIZE && TicketsInv(t)
  {
    StepTouches(cfg, s, t, r);
    if Draw(cfg, s, t, r) {
      DrawKeepsTickets(cfg, s, t, r);
    } else {
      SameTickets(s, t, r);
    }
  }

  lemma {:induction false} StepKeepsHits(cfg: Config, s: State, t: State, r: int)
    requires Inv(cfg, s) && StepOf(cfg, s, t, r)
    ensures HitsInv(cfg, t)
  {
    if Draw(cfg, s, t, r) {
      forall k | 0 <= k < |t.hits|
        ensures t.hits[k] == SlotCount(|t.issued|, |cfg.urls|, k)
      {
        assert SlotCount(|s.issued| + 1, |cfg.urls|, k) == SlotCount(|s.issued|, |cfg.urls|, k) + if |s.issued| % |cfg.urls| == k then 1 else 0;
      }
    } else {
      assert t.issued == s.issued && t.hits == s.hits;
    }
  }

  lemma {:induction false} StepKeepsInv(cfg: Config, s: State, t: State, r: int)
    requires Inv(cfg, s) && StepOf(cfg, s, t, r)
    ensures Inv(cfg, t)
  {
    StepTouches(cfg, s, t, r);
    StepKeepsReq(cfg, s, t, r);
    StepKeepsTickets(cfg, s, t, r);
    StepKeepsHits(cfg, s, t, r);
    forall q | q in t.reqs
      ensures ReqInv(cfg, t.issued, q, t.reqs[q])
    {
      if q != r {
        ReqInvKept(cfg, s.issued, t.issued, q, s.reqs[q]);
      }
    }
  }

  /** The invariant holds in every reachable state of every interleaving. */
  lemma {:induction false} Reachable(cfg: Config, trace: seq<State>, i: nat)
    requires IsTrace(cfg, trace) && i < |trace|
    ensures Inv(cfg, trace[i])
  {
    if i > 0 {
      Reachable(cfg, trace, i - 1);
      assert Next(cfg, trace[i - 1], trace[i - 1 + 1]);
      var r :| StepOf(cfg, trace[i - 1], trace[i], r);
      StepKeepsInv(cfg, trace[i - 1], trace[i], r);
    }
  }

  // ---------- what it means ----------

  lemma {:induction false} NextQuotient(n: nat, m: nat)
    requires m > 0
    ensures if n % m == m - 1 then (n + 1) % m == 0 && (n + 1) / m == n / m + 1 else (n + 1) % m == n % m + 1 && (n + 1) / m == n / m
  {
    var q, r := n / m, n % m;
    assert n == q * m + r;
    if r == m - 1 {
      QuotientIs(n + 1, m, q + 1, 0);
    } else {
      QuotientIs(n + 1, m, q, r + 1);
    }
  }

  /** A multiple of `m` other than zero is at least `m` away from zero. */
  lemma {:induction false} MultipleApart(d: int, m: nat)
    requires m > 0
    ensures d >= 1 ==> d * m >= m
    ensures d <= -1 ==> d * m + m <= 0
  {
    if d >= 1 {
      assert (d - 1) * m >= 0;
    } else if d <= -1 {
      assert (-d - 1) * m >= 0;
    }
  }

  lemma {:induction false} QuotientIs(n: nat, m: nat, q: int, r: nat)
    requires m > 0 && r < m && n == q * m + r
    ensures n / m == q && n % m == r
  {
    var q', r' := n / m, n % m;
    assert n == q' * m + r';
    assert (q - q') * m == r' - r;
    MultipleApart(q - q', m);
    assert q == q';
  }

  lemma {:induction false} SlotShare(n: nat, m: nat, s: nat)
    requires s < m
    ensures SlotCount(n, m, s) == n / m + if s < n % m then 1 else 0
  {
    if n > 0 {
      SlotShare(n - 1, m, s);
      NextQuotient(n - 1, m);
    } else {
      QuotientIs(0, m, 0, 0);
    }
  }

  ghost function Total(hits: seq<nat>, k: nat): nat
    requires k <= |hits|
  {
    if k == 0 then 0 else Total(hits, k - 1) + hits[k - 1]
  }

  lemma {:induction false} TotalHits(cfg: Config, s: State, k: nat)
    requires HitsInv(cfg, s) && cfg.urls != [] && k <= |cfg.urls|
    ensures var n, m := |s.issued|, |cfg.urls|; Total(s.hits, k) == Times(k, n / m) + Min(k, n % m)
  {
    if k > 0 {
      TotalHits(cfg, s, k - 1);
      SlotShare(|s.issued|, |cfg.urls|, k - 1);
    }
  }

  lemma {:induction false} HitsClose(cfg: Config, s: State, a: nat, b: nat)
    requires HitsInv(cfg, s) && a < |cfg.urls| && b < |cfg.urls|
    ensures s.hits[a] <= s.hits[b] + 1
  {
    SlotShare(|s.issued|, |cfg.urls|, a);
    SlotShare(|s.issued|, |cfg.urls|, b);
  }

  lemma {:induction false} HitsAddUp(cfg: Config, s: State)
    requires HitsInv(cfg, s) && cfg.urls != []
    ensures Total(s.hits, |s.hits|) == |s.issued|
  {
    var n, m := |s.issued|, |cfg.urls|;
    TotalHits(cfg, s, m);
    TimesIsProduct(m, n / m);
    assert n == m * (n / m) + n % m;
  }

  /**
   * Fairness: in every reachable state of every interleaving the draws that fell on any two slots differ by at most
   * one, and together they are the tickets issued.
   */
  lemma {:induction false} Fair(cfg: Config, trace: seq<State>, i: nat)
    requires IsTrace(cfg, trace) && i < |trace| && cfg.urls != []
    ensures var hits := trace[i].hits;
            && |hits| == |cfg.urls|
            && (forall s, t :: 0 <= s < |hits| && 0 <= t < |hits| ==> hits[s] <= hits[t] + 1)
            && Total(hits, |hits|) == |trace[i].issued|
  {
    Reachable(cfg, trace, i);
    HitsAddUp(cfg, trace[i]);
    forall s, t | 0 <= s < |cfg.urls| && 0 <= t < |cfg.urls|
      ensures trace[i].hits[s] <= trace[i].hits[t] + 1
    {
      HitsClose(cfg, trace[i], s, t);
    }
  }

  /**
   * Accounting: every ticket was drawn by exactly one request for exactly one of its draws. Each request draws at
   * most as many as allowed; with no more attempts than named endpoints, every draw of a finished request was an
   * attempt that ran its course, and its outcome is what its own replies call for.
   */
  lemma {:induction false} Accounted(cfg: Config, trace: seq<State>, i: nat)
    requires IsTrace(cfg, trace) && i < |trace|
    ensures var s := trace[i];
            && (forall t :: 0 <= t < |s.issued| ==> s.issued[t] in s.reqs && t in s.reqs[s.issued[t]].mine)
            && (forall r, t :: r in s.reqs && t in s.reqs[r].mine ==> t < |s.issued| && s.issued[t] == r)
            && (forall r :: r in s.reqs ==> |s.reqs[r].mine| <= cfg.attempts && Increasing(s.reqs[r].mine))
            && (forall r :: r in s.reqs && s.reqs[r].phase.Finished? ==> s.reqs[r].phase.outcome == Verdict(s.reqs[r].replies))
            && (cfg.attempts <= |cfg.urls| && AllNamed(cfg.urls) ==>
                  forall r :: r in s.reqs && s.reqs[r].phase.Finished? ==> |s.reqs[r].replies| == |s.reqs[r].mine|)
  {
    Reachable(cfg, trace, i);
    var s := trace[i];
    forall r, t | r in s.reqs && t in s.reqs[r].mine
      ensures t < |s.issued| && s.issued[t] == r
    {
      assert ReqInv(cfg, s.issued, r, s.reqs[r]);
      var k :| 0 <= k < |s.reqs[r].mine| && s.reqs[r].mine[k] == t;
    }
    assert forall r :: r in s.reqs ==> ReqInv(cfg, s.issued, r, s.reqs[r]);
  }

  /** No further tries after a decisive reply: such a request is finished, and a finished request never changes again. */
  lemma {:induction false} DecisiveIsFinal(cfg: Config, trace: seq<State>, i: nat, j: nat, r: int)
    requires IsTrace(cfg, trace) && i <= j < |trace| && r in trace[i].reqs
    requires trace[i].reqs[r].phase.Finished? || !NoneDecisive(trace[i].reqs[r].replies)
    ensures r in trace[j].reqs && trace[j].reqs[r] == trace[i].reqs[r] && trace[j].reqs[r].phase.Finished?
  {
    if i == j {
      Reachable(cfg, trace, i);
      assert ReqInv(cfg, trace[i].issued, r, trace[i].reqs[r]);
    } else {
      DecisiveIsFinal(cfg, trace, i, j - 1, r);
      assert Next(cfg, trace[j - 1], trace[j - 1 + 1]);
      var q :| StepOf(cfg, trace[j - 1], trace[j], q);
      StepTouches(cfg, trace[j - 1], trace[j], q);
    }
  }

  // ---------- each request runs the loop ----------

  /** The draws and the world are those that a request has met so far. */
  ghost predicate Fits(cfg: Config, draw: nat -> string, world: (nat, string) -> Upstream.Reply, q: Req) {
    && (q.mine != [] ==> cfg.urls != [])
    && (forall k :: 0 <= k < |q.mine| ==> draw(k) == Url(cfg, q.mine[k]))
    && (forall k :: 0 <= k < |q.replies| ==> world(k, draw(k)) == q.replies[k])
  }

  /** The outcome still ahead of a request, by the loop on its own; an attempt under way waits for the world. */
  ghost function Ahead(cfg: Config, draw: nat -> string, world: (nat, string) -> Upstream.Reply, q: Req): Outcome {
    var a, n, last := |q.replies|, |cfg.urls|, LastError(q.replies).last;
    match q.phase
    case Finished(out) => out
    case Flying =>
      var reply := world(a, draw(a));
      if Decisive(reply) then Result(reply) else Retry(n, draw, world, cfg.attempts, a + 1, q.tried, Some(reply))
    case _ => Retry(n, draw, world, cfg.attempts, a, q.tried, last)
  }

  lemma {:induction false} DispatchGoesOn(cfg: Config, draw: nat -> string, world: (nat, string) -> Upstream.Reply, s: State, t: State, r: int)
    requires Dispatch(cfg, s, t, r) && ReqInv(cfg, s.issued, r, s.reqs[r]) && Fits(cfg, draw, world, s.reqs[r])
    ensures Ahead(cfg, draw, world, t.reqs[r]) == Ahead(cfg, draw, world, s.reqs[r])
  {
    var q := s.reqs[r];
    assert draw(|q.replies|) == Url(cfg, q.mine[|q.mine| - 1]);
  }

  lemma {:induction false} ReplyGoesOn(cfg: Config, draw: nat -> string, world: (nat, string) -> Upstream.Reply, s: State, t: State, r: int, reply: Upstream.Reply)
    requires Reply(s, t, r, reply) && Fits(cfg, draw, world, t.reqs[r])
    ensures Ahead(cfg, draw, world, t.reqs[r]) == Ahead(cfg, draw, world, s.reqs[r])
  {
    var a := |s.reqs[r].replies|;
    assert t.reqs[r].replies[a] == reply && world(a, draw(a)) == reply;
  }

  lemma {:induction false} StepGoesOn(cfg: Config, draw: nat -> string, world: (nat, string) -> Upstream.Reply, s: State, t: State, r: int)
    requires StepOf(cfg, s, t, r) && r in s.reqs && ReqInv(cfg, s.issued, r, s.reqs[r])
    requires Fits(cfg, draw, world, s.reqs[r]) && Fits(cfg, draw, world, t.reqs[r])
    ensures Ahead(cfg, draw, world, t.reqs[r]) == Ahead(cfg, draw, world, s.reqs[r])
  {
    if Dispatch(cfg, s, t, r) {
      DispatchGoesOn(cfg, draw, world, s, t, r);
    } else if exists reply :: Reply(s, t, r, reply) {
      var reply :| Reply(s, t, r, reply);
      ReplyGoesOn(cfg, draw, world, s, t, r, reply);
    }
  }

  lemma {:induction false} FitsBefore(cfg: Config, draw: nat -> string, world: (nat, string) -> Upstream.Reply, q: Req, q': Req)
    requires Fits(cfg, draw, world, q') && q.mine <= q'.mine && q.replies <= q'.replies
    ensures Fits(cfg, draw, world, q)
  {
    forall k | 0 <= k < |q.mine|
      ensures draw(k) == Url(cfg, q.mine[k])
    {
      assert q'.mine[k] == q.mine[k];
    }
    forall k | 0 <= k < |q.replies|
      ensures world(k, draw(k)) == q.replies[k]
    {
      assert q'.replies[k] == q.replies[k];
    }
  }

  lemma {:induction false} StepExtends(cfg: Config, s: State, t: State, r: int, q: int)
    requires StepOf(cfg, s, t, q) && r in s.reqs
    ensures r in t.reqs && s.reqs[r].mine <= t.reqs[r].mine && s.reqs[r].replies <= t.reqs[r].replies
  {
  }

  lemma {:induction false} AheadOfRun(cfg: Config, draw: nat -> string, world: (nat, string) -> Upstream.Reply, trace: seq<State>, i: nat, r: int)
    requires IsTrace(cfg, trace) && i < |trace| && r in trace[i].reqs && Fits(cfg, draw, world, trace[i].reqs[r])
    ensures Ahead(cfg, draw, world, trace[i].reqs[r]) == Retry(|cfg.urls|, draw, world, cfg.attempts, 0, {}, None)
  {
    if i > 0 {
      assert Next(cfg, trace[i - 1], trace[i - 1 + 1]);
      var s, t := trace[i - 1], trace[i];
      var q :| StepOf(cfg, s, t, q);
      StepTouches(cfg, s, t, q);
      if r in s.reqs {
        StepExtends(cfg, s, t, r, q);
        FitsBefore(cfg, draw, world, s.reqs[r], t.reqs[r]);
        AheadOfRun(cfg, draw, world, trace, i - 1, r);
        if r == q {
          Reachable(cfg, trace, i - 1);
          StepGoesOn(cfg, draw, world, s, t, r);
        }
      }
    }
  }

  /**
   * However the requests interleave, each ends as the loop on its own ends over the endpoints that its tickets select and
   * the replies that it reads.
   */
  lemma {:induction false} FinishesAsAlone(cfg: Config, trace: seq<State>, i: nat, r: int, draw: nat -> string, world: (nat, string) -> Upstream.Reply)
    requires IsTrace(cfg, trace) && i < |trace| && r in trace[i].reqs && trace[i].reqs[r].phase.Finished?
    requires Fits(cfg, draw, world, trace[i].reqs[r])
    ensures trace[i].reqs[r].phase.outcome == Retry(|cfg.urls|, draw, world, cfg.attempts, 0, {}, None)
  {
    AheadOfRun(cfg, draw, world, trace, i, r);
  }

  // ---------- failover under interleaving ----------

  /** The endpoints that a request's tickets select, in order. */
  ghost function Drawn(cfg: Config, mine: seq<nat>): (r: seq<string>)
    requires cfg.urls != []
    ensures |r| == |mine|
  {
    seq(|mine|, k requires 0 <= k < |mine| => Url(cfg, mine[k]))
  }

  /** How many of its tickets a request has sent a request for. */
  ghost function Sent(q: Req): nat {
    |q.replies| + if q.phase == Flying then 1 else 0
  }

  /** What a request has tried, and that it fails only when its attempts are used up. */
  ghost predicate TriedInv(cfg: Config, q: Req) {
    && Sent(q) <= |q.mine|
    && (q.phase == Ready ==> Sent(q) == |q.mine|)
    && q.tried == (if cfg.urls == [] then {} else Names(Drawn(cfg, q.mine), Sent(q)))
    && (q.phase.Finished? && q.phase.outcome.Failed? && cfg.attempts <= |cfg.urls| && AllNamed(cfg.urls) ==>
          |q.mine| == |q.replies| == cfg.attempts)
  }

  lemma {:induction false} NamesPrefix(a: seq<string>, b: seq<string>, n: nat)
    requires n <= |a| && n <= |b| && forall k :: 0 <= k < n ==> a[k] == b[k]
    ensures Names(a, n) == Names(b, n)
  {
    if n > 0 {
      NamesPrefix(a, b, n - 1);
    }
  }

  lemma {:induction false} DrawKeepsTried(cfg: Config, s: State, t: State, r: int)
    requires Draw(cfg, s, t, r) && TriedInv(cfg, s.reqs[r])
    ensures TriedInv(cfg, t.reqs[r])
  {
    var q, q' := s.reqs[r], t.reqs[r];
    NamesPrefix(Drawn(cfg, q.mine), Drawn(cfg, q'.mine), Sent(q));
  }

  lemma {:induction false} BreaksOnlyBeyond(cfg: Config, s: State, r: int)
    requires Inv(cfg, s) && r in s.reqs && s.reqs[r].phase == Holding && s.reqs[r].mine != [] && cfg.urls != []
    ensures AllNamed(cfg.urls) && cfg.attempts <= |cfg.urls| ==> !WouldBreak(cfg, s.reqs[r])
  {
    assert ReqInv(cfg, s.issued, r, s.reqs[r]);
  }

  /** One more endpoint tried: that of the last ticket. */
  lemma {:induction false} SendKeepsTried(cfg: Config, q: Req)
    requires cfg.urls != [] && q.phase == Holding && |q.mine| == |q.replies| + 1 && TriedInv(cfg, q)
    ensures TriedInv(cfg, q.(tried := q.tried + {Url(cfg, q.mine[|q.mine| - 1])}, phase := Flying))
  {
  }

  lemma {:induction false} BreakKeepsTried(cfg: Config, q: Req)
    requires q.phase == Holding && TriedInv(cfg, q) && !(cfg.attempts <= |cfg.urls| && AllNamed(cfg.urls))
    ensures TriedInv(cfg, q.(phase := Finished(LastError(q.replies))))
  {
  }

  lemma {:induction false} DispatchKeepsTried(cfg: Config, s: State, t: State, r: int)
    requires Inv(cfg, s) && Dispatch(cfg, s, t, r) && TriedInv(cfg, s.reqs[r])
    ensures TriedInv(cfg, t.reqs[r])
  {
    BreaksOnlyBeyond(cfg, s, r);
    if WouldBreak(cfg, s.reqs[r]) {
      BreakKeepsTried(cfg, s.reqs[r]);
    } else {
      assert ReqInv(cfg, s.issued, r, s.reqs[r]);
      SendKeepsTried(cfg, s.reqs[r]);
    }
  }

  lemma {:induction false} GiveUpKeepsTried(cfg: Config, s: State, t: State, r: int)
    requires Inv(cfg, s) && GiveUp(cfg, s, t, r) && TriedInv(cfg, s.reqs[r])
    ensures TriedInv(cfg, t.reqs[r])
  {
    assert ReqInv(cfg, s.issued, r, s.reqs[r]);
  }

  lemma {:induction false} StepKeepsTried(cfg: Config, s: State, t: State, r: int)
    requires Inv(cfg, s) && StepOf(cfg, s, t, r) && (r in s.reqs ==> TriedInv(cfg, s.reqs[r]))
    ensures TriedInv(cfg, t.reqs[r])
  {
    if Draw(cfg, s, t, r) {
      DrawKeepsTried(cfg, s, t, r);
    } else if Dispatch(cfg, s, t, r) {
      DispatchKeepsTried(cfg, s, t, r);
    } else if GiveUp(cfg, s, t, r) {
      GiveUpKeepsTried(cfg, s, t, r);
    }
  }

  lemma {:induction false} TriedReachable(cfg: Config, trace: seq<State>, i: nat, r: int)
    requires IsTrace(cfg, trace) && i < |trace| && r in trace[i].reqs
    ensures TriedInv(cfg, trace[i].reqs[r])
  {
    if i > 0 {
      Reachable(cfg, trace, i - 1);
      assert Next(cfg, trace[i - 1], trace[i - 1 + 1]);
      var q :| StepOf(cfg, trace[i - 1], trace[i], q);
      StepTouches(cfg, trace[i - 1], trace[i], q);
      if r in trace[i - 1].reqs {
        TriedReachable(cfg, trace, i - 1, r);
      }
      if r == q {
        StepKeepsTried(cfg, trace[i - 1], trace[i], r);
      }
    }
  }

  lemma {:induction false} NamesMembers(urls: seq<string>, n: nat, u: string)
    requires n <= |urls|
    ensures u in Names(urls, n) <==> exists k :: 0 <= k < n && urls[k] == u
  {
    if n > 0 {
      NamesMembers(urls, n - 1, u);
    }
  }

  lemma {:induction false} NamesDistinct(urls: seq<string>, n: nat)
    requires n <= |urls| && NoDuplicates(urls)
    ensures |Names(urls, n)| == n
  {
    if n > 0 {
      NamesDistinct(urls, n - 1);
      NamesMembers(urls, n - 1, urls[n - 1]);
    }
  }

  lemma {:induction false} NamesWithin(a: seq<string>, n: nat, b: seq<string>)
    requires n <= |a| && forall k :: 0 <= k < n ==> a[k] in b
    ensures Names(a, n) <= Names(b, |b|)
  {
    NamesHold(b, |b|);
    if n > 0 {
      NamesWithin(a, n - 1, b);
      var k :| 0 <= k < |b| && b[k] == a[n - 1];
      assert b[k] in Names(b, |b|);
    }
  }

  ghost predicate PairwiseSlots(cfg: Config, mine: seq<nat>)
    requires cfg.urls != []
  {
    forall k, l :: 0 <= k < l < |mine| ==> Slot(cfg, mine[k]) != Slot(cfg, mine[l])
  }

  /** As many endpoints drawn as there are: all of them are, exactly if no two draws select the same slot. */
  lemma {:induction false} AllDrawnIff(cfg: Config, mine: seq<nat>)
    requires NoDuplicates(cfg.urls) && |mine| == |cfg.urls| > 0
    ensures (forall u :: u in cfg.urls ==> u in Names(Drawn(cfg, mine), |mine|)) <==> PairwiseSlots(cfg, mine)
  {
    var n, drawn := |mine|, Drawn(cfg, mine);
    var tried, all := Names(drawn, n), Names(cfg.urls, n);
    NamesDistinct(cfg.urls, n);
    NamesWithin(drawn, n, cfg.urls);
    NamesHold(cfg.urls, n);
    SubsetCount(tried, all);
    DrawnRepeats(cfg, mine);
    NamesHold(drawn, n);
    if PairwiseSlots(cfg, mine) {
      NamesDistinct(drawn, n);
    }
    if forall u :: u in cfg.urls ==> u in tried {
      forall u | u in all
        ensures u in tried
      {
        NamesMembers(cfg.urls, n, u);
      }
      assert tried == all;
    }
  }

  lemma {:induction false} DrawnRepeats(cfg: Config, mine: seq<nat>)
    requires NoDuplicates(cfg.urls) && cfg.urls != []
    ensures NoDuplicates(Drawn(cfg, mine)) <==> PairwiseSlots(cfg, mine)
  {
    var drawn := Drawn(cfg, mine);
    forall k, l | 0 <= k < l < |mine|
      ensures drawn[k] == drawn[l] <==> Slot(cfg, mine[k]) == Slot(cfg, mine[l])
    {
      SameUrl(cfg.urls, Slot(cfg, mine[k]), Slot(cfg, mine[l]));
    }
  }

  lemma {:induction false} SameUrl(urls: seq<string>, a: nat, b: nat)
    requires NoDuplicates(urls) && a < |urls| && b < |urls|
    ensures urls[a] == urls[b] <==> a == b
  {
    if a != b {
      SlotsDiffer(urls, a, b);
    }
  }

  /**
   * With distinct endpoints and one attempt for each, a failed request tried all of them exactly if its own tickets
   * select pairwise different slots. Other requests decide that: their draws may come in between.
   */
  lemma {:induction false} FailedTriedAllIff(cfg: Config, trace: seq<State>, i: nat, r: int)
    requires IsTrace(cfg, trace) && i < |trace| && r in trace[i].reqs
    requires AllNamed(cfg.urls) && NoDuplicates(cfg.urls) && cfg.attempts == |cfg.urls|
    requires trace[i].reqs[r].phase.Finished? && trace[i].reqs[r].phase.outcome.Failed?
    ensures (forall u :: u in cfg.urls ==> u in trace[i].reqs[r].tried) <==> PairwiseSlots(cfg, trace[i].reqs[r].mine)
  {
    TriedReachable(cfg, trace, i, r);
    AllDrawnIff(cfg, trace[i].reqs[r].mine);
  }

  /** In particular it tried all of them if no other request drew in between. */
  lemma {:induction false} FailedTriedAllAlone(cfg: Config, trace: seq<State>, i: nat, r: int)
    requires IsTrace(cfg, trace) && i < |trace| && r in trace[i].reqs
    requires AllNamed(cfg.urls) && NoDuplicates(cfg.urls) && cfg.attempts == |cfg.urls|
    requires trace[i].reqs[r].phase.Finished? && trace[i].reqs[r].phase.outcome.Failed?
    requires forall k :: 0 <= k < |trace[i].reqs[r].mine| ==> trace[i].reqs[r].mine[k] == trace[i].reqs[r].mine[0] + k
    ensures forall u :: u in cfg.urls ==> u in trace[i].reqs[r].tried
  {
    TriedReachable(cfg, trace, i, r);
    FailedTriedAllIff(cfg, trace, i, r);
    var mine := trace[i].reqs[r].mine;
    forall k, l | 0 <= k < l < |mine|
      ensures Slot(cfg, mine[k]) != Slot(cfg, mine[l])
    {
      ModDiffers(mine[k], mine[l], |cfg.urls|);
    }
  }

  lemma {:induction false} Extend(cfg: Config, trace: seq<State>, t: State, r: int)
    requires IsTrace(cfg, trace) && StepOf(cfg, trace[|trace| - 1], t, r)
    ensures IsTrace(cfg, trace + [t])
  {
    var longer := trace + [t];
    forall i | 0 <= i < |longer| - 1
      ensures Next(cfg, longer[i], longer[i + 1])
    {
      if i < |trace| - 1 {
        assert Next(cfg, trace[i], trace[i + 1]);
      } else {
        assert StepOf(cfg, longer[i], longer[i + 1], r);
      }
    }
  }

  /** Two endpoints, two attempts. */
  function TwoEndpoints(): Config {
    Config(["a", "b"], 2)
  }

  /** Two requests have drawn a ticket each. */
  lemma {:induction false} BothDraw() returns (trace: seq<State>)
    ensures IsTrace(TwoEndpoints(), trace)
    ensures var last := trace[|trace| - 1];
            last.issued == [1, 2] && last.hits == [1, 1] && 1 in last.reqs && last.reqs[1] == Req([0], {}, [], Holding)
  {
    var cfg, idle := TwoEndpoints(), Req([], {}, [], Ready);
    var s0 := State([], [0, 0], map[]);
    var s1 := s0.(reqs := s0.reqs[1 := idle]);
    var s2 := s1.(reqs := s1.reqs[2 := idle]);
    trace := [s0];
    assert Start(s0, s1, 1);
    Extend(cfg, trace, s1, 1);
    trace := trace + [s1];
    assert Start(s1, s2, 2);
    Extend(cfg, trace, s2, 2);
    trace := trace + [s2];
    trace := Drawing(trace, s2, 1);
    var s3 := trace[|trace| - 1];
    assert s3.hits == [1, 0];
    trace := Drawing(trace, s3, 2);
    var s4 := trace[|trace| - 1];
    assert s4.hits == [1, 1] && s4.reqs[1] == s3.reqs[1] && s3.reqs[1].mine == [0];
  }

  /** The next ticket goes to `r`. */
  lemma {:induction false} Drawing(trace: seq<State>, last: State, r: int) returns (longer: seq<State>)
    requires IsTrace(TwoEndpoints(), trace) && trace[|trace| - 1] == last && r in last.reqs && |last.hits| == 2
    requires last.reqs[r].phase == Ready && |last.reqs[r].mine| < 2 && |last.issued| < COUNTER_SIZE
    ensures IsTrace(TwoEndpoints(), longer)
    ensures longer[|longer| - 1] ==
            State(last.issued + [r], CountHit(TwoEndpoints(), last),
              last.reqs[r := last.reqs[r].(mine := last.reqs[r].mine + [|last.issued|], phase := Holding)])
  {
    var t := State(last.issued + [r], CountHit(TwoEndpoints(), last),
      last.reqs[r := last.reqs[r].(mine := last.reqs[r].mine + [|last.issued|], phase := Holding)]);
    assert Draw(TwoEndpoints(), last, t, r);
    Extend(TwoEndpoints(), trace, t, r);
    longer := trace + [t];
  }

  /** One attempt of request 1 on endpoint "a" that gets no connection. */
  lemma {:induction false} AttemptFails(trace: seq<State>, last: State) returns (longer: seq<State>)
    requires IsTrace(TwoEndpoints(), trace) && trace[|trace| - 1] == last && 1 in last.reqs
    requires var q := last.reqs[1]; q.phase == Holding && q.mine != [] && q.mine[|q.mine| - 1] % 2 == 0 && q.tried <= {"a"}
    ensures IsTrace(TwoEndpoints(), longer)
    ensures longer[|longer| - 1] ==
            last.(reqs := last.reqs[1 := last.reqs[1].(tried := {"a"}, replies := last.reqs[1].replies + [TransportError], phase := Ready)])
  {
    var cfg, q := TwoEndpoints(), last.reqs[1];
    var s1 := last.(reqs := last.reqs[1 := q.(tried := {"a"}, phase := Flying)]);
    var s2 := last.(reqs := last.reqs[1 := q.(tried := {"a"}, replies := q.replies + [TransportError], phase := Ready)]);
    SubsetCount(q.tried, {"a"});
    assert !WouldBreak(cfg, q) && q.tried + {"a"} == {"a"};
    assert Dispatch(cfg, last, s1, 1);
    Extend(cfg, trace, s1, 1);
    assert Reply(s1, s2, 1, TransportError) by {
      assert s1.reqs[1 := s2.reqs[1]] == s2.reqs;
    }
    Extend(cfg, trace + [s1], s2, 1);
    longer := trace + [s1] + [s2];
  }

  /** A request can fail without trying every endpoint: the other request's draw made its second ticket select "a" again. */
  lemma {:induction false} InterleavedMisses() returns (trace: seq<State>)
    ensures IsTrace(TwoEndpoints(), trace)
    ensures var last := trace[|trace| - 1];
            1 in last.reqs && last.reqs[1].phase == Finished(Failed(Some(TransportError))) && last.reqs[1].tried == {"a"}
  {
    var cfg := TwoEndpoints();
    trace := BothDraw();
    trace := AttemptFails(trace, trace[|trace| - 1]);
    var s := trace[|trace| - 1];
    trace := Drawing(trace, s, 1);
    trace := AttemptFails(trace, trace[|trace| - 1]);
    s := trace[|trace| - 1];
    var q := s.reqs[1];
    var t := s.(reqs := s.reqs[1 := q.(phase := Finished(LastError(q.replies)))]);
    assert GiveUp(cfg, s, t, 1);
    Extend(cfg, trace, t, 1);
    trace := trace + [t];
  }
}
