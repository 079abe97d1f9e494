/**
 * Load balancing with failover (pkg/upstream): the round-robin counter, and one uninterrupted `PostBytes`.
 */
module Upstream {
  import opened Items

  const COUNTER_SIZE := 0x1_0000_0000_0000_0000

  /** What one attempt runs into: no request, no connection, no readable body, or a response. */
  datatype Reply = RequestError | TransportError | ReadError | Response(code: int, body: string)

  /** The error kept for the caller is that of the last failed attempt. */
  datatype Outcome = Delivered(body: string) | Rejected(code: int, body: string) | Failed(last: Option<Reply>)

  // ---------- specification ----------

  /** A fully read response below 500 ends the retries. */
  predicate Decisive(reply: Reply) {
    reply.Response? && reply.code < 500
  }

  function Result(reply: Reply): Outcome
    requires Decisive(reply)
  {
    if reply.code == 200 then Delivered(reply.body) else Rejected(reply.code, reply.body)
  }

  /** The endpoint a counter value selects. */
  function Endpoint(urls: seq<string>, counter: nat): string {
    if urls == [] then "" else urls[counter % |urls|]
  }

  /** Adding one to a 64-bit counter. */
  function Bump(i: nat): nat {
    if i + 1 == COUNTER_SIZE then 0 else i + 1
  }

  /** The counter after `a` draws. */
  function Counter(start: nat, a: nat): nat {
    if a == 0 then start else Bump(Counter(start, a - 1))
  }

  /** The endpoints drawn one after the other from a counter that stands at `start`. */
  function Draws(urls: seq<string>, start: nat): nat -> string {
    (a: nat) => Endpoint(urls, Counter(start, a))
  }

  /** The retry loop over `n` slots from attempt `a` on; `world` answers attempts at endpoints. */
  function Retry(n: nat, draw: nat -> string, world: (nat, string) -> Reply, attempts: nat, a: nat, tried: set<string>,
                 last: Option<Reply>): Outcome
    decreases attempts - a
  {
    if a >= attempts then Failed(last)
    else
      var base := draw(a);
      if base == "" || (base in tried && |tried| >= n) then Failed(last)
      else
        var reply := world(a, base);
        if Decisive(reply) then Result(reply)
        else Retry(n, draw, world, attempts, a + 1, tried + {base}, Some(reply))
  }

  // ---------- cyclic draws ----------

  ghost predicate AllNamed(urls: seq<string>) {
    urls != [] && forall s :: 0 <= s < |urls| ==> urls[s] != ""
  }

  ghost predicate NoDuplicates(urls: seq<string>) {
    forall s, t :: 0 <= s < t < |urls| ==> urls[s] != urls[t]
  }

  /** The first `upto` draws go round the endpoints: every slot in turn, and then the same again. */
  ghost predicate Cyclic(urls: seq<string>, draw: nat -> string, upto: nat) {
    && (forall a :: 0 <= a < upto ==> draw(a) in urls)
    && (NoDuplicates(urls) ==> forall a, b :: 0 <= a < b < upto && b < a + |urls| ==> draw(a) != draw(b))
    && (|urls| < upto ==> draw(|urls|) == draw(0))
  }

  lemma {:induction false} NoMultipleBelow(d: int, n: nat)
    requires n > 0
    ensures !(0 < d * n < n)
  {
    if d >= 1 {
      assert (d - 1) * n >= 0;
    } else {
      assert (-d) * n >= 0;
    }
  }

  lemma {:induction false} ModDiffers(x: nat, y: nat, n: nat)
    requires n > 0 && x < y < x + n
    ensures x % n != y % n
  {
    var q, p := x / n, y / n;
    assert x == q * n + x % n && y == p * n + y % n;
    assert (p - q) * n == p * n - q * n;
    NoMultipleBelow(p - q, n);
  }

  lemma {:induction false} ModRepeats(x: nat, n: nat)
    requires n > 0
    ensures (x + n) % n == x % n
  {
    var q, p, r, s := x / n, (x + n) / n, x % n, (x + n) % n;
    assert x == q * n + r && x + n == p * n + s;
    var k := p - q - 1;
    assert k * n == p * n - q * n - n;
    NoMultipleBelow(k, n);
    NoMultipleBelow(-k, n);
    assert (-k) * n == -(k * n);
  }

  lemma {:induction false} CounterAdds(start: nat, a: nat)
    requires start + a < COUNTER_SIZE
    ensures Counter(start, a) == start + a
  {
    if a > 0 {
      CounterAdds(start, a - 1);
    }
  }

  lemma {:induction false} DrawAt(urls: seq<string>, start: nat, a: nat)
    requires urls != [] && start + a < COUNTER_SIZE
    ensures Draws(urls, start)(a) == urls[(start + a) % |urls|]
  {
    CounterAdds(start, a);
  }

  lemma {:induction false} DrawsDiffer(urls: seq<string>, start: nat, a: nat, b: nat)
    requires NoDuplicates(urls) && a < b < a + |urls| && start + b < COUNTER_SIZE
    ensures Draws(urls, start)(a) != Draws(urls, start)(b)
  {
    DrawAt(urls, start, a);
    DrawAt(urls, start, b);
    ModDiffers(start + a, start + b, |urls|);
    SlotsDiffer(urls, (start + a) % |urls|, (start + b) % |urls|);
  }

  lemma {:induction false} SlotsDiffer(urls: seq<string>, s: nat, t: nat)
    requires NoDuplicates(urls) && s < |urls| && t < |urls| && s != t
    ensures urls[s] != urls[t]
  {
    if s > t {
      assert urls[t] != urls[s];
    }
  }

  /** Before the counter wraps, the draws go round. */
  lemma {:induction false} DrawsAreCyclic(urls: seq<string>, start: nat, upto: nat)
    requires urls != [] && start + upto <= COUNTER_SIZE
    ensures Cyclic(urls, Draws(urls, start), upto)
  {
    var draw := Draws(urls, start);
    if NoDuplicates(urls) {
      forall a: nat, b: nat {:trigger draw(a), draw(b)} | a < b < upto && b < a + |urls|
        ensures draw(a) != draw(b)
      {
        DrawsDiffer(urls, start, a, b);
      }
    }
    if |urls| < upto {
      CounterAdds(start, |urls|);
      ModRepeats(start, |urls|);
    }
  }

  // ---------- failover ----------

  function Answer(draw: nat -> string, world: (nat, string) -> Reply, a: nat): Reply {
    world(a, draw(a))
  }

  /** How many attempts the loop makes at most: one per endpoint when they all differ, else all that are allowed. */
  ghost function Reach(urls: seq<string>, attempts: nat): nat {
    if NoDuplicates(urls) then Min(attempts, |urls|) else attempts
  }

  /** The first decisive answer from `from` on and within reach, or failure with the last one. */
  ghost predicate FirstDecisive(draw: nat -> string, world: (nat, string) -> Reply, from: nat, reach: nat, last: Option<Reply>, out: Outcome) {
    || (exists a :: from <= a < reach && IsFirst(draw, world, from, a) && out == Result(Answer(draw, world, a)))
    || ((forall b :: from <= b < reach ==> !Decisive(Answer(draw, world, b)))
        && out == Failed(if from < reach then Some(Answer(draw, world, reach - 1)) else last))
  }

  ghost predicate IsFirst(draw: nat -> string, world: (nat, string) -> Reply, from: nat, a: nat) {
    Decisive(Answer(draw, world, a)) && forall b :: from <= b < a ==> !Decisive(Answer(draw, world, b))
  }

  /** The endpoints of the first `a` attempts. */
  ghost function Visited(draw: nat -> string, a: nat): set<string> {
    if a == 0 then {} else Visited(draw, a - 1) + {draw(a - 1)}
  }

  lemma {:induction false} VisitedMembers(draw: nat -> string, a: nat, u: string)
    ensures u in Visited(draw, a) <==> exists b: nat :: b < a && draw(b) == u
  {
    if a > 0 {
      VisitedMembers(draw, a - 1, u);
    }
  }

  lemma {:induction false} VisitedFew(draw: nat -> string, a: nat)
    ensures |Visited(draw, a)| <= a
  {
    if a > 0 {
      VisitedFew(draw, a - 1);
    }
  }

  lemma {:induction false} VisitedDistinct(urls: seq<string>, draw: nat -> string, a: nat, upto: nat)
    requires NoDuplicates(urls) && Cyclic(urls, draw, upto) && a <= |urls| && a <= upto
    ensures |Visited(draw, a)| == a
  {
    if a > 0 {
      VisitedDistinct(urls, draw, a - 1, upto);
      VisitedMembers(draw, a - 1, draw(a - 1));
    }
  }

  ghost function Names(urls: seq<string>, n: nat): set<string>
    requires n <= |urls|
  {
    if n == 0 then {} else Names(urls, n - 1) + {urls[n - 1]}
  }

  lemma {:induction false} NamesHold(urls: seq<string>, n: nat)
    requires n <= |urls|
    ensures |Names(urls, n)| <= n
    ensures forall s :: 0 <= s < n ==> urls[s] in Names(urls, n)
    ensures (exists s, t :: 0 <= s < t < n && urls[s] == urls[t]) ==> |Names(urls, n)| < n
  {
    if n > 0 {
      NamesHold(urls, n - 1);
      if exists s, t :: 0 <= s < t < n && urls[s] == urls[t] {
        var s, t :| 0 <= s < t < n && urls[s] == urls[t];
        if t == n - 1 {
          assert Names(urls, n) == Names(urls, n - 1);
        }
      }
    }
  }

  lemma {:induction false} VisitedAmong(urls: seq<string>, draw: nat -> string, a: nat, upto: nat)
    requires Cyclic(urls, draw, upto) && a <= upto
    ensures !NoDuplicates(urls) ==> |Visited(draw, a)| < |urls|
  {
    NamesHold(urls, |urls|);
    forall u | u in Visited(draw, a)
      ensures u in Names(urls, |urls|)
    {
      VisitedMembers(draw, a, u);
    }
    SubsetCount(Visited(draw, a), Names(urls, |urls|));
  }

  /** At an attempt within reach the loop does not stop early; past it, it does. */
  lemma {:induction false} BreakIff(urls: seq<string>, draw: nat -> string, attempts: nat, a: nat)
    requires AllNamed(urls) && Cyclic(urls, draw, attempts) && a < attempts && a <= Reach(urls, attempts)
    ensures draw(a) != ""
    ensures (draw(a) in Visited(draw, a) && |Visited(draw, a)| >= |urls|) <==> a == Reach(urls, attempts)
  {
    assert draw(a) in urls;
    VisitedFew(draw, a);
    VisitedAmong(urls, draw, a, attempts);
    if a == Reach(urls, attempts) {
      VisitedDistinct(urls, draw, a, attempts);
      VisitedMembers(draw, a, draw(a));
      assert draw(0) == draw(a);
    }
  }

  /** Within reach the loop goes on unless the answer is decisive. */
  lemma {:induction false} RetryGoesOn(urls: seq<string>, draw: nat -> string, world: (nat, string) -> Reply, attempts: nat, a: nat, last: Option<Reply>)
    requires AllNamed(urls) && Cyclic(urls, draw, attempts) && a < Reach(urls, attempts)
    ensures Retry(|urls|, draw, world, attempts, a, Visited(draw, a), last) ==
            if Decisive(Answer(draw, world, a)) then Result(Answer(draw, world, a))
            else Retry(|urls|, draw, world, attempts, a + 1, Visited(draw, a + 1), Some(Answer(draw, world, a)))
  {
    BreakIff(urls, draw, attempts, a);
  }

  /** At the end of the reach it fails. */
  lemma {:induction false} RetryEnds(urls: seq<string>, draw: nat -> string, world: (nat, string) -> Reply, attempts: nat, last: Option<Reply>)
    requires AllNamed(urls) && Cyclic(urls, draw, attempts)
    ensures var a := Reach(urls, attempts); Retry(|urls|, draw, world, attempts, a, Visited(draw, a), last) == Failed(last)
  {
    if Reach(urls, attempts) < attempts {
      BreakIff(urls, draw, attempts, Reach(urls, attempts));
    }
  }

  lemma {:induction false} RetryFindsFirst(urls: seq<string>, draw: nat -> string, world: (nat, string) -> Reply, attempts: nat, a: nat, last: Option<Reply>)
    requires AllNamed(urls) && Cyclic(urls, draw, attempts) && a <= Reach(urls, attempts)
    ensures FirstDecisive(draw, world, a, Reach(urls, attempts), last, Retry(|urls|, draw, world, attempts, a, Visited(draw, a), last))
    decreases Reach(urls, attempts) - a
  {
    if a == Reach(urls, attempts) {
      RetryEnds(urls, draw, world, attempts, last);
    } else {
      RetryGoesOn(urls, draw, world, attempts, a, last);
      if Decisive(Answer(draw, world, a)) {
        assert IsFirst(draw, world, a, a);
      } else {
        RetryFindsFirst(urls, draw, world, attempts, a + 1, Some(Answer(draw, world, a)));
        PrependAttempt(draw, world, a, Reach(urls, attempts), last, Retry(|urls|, draw, world, attempts, a, Visited(draw, a), last));
      }
    }
  }

  lemma {:induction false} PrependAttempt(draw: nat -> string, world: (nat, string) -> Reply, a: nat, reach: nat, last: Option<Reply>, out: Outcome)
    requires a < reach && !Decisive(Answer(draw, world, a))
    requires FirstDecisive(draw, world, a + 1, reach, Some(Answer(draw, world, a)), out)
    ensures FirstDecisive(draw, world, a, reach, last, out)
  {
    if exists c :: a + 1 <= c < reach && IsFirst(draw, world, a + 1, c) && out == Result(Answer(draw, world, c)) {
      var c :| a + 1 <= c < reach && IsFirst(draw, world, a + 1, c) && out == Result(Answer(draw, world, c));
      assert IsFirst(draw, world, a, c);
    }
  }

  /**
   * An uninterrupted call, for any number of attempts and before the counter wraps: the answer is the first decisive
   * one among the endpoints within reach, in cyclic order, and the call fails only when all of them fail. With one
   * attempt per slot every slot is within reach, whether or not endpoints are repeated.
   */
  lemma {:induction false} FailoverComplete(urls: seq<string>, start: nat, world: (nat, string) -> Reply, attempts: nat)
    requires AllNamed(urls) && start + attempts <= COUNTER_SIZE
    ensures FirstDecisive(Draws(urls, start), world, 0, Reach(urls, attempts), None,
              Retry(|urls|, Draws(urls, start), world, attempts, 0, {}, None))
    ensures attempts == |urls| ==> Reach(urls, attempts) == |urls|
  {
    DrawsAreCyclic(urls, start, attempts);
    RetryFindsFirst(urls, Draws(urls, start), world, attempts, 0, None);
  }

  /** Which replies end the retries, and with what. */
  lemma {:induction false} VerdictMeans(reply: Reply)
    ensures Decisive(reply) <==> reply.Response? && reply.code < 500
    ensures reply.Response? && reply.code == 200 ==> Result(reply) == Delivered(reply.body)
    ensures reply.Response? && reply.code < 500 && reply.code != 200 ==> Result(reply) == Rejected(reply.code, reply.body)
  {
  }

  /**
   * The first attempt of a call with at least one attempt: it goes to the endpoint that the counter selects; 200 delivers its
   * body, another answer below 500 is rejected with it, and with that single attempt anything else fails with that error.
   */
  lemma {:induction false} FirstAttempt(urls: seq<string>, start: nat, world: (nat, string) -> Reply, attempts: nat)
    requires AllNamed(urls) && attempts > 0 && start < 0x1_0000_0000_0000_0000
    ensures var out, reply := Retry(|urls|, Draws(urls, start), world, attempts, 0, {}, None), world(0, urls[start % |urls|]);
            && (reply.Response? && reply.code == 200 ==> out == Delivered(reply.body))
            && (reply.Response? && reply.code < 500 && reply.code != 200 ==> out == Rejected(reply.code, reply.body))
            && (attempts == 1 && !(reply.Response? && reply.code < 500) ==> out == Failed(Some(reply)))
  {
    DrawAt(urls, start, 0);
  }

  /** The counter adds one, and wraps at 2^64. */
  lemma {:induction false} BumpMeans(i: nat)
    requires i < 0x1_0000_0000_0000_0000
    ensures Bump(i) == (i + 1) % 0x1_0000_0000_0000_0000
  {
  }

  // ---------- the code ----------

  class RoundRobin {
    const urls: seq<string>
    var i: int

    ghost predicate Valid()
      reads this
    {
      0 <= i < COUNTER_SIZE
    }

    constructor (urls: seq<string>)
      ensures Valid() && this.urls == urls && i == 0
    {
      this.urls := urls;
      i := 0;
    }

    /** Draws a ticket: the counter advances, and the ticket selects the slot. */
    method Next() returns (url: string)
      requires Valid()
      modifies this`i
      ensures Valid()
      ensures url == Endpoint(urls, old(i))
      ensures i == if urls == [] then old(i) else Bump(old(i))
    {
      if |urls| == 0 {
        return "";
      }
      i := Bump(i);
      var n := i;
      var ticket := if n == 0 then COUNTER_SIZE - 1 else n - 1;
      assert ticket == old(i);
      url := urls[ticket % |urls|];
    }
  }

  class HttpDoer {
    const balancer: RoundRobin
    const maxAttempts: int

    constructor (balancer: RoundRobin, maxAttempts: int)
      ensures this.balancer == balancer && this.maxAttempts == maxAttempts
    {
      this.balancer := balancer;
      this.maxAttempts := maxAttempts;
    }

    /** The checks on one attempt: an error or a 5xx is retried, anything else is the answer. */
    static method Judge(reply: Reply) returns (verdict: Option<Outcome>)
      ensures verdict == if Decisive(reply) then Some(Result(reply)) else None
    {
      if !reply.Response? || reply.code >= 500 {
        return None;
      }
      if reply.code != 200 {
        return Some(Rejected(reply.code, reply.body));
      }
      return Some(Delivered(reply.body));
    }

    method PostBytes(world: (nat, string) -> Reply) returns (out: Outcome)
      requires balancer.Valid()
      modifies balancer`i
      ensures balancer.Valid()
      ensures var attempts := if maxAttempts > 0 then maxAttempts else |balancer.urls|;
              out == Retry(|balancer.urls|, Draws(balancer.urls, old(balancer.i)), world, attempts, 0, {}, None)
    {
      var attempts := maxAttempts;
      if attempts <= 0 {
        attempts := |balancer.urls|;
      }
      ghost var start := balancer.i;
      ghost var draw := Draws(balancer.urls, start);
      var tried: set<string> := {};
      var lastErr: Option<Reply> := None;
      for a := 0 to attempts
        invariant balancer.Valid() && (balancer.urls != [] ==> balancer.i == Counter(start, a))
        invariant Retry(|balancer.urls|, draw, world, attempts, a, tried, lastErr)
                  == Retry(|balancer.urls|, draw, world, attempts, 0, {}, None)
      {
        var base := balancer.Next();
        assert base == draw(a);
        var verdict;
        verdict, tried, lastErr := Attempt(draw, world, attempts, a, base, tried, lastErr);
        if verdict.Some? {
          return verdict.value;
        }
      }
      out := Failed(lastErr);
    }

    /** One turn of the loop: a verdict, or what the next turn starts from. */
    method Attempt(ghost draw: nat -> string, world: (nat, string) -> Reply, ghost attempts: nat, a: nat, base: string, tried: set<string>,
                   lastErr: Option<Reply>)
      returns (verdict: Option<Outcome>, tried': set<string>, lastErr': Option<Reply>)
      requires a < attempts && base == draw(a)
      ensures Retry(|balancer.urls|, draw, world, attempts, a, tried, lastErr) ==
              if verdict.Some? then verdict.value else Retry(|balancer.urls|, draw, world, attempts, a + 1, tried', lastErr')
    {
      tried', lastErr' := tried, lastErr;
      if base == "" {
        return Some(Failed(lastErr)), tried, lastErr;
      }
      if base in tried && |tried| >= |balancer.urls| {
        return Some(Failed(lastErr)), tried, lastErr;
      }
      tried' := tried + {base};
      var reply := world(a, base);
      verdict := Judge(reply);
      if verdict.None? {
        lastErr' := Some(reply);
      }
    }
  }
}
