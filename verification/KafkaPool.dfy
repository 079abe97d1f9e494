/**
 * The Kafka push pool (pkg/kafkapush): a bounded queue that drops on full, one consumer, and a `Close` that drains and
 * may be called by several callers. A step system first: pushes, the consumer and every caller of `Close` interleave
 * freely. Then the pool as an object, each of whose operations takes one step of that system.
 */
module KafkaPool {
  import opened Items

  const DEFAULT_QUEUE_SIZE := 2048

  datatype Config = Config(enabled: bool, brokers: seq<string>, topic: string, queueSize: int)

  predicate EnabledOn(cfg: Config) {
    cfg.enabled && cfg.brokers != [] && cfg.topic != ""
  }

  function Capacity(cfg: Config): (n: nat)
    ensures n > 0
  {
    if cfg.queueSize <= 0 then DEFAULT_QUEUE_SIZE else cfg.queueSize
  }

  /** The consumer goroutine; a disabled pool never starts one. */
  datatype Consumer = Absent | Running | Exited

  /** The once guard of `Close`. */
  datatype Once = Fresh | Held(owner: int) | Done

  /** Where a caller of `Close` is: about to close the channel, waiting for the consumer, blocked on the guard, back. */
  datatype Closer = Closing | Waiting | Blocked | Returned

  /** `offered` and `accepted` record the pushes that reached the channel and those it took; `handed` what was written. */
  datatype State = State(offered: seq<string>, accepted: seq<string>, queue: seq<string>, inFlight: Option<string>,
                         handed: seq<string>, closed: bool, consumer: Consumer, once: Once, closers: map<int, Closer>,
                         writerCloses: nat)

  function InHand(s: State): seq<string> {
    if s.inFlight.Some? then [s.inFlight.value] else []
  }

  function Initial(cfg: Config): State {
    State([], [], [], None, [], false, if EnabledOn(cfg) then Running else Absent, Fresh, map[], 0)
  }

  /** A pool is on with brokers and a topic; its queue holds what is configured, 2048 otherwise. */
  lemma {:induction false} SettingsMean(cfg: Config)
    ensures EnabledOn(cfg) <==> cfg.enabled && |cfg.brokers| > 0 && cfg.topic != ""
    ensures cfg.queueSize > 0 ==> Capacity(cfg) == cfg.queueSize
    ensures cfg.queueSize <= 0 ==> Capacity(cfg) == 2048
  {
  }

  /** A push on a running pool: the message goes behind the queue if there is room, and is dropped otherwise. */
  lemma {:induction false} PushMeans(cfg: Config, s: State, msg: string)
    ensures var t := AfterPush(cfg, s, msg);
            && (!(cfg.enabled && |cfg.brokers| > 0 && cfg.topic != "") || msg == "" ==> t == s)
            && (cfg.enabled && |cfg.brokers| > 0 && cfg.topic != "" && msg != "" ==>
                  t == s.(offered := s.offered + [msg],
                          queue := if |s.queue| < (if cfg.queueSize > 0 then cfg.queueSize else 2048) then s.queue + [msg] else s.queue,
                          accepted := if |s.queue| < (if cfg.queueSize > 0 then cfg.queueSize else 2048) then s.accepted + [msg] else s.accepted))
  {
  }

  // ---------- steps ----------

  /** A push changes nothing on a disabled pool or for an empty message; a full queue drops the message. */
  function AfterPush(cfg: Config, s: State, msg: string): State {
    if !EnabledOn(cfg) || msg == "" then s
    else if |s.queue| < Capacity(cfg) then
      s.(offered := s.offered + [msg], accepted := s.accepted + [msg], queue := s.queue + [msg])
    else s.(offered := s.offered + [msg])
  }

  /** Pushes stop before the channel is closed: sending on a closed channel is the caller's mistake. */
  ghost predicate PushStep(cfg: Config, s: State, t: State, msg: string) {
    !s.closed && t == AfterPush(cfg, s, msg)
  }

  ghost predicate Receive(s: State, t: State) {
    && s.consumer == Running && s.inFlight == None && s.queue != []
    && t == s.(inFlight := Some(s.queue[0]), queue := s.queue[1..])
  }

  /** The write's own error is ignored, so the message counts as handed over either way. */
  ghost predicate Write(s: State, t: State) {
    s.inFlight.Some? && t == s.(handed := s.handed + [s.inFlight.value], inFlight := None)
  }

  /** The range over the channel ends once it is closed and empty. */
  ghost predicate Exit(s: State, t: State) {
    && s.consumer == Running && s.inFlight == None && s.queue == [] && s.closed
    && t == s.(consumer := Exited)
  }

  ghost predicate ConsumerStep(s: State, t: State) {
    Receive(s, t) || Write(s, t) || Exit(s, t)
  }

  /** The first caller takes the guard; later ones block on it, or return at once when it is done. */
  function AfterEnter(s: State, c: int): State {
    match s.once
    case Fresh => s.(once := Held(c), closers := s.closers[c := Closing])
    case Held(_) => s.(closers := s.closers[c := Blocked])
    case Done => s.(closers := s.closers[c := Returned])
  }

  ghost predicate Enter(s: State, t: State, c: int) {
    c !in s.closers && t == AfterEnter(s, c)
  }

  ghost predicate CloseChannel(cfg: Config, s: State, t: State, c: int) {
    && s.once == Held(c) && c in s.closers && s.closers[c] == Closing
    && t == s.(closed := EnabledOn(cfg), closers := s.closers[c := Waiting])
  }

  /** The wait group is zero: close the writer, if there is one, and return. */
  ghost predicate CloseWriter(cfg: Config, s: State, t: State, c: int) {
    && s.once == Held(c) && c in s.closers && s.closers[c] == Waiting && s.consumer != Running
    && t == s.(once := Done, closers := s.closers[c := Returned],
               writerCloses := s.writerCloses + if EnabledOn(cfg) then 1 else 0)
  }

  ghost predicate Wake(s: State, t: State, c: int) {
    && s.once == Done && c in s.closers && s.closers[c] == Blocked
    && t == s.(closers := s.closers[c := Returned])
  }

  ghost predicate CloserStep(cfg: Config, s: State, t: State, c: int) {
    Enter(s, t, c) || CloseChannel(cfg, s, t, c) || CloseWriter(cfg, s, t, c) || Wake(s, t, c)
  }

  ghost predicate Next(cfg: Config, s: State, t: State) {
    (exists msg :: PushStep(cfg, s, t, msg)) || ConsumerStep(s, t) || (exists c :: CloserStep(cfg, s, t, c))
  }

  ghost predicate IsTrace(cfg: Config, trace: seq<State>) {
    && trace != [] && trace[0] == Initial(cfg)
    && forall i :: 0 <= i < |trace| - 1 ==> Next(cfg, trace[i], trace[i + 1])
  }

  // ---------- invariant ----------

  /** Conservation and order: what was accepted is what was handed over, then what is in hand, then what is queued. */
  ghost predicate Conserved(cfg: Config, s: State) {
    && s.handed + InHand(s) + s.queue == s.accepted
    && |s.queue| <= Capacity(cfg)
    && (s.accepted == s.offered || |s.offered| > Capacity(cfg))
  }

  /** The consumer outlives the queue: it leaves a closed, empty channel behind. */
  ghost predicate ConsumerInv(cfg: Config, s: State) {
    && (EnabledOn(cfg) <==> s.consumer != Absent)
    && (s.consumer == Absent ==> s.accepted == [] && !s.closed)
    && (s.consumer != Running ==> s.queue == [] && s.inFlight == None)
    && (s.consumer == Exited ==> s.closed)
  }

  /** One caller at a time holds the guard, and it is done only after the channel was drained and the writer closed. */
  ghost predicate CloseInv(cfg: Config, s: State) {
    && (s.closed ==> s.once != Fresh)
    && (s.once != Done ==> s.writerCloses == 0)
    && (s.once == Done ==> s.consumer != Running && s.writerCloses == if EnabledOn(cfg) then 1 else 0)
    && (forall c :: c in s.closers ==>
          match s.closers[c]
          case Closing => s.once == Held(c) && !s.closed
          case Waiting => s.once == Held(c) && s.closed == EnabledOn(cfg)
          case Blocked => s.once != Fresh
          case Returned => s.once == Done)
    && (s.once.Held? ==> s.once.owner in s.closers && s.closers[s.once.owner] in {Closing, Waiting})
  }

  ghost predicate Inv(cfg: Config, s: State) {
    Conserved(cfg, s) && ConsumerInv(cfg, s) && CloseInv(cfg, s)
  }

  lemma {:induction false} PushKeeps(cfg: Config, s: State, t: State, msg: string)
    requires Inv(cfg, s) && PushStep(cfg, s, t, msg)
    ensures Inv(cfg, t)
  {
    assert s.handed + InHand(s) + (s.queue + [msg]) == s.handed + InHand(s) + s.queue + [msg];
    if |s.queue| == Capacity(cfg) {
      assert |s.accepted| >= |s.queue|;
    }
  }

  lemma {:induction false} ConsumerKeeps(cfg: Config, s: State, t: State)
    requires Inv(cfg, s) && ConsumerStep(s, t)
    ensures Inv(cfg, t)
  {
    if Receive(s, t) {
      assert s.queue == [s.queue[0]] + s.queue[1..];
    }
  }

  lemma {:induction false} EnterKeeps(cfg: Config, s: State, t: State, c: int)
    requires Inv(cfg, s) && Enter(s, t, c)
    ensures Inv(cfg, t)
  {
  }

  lemma {:induction false} CloseChannelKeeps(cfg: Config, s: State, t: State, c: int)
    requires Inv(cfg, s) && CloseChannel(cfg, s, t, c)
    ensures Inv(cfg, t)
  {
  }

  lemma {:induction false} CloseWriterKeeps(cfg: Config, s: State, t: State, c: int)
    requires Inv(cfg, s) && CloseWriter(cfg, s, t, c)
    ensures Inv(cfg, t)
  {
  }

  lemma {:induction false} CloserKeeps(cfg: Config, s: State, t: State, c: int)
    requires Inv(cfg, s) && CloserStep(cfg, s, t, c)
    ensures Inv(cfg, t)
  {
    if Enter(s, t, c) {
      EnterKeeps(cfg, s, t, c);
    } else if CloseChannel(cfg, s, t, c) {
      CloseChannelKeeps(cfg, s, t, c);
    } else if CloseWriter(cfg, s, t, c) {
      CloseWriterKeeps(cfg, s, t, c);
    }
  }

  lemma {:induction false} StepKeepsInv(cfg: Config, s: State, t: State)
    requires Inv(cfg, s) && Next(cfg, s, t)
    ensures Inv(cfg, t)
  {
    if exists msg :: PushStep(cfg, s, t, msg) {
      var msg :| PushStep(cfg, s, t, msg);
      PushKeeps(cfg, s, t, msg);
    } else if ConsumerStep(s, t) {
      ConsumerKeeps(cfg, s, t);
    } else {
      var c :| CloserStep(cfg, s, t, c);
      CloserKeeps(cfg, s, t, c);
    }
  }

  lemma {:induction false} Reachable(cfg: Config, trace: seq<State>, i: nat)
    requires IsTrace(cfg, trace) && i < |trace|
    ensures Inv(cfg, trace[i])
  {
    if i > 0 {
      Reachable(cfg, trace, i - 1);
      assert Next(cfg, trace[i - 1], trace[i - 1 + 1]);
      StepKeepsInv(cfg, trace[i - 1], trace[i]);
    }
  }

  // ---------- what it means ----------

  /**
   * Conservation: in every reachable state the messages handed over, the one in hand and the queued ones are, in order,
   * the accepted messages; the queue fits; and as long as no more were offered than fit, none was dropped.
   */
  lemma {:induction false} FirstInFirstOut(cfg: Config, trace: seq<State>, i: nat)
    requires IsTrace(cfg, trace) && i < |trace|
    ensures var s := trace[i];
            && s.handed + InHand(s) + s.queue == s.accepted
            && |s.queue| <= Capacity(cfg)
            && (|s.offered| <= Capacity(cfg) ==> s.accepted == s.offered)
  {
    Reachable(cfg, trace, i);
  }

  /** A caller of `Close` that is back stays back, and the guard stays done. */
  lemma {:induction false} DoneStays(cfg: Config, s: State, t: State)
    requires Inv(cfg, s) && Next(cfg, s, t) && s.once == Done
    ensures t.once == Done && t.handed == s.handed && t.accepted == s.accepted && t.writerCloses == s.writerCloses
  {
  }

  /**
   * When any `Close` has returned, everything accepted was handed over and the writer was closed exactly once; from
   * then on nothing is accepted or written any more, whoever closes again.
   */
  lemma {:induction false} CloseDrains(cfg: Config, trace: seq<State>, i: nat, j: nat, c: int)
    requires IsTrace(cfg, trace) && i <= j < |trace|
    requires c in trace[i].closers && trace[i].closers[c] == Returned
    ensures trace[i].handed == trace[i].accepted && trace[i].queue == [] && trace[i].inFlight == None
    ensures trace[j].handed == trace[j].accepted == trace[i].accepted && trace[j].once == Done
    ensures trace[j].writerCloses == if EnabledOn(cfg) then 1 else 0
  {
    Reachable(cfg, trace, j);
    if i < j {
      CloseDrains(cfg, trace, i, j - 1, c);
      Reachable(cfg, trace, j - 1);
      assert Next(cfg, trace[j - 1], trace[j - 1 + 1]);
      DoneStays(cfg, trace[j - 1], trace[j]);
    }
  }

  /** What is left to do for the consumer: take and write each queued message, write the one in hand, leave. */
  function DrainMeasure(s: State): nat {
    2 * |s.queue| + |InHand(s)| + if s.consumer == Running then 1 else 0
  }

  /** After the channel is closed every consumer step is progress and no other step undoes it. */
  lemma {:induction false} DrainProgress(cfg: Config, s: State, t: State)
    requires Inv(cfg, s) && Next(cfg, s, t) && s.closed
    ensures t.closed
    ensures DrainMeasure(t) == DrainMeasure(s) - if ConsumerStep(s, t) then 1 else 0
  {
  }

  ghost predicate IsDrain(run: seq<State>) {
    run != [] && forall i :: 0 <= i < |run| - 1 ==> ConsumerStep(run[i], run[i + 1])
  }

  lemma {:induction false} ConsumerGoesOn(cfg: Config, s: State) returns (t: State)
    requires Inv(cfg, s) && s.closed && s.consumer == Running
    ensures ConsumerStep(s, t) && t.once == s.once && t.closers == s.closers && DrainMeasure(t) == DrainMeasure(s) - 1 && t.closed && t.accepted == s.accepted
  {
    t := if s.inFlight.Some? then s.(handed := s.handed + [s.inFlight.value], inFlight := None)
         else if s.queue != [] then s.(inFlight := Some(s.queue[0]), queue := s.queue[1..])
         else s.(consumer := Exited);
  }

  /**
   * A closed pool never gets stuck: the consumer has exactly `DrainMeasure` steps to take, after which everything is
   * handed over and it has left.
   */
  lemma {:induction false} DrainRun(cfg: Config, s: State) returns (run: seq<State>)
    requires Inv(cfg, s) && s.closed
    ensures IsDrain(run) && run[0] == s && |run| == DrainMeasure(s) + 1
    ensures var t := run[|run| - 1]; t.consumer == Exited && t.handed == t.accepted == s.accepted
    decreases DrainMeasure(s)
  {
    if s.consumer == Exited {
      run := [s];
    } else {
      var t := ConsumerGoesOn(cfg, s);
      ConsumerKeeps(cfg, s, t);
      var rest := DrainRun(cfg, t);
      run := [s] + rest;
      forall i | 0 <= i < |run| - 1
        ensures ConsumerStep(run[i], run[i + 1])
      {
        if i > 0 {
          assert ConsumerStep(rest[i - 1], rest[i - 1 + 1]);
        }
      }
    }
  }

  /** A step of the consumer, or of a caller of `Close` that is already there. */
  ghost predicate GoesOn(cfg: Config, s: State, t: State) {
    ConsumerStep(s, t) || exists c :: c in s.closers && CloserStep(cfg, s, t, c)
  }

  /** The steps before caller `c` can be back: draining, closing the channel, closing the writer, waking up. */
  function CloseMeasure(s: State, c: int): nat
    requires c in s.closers
  {
    DrainMeasure(s) +
    match s.once
    case Fresh => 0
    case Held(owner) => if owner in s.closers && s.closers[owner] == Closing then 3 else 2
    case Done => if s.closers[c] == Blocked then 1 else 0
  }

  /**
   * No call of `Close` is ever stuck: whenever a caller is not back, the consumer or a caller that is there can take a
   * step that brings it closer; on a disabled pool and before the channel is closed as well.
   */
  lemma {:induction false} CloseGoesOn(cfg: Config, s: State, c: int) returns (t: State)
    requires Inv(cfg, s) && c in s.closers && s.closers[c] != Returned
    ensures GoesOn(cfg, s, t) && Inv(cfg, t) && c in t.closers && CloseMeasure(t, c) < CloseMeasure(s, c)
  {
    if s.once == Done {
      t := s.(closers := s.closers[c := Returned]);
      assert Wake(s, t, c);
      CloserKeeps(cfg, s, t, c);
    } else if s.closers[s.once.owner] == Waiting && s.consumer == Running {
      t := ConsumerGoesOn(cfg, s);
      ConsumerKeeps(cfg, s, t);
    } else {
      t := OwnerGoesOn(cfg, s, c);
    }
  }

  lemma {:induction false} OwnerGoesOn(cfg: Config, s: State, c: int) returns (t: State)
    requires Inv(cfg, s) && c in s.closers && s.once.Held? && (s.closers[s.once.owner] == Waiting ==> s.consumer != Running)
    ensures GoesOn(cfg, s, t) && Inv(cfg, t) && c in t.closers && CloseMeasure(t, c) < CloseMeasure(s, c)
  {
    var owner := s.once.owner;
    if s.closers[owner] == Closing {
      t := s.(closed := EnabledOn(cfg), closers := s.closers[owner := Waiting]);
      assert CloseChannel(cfg, s, t, owner);
    } else {
      t := s.(once := Done, closers := s.closers[owner := Returned], writerCloses := s.writerCloses + if EnabledOn(cfg) then 1 else 0);
      assert CloseWriter(cfg, s, t, owner);
    }
    CloserKeeps(cfg, s, t, owner);
  }

  ghost predicate IsGoingOn(cfg: Config, run: seq<State>) {
    run != [] && forall i :: 0 <= i < |run| - 1 ==> GoesOn(cfg, run[i], run[i + 1])
  }

  /** From every reachable state every call of `Close` that has begun can return, without any new push or caller. */
  lemma {:induction false} CloseCompletes(cfg: Config, s: State, c: int) returns (run: seq<State>)
    requires Inv(cfg, s) && c in s.closers
    ensures IsGoingOn(cfg, run) && run[0] == s && |run| <= CloseMeasure(s, c) + 1
    ensures var t := run[|run| - 1]; c in t.closers && t.closers[c] == Returned
    decreases CloseMeasure(s, c)
  {
    if s.closers[c] == Returned {
      run := [s];
    } else {
      var t := CloseGoesOn(cfg, s, c);
      var rest := CloseCompletes(cfg, t, c);
      run := [s] + rest;
      forall i | 0 <= i < |run| - 1
        ensures GoesOn(cfg, run[i], run[i + 1])
      {
        if i > 0 {
          assert GoesOn(cfg, rest[i - 1], rest[i - 1 + 1]);
        }
      }
    }
  }

  // ---------- the pool as an object ----------

  class Pool {
    const cfg: Config
    var state: State

    /** A new pool is empty and open; its consumer runs exactly when the configuration is on. */
    constructor (config: Config)
      ensures cfg == config && state == Initial(config) && Inv(config, state)
    {
      cfg := config;
      state := Initial(config);
    }

    /** Never blocks: takes the message if there is room, and drops it otherwise. */
    method Push(msg: string) returns (taken: bool)
      requires Inv(cfg, state) && !state.closed
      modifies this`state
      ensures Inv(cfg, state) && PushStep(cfg, old(state), state, msg)
      ensures taken <==> EnabledOn(cfg) && msg != "" && |old(state).queue| < Capacity(cfg)
      ensures state.accepted == old(state).accepted + if taken then [msg] else []
    {
      taken := false;
      if EnabledOn(cfg) && msg != "" {
        state := state.(offered := state.offered + [msg]);
        if |state.queue| < Capacity(cfg) {
          state := state.(queue := state.queue + [msg], accepted := state.accepted + [msg]);
          taken := true;
        }
      }
      PushKeeps(cfg, old(state), state, msg);
    }

    /** The consumer's loop over a closed channel. */
    method Loop()
      requires Inv(cfg, state) && state.closed && state.consumer == Running
      modifies this`state
      ensures Inv(cfg, state) && state.closed && state.consumer == Exited
      ensures state.handed == state.accepted == old(state).accepted
      ensures state.once == old(state).once && state.closers == old(state).closers && state.writerCloses == old(state).writerCloses
    {
      while state.inFlight.Some? || state.queue != []
        invariant Inv(cfg, state) && state.closed && state.consumer == Running
        invariant state.accepted == old(state).accepted && state.once == old(state).once
        invariant state.closers == old(state).closers && state.writerCloses == old(state).writerCloses
        decreases DrainMeasure(state)
      {
        ghost var before := state;
        if state.inFlight.Some? {
          state := state.(handed := state.handed + [state.inFlight.value], inFlight := None);
        } else {
          state := state.(inFlight := Some(state.queue[0]), queue := state.queue[1..]);
        }
        ConsumerKeeps(cfg, before, state);
      }
      ghost var last := state;
      state := state.(consumer := Exited);
      ConsumerKeeps(cfg, last, state);
    }

    /** An uninterrupted `Close`: the first drains the pool and closes the writer, a repeated one does nothing. */
    method Close(caller: int)
      requires Inv(cfg, state) && !state.once.Held? && caller !in state.closers
      modifies this`state
      ensures Inv(cfg, state) && state.once == Done
      ensures state.handed == state.accepted == old(state).accepted
      ensures state.writerCloses == if EnabledOn(cfg) then 1 else 0
      ensures old(state).once == Done ==> state == old(state).(closers := old(state).closers[caller := Returned])
    {
      ghost var before := state;
      state := AfterEnter(state, caller);
      CloserKeeps(cfg, before, state, caller);
      if state.once == Held(caller) {
        before := state;
        state := state.(closed := EnabledOn(cfg), closers := state.closers[caller := Waiting]);
        CloserKeeps(cfg, before, state, caller);
        if state.consumer == Running {
          Loop();
        }
        before := state;
        state := state.(once := Done, closers := state.closers[caller := Returned],
                        writerCloses := state.writerCloses + if EnabledOn(cfg) then 1 else 0);
        CloserKeeps(cfg, before, state, caller);
      }
    }
  }
}
