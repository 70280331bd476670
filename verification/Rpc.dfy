/** The two cross-core queues of rpc_core.c as an interleaving state machine: any number of
    producers and one consumer, where each FreeRTOS queue operation is one atomic step. */
module Rpc {

  /** A message; only its identity matters here. */
  type Msg = int

  datatype Kind = Telemetry | Command

  /** RPC_TELEM_QUEUE_DEPTH and RPC_CMD_QUEUE_DEPTH. */
  function Depth(kind: Kind): nat {
    match kind
    case Telemetry => 8
    case Command => 16
  }

  /** How a message left the queue. */
  datatype Fate = Received | Evicted(sender: nat)

  /** What a send returned. */
  datatype Outcome = Sent(m: Msg) | Dropped(m: Msg)

  /** A producer's place in its send.  `Retry` remembers how much had been accepted when it
      evicted. */
  datatype Pc =
    | Idle
    | Waiting(m: Msg)
    | SawFull(m: Msg)
    | Retry(m: Msg, at: nat)

  datatype State = State(
    kind: Kind,
    queue: seq<Msg>,
    pcs: seq<Pc>,
    accepted: seq<Msg>,
    removed: seq<Msg>,
    fates: seq<Fate>,
    outcomes: seq<Outcome>)

  /** Begin starts a send; Proceed is the next queue operation of a send in progress; Timeout is the
      expiry of the first send's wait, which can only happen on a full queue; Receive is the
      consumer. */
  datatype Action = Begin(t: nat, m: Msg) | Proceed(t: nat) | Timeout(t: nat) | Receive

  function Init(kind: Kind, producers: nat): State {
    State(kind, [], seq(producers, _ => Idle), [], [], [], [])
  }

  function Goto(s: State, t: nat, pc: Pc): State
    requires t < |s.pcs|
  {
    s.(pcs := s.pcs[t := pc])
  }

  function Accept(s: State, t: nat, m: Msg): State
    requires t < |s.pcs|
  {
    Goto(s, t, Idle).(queue := s.queue + [m], accepted := s.accepted + [m], outcomes := s.outcomes + [Sent(m)])
  }

  function Drop(s: State, t: nat, m: Msg): State
    requires t < |s.pcs|
  {
    Goto(s, t, Idle).(outcomes := s.outcomes + [Dropped(m)])
  }

  function Remove(s: State, fate: Fate): State {
    if s.queue == [] then s
    else s.(queue := s.queue[1..], removed := s.removed + [s.queue[0]], fates := s.fates + [fate])
  }

  function ProceedStep(s: State, t: nat): State
    requires t < |s.pcs|
  {
    match s.pcs[t]
    case Idle => s
    case Waiting(m) => if |s.queue| < Depth(s.kind) then Accept(s, t, m) else s
    case SawFull(m) => Goto(Remove(s, Evicted(t)), t, Retry(m, |s.accepted|))
    case Retry(m, at) => if |s.queue| < Depth(s.kind) then Accept(s, t, m) else Drop(s, t, m)
  }

  function TimeoutStep(s: State, t: nat): State
    requires t < |s.pcs|
  {
    if s.pcs[t].Waiting? && |s.queue| >= Depth(s.kind) then
      match s.kind
      case Telemetry => Goto(s, t, SawFull(s.pcs[t].m))
      case Command => Drop(s, t, s.pcs[t].m)
    else s
  }

  function Apply(s: State, a: Action): State {
    match a
    case Begin(t, m) => if t < |s.pcs| && s.pcs[t] == Idle then Goto(s, t, Waiting(m)) else s
    case Proceed(t) => if t < |s.pcs| then ProceedStep(s, t) else s
    case Timeout(t) => if t < |s.pcs| then TimeoutStep(s, t) else s
    case Receive => Remove(s, Received)
  }

  function Run(s: State, actions: seq<Action>): State
    decreases |actions|
  {
    if actions == [] then s else Apply(Run(s, actions[..|actions| - 1]), actions[|actions| - 1])
  }

  // ----- what the history says

  /** The removed messages with the given fate, in order. */
  function Taken(removed: seq<Msg>, fates: seq<Fate>, received: bool): seq<Msg>
    requires |removed| == |fates|
    decreases |removed|
  {
    if removed == [] then []
    else
      var last := |removed| - 1;
      Taken(removed[..last], fates[..last], received)
      + if fates[last].Received? == received then [removed[last]] else []
  }

  /** The messages of the sends that returned 0. */
  function SentOnes(outcomes: seq<Outcome>): seq<Msg>
    decreases |outcomes|
  {
    if outcomes == [] then []
    else
      var last := |outcomes| - 1;
      SentOnes(outcomes[..last]) + if outcomes[last].Sent? then [outcomes[last].m] else []
  }

  /** Everything accepted has been removed, in the order of acceptance, or is still queued in that
      order; and a send returned 0 exactly when its message was accepted. */
  predicate Conserved(s: State) {
    && |s.removed| == |s.fates|
    && s.removed + s.queue == s.accepted
    && |s.queue| <= Depth(s.kind)
    && SentOnes(s.outcomes) == s.accepted
  }

  /** A producer that has evicted finds room unless something was accepted since; and commands are
      never evicted. */
  predicate Evictions(s: State) {
    && (forall t :: 0 <= t < |s.pcs| && s.pcs[t].Retry? ==> s.pcs[t].at <= |s.accepted|)
    && (forall t :: 0 <= t < |s.pcs| && s.pcs[t].Retry? && s.pcs[t].at == |s.accepted| ==> |s.queue| < Depth(s.kind))
    && (s.kind == Command ==> forall i :: 0 <= i < |s.fates| ==> s.fates[i] == Received)
    && (s.kind == Command ==> forall t :: 0 <= t < |s.pcs| ==> s.pcs[t].Idle? || s.pcs[t].Waiting?)
  }

  predicate Inv(s: State) {
    Conserved(s) && Evictions(s)
  }

  // ----- the invariant

  lemma RemoveKeeps(s: State, fate: Fate)
    requires Conserved(s)
    ensures Conserved(Remove(s, fate))
  {
    if s.queue != [] {
      assert s.removed + [s.queue[0]] + s.queue[1..] == s.removed + s.queue;
    }
  }

  lemma AcceptKeeps(s: State, t: nat, m: Msg)
    requires Conserved(s) && t < |s.pcs| && |s.queue| < Depth(s.kind)
    ensures Conserved(Accept(s, t, m))
  {
    assert s.removed + (s.queue + [m]) == s.accepted + [m];
    assert (s.outcomes + [Sent(m)])[..|s.outcomes|] == s.outcomes;
  }

  lemma DropKeeps(s: State, t: nat, m: Msg)
    requires Conserved(s) && t < |s.pcs|
    ensures Conserved(Drop(s, t, m))
  {
    assert (s.outcomes + [Dropped(m)])[..|s.outcomes|] == s.outcomes;
  }

  lemma ConservedKept(s: State, a: Action)
    requires Conserved(s)
    ensures Conserved(Apply(s, a))
  {
    match a {
      case Begin(t, m) =>
      case Receive => RemoveKeeps(s, Received);
      case Timeout(t) =>
        if t < |s.pcs| && s.pcs[t].Waiting? {
          DropKeeps(s, t, s.pcs[t].m);
        }
      case Proceed(t) =>
        if t < |s.pcs| && s.pcs[t] != Idle {
          var m := s.pcs[t].m;
          RemoveKeeps(s, Evicted(t));
          DropKeeps(s, t, m);
          if |s.queue| < Depth(s.kind) { AcceptKeeps(s, t, m); }
        }
    }
  }

  lemma EvictionsKept(s: State, a: Action)
    requires Inv(s)
    ensures Evictions(Apply(s, a))
  {
  }

  lemma {:induction false} RunInv(kind: Kind, producers: nat, actions: seq<Action>)
    ensures var s := Run(Init(kind, producers), actions);
            Inv(s) && s.kind == kind && |s.pcs| == producers
    decreases |actions|
  {
    if actions != [] {
      var before := actions[..|actions| - 1];
      RunInv(kind, producers, before);
      ConservedKept(Run(Init(kind, producers), before), actions[|actions| - 1]);
      EvictionsKept(Run(Init(kind, producers), before), actions[|actions| - 1]);
    }
  }

  // ----- conservation

  predicate Increasing(places: seq<nat>) {
    forall i, j :: 0 <= i < j < |places| ==> places[i] < places[j]
  }

  /** `part` consists of the entries of `whole` at the given places. */
  predicate At(part: seq<Msg>, whole: seq<Msg>, places: seq<nat>) {
    && |places| == |part| && Increasing(places)
    && forall i :: 0 <= i < |part| ==> places[i] < |whole| && part[i] == whole[places[i]]
  }

  lemma {:induction false} TakenInOrder(removed: seq<Msg>, fates: seq<Fate>, received: bool) returns (places: seq<nat>)
    requires |removed| == |fates|
    ensures At(Taken(removed, fates, received), removed, places)
    ensures forall i :: 0 <= i < |places| ==> fates[places[i]].Received? == received
    decreases |removed|
  {
    if removed == [] {
      places := [];
    } else {
      var last := |removed| - 1;
      places := TakenInOrder(removed[..last], fates[..last], received);
      if fates[last].Received? == received {
        places := places + [last];
      }
    }
  }

  lemma {:induction false} TakenSplits(removed: seq<Msg>, fates: seq<Fate>)
    requires |removed| == |fates|
    ensures multiset(Taken(removed, fates, true)) + multiset(Taken(removed, fates, false)) == multiset(removed)
    decreases |removed|
  {
    if removed != [] {
      var last := |removed| - 1;
      TakenSplits(removed[..last], fates[..last]);
      assert removed == removed[..last] + [removed[last]];
    }
  }

  /** Under every interleaving of several producers and one consumer, each accepted message is exactly
      one of received, evicted or still queued; what is received is received in the order of
      acceptance; and the sends that returned 0 are exactly the accepted ones, in order. */
  lemma Conservation(kind: Kind, producers: nat, actions: seq<Action>) returns (places: seq<nat>)
    ensures var s := Run(Init(kind, producers), actions);
            && |s.removed| == |s.fates| && s.removed + s.queue == s.accepted && |s.queue| <= Depth(kind)
            && multiset(Taken(s.removed, s.fates, true)) + multiset(Taken(s.removed, s.fates, false))
               + multiset(s.queue) == multiset(s.accepted)
            && At(Taken(s.removed, s.fates, true), s.accepted, places)
            && SentOnes(s.outcomes) == s.accepted
  {
    RunInv(kind, producers, actions);
    var s := Run(Init(kind, producers), actions);
    TakenSplits(s.removed, s.fates);
    places := TakenInOrder(s.removed, s.fates, true);
    assert multiset(s.removed + s.queue) == multiset(s.removed) + multiset(s.queue);
  }

  lemma {:induction false} AllReceived(removed: seq<Msg>, fates: seq<Fate>)
    requires |removed| == |fates| && forall i :: 0 <= i < |fates| ==> fates[i] == Received
    ensures Taken(removed, fates, true) == removed
    decreases |removed|
  {
    if removed != [] {
      var last := |removed| - 1;
      AllReceived(removed[..last], fates[..last]);
      assert removed == removed[..last] + [removed[last]];
    }
  }

  /** Accepted commands are never lost or reordered: received and queued together are what was
      accepted. */
  lemma CommandsNeverLost(producers: nat, actions: seq<Action>)
    ensures var s := Run(Init(Command, producers), actions);
            |s.removed| == |s.fates| && Taken(s.removed, s.fates, true) + s.queue == s.accepted == SentOnes(s.outcomes)
  {
    RunInv(Command, producers, actions);
    var s := Run(Init(Command, producers), actions);
    AllReceived(s.removed, s.fates);
  }

  // ----- evictions

  /** Producer t's place after the given actions. */
  function Place(producers: nat, actions: seq<Action>, t: nat): Pc {
    var s := Run(Init(Telemetry, producers), actions);
    if t < |s.pcs| then s.pcs[t] else Idle
  }

  function QueueAfter(producers: nat, actions: seq<Action>): seq<Msg> {
    Run(Init(Telemetry, producers), actions).queue
  }

  /** A producer comes to have seen the queue full only by its wait expiring on a full queue. */
  lemma BecomesFull(s: State, a: Action, t: nat)
    requires s.kind == Telemetry && |s.queue| <= Depth(Telemetry) && t < |s.pcs| && Apply(s, a).pcs[t].SawFull?
    ensures Apply(s, a).pcs[t] == s.pcs[t]
            || (a == Timeout(t) && s.pcs[t] == Waiting(Apply(s, a).pcs[t].m) && |s.queue| == Depth(Telemetry))
  {
  }

  /** Since its wait expired on a full queue, producer t has done nothing else. */
  predicate SinceFull(producers: nat, actions: seq<Action>, t: nat, m: Msg)
    decreases |actions|
  {
    && Place(producers, actions, t) == SawFull(m)
    && actions != []
    && var before := actions[..|actions| - 1];
       (|| (&& actions[|actions| - 1] == Timeout(t)
            && |QueueAfter(producers, before)| == Depth(Telemetry)
            && Place(producers, before, t) == Waiting(m))
        || SinceFull(producers, before, t, m))
  }

  /** A producer that is about to evict saw the queue full during the same send. */
  lemma {:induction false} EvictionAfterFull(producers: nat, actions: seq<Action>, t: nat, m: Msg)
    requires Place(producers, actions, t) == SawFull(m)
    ensures SinceFull(producers, actions, t, m)
    decreases |actions|
  {
    assert actions != [];
    var before := actions[..|actions| - 1];
    var u := Run(Init(Telemetry, producers), before);
    RunInv(Telemetry, producers, before);
    assert Run(Init(Telemetry, producers), actions) == Apply(u, actions[|actions| - 1]);
    BecomesFull(u, actions[|actions| - 1], t);
    hide Run, Apply, Inv;
    if u.pcs[t].SawFull? {
      EvictionAfterFull(producers, before, t, m);
    }
  }

  /** A send that evicted is dropped only if another send was accepted in between. */
  lemma DropNeedsRival(producers: nat, actions: seq<Action>, t: nat)
    requires var s := Run(Init(Telemetry, producers), actions);
             t < |s.pcs| && s.pcs[t].Retry? && |s.queue| == Depth(Telemetry)
    ensures var s := Run(Init(Telemetry, producers), actions); s.pcs[t].at < |s.accepted|
  {
    RunInv(Telemetry, producers, actions);
  }

  /** With one producer the second try always finds room. */
  predicate RoomToRetry(s: State) {
    && |s.pcs| == 1 && s.kind == Telemetry
    && (s.pcs[0].Retry? ==> |s.queue| < Depth(Telemetry))
    && forall i :: 0 <= i < |s.outcomes| ==> s.outcomes[i].Sent?
  }

  /** A lone producer's telemetry is never refused: every send that has returned was accepted. */
  lemma {:induction false} LoneProducerNeverDrops(actions: seq<Action>)
    ensures RoomToRetry(Run(Init(Telemetry, 1), actions))
    decreases |actions|
  {
    if actions != [] {
      LoneProducerNeverDrops(actions[..|actions| - 1]);
      RunInv(Telemetry, 1, actions[..|actions| - 1]);
    }
  }

  // ----- two or more producers: an eviction can be for nothing

  /** Eight uncontended sends by producer 0. */
  function Fill(n: nat): seq<Action> {
    if n == 0 then [] else Fill(n - 1) + [Begin(0, n), Proceed(0)]
  }

  lemma RunStep(s: State, actions: seq<Action>, a: Action)
    ensures Run(s, actions + [a]) == Apply(Run(s, actions), a)
  {
    assert (actions + [a])[..|actions|] == actions;
  }

  /** The messages 1..n have been accepted from producer 0, one of p. */
  function Filled(p: nat, n: nat): State {
    var all := seq(n, i => i + 1);
    State(Telemetry, all, seq(p, _ => Idle), all, [], [], seq(n, i => Sent(i + 1)))
  }

  lemma FillStep(p: nat, n: nat)
    requires p > 0 && 0 < n <= 8
    ensures Apply(Apply(Filled(p, n - 1), Begin(0, n)), Proceed(0)) == Filled(p, n)
  {
    var s := Apply(Filled(p, n - 1), Begin(0, n));
    assert s.pcs[0] == Waiting(n);
    var u := Apply(s, Proceed(0));
    assert u.queue == Filled(p, n).queue;
    assert u.pcs == Filled(p, n).pcs;
    assert u.outcomes == Filled(p, n).outcomes;
  }

  lemma {:induction false} FillRun(p: nat, n: nat)
    requires p > 0 && n <= 8
    ensures Run(Init(Telemetry, p), Fill(n)) == Filled(p, n)
  {
    var s := Init(Telemetry, p);
    if n == 0 {
      assert Filled(p, 0).pcs == s.pcs;
    } else {
      FillRun(p, n - 1);
      RunStep(s, Fill(n - 1), Begin(0, n));
      RunStep(s, Fill(n - 1) + [Begin(0, n)], Proceed(0));
      assert Fill(n) == Fill(n - 1) + [Begin(0, n)] + [Proceed(0)];
      FillStep(p, n);
    }
  }

  /** Six actions that lose two messages for one, on a full queue: producer 0 times out, producer 1
      begins a send, producer 0 evicts, producer 1 is accepted in the room made, and producer 0's
      second try is refused. */
  function Contention(s: State, m: Msg, rival: Msg): State {
    Apply(Apply(Apply(Contending(s, m, rival), Proceed(0)), Proceed(1)), Proceed(0))
  }

  function Contending(s: State, m: Msg, rival: Msg): State {
    Apply(Apply(Apply(s, Begin(0, m)), Timeout(0)), Begin(1, rival))
  }

  lemma Contend(s: State, m: Msg, rival: Msg)
    requires s.kind == Telemetry && |s.queue| == Depth(Telemetry)
    requires |s.pcs| >= 2 && s.pcs[0] == s.pcs[1] == Idle
    ensures var u := Contention(s, m, rival);
            && u.removed == s.removed + [s.queue[0]] && u.fates == s.fates + [Evicted(0)]
            && u.accepted == s.accepted + [rival]
            && u.outcomes == s.outcomes + [Sent(rival), Dropped(m)]
  {
    var c := Contending(s, m, rival);
    assert c.pcs[0] == SawFull(m) && c.pcs[1] == Waiting(rival) && c == s.(pcs := c.pcs);
    var d := Apply(c, Proceed(0));
    assert d.pcs[0] == Retry(m, |s.accepted|) && d.pcs[1] == Waiting(rival);
    var e := Apply(d, Proceed(1));
    assert e.pcs[0] == Retry(m, |s.accepted|);
  }

  lemma RunThree(s: State, actions: seq<Action>, a: Action, b: Action, c: Action)
    ensures Run(s, actions + [a] + [b] + [c]) == Apply(Apply(Apply(Run(s, actions), a), b), c)
  {
    hide Run, Apply;
    RunStep(s, actions, a);
    RunStep(s, actions + [a], b);
    RunStep(s, actions + [a] + [b], c);
  }

  /** Fills the queue with producer 0's messages 1..8, then contends for it. */
  function Scenario(): seq<Action> {
    Fill(8) + [Begin(0, 9)] + [Timeout(0)] + [Begin(1, 10)] + [Proceed(0)] + [Proceed(1)] + [Proceed(0)]
  }

  lemma ScenarioRun(p: nat)
    requires p > 0
    ensures Run(Init(Telemetry, p), Scenario()) == Contention(Filled(p, 8), 9, 10)
  {
    FillRun(p, 8);
    hide Run, Apply, Filled, Fill;
    var s := Init(Telemetry, p);
    RunThree(s, Fill(8), Begin(0, 9), Timeout(0), Begin(1, 10));
    RunThree(s, Fill(8) + [Begin(0, 9)] + [Timeout(0)] + [Begin(1, 10)], Proceed(0), Proceed(1), Proceed(0));
  }

  lemma FilledFacts(p: nat)
    requires p >= 2
    ensures var s := Filled(p, 8);
            && s.kind == Telemetry && |s.queue| == 8 && s.queue[0] == 1
            && |s.pcs| >= 2 && s.pcs[0] == s.pcs[1] == Idle
            && s.removed == [] && s.fates == []
  {
  }

  /** "A send that evicts is accepted" is false of any two or more producers: this run evicts message 1
      for the send of message 9, and then drops that one too. */
  lemma EvictsAndDrops(p: nat)
    requires p >= 2
    ensures var s := Run(Init(Telemetry, p), Scenario());
            && s.removed == [1] && s.fates == [Evicted(0)]
            && s.outcomes != [] && s.outcomes[|s.outcomes| - 1] == Dropped(9)
  {
    hide Run, Apply, Contention, Scenario, Filled;
    ScenarioRun(p);
    FilledFacts(p);
    Contend(Filled(p, 8), 9, 10);
  }

  /** Every send that has returned was accepted. */
  predicate AllSent(s: State) {
    forall i :: 0 <= i < |s.outcomes| ==> s.outcomes[i].Sent?
  }

  lemma {:induction false} NobodySends(actions: seq<Action>)
    ensures var s := Run(Init(Telemetry, 0), actions); s.outcomes == [] && s.pcs == []
    decreases |actions|
  {
    if actions != [] {
      NobodySends(actions[..|actions| - 1]);
    }
  }

  /** Telemetry sends never fail, in any run, exactly when there is at most one producer. */
  lemma NeverRefusedIffAlone(p: nat)
    ensures (forall actions :: AllSent(Run(Init(Telemetry, p), actions))) <==> p <= 1
  {
    if p <= 1 {
      forall actions
        ensures AllSent(Run(Init(Telemetry, p), actions))
      {
        if p == 0 { NobodySends(actions); } else { LoneProducerNeverDrops(actions); }
      }
    } else {
      EvictsAndDrops(p);
      assert !AllSent(Run(Init(Telemetry, p), Scenario()));
    }
  }
}
