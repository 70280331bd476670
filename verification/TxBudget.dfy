/** The transmit budget of the flight controller's MAVLink handler, over whole runs: the limiter keeps
    32-bit times and counts, the history keeps the true ones. */
module TxBudget {

  const WRAP := 0x1_0000_0000
  const BASE := 30
  const MAX := 60
  const WINDOW_MS := 1000

  /** A packet that went out: when, whether it was critical, and in which budget window. */
  datatype Packet = Packet(time: nat, critical: bool, window: nat)

  /** s_tx_budget_limit, _count and _window_start and s_mavlink_budget_update_ms, then the history: the
      packets sent and the times at which windows began. */
  datatype State = State(limit: nat, count: nat, start: nat, updated: nat, sent: seq<Packet>, starts: Starts)

  /** There is always a current window. */
  type Starts = s: seq<nat> | s != [] witness [0]

  /** A call of send_mavlink_msg or of update_mavlink_tx_budget, at a true time in milliseconds. */
  datatype Event =
    | Send(now: nat, msgid: nat, paused: bool, serializes: bool)
    | Update(now: nat, throughput: nat)

  /** After mavlink_handler_init at true time t, which begins the first window. */
  function Init(t: nat): State {
    State(BASE, 0, t % WRAP, 0, [], [t])
  }

  predicate IsCritical(msgid: nat) {
    msgid == 0 || msgid == 77 || msgid == 22 || msgid == 148
  }

  /** uint32_t subtraction of two truncated times. */
  function Elapsed(now: nat, then32: nat): nat {
    (now % WRAP - then32) % WRAP
  }

  /** A new window when the last one is a second old. */
  function Refresh(s: State, now: nat): State {
    if Elapsed(now, s.start) >= WINDOW_MS
    then s.(count := 0, start := now % WRAP, starts := s.starts + [now])
    else s
  }

  predicate Passes(s: State, e: Event)
    requires e.Send?
  {
    && e.serializes
    && (IsCritical(e.msgid) || (s.count < s.limit && !e.paused))
  }

  /** One more packet in the current window. */
  function Sent(r: State, p: Packet): State {
    r.(count := (r.count + 1) % WRAP, sent := r.sent + [p])
  }

  function PacketOf(r: State, e: Event): Packet
    requires e.Send?
  {
    Packet(e.now, IsCritical(e.msgid), |r.starts| - 1)
  }

  function SendStep(s: State, e: Event): State
    requires e.Send?
  {
    var r := Refresh(s, e.now);
    if Passes(r, e) then Sent(r, PacketOf(r, e)) else r
  }

  function Clamp(budget: nat): nat {
    if budget < BASE then BASE else if budget > MAX then MAX else budget
  }

  function UpdateStep(s: State, e: Event): State
    requires e.Update?
  {
    if Elapsed(e.now, s.updated) < 2000 then s
    else s.(updated := e.now % WRAP, limit := Clamp(e.throughput / 500))
  }

  function Apply(s: State, e: Event): State {
    if e.Send? then SendStep(s, e) else UpdateStep(s, e)
  }

  function Run(t: nat, events: seq<Event>): State
    decreases |events|
  {
    if events == [] then Init(t) else Apply(Run(t, events[..|events| - 1]), events[|events| - 1])
  }

  // ----- counting

  /** Packets of a window, and the non-critical ones among them. */
  function InWindow(sent: seq<Packet>, w: nat): nat
    decreases |sent|
  {
    if sent == [] then 0
    else InWindow(sent[..|sent| - 1], w) + if sent[|sent| - 1].window == w then 1 else 0
  }

  function Telemetry(sent: seq<Packet>, w: nat): nat
    decreases |sent|
  {
    if sent == [] then 0
    else Telemetry(sent[..|sent| - 1], w) + if sent[|sent| - 1].window == w && !sent[|sent| - 1].critical then 1 else 0
  }

  /** Non-critical packets sent in the interval [from, to). */
  function Between(sent: seq<Packet>, from: nat, to: nat): nat
    decreases |sent|
  {
    if sent == [] then 0
    else
      var p := sent[|sent| - 1];
      Between(sent[..|sent| - 1], from, to) + if from <= p.time < to && !p.critical then 1 else 0
  }

  // ----- the invariant

  /** Times never decrease along a run that starts at t. */
  predicate Ordered(t: nat, events: seq<Event>) {
    && (forall a :: 0 <= a < |events| ==> t <= events[a].now)
    && (forall a, b :: 0 <= a < b < |events| ==> events[a].now <= events[b].now)
  }

  predicate Numbers(s: State) {
    BASE <= s.limit <= MAX && s.count < WRAP
  }

  /** Windows begin at least a second apart, the last one at the time the limiter remembers. */
  predicate Windows(s: State, now: nat) {
    && s.start == s.starts[|s.starts| - 1] % WRAP
    && s.starts[|s.starts| - 1] <= now
    && forall w :: 0 <= w < |s.starts| - 1 ==> s.starts[w] + WINDOW_MS <= s.starts[w + 1]
  }

  /** Every packet lies in its window. */
  predicate Placed(s: State, now: nat) {
    forall i :: 0 <= i < |s.sent| ==> (
      var p := s.sent[i];
      && p.window < |s.starts| && s.starts[p.window] <= p.time <= now
      && (p.window + 1 < |s.starts| ==> p.time <= s.starts[p.window + 1]))
  }

  /** How many non-critical packets a window of `total` packets may carry, at most and after exactly that
      many. */
  function Allowed(total: nat): nat {
    MAX * (1 + total / WRAP)
  }

  function AllowedNow(total: nat): nat {
    MAX * (total / WRAP) + if total % WRAP < MAX then total % WRAP else MAX
  }

  /** The counter is the number of packets of the current window, wrapped; and each full turn of it lets
      at most 60 non-critical packets through. */
  predicate Counted(s: State) {
    && s.count == InWindow(s.sent, |s.starts| - 1) % WRAP
    && (forall w :: 0 <= w < |s.starts| ==> Telemetry(s.sent, w) <= Allowed(InWindow(s.sent, w)))
    && Telemetry(s.sent, |s.starts| - 1) <= AllowedNow(InWindow(s.sent, |s.starts| - 1))
  }

  predicate Inv(s: State, now: nat) {
    Numbers(s) && Windows(s, now) && Placed(s, now) && Counted(s)
  }

  lemma ElapsedAtMost(now: nat, t: nat)
    requires t <= now
    ensures Elapsed(now, t % WRAP) <= now - t
  {
    assert (now % WRAP - t % WRAP) % WRAP == (now - t) % WRAP;
  }

  lemma {:induction false} Beyond(sent: seq<Packet>, w: nat)
    requires forall i :: 0 <= i < |sent| ==> sent[i].window < w
    ensures InWindow(sent, w) == 0 && Telemetry(sent, w) == 0
    decreases |sent|
  {
    if sent != [] {
      Beyond(sent[..|sent| - 1], w);
    }
  }

  lemma RefreshKeeps(s: State, prev: nat, now: nat)
    requires Inv(s, prev) && prev <= now
    ensures Inv(Refresh(s, now), now)
  {
    hide InWindow, Telemetry;
    ElapsedAtMost(now, s.starts[|s.starts| - 1]);
    Beyond(s.sent, |s.starts|);
  }

  lemma Tally(total: nat, more: nat)
    requires more <= 1 && (more == 1 ==> total % WRAP < MAX)
    ensures (total + 1) % WRAP == (total % WRAP + 1) % WRAP
    ensures AllowedNow(total) + more <= AllowedNow(total + 1) <= Allowed(total + 1)
  {
    var q := total / WRAP;
    if total % WRAP == WRAP - 1 {
      assert total + 1 == WRAP * (q + 1);
    } else {
      assert total + 1 == WRAP * q + (total % WRAP + 1);
    }
  }

  lemma Append(sent: seq<Packet>, p: Packet, w: nat)
    ensures InWindow(sent + [p], w) == InWindow(sent, w) + if p.window == w then 1 else 0
    ensures Telemetry(sent + [p], w) == Telemetry(sent, w) + if p.window == w && !p.critical then 1 else 0
  {
    assert (sent + [p])[..|sent|] == sent;
  }

  lemma CountedKeeps(r: State, p: Packet)
    requires Numbers(r) && Counted(r) && p.window == |r.starts| - 1
    requires p.critical || r.count < MAX
    ensures Counted(Sent(r, p))
  {
    var last := |r.starts| - 1;
    Tally(InWindow(r.sent, last), if p.critical then 0 else 1);
    hide InWindow, Telemetry, Allowed, AllowedNow;
    Append(r.sent, p, last);
    forall w | 0 <= w < last
      ensures Telemetry(r.sent + [p], w) <= Allowed(InWindow(r.sent + [p], w))
    {
      Append(r.sent, p, w);
    }
  }

  lemma SendKeeps(r: State, e: Event)
    requires Inv(r, e.now) && e.Send? && Passes(r, e)
    ensures Inv(Sent(r, PacketOf(r, e)), e.now)
  {
    hide Counted, IsCritical;
    CountedKeeps(r, PacketOf(r, e));
  }

  /** The limit plays no part in the rest of the invariant. */
  lemma UpdateKeeps(s: State, prev: nat, e: Event)
    requires Inv(s, prev) && prev <= e.now && e.Update?
    ensures Inv(UpdateStep(s, e), e.now)
  {
    hide InWindow, Telemetry, Elapsed;
  }

  lemma ApplyKeeps(s: State, prev: nat, e: Event)
    requires Inv(s, prev) && prev <= e.now
    ensures Inv(Apply(s, e), e.now)
  {
    if e.Update? {
      UpdateKeeps(s, prev, e);
    } else {
      hide Refresh, Inv, Passes, Sent, PacketOf;
      var r := Refresh(s, e.now);
      RefreshKeeps(s, prev, e.now);
      if Passes(r, e) {
        SendKeeps(r, e);
      }
    }
  }

  function Last(t: nat, events: seq<Event>): nat {
    if events == [] then t else events[|events| - 1].now
  }

  lemma {:induction false} RunInv(t: nat, events: seq<Event>)
    requires Ordered(t, events)
    ensures Inv(Run(t, events), Last(t, events))
    decreases |events|
  {
    if events != [] {
      RunInv(t, events[..|events| - 1]);
      hide Inv;
      ApplyKeeps(Run(t, events[..|events| - 1]), Last(t, events[..|events| - 1]), events[|events| - 1]);
    }
  }

  // ----- the guarantees

  /** In every run, however the limit is set and however the 32-bit times wrap, window starts are at
      least a second of true time apart, and a window of fewer than 2^32 packets carries at most 60
      non-critical ones (each further 2^32 packets let 60 more through). */
  lemma WindowBound(t: nat, events: seq<Event>, w: nat)
    requires Ordered(t, events) && w < |Run(t, events).starts|
    ensures var s := Run(t, events);
            && (w > 0 ==> s.starts[w - 1] + WINDOW_MS <= s.starts[w])
            && Telemetry(s.sent, w) <= Allowed(InWindow(s.sent, w))
            && (InWindow(s.sent, w) < WRAP ==> Telemetry(s.sent, w) <= MAX)
  {
    RunInv(t, events);
    if w > 0 {
      assert Run(t, events).starts[w - 1] + WINDOW_MS <= Run(t, events).starts[w - 1 + 1];
    }
  }

  lemma {:induction false} StartsApart(s: State, now: nat, u: nat, v: nat)
    requires Windows(s, now) && u < v < |s.starts|
    ensures s.starts[u] + WINDOW_MS <= s.starts[v]
  {
    if u < v - 1 {
      StartsApart(s, now, u, v - 1);
    }
    assert s.starts[v - 1] + WINDOW_MS <= s.starts[v - 1 + 1];
  }

  /** Two packets less than a second apart are in the same window or in neighbouring ones. */
  lemma NearPackets(s: State, now: nat, i: nat, j: nat)
    requires Windows(s, now) && Placed(s, now) && i < |s.sent| && j < |s.sent|
    requires s.sent[i].window <= s.sent[j].window && s.sent[j].time < s.sent[i].time + WINDOW_MS
    ensures s.sent[j].window <= s.sent[i].window + 1
  {
    var u, v := s.sent[i].window, s.sent[j].window;
    if v >= u + 2 {
      StartsApart(s, now, u + 1, v);
    }
  }

  /** The non-critical packets of an interval, if they all lie in windows w and w + 1. */
  lemma {:induction false} BetweenTwo(sent: seq<Packet>, from: nat, to: nat, w: nat)
    requires forall i :: 0 <= i < |sent| && from <= sent[i].time < to ==> w <= sent[i].window <= w + 1
    ensures Between(sent, from, to) <= Telemetry(sent, w) + Telemetry(sent, w + 1)
    decreases |sent|
  {
    if sent != [] {
      BetweenTwo(sent[..|sent| - 1], from, to, w);
    }
  }

  lemma {:induction false} NoneBetween(sent: seq<Packet>, from: nat, to: nat)
    requires forall i :: 0 <= i < |sent| ==> !(from <= sent[i].time < to)
    ensures Between(sent, from, to) == 0
    decreases |sent|
  {
    if sent != [] {
      NoneBetween(sent[..|sent| - 1], from, to);
    }
  }

  /** A packet of the interval with the least window, if there is a packet. */
  lemma {:induction false} Earliest(sent: seq<Packet>, from: nat, to: nat) returns (k: int)
    ensures k == -1 ==> forall i :: 0 <= i < |sent| ==> !(from <= sent[i].time < to)
    ensures k != -1 ==> 0 <= k < |sent| && from <= sent[k].time < to
                        && forall i :: 0 <= i < |sent| && from <= sent[i].time < to ==> sent[k].window <= sent[i].window
    decreases |sent|
  {
    if sent == [] {
      k := -1;
    } else {
      var last := |sent| - 1;
      k := Earliest(sent[..last], from, to);
      if from <= sent[last].time < to && (k == -1 || sent[last].window < sent[k].window) {
        k := last;
      }
    }
  }

  lemma AtMostMax(s: State, now: nat, w: nat)
    requires Placed(s, now) && Counted(s)
    requires forall v :: 0 <= v < |s.starts| ==> InWindow(s.sent, v) < WRAP
    ensures Telemetry(s.sent, w) <= MAX
  {
    if w < |s.starts| {
      assert Telemetry(s.sent, w) <= Allowed(InWindow(s.sent, w));
    } else {
      Beyond(s.sent, w);
    }
  }

  lemma IntervalOfState(s: State, now: nat, from: nat, to: nat)
    requires Windows(s, now) && Placed(s, now) && Counted(s) && from <= to <= from + WINDOW_MS
    requires forall w :: 0 <= w < |s.starts| ==> InWindow(s.sent, w) < WRAP
    ensures Between(s.sent, from, to) <= 2 * MAX
  {
    hide InWindow, Telemetry, Between, Windows, Placed, Counted;
    var k := Earliest(s.sent, from, to);
    if k == -1 {
      NoneBetween(s.sent, from, to);
    } else {
      var w := s.sent[k].window;
      forall i | 0 <= i < |s.sent| && from <= s.sent[i].time < to
        ensures w <= s.sent[i].window <= w + 1
      {
        NearPackets(s, now, k, i);
      }
      BetweenTwo(s.sent, from, to, w);
      AtMostMax(s, now, w);
      AtMostMax(s, now, w + 1);
    }
  }

  /** In every run whose windows carry fewer than 2^32 packets each, any interval shorter than a second
      carries at most 120 non-critical packets. */
  lemma IntervalBound(t: nat, events: seq<Event>, from: nat, to: nat)
    requires Ordered(t, events) && from <= to <= from + WINDOW_MS
    requires var s := Run(t, events); forall w :: 0 <= w < |s.starts| ==> InWindow(s.sent, w) < WRAP
    ensures Between(Run(t, events).sent, from, to) <= 2 * MAX
  {
    RunInv(t, events);
    IntervalOfState(Run(t, events), Last(t, events), from, to);
  }

  /** Critical packets that can be serialized always go out. */
  lemma CriticalAlwaysSent(t: nat, events: seq<Event>, e: Event)
    requires Ordered(t, events + [e]) && e.Send? && IsCritical(e.msgid) && e.serializes
    ensures |Run(t, events + [e]).sent| == |Run(t, events).sent| + 1
  {
    assert (events + [e])[..|events|] == events;
    assert Ordered(t, events) by {
      assert forall a :: 0 <= a < |events| ==> (events + [e])[a] == events[a];
    }
    RunInv(t, events);
  }

  lemma RunSnoc(t: nat, events: seq<Event>, e: Event)
    requires Ordered(t, events + [e])
    ensures Run(t, events + [e]) == Apply(Run(t, events), e)
    ensures Ordered(t, events) && Last(t, events) <= e.now
  {
    var all := events + [e];
    assert all[..|events|] == events && all[|events|] == e;
    assert forall a :: 0 <= a < |events| ==> all[a] == events[a];
  }

  /** What the wrapping clock says of a time remembered truncated. */
  lemma ElapsedIs(now: nat, from: nat)
    ensures Elapsed(now, from % WRAP) == (now - from) % WRAP
  {
  }

  /** When the current window began, and what it has carried so far, for a packet at the given time: a window
      a second old by the wrapping clock gives way to a new one. */
  predicate Expired(s: State, now: nat) {
    (now - s.starts[|s.starts| - 1]) % WRAP >= 1000
  }

  function Carried(s: State, now: nat): nat {
    if Expired(s, now) then 0 else InWindow(s.sent, |s.starts| - 1)
  }

  lemma StepDecided(s: State, e: Event)
    requires e.Send? && s.count == InWindow(s.sent, |s.starts| - 1)
    requires Elapsed(e.now, s.start) >= WINDOW_MS <==> Expired(s, e.now)
    ensures var s', critical := SendStep(s, e), e.msgid in {0, 22, 77, 148};
            && s'.starts == (if Expired(s, e.now) then s.starts + [e.now] else s.starts)
            && s'.sent == (if e.serializes && (critical || (!e.paused && Carried(s, e.now) < s.limit))
                           then s.sent + [Packet(e.now, critical, |s'.starts| - 1)] else s.sent)
            && s'.limit == s.limit
  {
    hide Elapsed, Expired, InWindow;
  }

  lemma ClockAgrees(s: State, now: nat)
    requires s.start == s.starts[|s.starts| - 1] % WRAP
    ensures Elapsed(now, s.start) >= WINDOW_MS <==> Expired(s, now)
  {
    ElapsedIs(now, s.starts[|s.starts| - 1]);
    hide Elapsed;
  }

  /** In every run, as long as the current window has carried fewer than 2^32 packets, the history alone decides
      a packet: it goes out, in the current window or a new one, exactly when it can be serialised and is either
      critical or, with the pool not congested, finds fewer packets in its window than the limit. */
  lemma SendDecided(t: nat, events: seq<Event>, e: Event)
    requires Ordered(t, events + [e]) && e.Send?
    requires var s := Run(t, events); InWindow(s.sent, |s.starts| - 1) < WRAP
    ensures var s, s' := Run(t, events), Run(t, events + [e]);
            var critical := e.msgid in {0, 22, 77, 148};
            && s'.starts == (if Expired(s, e.now) then s.starts + [e.now] else s.starts)
            && s'.sent == (if e.serializes && (critical || (!e.paused && Carried(s, e.now) < s.limit))
                           then s.sent + [Packet(e.now, critical, |s'.starts| - 1)] else s.sent)
            && s'.limit == s.limit
  {
    RunSnoc(t, events, e);
    RunInv(t, events);
    var s := Run(t, events);
    Unwrapped(InWindow(s.sent, |s.starts| - 1));
    ClockAgrees(s, e.now);
    hide InWindow, Telemetry, Run, Elapsed, Expired, Carried, SendStep, Ordered, Placed;
    StepDecided(s, e);
  }

  lemma Unwrapped(n: nat)
    requires n < WRAP
    ensures n % WRAP == n
  {
  }

  /** In particular telemetry is never starved: a serialisable packet goes out, unless the pool is congested,
      whenever its window holds fewer than 30. */
  lemma TelemetryFlows(t: nat, events: seq<Event>, e: Event)
    requires Ordered(t, events + [e]) && e.Send? && e.serializes && !e.paused
    requires var s := Run(t, events); InWindow(s.sent, |s.starts| - 1) < WRAP && Carried(s, e.now) < 30
    ensures |Run(t, events + [e]).sent| == |Run(t, events).sent| + 1
  {
    SendDecided(t, events, e);
    RunSnoc(t, events, e);
    RunInv(t, events);
    hide InWindow, Telemetry, Run, Windows, Placed, Counted, Carried;
  }

  /** The time of the last update that was not dropped for coming less than two seconds, by the wrapping clock,
      after the one before; 0 before the first. */
  function LastUpdate(events: seq<Event>): nat
    decreases |events|
  {
    if events == [] then 0
    else
      var last, e := LastUpdate(events[..|events| - 1]), events[|events| - 1];
      if e.Update? && (e.now - last) % WRAP >= 2000 then e.now else last
  }

  lemma {:induction false} UpdatedIs(t: nat, events: seq<Event>)
    ensures Run(t, events).updated == LastUpdate(events) % WRAP
    decreases |events|
  {
    if events != [] {
      var before, e := events[..|events| - 1], events[|events| - 1];
      UpdatedIs(t, before);
      ElapsedIs(e.now, LastUpdate(before));
      hide Elapsed;
    }
  }

  lemma UpdateDecided(s: State, e: Event, elapsed: nat)
    requires e.Update? && elapsed == Elapsed(e.now, s.updated)
    ensures var s' := UpdateStep(s, e);
            && s'.sent == s.sent && s'.starts == s.starts
            && (if elapsed < 2000 then s'.limit == s.limit
                else if e.throughput < 15000 then s'.limit == 30
                else if e.throughput >= 30000 then s'.limit == 60
                else 500 * s'.limit <= e.throughput < 500 * (s'.limit + 1))
  {
    hide Elapsed;
  }

  /** The limit follows the reported throughput, one packet a second for each 500 of it, between 30 and 60, but
      not more often than every two seconds; nothing else is touched. */
  lemma LimitFollows(t: nat, events: seq<Event>, e: Event)
    requires Ordered(t, events + [e]) && e.Update?
    ensures var s, s' := Run(t, events), Run(t, events + [e]);
            && s'.sent == s.sent && s'.starts == s.starts
            && (if (e.now - LastUpdate(events)) % WRAP < 2000 then s'.limit == s.limit
                else if e.throughput < 15000 then s'.limit == 30
                else if e.throughput >= 30000 then s'.limit == 60
                else 500 * s'.limit <= e.throughput < 500 * (s'.limit + 1))
  {
    RunSnoc(t, events, e);
    UpdatedIs(t, events);
    ElapsedIs(e.now, LastUpdate(events));
    hide Run, Elapsed, UpdateStep, Ordered;
    UpdateDecided(Run(t, events), e, (e.now - LastUpdate(events)) % WRAP);
  }

  // ----- the handler's static variables

  class Limiter {
    var limit: nat
    var count: nat
    var windowStart: nat
    var updated: nat
    ghost var sent: seq<Packet>
    ghost var starts: Starts

    ghost function View(): State
      reads this
    {
      State(limit, count, windowStart, updated, sent, starts)
    }

    /** The static variables after mavlink_handler_init at true time t. */
    constructor (t: nat)
      ensures View() == Init(t)
    {
      limit, count, windowStart, updated, sent, starts := BASE, 0, t % WRAP, 0, [], [t];
    }

    /** send_mavlink_msg; the result is whether the packet went out. */
    method SendMessage(now: nat, msgid: nat, paused: bool, serializes: bool) returns (ok: bool)
      modifies this
      ensures View() == Apply(old(View()), Send(now, msgid, paused, serializes))
      ensures ok <==> sent != old(sent)
    {
      var now32 := now % WRAP;
      if (now32 - windowStart) % WRAP >= WINDOW_MS {
        count := 0;
        windowStart := now32;
        starts := starts + [now];
      }
      var critical := IsCritical(msgid);
      if count >= limit && !critical {
        return false;
      }
      if paused && !critical {
        return false;
      }
      if serializes {
        sent := sent + [Packet(now, critical, |starts| - 1)];
        count := (count + 1) % WRAP;
        return true;
      }
      return false;
    }

    /** update_mavlink_tx_budget. */
    method UpdateLimit(now: nat, throughput: nat)
      modifies this
      ensures View() == Apply(old(View()), Update(now, throughput))
    {
      var now32 := now % WRAP;
      if (now32 - updated) % WRAP < 2000 {
        return;
      }
      updated := now32;
      var budget := throughput / 500;
      if budget < BASE { budget := BASE; }
      if budget > MAX { budget := MAX; }
      limit := budget;
    }
  }
}
