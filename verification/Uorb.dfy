/** One uORB topic as an interleaving state machine: every lock operation, every store and every
    queue operation of orb_advertise, orb_publish, orb_subscribe and orb_copy is one atomic step of
    some thread.  Topics share nothing but the global mutex, which guards only advertising and
    subscribing, so one topic shows all the interleavings that matter to it. */
module Uorb {

  datatype Option<+T> = None | Some(value: T)

  /** A message; only its identity matters here. */
  type Data = int

  const MAX_SUBSCRIBERS := 4

  /** A subscriber's depth-1 queue.  The last four fields record its past: how much had been
      published when it registered, the place in the publish history of the queued value, and the
      places and values of everything copied out. */
  datatype Sub = Sub(queue: Option<Data>, joined: nat, place: nat, copiedAt: seq<nat>, copied: seq<Data>)

  datatype Pc =
    | Idle
    | PubWait(data: Data)             // orb_publish: before xSemaphoreTake(meta->mutex)
    | PubStore(data: Data)            // mutex held, before the memcpy
    | PubPush(data: Data, i: nat)     // mutex held, before the i-th xQueueOverwrite
    | SubWaitGlobal                   // orb_subscribe: before taking the global mutex
    | SubCheck                        // global mutex held, before the checks
    | SubWait                         // queue created, before xSemaphoreTake(meta->mutex)
    | SubRegister                     // both held, before the table entry is written
    | SubUnlock                       // both held, entry written
    | SubUnlockGlobal                 // global mutex held
    | AdvWait                         // orb_advertise: before taking the global mutex
    | AdvBody                         // global mutex held

  datatype State = State(
    advertised: bool,
    latest: Data,
    mutex: Option<nat>,
    globalMutex: Option<nat>,
    subs: seq<Sub>,
    pcs: seq<Pc>,
    history: seq<Data>)

  /** A thread takes a step; Publish, Subscribe and Advertise start calls.  `ok` is whether the
      allocations inside a subscription or advertisement succeed.  CopyOut is orb_copy. */
  datatype Action =
    | Publish(t: nat, data: Data)
    | Subscribe(t: nat)
    | Advertise(t: nat)
    | Proceed(t: nat, ok: bool)
    | CopyOut(k: nat)

  function Init(threads: nat): State {
    State(false, 0, None, None, [], seq(threads, _ => Idle), [])
  }

  function Goto(s: State, t: nat, pc: Pc): State
    requires t < |s.pcs|
  {
    s.(pcs := s.pcs[t := pc])
  }

  function Overwrite(s: State, k: nat, data: Data): State
    requires k < |s.subs| && s.history != []
  {
    s.(subs := s.subs[k := s.subs[k].(queue := Some(data), place := |s.history| - 1)])
  }

  /** One step of a call in progress; a thread that waits for a held mutex does not move. */
  function ProceedStep(s: State, t: nat, ok: bool): State
    requires t < |s.pcs|
  {
    match s.pcs[t]
    case Idle => s
    case PubWait(data) =>
      if s.mutex == None then Goto(s, t, PubStore(data)).(mutex := Some(t)) else s
    case PubStore(data) =>
      Goto(s, t, PubPush(data, 0)).(latest := data, history := s.history + [data])
    case PubPush(data, i) =>
      if i < |s.subs| && s.history != []
      then Goto(Overwrite(s, i, data), t, PubPush(data, i + 1))
      else Goto(s, t, Idle).(mutex := None)
    case SubWaitGlobal =>
      if s.globalMutex == None then Goto(s, t, SubCheck).(globalMutex := Some(t)) else s
    case SubCheck =>
      if !s.advertised || |s.subs| >= MAX_SUBSCRIBERS || !ok
      then Goto(s, t, SubUnlockGlobal)
      else Goto(s, t, SubWait)
    case SubWait =>
      if s.mutex == None then Goto(s, t, SubRegister).(mutex := Some(t)) else s
    case SubRegister =>
      Goto(s, t, SubUnlock).(subs := s.subs + [Sub(None, |s.history|, 0, [], [])])
    case SubUnlock => Goto(s, t, SubUnlockGlobal).(mutex := None)
    case SubUnlockGlobal => Goto(s, t, Idle).(globalMutex := None)
    case AdvWait =>
      if s.globalMutex == None then Goto(s, t, AdvBody).(globalMutex := Some(t)) else s
    case AdvBody =>
      var done := Goto(s, t, SubUnlockGlobal);
      if s.advertised || !ok then done else done.(advertised := true, latest := 0, subs := [])
  }

  /** A subscriber that takes the value in its queue. */
  function Taken(b: Sub): Sub
    requires b.queue.Some?
  {
    b.(queue := None, copiedAt := b.copiedAt + [b.place], copied := b.copied + [b.queue.value])
  }

  function CopyStep(s: State, k: nat): State
    requires k < |s.subs|
  {
    var b := s.subs[k];
    if b.queue == None then s
    else s.(subs := s.subs[k := Taken(b)])
  }

  function Apply(s: State, a: Action): State {
    match a
    case Publish(t, data) =>
      if t < |s.pcs| && s.pcs[t] == Idle && s.advertised then Goto(s, t, PubWait(data)) else s
    case Subscribe(t) => if t < |s.pcs| && s.pcs[t] == Idle then Goto(s, t, SubWaitGlobal) else s
    case Advertise(t) => if t < |s.pcs| && s.pcs[t] == Idle then Goto(s, t, AdvWait) else s
    case Proceed(t, ok) => if t < |s.pcs| then ProceedStep(s, t, ok) else s
    case CopyOut(k) => if k < |s.subs| then CopyStep(s, k) else s
  }

  function Run(s: State, actions: seq<Action>): State
    decreases |actions|
  {
    if actions == [] then s else Apply(Run(s, actions[..|actions| - 1]), actions[|actions| - 1])
  }

  // ----- the invariant

  predicate HoldsMutex(pc: Pc) {
    pc.PubStore? || pc.PubPush? || pc.SubRegister? || pc.SubUnlock?
  }

  predicate HoldsGlobal(pc: Pc) {
    pc.SubCheck? || pc.SubWait? || pc.SubRegister? || pc.SubUnlock? || pc.SubUnlockGlobal? || pc.AdvBody?
  }

  predicate MutexOk(s: State) {
    && (forall t :: 0 <= t < |s.pcs| ==> (HoldsMutex(s.pcs[t]) <==> s.mutex == Some(t)))
    && (s.mutex.Some? ==> s.mutex.value < |s.pcs|)
  }

  predicate GlobalOk(s: State) {
    && (forall t :: 0 <= t < |s.pcs| ==> (HoldsGlobal(s.pcs[t]) <==> s.globalMutex == Some(t)))
    && (s.globalMutex.Some? ==> s.globalMutex.value < |s.pcs|)
  }

  predicate Locks(s: State) {
    MutexOk(s) && GlobalOk(s)
  }

  /** The publication in progress, if the mutex holder is one that has stored its data. */
  function Pushing(s: State): Option<Pc> {
    if s.mutex.Some? && s.mutex.value < |s.pcs| && s.pcs[s.mutex.value].PubPush?
    then Some(s.pcs[s.mutex.value]) else None
  }

  /** How much of the history has been offered to subscriber k. */
  function Offered(s: State, k: nat): nat {
    var p := Pushing(s);
    if p.Some? && p.value.PubPush? && p.value.i <= k && s.history != [] then |s.history| - 1 else |s.history|
  }

  /** The values copied are history entries at strictly increasing places, none from before the
      subscription; the queue holds a later one; and the newest offered value is in one of them. */
  predicate SubOk(b: Sub, history: seq<Data>, offered: nat) {
    && b.joined <= offered <= |history|
    && |b.copied| == |b.copiedAt|
    && (forall i :: 0 <= i < |b.copiedAt| ==>
      b.joined <= b.copiedAt[i] < offered && b.copied[i] == history[b.copiedAt[i]])
    && (forall i, j :: 0 <= i < j < |b.copiedAt| ==> b.copiedAt[i] < b.copiedAt[j])
    && (b.queue.Some? ==> b.joined < offered && b.place == offered - 1 && b.queue.value == history[b.place])
    && (b.queue.Some? ==> forall i :: 0 <= i < |b.copiedAt| ==> b.copiedAt[i] < b.place)
    && (b.queue.None? && b.joined < offered ==> b.copiedAt != [] && b.copiedAt[|b.copiedAt| - 1] == offered - 1)
  }

  /** What the program counters and the topic's fields say about each other. */
  predicate Progress(s: State) {
    && (forall t :: 0 <= t < |s.pcs| && s.pcs[t].PubPush? ==>
      s.history != [] && s.pcs[t].data == s.history[|s.history| - 1] && s.pcs[t].i <= |s.subs|)
    && (forall t :: 0 <= t < |s.pcs| && (s.pcs[t].SubWait? || s.pcs[t].SubRegister?) ==> |s.subs| < MAX_SUBSCRIBERS)
    && (forall t :: 0 <= t < |s.pcs| && NeedsTopic(s.pcs[t]) ==> s.advertised)
    && |s.subs| <= MAX_SUBSCRIBERS
    && (!s.advertised ==> s.subs == [] && s.history == [])
    && (s.history != [] ==> s.latest == s.history[|s.history| - 1])
  }

  predicate NeedsTopic(pc: Pc) {
    pc.PubWait? || pc.SubWait? || HoldsMutex(pc)
  }

  predicate SubsOk(s: State) {
    forall k :: 0 <= k < |s.subs| ==> SubOk(s.subs[k], s.history, Offered(s, k))
  }

  predicate Inv(s: State) {
    Locks(s) && Progress(s) && SubsOk(s)
  }

  // ----- one subscriber

  /** Copying out keeps a subscriber's record in order. */
  lemma CopyKeeps(b: Sub, history: seq<Data>, offered: nat)
    requires SubOk(b, history, offered) && b.queue.Some?
    ensures SubOk(Taken(b), history, offered)
  {
  }

  /** A longer history, not yet offered, changes nothing for a subscriber. */
  lemma StoreKeeps(b: Sub, history: seq<Data>, data: Data)
    requires SubOk(b, history, |history|)
    ensures SubOk(b, history + [data], |history|)
  {
  }

  /** Overwriting the queue offers the newest value. */
  lemma OverwriteKeeps(b: Sub, history: seq<Data>)
    requires history != [] && SubOk(b, history, |history| - 1)
    ensures SubOk(b.(queue := Some(history[|history| - 1]), place := |history| - 1), history, |history|)
  {
  }

  // ----- each part of the invariant is kept by each step of a call

  lemma MutexKept(s: State, t: nat, ok: bool)
    requires MutexOk(s) && t < |s.pcs|
    ensures MutexOk(ProceedStep(s, t, ok))
  {
    var u := ProceedStep(s, t, ok);
    forall i | 0 <= i < |s.pcs|
      ensures HoldsMutex(u.pcs[i]) <==> u.mutex == Some(i)
    {
      assert i != t ==> u.pcs[i] == s.pcs[i];
    }
  }

  lemma GlobalKept(s: State, t: nat, ok: bool)
    requires GlobalOk(s) && t < |s.pcs|
    ensures GlobalOk(ProceedStep(s, t, ok))
  {
    var u := ProceedStep(s, t, ok);
    forall i | 0 <= i < |s.pcs|
      ensures HoldsGlobal(u.pcs[i]) <==> u.globalMutex == Some(i)
    {
      assert i != t ==> u.pcs[i] == s.pcs[i];
    }
  }

  lemma ProgressKept(s: State, t: nat, ok: bool)
    requires Locks(s) && Progress(s) && t < |s.pcs|
    ensures Progress(ProceedStep(s, t, ok))
  {
    var u := ProceedStep(s, t, ok);
    match s.pcs[t] {
      case PubPush(data, i) =>
        assert s.mutex == Some(t);
      case SubRegister =>
        assert s.mutex == Some(t) && s.globalMutex == Some(t);
      case PubStore(data) =>
        assert s.mutex == Some(t);
      case AdvBody =>
        assert s.globalMutex == Some(t);
      case _ =>
    }
  }

  /** A step that leaves subscribers, history and the running publication alone. */
  lemma SameSubs(s: State, u: State)
    requires SubsOk(s) && u.subs == s.subs && u.history == s.history && Pushing(u) == Pushing(s)
    ensures SubsOk(u)
  {
    forall k | 0 <= k < |u.subs|
      ensures SubOk(u.subs[k], u.history, Offered(u, k))
    {
      assert Offered(u, k) == Offered(s, k);
    }
  }

  lemma StoreSubs(s: State, t: nat)
    requires Inv(s) && t < |s.pcs| && s.pcs[t].PubStore?
    ensures SubsOk(ProceedStep(s, t, true))
  {
    hide SubOk;
    var u := ProceedStep(s, t, true);
    assert s.mutex == Some(t);
    forall k | 0 <= k < |s.subs|
      ensures SubOk(u.subs[k], u.history, Offered(u, k))
    {
      StoreKeeps(s.subs[k], s.history, s.pcs[t].data);
    }
  }

  lemma PushSubs(s: State, t: nat)
    requires Inv(s) && t < |s.pcs| && s.pcs[t].PubPush?
    ensures SubsOk(ProceedStep(s, t, true))
  {
    hide SubOk;
    var u := ProceedStep(s, t, true);
    assert s.mutex == Some(t);
    var i := s.pcs[t].i;
    if i < |s.subs| {
      OverwriteKeeps(s.subs[i], s.history);
    }
    forall k | 0 <= k < |s.subs|
      ensures SubOk(u.subs[k], u.history, Offered(u, k))
    {
      assert k != i ==> Offered(u, k) == Offered(s, k) && u.subs[k] == s.subs[k];
    }
  }

  lemma RegisterSubs(s: State, t: nat)
    requires Inv(s) && t < |s.pcs| && s.pcs[t].SubRegister?
    ensures SubsOk(ProceedStep(s, t, true))
  {
    var u := ProceedStep(s, t, true);
    assert s.mutex == Some(t);
    forall k | 0 <= k < |u.subs|
      ensures SubOk(u.subs[k], u.history, Offered(u, k))
    {
      assert Offered(u, k) == |u.history|;
      if k < |s.subs| {
        assert Offered(s, k) == |s.history|;
      }
    }
  }

  lemma AdvertiseSubs(s: State, t: nat, ok: bool)
    requires Inv(s) && t < |s.pcs| && s.pcs[t].AdvBody?
    ensures SubsOk(ProceedStep(s, t, ok))
  {
    hide SubOk;
    var u := ProceedStep(s, t, ok);
    if !s.advertised {
      assert u.subs == [];
    } else {
      SameSubs(s, u);
    }
  }

  lemma QuietSubs(s: State, t: nat, ok: bool)
    requires MutexOk(s) && SubsOk(s) && t < |s.pcs|
    requires !HoldsMutex(s.pcs[t]) || s.pcs[t].SubUnlock?
    requires !s.pcs[t].AdvBody?
    ensures SubsOk(ProceedStep(s, t, ok))
  {
    hide SubsOk;
    var u := ProceedStep(s, t, ok);
    assert s.mutex != Some(t) ==> !HoldsMutex(s.pcs[t]);
    assert Pushing(u) == Pushing(s);
    SameSubs(s, u);
  }

  lemma ProceedInv(s: State, t: nat, ok: bool)
    requires Inv(s) && t < |s.pcs|
    ensures Inv(ProceedStep(s, t, ok))
  {
    hide SubOk, Progress, SubsOk, MutexOk, GlobalOk;
    MutexKept(s, t, ok);
    GlobalKept(s, t, ok);
    ProgressKept(s, t, ok);
    match s.pcs[t] {
      case PubStore(data) => StoreSubs(s, t);
      case PubPush(data, i) => PushSubs(s, t);
      case SubRegister => RegisterSubs(s, t);
      case AdvBody => AdvertiseSubs(s, t, ok);
      case _ => QuietSubs(s, t, ok);
    }
  }

  lemma CopyInv(s: State, k: nat)
    requires Inv(s) && k < |s.subs|
    ensures Inv(CopyStep(s, k))
  {
    hide SubOk;
    if s.subs[k].queue.Some? {
      CopyKeeps(s.subs[k], s.history, Offered(s, k));
      var u := CopyStep(s, k);
      assert forall j :: 0 <= j < |s.subs| ==> Offered(u, j) == Offered(s, j);
    }
  }

  /** Starting a call moves one idle thread. */
  lemma StartInv(s: State, t: nat, pc: Pc)
    requires Inv(s) && t < |s.pcs| && s.pcs[t] == Idle
    requires !HoldsMutex(pc) && !HoldsGlobal(pc) && (NeedsTopic(pc) ==> s.advertised)
    ensures Inv(Goto(s, t, pc))
  {
    hide SubOk;
    SameSubs(s, Goto(s, t, pc));
  }

  lemma ApplyInv(s: State, a: Action)
    requires Inv(s)
    ensures Inv(Apply(s, a))
  {
    hide Inv;
    match a {
      case Publish(t, data) =>
        if t < |s.pcs| && s.pcs[t] == Idle && s.advertised { StartInv(s, t, PubWait(data)); }
      case Subscribe(t) =>
        if t < |s.pcs| && s.pcs[t] == Idle { StartInv(s, t, SubWaitGlobal); }
      case Advertise(t) =>
        if t < |s.pcs| && s.pcs[t] == Idle { StartInv(s, t, AdvWait); }
      case Proceed(t, ok) =>
        if t < |s.pcs| { ProceedInv(s, t, ok); }
      case CopyOut(k) =>
        if k < |s.subs| { CopyInv(s, k); }
    }
  }

  // ----- every run

  lemma {:induction false} RunInv(threads: nat, actions: seq<Action>)
    ensures Inv(Run(Init(threads), actions))
    decreases |actions|
  {
    if actions != [] {
      RunInv(threads, actions[..|actions| - 1]);
      ApplyInv(Run(Init(threads), actions[..|actions| - 1]), actions[|actions| - 1]);
    }
  }

  predicate Increasing(places: seq<nat>) {
    forall i, j :: 0 <= i < j < |places| ==> places[i] < places[j]
  }

  /** Whatever the interleaving of publishers, subscribers and late subscriptions, the values a
      subscriber has copied are values published since it registered, in order and without
      repetition. */
  lemma CopiesInOrder(threads: nat, actions: seq<Action>, k: nat)
    requires k < |Run(Init(threads), actions).subs|
    ensures var s := Run(Init(threads), actions);
            var b := s.subs[k];
            && |b.copied| == |b.copiedAt| && Increasing(b.copiedAt)
            && forall i :: 0 <= i < |b.copiedAt| ==> (
                 b.joined <= b.copiedAt[i] < |s.history| && b.copied[i] == s.history[b.copiedAt[i]])
  {
    RunInv(threads, actions);
    var s := Run(Init(threads), actions);
    assert SubOk(s.subs[k], s.history, Offered(s, k));
  }

  predicate Current(b: Sub, history: seq<Data>, latest: Data) {
    && (b.queue.Some? ==> b.queue.value == latest && b.place == |history| - 1)
    && (b.queue.None? && b.joined < |history| ==>
      && |b.copied| == |b.copiedAt| > 0
      && b.copied[|b.copied| - 1] == latest
      && b.copiedAt[|b.copied| - 1] == |history| - 1)
  }

  lemma OfferedIsCurrent(b: Sub, history: seq<Data>, latest: Data)
    requires SubOk(b, history, |history|) && (history != [] ==> latest == history[|history| - 1])
    ensures Current(b, history, latest)
  {
  }

  /** Whenever no thread holds the topic's mutex, a non-empty queue holds latest_data, and a
      subscriber with an empty queue has already copied the newest value if there has been one
      since it registered: the newest value is never lost. */
  lemma QuiescentQueues(threads: nat, actions: seq<Action>, k: nat)
    requires var s := Run(Init(threads), actions); k < |s.subs| && s.mutex == None
    ensures var s := Run(Init(threads), actions);
            Current(s.subs[k], s.history, s.latest)
  {
    RunInv(threads, actions);
    var s := Run(Init(threads), actions);
    hide SubOk, Current;
    assert SubOk(s.subs[k], s.history, Offered(s, k));
    OfferedIsCurrent(s.subs[k], s.history, s.latest);
  }

  /** At most one thread is inside a publication or a registration at any time, and the subscriber
      table never grows past its bound. */
  lemma MutualExclusion(threads: nat, actions: seq<Action>, t: nat, u: nat)
    requires var s := Run(Init(threads), actions);
             t < u < |s.pcs| && HoldsMutex(s.pcs[t])
    ensures var s := Run(Init(threads), actions);
            !HoldsMutex(s.pcs[u]) && |s.subs| <= MAX_SUBSCRIBERS
  {
    RunInv(threads, actions);
  }
}
