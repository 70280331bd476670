/** uORB's operations in the imperative form they have in the source, and their agreement with the
    state machine: a call that nothing interleaves with does to the queues what its method does. */
module UorbObjects {
  import opened Uorb

  /** What a topic holds between calls. */
  datatype TopicView = TopicView(advertised: bool, latest: Data, queues: seq<Option<Data>>)

  function Queues(subs: seq<Sub>): (r: seq<Option<Data>>)
    ensures |r| == |subs| && forall k :: 0 <= k < |subs| ==> r[k] == subs[k].queue
  {
    seq(|subs|, k requires 0 <= k < |subs| => subs[k].queue)
  }

  function ViewOf(s: State): TopicView {
    TopicView(s.advertised, s.latest, Queues(s.subs))
  }

  function Published(v: TopicView, data: Data): TopicView {
    if !v.advertised then v else v.(latest := data, queues := seq(|v.queues|, _ => Some(data)))
  }

  function Subscribed(v: TopicView, ok: bool): TopicView {
    if !v.advertised || |v.queues| >= MAX_SUBSCRIBERS || !ok then v else v.(queues := v.queues + [None])
  }

  function Advertised(v: TopicView, ok: bool): TopicView {
    if v.advertised || !ok then v else TopicView(true, 0, [])
  }

  /** A topic's entry in s_topics with its subscribers' queues. */
  class Topic {
    var advertised: bool
    var latest: Data
    const queues: array<Option<Data>>
    var count: nat

    ghost predicate Valid()
      reads this, queues
    {
      queues.Length == MAX_SUBSCRIBERS && count <= queues.Length
    }

    ghost function View(): TopicView
      requires Valid()
      reads this, queues
    {
      TopicView(advertised, latest, queues[..count])
    }

    constructor ()
      ensures Valid() && fresh(queues) && View() == TopicView(false, 0, [])
    {
      advertised, latest, count := false, 0, 0;
      queues := new Option<Data>[MAX_SUBSCRIBERS](_ => None);
    }

    method Advertise(ok: bool)
      requires Valid()
      modifies this
      ensures Valid() && View() == Advertised(old(View()), ok)
    {
      if advertised || !ok {
        return;
      }
      count, advertised, latest := 0, true, 0;
    }

    method Publish(data: Data) returns (done: bool)
      requires Valid()
      modifies this, queues
      ensures Valid() && View() == Published(old(View()), data) && done == old(advertised)
    {
      if !advertised {
        return false;
      }
      latest := data;
      var i := 0;
      while i < count
        invariant i <= count == old(count) && Valid()
        invariant advertised && latest == data
        invariant forall k :: 0 <= k < i ==> queues[k] == Some(data)
      {
        queues[i] := Some(data);
        i := i + 1;
      }
      return true;
    }

    /** The new subscriber's number, or none. */
    method Subscribe(ok: bool) returns (r: Option<nat>)
      requires Valid()
      modifies this, queues
      ensures Valid() && View() == Subscribed(old(View()), ok)
      ensures r == if View() == old(View()) then None else Some(old(count))
    {
      if !advertised || count >= MAX_SUBSCRIBERS || !ok {
        return None;
      }
      queues[count] := None;
      count := count + 1;
      return Some(count - 1);
    }

    method Copy(k: nat) returns (r: Option<Data>)
      requires Valid() && k < count
      modifies queues
      ensures Valid() && r == old(View()).queues[k]
      ensures View() == old(View()).(queues := old(View()).queues[k := None])
    {
      r := queues[k];
      queues[k] := None;
    }

    method Check(k: nat) returns (waiting: bool)
      requires Valid() && k < count
      ensures waiting <==> View().queues[k] != None
    {
      waiting := queues[k].Some?;
    }
  }

  // ----- calls that run alone

  /** n steps of thread t with nothing in between. */
  function Alone(s: State, t: nat, ok: bool, n: nat): State
    decreases n
  {
    if n == 0 then s else Alone(Apply(s, Proceed(t, ok)), t, ok, n - 1)
  }

  /** From the middle of the pushes on, the remaining queues are filled and the mutex is released. */
  lemma {:induction false} PushAlone(s: State, t: nat, ok: bool)
    requires t < |s.pcs| && s.pcs[t].PubPush? && s.pcs[t].i <= |s.subs| && s.history != []
    requires forall k :: 0 <= k < s.pcs[t].i ==> s.subs[k].queue == Some(s.pcs[t].data)
    ensures var u := Alone(s, t, ok, |s.subs| - s.pcs[t].i + 1);
            && u.pcs == s.pcs[t := Idle] && u.mutex == None && u.globalMutex == s.globalMutex
            && u.latest == s.latest && u.advertised == s.advertised
            && |u.subs| == |s.subs| && forall k :: 0 <= k < |s.subs| ==> u.subs[k].queue == Some(s.pcs[t].data)
    decreases |s.subs| - s.pcs[t].i
  {
    var v := Apply(s, Proceed(t, ok));
    if s.pcs[t].i < |s.subs| {
      PushAlone(v, t, ok);
      assert v.pcs[t := Idle] == s.pcs[t := Idle];
    } else {
      assert Alone(v, t, ok, 0) == v;
    }
  }

  /** An undisturbed orb_publish of the state machine does what the method does. */
  lemma PublishAlone(s: State, t: nat, data: Data, ok: bool)
    requires t < |s.pcs| && s.pcs[t] == Idle && s.mutex == None && s.advertised
    ensures var u := Alone(Apply(s, Publish(t, data)), t, ok, |s.subs| + 3);
            && ViewOf(u) == Published(ViewOf(s), data) && u.pcs == s.pcs
            && u.mutex == None && u.globalMutex == s.globalMutex
  {
    var a := Apply(s, Publish(t, data));
    var b := Apply(a, Proceed(t, ok));
    var c := Apply(b, Proceed(t, ok));
    assert c.pcs[t] == PubPush(data, 0);
    PushAlone(c, t, ok);
    assert c.pcs[t := Idle] == s.pcs;
    assert Alone(b, t, ok, |s.subs| + 2) == Alone(c, t, ok, |s.subs| + 1);
    assert Alone(a, t, ok, |s.subs| + 3) == Alone(b, t, ok, |s.subs| + 2);
    var u := Alone(a, t, ok, |s.subs| + 3);
    assert Queues(u.subs) == Published(ViewOf(s), data).queues;
  }

  /** An undisturbed orb_subscribe likewise. */
  lemma SubscribeAlone(s: State, t: nat, ok: bool)
    requires t < |s.pcs| && s.pcs[t] == Idle && s.mutex == None && s.globalMutex == None
    ensures var refused := !s.advertised || |s.subs| >= MAX_SUBSCRIBERS || !ok;
            var u := Alone(Apply(s, Subscribe(t)), t, ok, if refused then 3 else 6);
            ViewOf(u) == Subscribed(ViewOf(s), ok) && u.pcs == s.pcs && u.mutex == None && u.globalMutex == None
  {
    var a := Apply(s, Subscribe(t));
    var b := Apply(a, Proceed(t, ok));
    var c := Apply(b, Proceed(t, ok));
    var d := Apply(c, Proceed(t, ok));
    assert Alone(c, t, ok, 1) == Alone(d, t, ok, 0) == d;
    assert Alone(a, t, ok, 3) == Alone(b, t, ok, 2) == Alone(c, t, ok, 1);
    if !s.advertised || |s.subs| >= MAX_SUBSCRIBERS || !ok {
      assert d.pcs == s.pcs;
    } else {
      RegisterAlone(s, c, t, ok);
      assert Alone(a, t, ok, 6) == Alone(b, t, ok, 5) == Alone(c, t, ok, 4);
    }
  }

  /** The second half of a subscription that was not refused. */
  lemma RegisterAlone(s: State, c: State, t: nat, ok: bool)
    requires t < |s.pcs| && s.pcs[t] == Idle && s.mutex == None && s.globalMutex == None
    requires c == Goto(s, t, SubWait).(globalMutex := Some(t))
    ensures var u := Alone(c, t, ok, 4);
            && ViewOf(u) == ViewOf(s).(queues := ViewOf(s).queues + [None]) && u.pcs == s.pcs
            && u.mutex == None && u.globalMutex == None
  {
    var d := Apply(c, Proceed(t, ok));
    var e := Apply(d, Proceed(t, ok));
    var f := Apply(e, Proceed(t, ok));
    var g := Apply(f, Proceed(t, ok));
    assert Alone(e, t, ok, 2) == Alone(f, t, ok, 1) == Alone(g, t, ok, 0) == g;
    assert Alone(c, t, ok, 4) == Alone(d, t, ok, 3) == Alone(e, t, ok, 2);
    assert g.pcs == s.pcs;
    assert Queues(g.subs) == Queues(s.subs) + [None];
  }

  /** An undisturbed orb_advertise likewise. */
  lemma AdvertiseAlone(s: State, t: nat, ok: bool)
    requires t < |s.pcs| && s.pcs[t] == Idle && s.globalMutex == None
    ensures var u := Alone(Apply(s, Advertise(t)), t, ok, 3);
            && ViewOf(u) == Advertised(ViewOf(s), ok) && u.pcs == s.pcs
            && u.mutex == s.mutex && u.globalMutex == None && u.history == s.history
  {
    var a := Apply(s, Advertise(t));
    var b := Apply(a, Proceed(t, ok));
    var c := Apply(b, Proceed(t, ok));
    var d := Apply(c, Proceed(t, ok));
    assert Alone(a, t, ok, 3) == Alone(b, t, ok, 2) == Alone(c, t, ok, 1) == Alone(d, t, ok, 0) == d;
    assert d.pcs == s.pcs;
    assert Queues(d.subs) == Advertised(ViewOf(s), ok).queues;
  }

  /** orb_copy is one step: it empties the queue, and records what was in it. */
  lemma CopyAlone(s: State, k: nat)
    requires k < |s.subs|
    ensures var u := Apply(s, CopyOut(k));
            && ViewOf(u) == ViewOf(s).(queues := ViewOf(s).queues[k := None])
            && (s.subs[k].queue.Some? ==> u.subs[k].copied == s.subs[k].copied + [s.subs[k].queue.value])
            && (s.subs[k].queue.None? ==> u == s)
  {
    var u := Apply(s, CopyOut(k));
    assert Queues(u.subs) == Queues(s.subs)[k := None];
  }
}
