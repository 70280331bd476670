/** A whole session: the sender sends one frame after another, with its 16-bit numbers running on, and
    the viewer parses what the network delivers. */
module RtpStream {
  import opened RtpModel
  import opened RtpProofs
  import opened RtpAnnexB
  import opened RtpHostile
  import opened RtpObjects

  function NextTs(ts: u32): u32 {
    (ts + TS_STEP) % U32
  }

  /** The NAL units of a stream of frames; the timestamp advances with each frame. */
  function StreamJobs(frames: seq<Bytes>, ts: u32): seq<Job>
    decreases |frames|
  {
    if frames == [] then [] else Jobs(frames[0], 0, NextTs(ts)) + StreamJobs(frames[1..], NextTs(ts))
  }

  function TsAfter(frames: seq<Bytes>, ts: u32): u32
    decreases |frames|
  {
    if frames == [] then ts else TsAfter(frames[1..], NextTs(ts))
  }

  /** What is sent for a first frame and the rest. */
  lemma FrameThenRest(s: seq<Bytes>, frames: seq<Bytes>, ts: u32, num: nat, extra: nat, ssrc: u32)
    requires frames != []
    ensures var first := Jobs(frames[0], 0, NextTs(ts));
            var next := NumberAfterAll(first, num, extra);
            && s + Wires(History(StreamJobs(frames, ts), num, extra), ssrc)
               == (s + Wires(History(first, num, extra), ssrc))
                  + Wires(History(StreamJobs(frames[1..], NextTs(ts)), next, extra), ssrc)
            && NumberAfterAll(StreamJobs(frames, ts), num, extra)
               == NumberAfterAll(StreamJobs(frames[1..], NextTs(ts)), next, extra)
  {
    var first, rest := Jobs(frames[0], 0, NextTs(ts)), StreamJobs(frames[1..], NextTs(ts));
    HistoryAppend(first, rest, num, extra);
    var next := NumberAfterAll(first, num, extra);
    RtpSender.WiresAppend(s, History(first, num, extra), History(rest, next, extra), ssrc);
  }

  /** The camera loop: frame after frame.  However often the counter wraps, the datagrams are those of one
      history of all the units, numbered without wrapping. */
  method SendFrames(s: RtpSender, frames: seq<Bytes>, ghost num: nat)
    requires s.open && s.rtpSeq == num % U16
    modifies s`rtpSeq, s`rtpTs, s`sent
    ensures s.sent == old(s.sent) + Wires(History(StreamJobs(frames, old(s.rtpTs)), num, s.extra), s.ssrc)
    ensures s.rtpSeq == NumberAfterAll(StreamJobs(frames, old(s.rtpTs)), num, s.extra) % U16
    ensures s.rtpTs == TsAfter(frames, old(s.rtpTs))
  {
    hide Jobs, Wires, History, NumberAfterAll;
    ghost var goal := s.sent + Wires(History(StreamJobs(frames, s.rtpTs), num, s.extra), s.ssrc);
    ghost var last := NumberAfterAll(StreamJobs(frames, s.rtpTs), num, s.extra);
    ghost var n: nat := num;
    var k := 0;
    while k < |frames|
      invariant 0 <= k <= |frames| && s.rtpSeq == n % U16
      invariant s.sent + Wires(History(StreamJobs(frames[k..], s.rtpTs), n, s.extra), s.ssrc) == goal
      invariant NumberAfterAll(StreamJobs(frames[k..], s.rtpTs), n, s.extra) == last
      invariant TsAfter(frames[k..], s.rtpTs) == TsAfter(frames, old(s.rtpTs))
    {
      FrameThenRest(s.sent, frames[k..], s.rtpTs, n, s.extra, s.ssrc);
      assert frames[k..][1..] == frames[k + 1..];
      s.SendFrame(frames[k], n);
      n := NumberAfterAll(Jobs(frames[k], 0, s.rtpTs), n, s.extra);
      k := k + 1;
    }
    NothingLeft(s.sent, s.rtpTs, n, s.extra, s.ssrc);
  }

  lemma NothingLeft(s: seq<Bytes>, ts: u32, num: nat, extra: nat, ssrc: u32)
    ensures s + Wires(History(StreamJobs([], ts), num, extra), ssrc) == s
    ensures NumberAfterAll(StreamJobs([], ts), num, extra) == num
  {
    RtpSender.WiresEmpty(s, ssrc);
  }

  /** The viewer's loop over the datagrams it receives. */
  method Receive(v: RtpParser, datas: seq<Bytes>) returns (out: seq<Yield>)
    modifies v
    ensures out == Parsed(old(v.State()), datas) && v.State() == ParsedState(old(v.State()), datas)
  {
    out := [];
    var k := 0;
    while k < |datas|
      invariant 0 <= k <= |datas|
      invariant out + Parsed(v.State(), datas[k..]) == Parsed(old(v.State()), datas)
      invariant ParsedState(v.State(), datas[k..]) == ParsedState(old(v.State()), datas)
    {
      assert datas[k..][1..] == datas[k + 1..] && datas[k..][0] == datas[k];
      var o := v.ParseData(datas[k]);
      out := out + Items(o);
      k := k + 1;
    }
  }

  /** The packets that arrive, as places in the history of what was sent. */
  function Arriving(ps: seq<Packet>, order: seq<nat>): seq<Packet>
    requires forall k :: 0 <= k < |order| ==> order[k] < |ps|
  {
    seq(|order|, k requires 0 <= k < |order| => ps[order[k]])
  }

  /** The datagrams that arrive. */
  function Picked(wire: seq<Bytes>, order: seq<nat>): seq<Bytes>
    requires forall k :: 0 <= k < |order| ==> order[k] < |wire|
  {
    seq(|order|, k requires 0 <= k < |order| => wire[order[k]])
  }

  lemma PickedWires(ps: seq<Packet>, order: seq<nat>, ssrc: u32)
    requires forall k :: 0 <= k < |order| ==> order[k] < |ps|
    ensures Picked(Wires(ps, ssrc), order) == Wires(Arriving(ps, order), ssrc)
  {
  }

  /** A network that may lose, repeat and reorder datagrams: whatever the frames, the counter's wraps and the
      network's order, everything the viewer yields is byte for byte a unit that was sent, with its own
      marker, as long as no two neighbouring arrivals are a multiple of 2^16 off from being consecutive. */
  method HostileSession(s: RtpSender, v: RtpParser, frames: seq<Bytes>, order: seq<nat>, ghost num: nat)
    returns (out: seq<Yield>)
    requires s.open && s.rtpSeq == num % U16 && v.State() == Fresh
    requires var ps := History(StreamJobs(frames, s.rtpTs), num, s.extra);
             && (forall k :: 0 <= k < |order| ==> order[k] < |ps| && Honest(ps[order[k]]))
             && (forall k :: 0 <= k < |order| - 1 ==> Near(ps[order[k]].num, ps[order[k + 1]].num))
    modifies s`rtpSeq, s`rtpTs, s`sent, v
    ensures forall y :: y in out ==> Genuine(y, StreamJobs(frames, old(s.rtpTs)), s.extra)
  {
    ghost var jobs := StreamJobs(frames, s.rtpTs);
    ghost var ps := History(jobs, num, s.extra);
    var before := |s.sent|;
    PickedWires(ps, order, s.ssrc);
    HostileRun(jobs, num, s.extra, Arriving(ps, order), s.ssrc);
    SendFrames(s, frames, num);
    assert s.sent[before..] == Wires(ps, s.ssrc);
    hide History, Wires, StreamJobs, Genuine;
    out := Receive(v, Picked(s.sent[before..], order));
  }

  // ----- a faithful network

  function Joined(us: seq<Units>): seq<Bytes> {
    seq(|us|, k requires 0 <= k < |us| => Join(us[k]))
  }

  function YieldsForAll(us: seq<Units>): seq<Yield>
    decreases |us|
  {
    if us == [] then [] else YieldsFor(us[0]) + YieldsForAll(us[1..])
  }

  lemma {:induction false} YieldsAppend(a: seq<Job>, b: seq<Job>)
    ensures Yields(a + b) == Yields(a) + Yields(b)
    decreases |a|
  {
    if a == [] {
      assert a + b == b;
    } else {
      assert (a + b)[1..] == a[1..] + b;
      YieldsAppend(a[1..], b);
    }
  }

  lemma {:induction false} StreamSplits(us: seq<Units>, ts: u32)
    requires forall k :: 0 <= k < |us| ==> CleanUnits(us[k]) && DeliverableUnits(us[k])
    ensures forall j :: j in StreamJobs(Joined(us), ts) ==> Deliverable(j.nal)
    ensures Yields(StreamJobs(Joined(us), ts)) == YieldsForAll(us)
    decreases |us|
  {
    if us != [] {
      var next := NextTs(ts);
      assert Joined(us)[1..] == Joined(us[1..]);
      StreamSplits(us[1..], next);
      SplitJoin(Join(us[0]), 0, us[0], next);
      JobsForDeliverable(us[0], next);
      YieldsAppend(JobsFor(us[0], next), StreamJobs(Joined(us[1..]), next));
    }
  }

  /** On a faithful network and with one number per packet, any number of frames come out as exactly the
      lists of their units, in order, each frame's marker on its last unit. */
  method FaithfulSession(s: RtpSender, v: RtpParser, us: seq<Units>) returns (out: seq<Yield>)
    requires s.open && s.extra == 0
    requires forall k :: 0 <= k < |us| ==> CleanUnits(us[k]) && DeliverableUnits(us[k])
    modifies s`rtpSeq, s`rtpTs, s`sent, v
    ensures out == YieldsForAll(us)
  {
    hide StreamJobs, History, Yields, YieldsForAll, CleanUnits, DeliverableUnits, Wires, Delivered, Deliverable;
    ghost var jobs := StreamJobs(Joined(us), s.rtpTs);
    ghost var num: nat := s.rtpSeq;
    StreamSplits(us, s.rtpTs);
    InOrderRoundTrip(v.State(), jobs, num);
    WiresRoundTrip(v.State(), History(jobs, num, 0), s.ssrc);
    var before := |s.sent|;
    SendFrames(s, Joined(us), num);
    assert s.sent[before..] == Wires(History(jobs, num, 0), s.ssrc);
    out := Receive(v, s.sent[before..]);
  }
}
