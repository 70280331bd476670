/** What the viewer gets from the sender: everything, in order, on a faithful network with one
    number per packet; and nothing but whole NALs on any network. */
module RtpProofs {
  import opened RtpModel

  // ----- the header round trip

  /** The viewer reads back number, marker and payload of every packet the sender writes. */
  lemma WireRoundTrip(st: ParserState, p: Packet, ssrc: u32)
    ensures Parse(st, Wire(p, ssrc)) == Receive(Continue(st, p.num % U16), Payload(p), WireMarker(p))
  {
    var w, s := Wire(p, ssrc), p.num % U16;
    assert w[HEADER_SIZE..] == Payload(p);
    assert w[0] % 16 == 0;
    assert SeqOf(w) == (s / 256) * 256 + s % 256;
  }

  /** No packet exceeds 1212 bytes: the header and 1200 of payload. */
  lemma WireSize(p: Packet, ssrc: u32)
    ensures 12 < |Wire(p, ssrc)| <= 1212
  {
  }

  /** A packet of bytes is a string of bytes on the wire: no field overflows. */
  lemma WireBytes(p: Packet, ssrc: u32)
    requires ByteString(p.nal)
    ensures ByteString(Wire(p, ssrc))
  {
    HeaderBytes(p.num % U16, p.ts, ssrc, WireMarker(p));
    PayloadBytes(p);
    var h, b := Header(p.num % U16, p.ts, ssrc, WireMarker(p)), Payload(p);
    hide Header, Payload, WireMarker;
    forall i | 0 <= i < |h + b|
      ensures 0 <= (h + b)[i] < 256
    {
      assert (h + b)[i] == if i < |h| then h[i] else b[i - |h|];
    }
  }

  lemma HeaderBytes(seqNo: u16, ts: u32, ssrc: u32, marker: bool)
    ensures ByteString(Header(seqNo, ts, ssrc, marker))
  {
  }

  lemma PayloadBytes(p: Packet)
    requires ByteString(p.nal)
    ensures ByteString(Payload(p))
  {
    assert 0 <= p.nal[0] < 256;
  }

  /** One delivered packet. */
  function Deliver(st: ParserState, p: Packet): (ParserState, Option<Yield>)
  {
    Receive(Continue(st, p.num % U16), Payload(p), WireMarker(p))
  }

  function StateAfter(st: ParserState, ps: seq<Packet>): ParserState
    decreases |ps|
  {
    if ps == [] then st else StateAfter(Deliver(st, ps[0]).0, ps[1..])
  }

  function Delivered(st: ParserState, ps: seq<Packet>): seq<Yield>
    decreases |ps|
  {
    if ps == [] then [] else Items(Deliver(st, ps[0]).1) + Delivered(Deliver(st, ps[0]).0, ps[1..])
  }

  lemma {:induction false} WiresRoundTrip(st: ParserState, ps: seq<Packet>, ssrc: u32)
    ensures Parsed(st, Wires(ps, ssrc)) == Delivered(st, ps)
    ensures ParsedState(st, Wires(ps, ssrc)) == StateAfter(st, ps)
    decreases |ps|
  {
    if ps != [] {
      WireRoundTrip(st, ps[0], ssrc);
      assert Wires(ps, ssrc)[1..] == Wires(ps[1..], ssrc);
      WiresRoundTrip(Deliver(st, ps[0]).0, ps[1..], ssrc);
    }
  }

  lemma {:induction false} DeliverAppend(st: ParserState, a: seq<Packet>, b: seq<Packet>)
    ensures Delivered(st, a + b) == Delivered(st, a) + Delivered(StateAfter(st, a), b)
    ensures StateAfter(st, a + b) == StateAfter(StateAfter(st, a), b)
    decreases |a|
  {
    if a == [] {
      assert a + b == b;
    } else {
      assert (a + b)[1..] == a[1..] + b;
      DeliverAppend(Deliver(st, a[0]).0, a[1..], b);
    }
  }

  // ----- in-order delivery with one number per packet

  predicate Deliverable(nal: Bytes) {
    |nal| > 0 && (|nal| <= PKT_MAX ==> 1 <= NalType(nal[0]) <= 23)
  }

  /** Mid-NAL, the viewer holds exactly the bytes already sent. */
  predicate Holding(st: ParserState, j: Job, off: nat, num: nat)
    requires off <= |j.nal|
  {
    st.fuaBuf == j.nal[..off] && off > 0 && st.lastSeq == (num - 1) % U16
  }

  /** One fragment that continues what the viewer holds. */
  lemma FragmentExtends(st: ParserState, j: Job, off: nat, num: nat)
    requires |j.nal| > PKT_MAX && 1 < off < |j.nal| && num > 0 && Holding(st, j, off, num)
    ensures var p := Fu(num, j.nal, off, j.marker, j.ts);
            var (st1, o) := Deliver(st, p);
            if End(j.nal, off) == |j.nal| then o == Some(Yield(j.nal, j.marker))
            else o == None && Holding(st1, j, End(j.nal, off), num + 1)
  {
    var p := Fu(num, j.nal, off, j.marker, j.ts);
    assert ((num - 1) % U16 + 1) % U16 == num % U16;
    assert j.nal[..off] + Payload(p)[2..] == j.nal[..End(j.nal, off)];
    assert j.nal[..|j.nal|] == j.nal;
  }

  /** The first fragment restarts reassembly, whatever was held before. */
  lemma FirstFragment(st: ParserState, num: nat, nal: Bytes, marker: bool, ts: u32)
    requires |nal| > PKT_MAX
    ensures var (st1, o) := Deliver(st, Fu(num, nal, 1, marker, ts));
            o == None && st1.fuaBuf == nal[..End(nal, 1)] && st1.lastSeq == num % U16
  {
    var p := Fu(num, nal, 1, marker, ts);
    assert [nal[0]] + Payload(p)[2..] == nal[..End(nal, 1)];
  }

  lemma {:induction false} FragmentsDeliver(st: ParserState, j: Job, off: nat, num: nat)
    requires |j.nal| > PKT_MAX && 1 < off < |j.nal| && num > 0 && Holding(st, j, off, num)
    ensures Delivered(st, FuPackets(j, off, num, 0)) == [Yield(j.nal, j.marker)]
    decreases |j.nal| - off
  {
    FragmentExtends(st, j, off, num);
    var p := Fu(num, j.nal, off, j.marker, j.ts);
    var rest := FuPackets(j, End(j.nal, off), num + 1, 0);
    assert FuPackets(j, off, num, 0) == [p] + rest;
    assert ([p] + rest)[1..] == rest;
    if End(j.nal, off) < |j.nal| {
      FragmentsDeliver(Deliver(st, p).0, j, End(j.nal, off), num + 1);
    }
  }

  /** From any parser state, one job in order comes out as exactly its NAL. */
  lemma JobDelivers(st: ParserState, j: Job, num: nat)
    requires Deliverable(j.nal)
    ensures Delivered(st, PacketsOf(j, num, 0)) == [Yield(j.nal, j.marker)]
  {
    if |j.nal| > PKT_MAX {
      FirstFragment(st, num, j.nal, j.marker, j.ts);
      var p := Fu(num, j.nal, 1, j.marker, j.ts);
      var rest := FuPackets(j, End(j.nal, 1), num + 1, 0);
      assert FuPackets(j, 1, num, 0) == [p] + rest;
      assert ([p] + rest)[1..] == rest;
      FragmentsDeliver(Deliver(st, p).0, j, End(j.nal, 1), num + 1);
    } else {
      assert Delivered(st, [Single(num, j.nal, j.marker, j.ts)]) == [Yield(j.nal, j.marker)];
    }
  }

  function Yields(jobs: seq<Job>): seq<Yield> {
    if jobs == [] then [] else [Yield(jobs[0].nal, jobs[0].marker)] + Yields(jobs[1..])
  }

  /** On a lossless in-order network, with one number per packet, the viewer yields exactly the
      NALs that were sent, in order, from any parser state and any starting number. */
  lemma {:induction false} InOrderRoundTrip(st: ParserState, jobs: seq<Job>, num: nat)
    requires forall j :: j in jobs ==> Deliverable(j.nal)
    ensures Delivered(st, History(jobs, num, 0)) == Yields(jobs)
    decreases |jobs|
  {
    if jobs != [] {
      var a := PacketsOf(jobs[0], num, 0);
      var next := NumberAfter(jobs[0], num, 0);
      JobDelivers(st, jobs[0], num);
      DeliverAppend(st, a, History(jobs[1..], next, 0));
      InOrderRoundTrip(StateAfter(st, a), jobs[1..], next);
    }
  }
}
