/** The two ends as objects: the camera's sender with its running sequence number and timestamp,
    and the viewer's parser with its reassembly buffer. */
module RtpObjects {
  import opened RtpModel

  /** The sender.  `extra` is how many sequence numbers each fragment wastes before its own: the
      code as written serialises a throw-away header first, so there it is 1. */
  class RtpSender {
    const extra: nat
    const ssrc: u32
    var rtpSeq: u16
    var rtpTs: u32
    var open: bool
    /** The datagrams handed to the network so far. */
    var sent: seq<Bytes>

    constructor (extra: nat, ssrc: u32, rtpSeq: u16, rtpTs: u32, open: bool)
      ensures this.extra == extra && this.ssrc == ssrc && this.rtpSeq == rtpSeq && this.rtpTs == rtpTs
      ensures this.open == open && sent == []
    {
      this.extra, this.ssrc, this.rtpSeq, this.rtpTs, this.open := extra, ssrc, rtpSeq, rtpTs, open;
      sent := [];
    }

    /** The value of rtp_seq++, as a 16-bit counter. */
    method TakeNumber() returns (n: u16)
      modifies this`rtpSeq
      ensures n == old(rtpSeq) && rtpSeq == (old(rtpSeq) + 1) % U16
    {
      n := rtpSeq;
      rtpSeq := (rtpSeq + 1) % U16;
    }

    /** Scans for the next start code after a NAL's first byte. */
    static method FindNext(buf: Bytes, start: nat) returns (next: nat)
      requires start <= |buf|
      ensures next == NextCode(buf, start)
    {
      next := start;
      while next + 3 < |buf|
        invariant start <= next <= |buf|
        invariant NextCode(buf, start) == NextCode(buf, next)
      {
        if buf[next] == 0 && buf[next + 1] == 0
           && (buf[next + 2] == 1 || (buf[next + 2] == 0 && buf[next + 3] == 1)) {
          break;
        }
        next := next + 1;
      }
      if next + 3 >= |buf| {
        next := |buf|;
      }
    }

    /** A NAL that fits one packet. */
    method SendSingle(j: Job, ghost num: nat)
      requires open && |j.nal| <= PKT_MAX && rtpSeq == num % U16
      modifies this`rtpSeq, this`sent
      ensures sent == old(sent) + Wires(PacketsOf(j, num, extra), ssrc)
      ensures rtpSeq == NumberAfter(j, num, extra) % U16
    {
      var n := TakeNumber();
      sent := sent + [Header(n, j.ts, ssrc, j.marker) + j.nal];
      assert Wires(PacketsOf(j, num, extra), ssrc) == [Wire(Single(num, j.nal, j.marker, j.ts), ssrc)];
    }

    /** Wastes `extra` numbers, then sends the fragment at off under the next one. */
    method SendFragment(j: Job, off: nat, ghost num: nat) returns (chunk: nat)
      requires |j.nal| > PKT_MAX && 1 <= off < |j.nal| && rtpSeq == num % U16
      modifies this`rtpSeq, this`sent
      ensures off + chunk == End(j.nal, off)
      ensures sent == old(sent) + [Wire(Fu(num + extra, j.nal, off, j.marker, j.ts), ssrc)]
      ensures rtpSeq == (num + extra + 1) % U16
    {
      var payloadLen := |j.nal| - off;
      chunk := if payloadLen > PKT_MAX - 2 then PKT_MAX - 2 else payloadLen;
      var first, last := off == 1, chunk == payloadLen;
      var fuIndicator := Nri(j.nal[0]) + 28;
      var fuHeader := (if first then 0x80 else 0) + (if last then 0x40 else 0) + NalType(j.nal[0]);
      for i := 0 to extra
        invariant rtpSeq == (num + i) % U16 && sent == old(sent)
      {
        var _ := TakeNumber();
      }
      var n := TakeNumber();
      sent := sent + [Header(n, j.ts, ssrc, last && j.marker) + ([fuIndicator, fuHeader] + j.nal[off..off + chunk])];
    }

    /** FU-A fragmentation of a NAL that does not fit. */
    method SendFragments(j: Job, ghost num: nat)
      requires |j.nal| > PKT_MAX && rtpSeq == num % U16
      modifies this`rtpSeq, this`sent
      ensures sent == old(sent) + Wires(PacketsOf(j, num, extra), ssrc)
      ensures rtpSeq == NumberAfter(j, num, extra) % U16
    {
      var off := 1;
      ghost var at: nat := num;
      WiresEmpty(sent, ssrc);
      while off < |j.nal|
        invariant 1 <= off <= |j.nal| && rtpSeq == at % U16
        invariant off == 1 ==> at == num
        invariant sent + Wires(FuPackets(j, off, at, extra), ssrc)
               == old(sent) + Wires(FuPackets(j, 1, num, extra), ssrc)
        invariant FuNumbers(j, off, at, extra) == FuNumbers(j, 1, num, extra)
      {
        ghost var before := sent;
        var chunk := SendFragment(j, off, at);
        WiresCons(before, Fu(at + extra, j.nal, off, j.marker, j.ts),
                  FuPackets(j, End(j.nal, off), at + extra + 1, extra), ssrc);
        off := off + chunk;
        at := at + extra + 1;
      }
      WiresEmpty(sent, ssrc);
    }

    static lemma WiresEmpty(s: seq<Bytes>, ssrc: u32)
      ensures s + Wires([], ssrc) == s
    {
    }

    static lemma WiresCons(s: seq<Bytes>, p: Packet, rest: seq<Packet>, ssrc: u32)
      ensures s + Wires([p] + rest, ssrc) == (s + [Wire(p, ssrc)]) + Wires(rest, ssrc)
    {
    }

    static lemma WiresAppend(s: seq<Bytes>, a: seq<Packet>, b: seq<Packet>, ssrc: u32)
      ensures s + Wires(a + b, ssrc) == (s + Wires(a, ssrc)) + Wires(b, ssrc)
    {
    }

    /** The scan of the frame loop: skips to the next non-empty NAL unit. */
    static method NextUnit(buf: Bytes, from: nat) returns (f: Found)
      requires from <= |buf|
      ensures f == Find(buf, from)
    {
      var p := from;
      while p < |buf|
        invariant from <= p <= |buf| && Find(buf, from) == Find(buf, p)
        decreases |buf| - p
      {
        var len := StartLen(buf, p);
        if len == 0 {
          p := p + 1;
          continue;
        }
        var next := FindNext(buf, p + len);
        if next == p + len {
          p := next;
          continue;
        }
        return Found(p + len, next);
      }
      f := NotFound;
    }

    method SendJob(j: Job, ghost num: nat)
      requires open && rtpSeq == num % U16
      modifies this`rtpSeq, this`sent
      ensures sent == old(sent) + Wires(PacketsOf(j, num, extra), ssrc)
      ensures rtpSeq == NumberAfter(j, num, extra) % U16
    {
      if |j.nal| <= PKT_MAX {
        SendSingle(j, num);
      } else {
        SendFragments(j, num);
      }
    }

    static lemma HistoryStep(s: seq<Bytes>, j: Job, rest: seq<Job>, num: nat, extra: nat, ssrc: u32)
      ensures var next := NumberAfter(j, num, extra);
              s + Wires(History([j] + rest, num, extra), ssrc)
              == (s + Wires(PacketsOf(j, num, extra), ssrc)) + Wires(History(rest, next, extra), ssrc)
      ensures NumberAfterAll([j] + rest, num, extra) == NumberAfterAll(rest, NumberAfter(j, num, extra), extra)
    {
      assert ([j] + rest)[1..] == rest;
      WiresAppend(s, PacketsOf(j, num, extra), History(rest, NumberAfter(j, num, extra), extra), ssrc);
    }

    /** Sends every NAL unit of the buffer from p on. */
    method SendUnits(buf: Bytes, ts: u32, ghost start: nat)
      requires open && rtpSeq == start % U16
      modifies this`rtpSeq, this`sent
      ensures sent == old(sent) + Wires(History(Jobs(buf, 0, ts), start, extra), ssrc)
      ensures rtpSeq == NumberAfterAll(Jobs(buf, 0, ts), start, extra) % U16
    {
      var p := 0;
      ghost var num: nat := start;
      ghost var goal := sent + Wires(History(Jobs(buf, 0, ts), start, extra), ssrc);
      ghost var last := NumberAfterAll(Jobs(buf, 0, ts), start, extra);
      var f := NextUnit(buf, p);
      while f.Found?
        invariant p <= |buf| && rtpSeq == num % U16 && f == Find(buf, p)
        invariant sent + Wires(History(Jobs(buf, p, ts), num, extra), ssrc) == goal
        invariant NumberAfterAll(Jobs(buf, p, ts), num, extra) == last
        decreases |buf| - p
      {
        var j := Job(buf[f.start..f.next], f.next == |buf|, ts);
        HistoryStep(sent, j, Jobs(buf, f.next, ts), num, extra, ssrc);
        SendJob(j, num);
        num := NumberAfter(j, num, extra);
        p := f.next;
        f := NextUnit(buf, p);
      }
      WiresEmpty(sent, ssrc);
    }

    /** Splits one encoded frame at its start codes and sends every NAL unit it finds.  `num` is any number
        that the 16-bit counter may stand for, such as the count of numbers taken so far. */
    method SendFrame(buf: Bytes, ghost num: nat)
      requires rtpSeq == num % U16
      modifies this`rtpSeq, this`rtpTs, this`sent
      ensures !open ==> sent == old(sent) && rtpSeq == old(rtpSeq) && rtpTs == old(rtpTs)
      ensures open ==> rtpTs == (old(rtpTs) + TS_STEP) % U32
      ensures open ==> sent == old(sent) + Wires(History(Jobs(buf, 0, rtpTs), num, extra), ssrc)
      ensures open ==> rtpSeq == NumberAfterAll(Jobs(buf, 0, rtpTs), num, extra) % U16
    {
      if !open {
        return;
      }
      rtpTs := (rtpTs + TS_STEP) % U32;
      SendUnits(buf, rtpTs, num);
    }
  }

  /** RTPParser of the viewer. */
  class RtpParser {
    var fuaBuf: Bytes
    var fuaNalHeader: int
    var lastSeq: int
    var seqDrops: int
    var pktCount: nat

    function State(): ParserState
      reads this
    {
      ParserState(fuaBuf, fuaNalHeader, lastSeq, seqDrops, pktCount)
    }

    constructor ()
      ensures State() == Fresh
    {
      fuaBuf, fuaNalHeader, lastSeq, seqDrops, pktCount := [], 0, -1, 0, 0;
    }

    /** Handles one datagram; at most one NAL unit is yielded. */
    method ParseData(data: Bytes) returns (out: Option<Yield>)
      modifies this
      ensures (State(), out) == Parse(old(State()), data)
    {
      out := None;
      if |data| < HEADER_SIZE {
        return;
      }
      var seqNo, marker := SeqOf(data), data[1] >= 0x80;
      var payloadOffset := 12 + (data[0] % 16) * 4;
      if |data| <= payloadOffset {
        return;
      }
      pktCount := pktCount + 1;
      if lastSeq >= 0 {
        var expected := (lastSeq + 1) % U16;
        if seqNo != expected {
          var gap := (seqNo - lastSeq) % U16;
          seqDrops := seqDrops + gap - 1;
          fuaBuf := [];
        }
      }
      lastSeq := seqNo;
      out := ReceivePayload(data[payloadOffset..], marker);
    }

    method ReceivePayload(payload: Bytes, marker: bool) returns (out: Option<Yield>)
      requires |payload| > 0
      modifies this
      ensures (State(), out) == Receive(old(State()), payload, marker)
    {
      out := None;
      var nalType := NalType(payload[0]);
      if 1 <= nalType <= 23 {
        return Some(Yield(payload, marker));
      } else if nalType == 28 {
        if |payload| < 2 {
          return;
        }
        var start, end := payload[1] >= 0x80, (payload[1] / 0x40) % 2 == 1;
        if start {
          fuaNalHeader := Nri(payload[0]) + NalType(payload[1]);
          fuaBuf := [fuaNalHeader] + payload[2..];
        } else if fuaBuf != [] {
          fuaBuf := fuaBuf + payload[2..];
        }
        if end && fuaBuf != [] {
          out := Some(Yield(fuaBuf, marker));
          fuaBuf := [];
        }
      }
    }
  }
}
