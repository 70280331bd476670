/** The codec as it runs: the encoder with its global sequence counter, the parser object that is
    fed byte by byte, and the loop that drains a receive buffer through it. */
module MavlinkObjects {
  import opened MavlinkCrc
  import opened MavlinkModel
  import opened MavlinkProofs

  class Encoder {
    var seqNo: bv8

    constructor ()
      ensures seqNo == 0
    {
      seqNo := 0;
    }

    /** Accumulates len bytes of buf into crc. */
    static method AccumulateBuf(crc0: bv16, buf: Bytes, len: nat) returns (crc: bv16)
      requires len <= |buf|
      ensures crc == Accumulate(crc0, buf[..len])
    {
      hide Step;
      crc := crc0;
      for i := 0 to len
        invariant crc == Accumulate(crc0, buf[..i])
      {
        AccumulateAppend(crc0, buf[..i], [buf[i]]);
        AccumulateOne(crc, buf[i]);
        assert buf[..i + 1] == buf[..i] + [buf[i]];
        crc := Step(crc, buf[i]);
      }
    }

    /** Sets the framing fields, takes the next sequence number and seals the checksum; what the caller filled
        in stays. */
    method Finalize(m: Msg) returns (n: Msg)
      modifies this
      ensures n == Finalized(m, old(seqNo)) && seqNo == old(seqNo) + 1
      ensures n.magic == 0xFD && n.incompat == 0 && n.compat == 0 && n.seqNo == old(seqNo)
      ensures n.len == m.len && n.sysid == m.sysid && n.compid == m.compid && n.msgid == m.msgid
      ensures n.payload == m.payload
      ensures IsFinal(n)
    {
      hide Step, CrcExtra, IdByte;
      n := m.(magic := STX, incompat := 0, compat := 0, seqNo := seqNo);
      seqNo := seqNo + 1;
      var crc := INIT;
      crc := Step(crc, n.len);
      crc := Step(crc, n.incompat);
      crc := Step(crc, n.compat);
      crc := Step(crc, n.seqNo);
      crc := Step(crc, n.sysid);
      crc := Step(crc, n.compid);
      crc := Step(crc, IdByte(n.msgid, 0));
      crc := Step(crc, IdByte(n.msgid, 1));
      crc := Step(crc, IdByte(n.msgid, 2));
      HeaderCrc(n);
      crc := AccumulateBuf(crc, n.payload, Size(n.len));
      crc := Step(crc, CrcExtra(n.msgid));
      n := n.(checksum := crc);
    }
  }

  /** Writes a message into buf; -1 if it does not fit. */
  method Serialize(m: Msg, buf: array<bv8>, bufLen: nat) returns (n: int)
    requires bufLen <= buf.Length
    modifies buf
    ensures n == if bufLen < Size(m.len) + NON_PAYLOAD then -1 else Size(m.len) + NON_PAYLOAD
    ensures n >= 0 ==> buf[..n] == Serialized(m)
    ensures forall i :: (if n < 0 then 0 else n) <= i < buf.Length ==> buf[i] == old(buf[i])
  {
    hide SumLow, SumHigh, Size;
    var len := Size(m.len);
    if bufLen < len + NON_PAYLOAD {
      return -1;
    }
    var head, body, sum := [m.magic] + HeaderBytes(m), Body(m), [SumLow(m.checksum), SumHigh(m.checksum)];
    assert |head| == 10;
    hide HeaderBytes, Body;
    Copy(buf, 0, head);
    Copy(buf, 10, body);
    assert buf[..10] == head;
    Copy(buf, 10 + len, sum);
    n := len + NON_PAYLOAD;
    assert buf[..10] == head;
    assert buf[10..10 + len] == body;
    assert buf[..n] == buf[..10] + buf[10..10 + len] + buf[10 + len..n];
  }

  /** Stores data into buf from offset at on. */
  method Copy(buf: array<bv8>, at: nat, data: Bytes)
    requires at + |data| <= buf.Length
    modifies buf
    ensures buf[at..at + |data|] == data
    ensures forall i :: 0 <= i < buf.Length && !(at <= i < at + |data|) ==> buf[i] == old(buf[i])
  {
    for i := 0 to |data|
      invariant forall k :: 0 <= k < i ==> buf[at + k] == data[k]
      invariant forall k :: 0 <= k < buf.Length && !(at <= k < at + i) ==> buf[k] == old(buf[k])
    {
      buf[at + i] := data[i];
    }
  }

  /** mavlink_parser_t, with the messages it has completed so far. */
  class Receiver {
    var state: ParseState
    var rxmsg: Msg
    var payloadIdx: nat
    var crc: bv16
    var received: seq<Msg>

    function Value(): Parser
      reads this
    {
      Parser(state, rxmsg, payloadIdx, crc)
    }

    ghost predicate Valid()
      reads this
    {
      Ok(Value())
    }

    constructor ()
      ensures Valid() && Value() == FreshParser && received == []
    {
      state, rxmsg, payloadIdx, crc, received := Idle, Blank, 0, 0, [];
    }

    /** Feeds a header byte into the CRC. */
    method Feed(next: ParseState, b: bv8)
      modifies this`state, this`crc
      ensures state == next && crc == Step(old(crc), b)
    {
      crc := Step(crc, b);
      state := next;
    }

    method Seal()
      modifies this`state, this`crc
      ensures Value() == Sealed(old(Value()))
    {
      crc := Step(crc, CrcExtra(rxmsg.msgid));
      state := GotPayload;
    }

    /** Takes one byte; true when it completed a message. */
    method ParseByte(b: bv8) returns (done: bool)
      requires Valid()
      modifies this`state, this`rxmsg, this`payloadIdx, this`crc
      ensures Valid() && Value() == Next(old(Value()), b)
      ensures done <==> Emits(old(Value()), b) != []
      ensures done ==> Emits(old(Value()), b) == [rxmsg]
    {
      hide Step, CrcExtra, IdOr, SumSetLow, SumSetHigh, Size;
      done := false;
      match state {
        case Idle =>
          if b == STX {
            rxmsg := Blank.(magic := b);
            payloadIdx, crc, state := 0, INIT, GotStx;
          }
        case GotMsgid3 =>
          PayloadByte(b);
        case GotPayload =>
          rxmsg := rxmsg.(checksum := SumSetLow(b));
          state := GotCrc1;
        case GotCrc1 =>
          rxmsg := rxmsg.(checksum := SumSetHigh(rxmsg.checksum, b));
          state := Idle;
          done := rxmsg.checksum == crc;
        case GotCompid =>
          IdentifierByte(b);
        case GotMsgid1 =>
          IdentifierByte(b);
        case GotMsgid2 =>
          IdentifierByte(b);
        case _ =>
          HeaderByte(b);
      }
    }

    /** The six one-byte header fields. */
    method HeaderByte(b: bv8)
      requires Early(state)
      modifies this`state, this`rxmsg, this`crc
      ensures Valid() && Value() == Next(old(Value()), b)
    {
      hide Step;
      match state {
        case GotStx =>
          rxmsg := rxmsg.(len := b);
          Feed(GotLength, b);
        case GotLength =>
          rxmsg := rxmsg.(incompat := b);
          Feed(GotIncompat, b);
        case GotIncompat =>
          rxmsg := rxmsg.(compat := b);
          Feed(GotCompat, b);
        case GotCompat =>
          rxmsg := rxmsg.(seqNo := b);
          Feed(GotSeq, b);
        case GotSeq =>
          rxmsg := rxmsg.(sysid := b);
          Feed(GotSysid, b);
        case GotSysid =>
          rxmsg := rxmsg.(compid := b);
          Feed(GotCompid, b);
      }
    }

    /** The three bytes of the message identifier, low byte first. */
    method IdentifierByte(b: bv8)
      requires state == GotCompid || state == GotMsgid1 || state == GotMsgid2
      modifies this`state, this`rxmsg, this`payloadIdx, this`crc
      ensures Valid() && Value() == Next(old(Value()), b)
    {
      hide Step, CrcExtra, IdOr, Size;
      if state == GotCompid {
        rxmsg := rxmsg.(msgid := IdOr(rxmsg.msgid, b, 0));
        Feed(GotMsgid1, b);
      } else if state == GotMsgid1 {
        rxmsg := rxmsg.(msgid := IdOr(rxmsg.msgid, b, 1));
        Feed(GotMsgid2, b);
      } else {
        rxmsg := rxmsg.(msgid := IdOr(rxmsg.msgid, b, 2));
        Feed(GotMsgid3, b);
        if Size(rxmsg.len) == 0 {
          Seal();
        } else {
          payloadIdx := 0;
        }
      }
    }

    method PayloadByte(b: bv8)
      requires Valid() && state == GotMsgid3
      modifies this`state, this`rxmsg, this`payloadIdx, this`crc
      ensures Valid() && Value() == Next(old(Value()), b)
    {
      hide Step, CrcExtra;
      rxmsg := rxmsg.(payload := rxmsg.payload[payloadIdx := b]);
      payloadIdx := payloadIdx + 1;
      Feed(GotMsgid3, b);
      if payloadIdx >= Size(rxmsg.len) {
        Seal();
      }
    }

    /** Parses up to the end of the first completed message or of the buffer. */
    method ParseBuffer(buf: Bytes) returns (found: bool, consumed: nat)
      requires Valid()
      modifies this`state, this`rxmsg, this`payloadIdx, this`crc
      ensures Valid() && consumed <= |buf| && (buf != [] ==> consumed > 0)
      ensures Value() == Run(old(Value()), buf[..consumed])
      ensures Outs(old(Value()), buf[..consumed]) == if found then [rxmsg] else []
      ensures !found ==> consumed == |buf|
    {
      hide Next, Emits;
      ghost var p0 := Value();
      for i := 0 to |buf|
        invariant Valid() && Value() == Run(p0, buf[..i]) && Outs(p0, buf[..i]) == []
      {
        ghost var before := Value();
        RunAppend(p0, buf[..i], [buf[i]]);
        RunOne(before, buf[i]);
        assert buf[..i + 1] == buf[..i] + [buf[i]];
        var done := ParseByte(buf[i]);
        if done {
          return true, i + 1;
        }
      }
      assert buf[..|buf|] == buf;
      return false, |buf|;
    }

    /** process_incoming_mavlink: drains one received datagram through the parser. */
    method ProcessIncoming(rxbuf: Bytes)
      requires Valid()
      modifies this
      ensures Valid() && Value() == Run(old(Value()), rxbuf)
      ensures received == old(received) + Outs(old(Value()), rxbuf)
    {
      hide Run, Outs, Next, Emits;
      ghost var p0, r0 := Value(), received;
      RunNothing(p0);
      var offset := 0;
      while offset < |rxbuf|
        invariant offset <= |rxbuf| && Valid() && Value() == Run(p0, rxbuf[..offset])
        invariant received == r0 + Outs(p0, rxbuf[..offset])
      {
        var rest := rxbuf[offset..];
        ghost var before := Value();
        var found, consumed := ParseBuffer(rest);
        if found {
          received := received + [rxmsg];
        }
        RunAppend(p0, rxbuf[..offset], rest[..consumed]);
        assert rxbuf[..offset + consumed] == rxbuf[..offset] + rest[..consumed];
        offset := offset + consumed;
        if consumed == 0 {
          break;
        }
      }
      assert rxbuf[..|rxbuf|] == rxbuf;
    }
  }

  function Flatten(bufs: seq<Bytes>): Bytes {
    if bufs == [] then [] else bufs[0] + Flatten(bufs[1..])
  }

  /** However a stream of frames and marker-free garbage is cut into datagrams, an idle receiver
      ends up with exactly its messages, in order. */
  method ReceiveAll(r: Receiver, bufs: seq<Bytes>, ghost t: Traffic)
    requires r.Valid() && r.state.Idle? && CleanTraffic(t) && Flatten(bufs) == OnWire(t)
    modifies r
    ensures r.Valid() && r.state.Idle?
    ensures r.received == old(r.received) + Messages(t)
  {
    hide Run, Outs, OnWire, Messages, CleanTraffic;
    ghost var p0, r0 := r.Value(), r.received;
    TrafficDelivered(p0, t);
    RunNothing(p0);
    ghost var done: Bytes := [];
    for i := 0 to |bufs|
      invariant r.Valid() && r.Value() == Run(p0, done)
      invariant r.received == r0 + Outs(p0, done)
      invariant done + Flatten(bufs[i..]) == OnWire(t)
    {
      RunAppend(p0, done, bufs[i]);
      assert bufs[i..][0] == bufs[i] && bufs[i..][1..] == bufs[i + 1..];
      assert done + (bufs[i] + Flatten(bufs[i + 1..])) == (done + bufs[i]) + Flatten(bufs[i + 1..]);
      r.ProcessIncoming(bufs[i]);
      done := done + bufs[i];
    }
    assert done + [] == done;
  }

  /** What every message builder ends with, and then its caller: finalise, serialise. */
  method SendOne(e: Encoder, m: Msg) returns (frame: Bytes)
    modifies e
    ensures frame == Serialized(Finalized(m, old(e.seqNo)))
    ensures e.seqNo == old(e.seqNo) + 1
  {
    hide Serialized, Finalized, Step, IsFinal, Checksum;
    var n := e.Finalize(m);
    var buf := new bv8[Size(n.len) + NON_PAYLOAD];
    var len := Serialize(n, buf, buf.Length);
    frame := buf[..len];
  }

  lemma FramesStep(msgs: seq<Msg>, i: nat, n: bv8)
    requires i < |msgs|
    ensures Frames(Numbered(msgs[i..], n))
         == Serialized(Finalized(msgs[i], n)) + Frames(Numbered(msgs[i + 1..], n + 1))
  {
    assert msgs[i..][0] == msgs[i] && msgs[i..][1..] == msgs[i + 1..];
    hide Serialized, Finalized;
  }

  lemma OneMore(wire: Bytes, msgs: seq<Msg>, i: nat, n: bv8, all: Bytes)
    requires i < |msgs| && wire + Frames(Numbered(msgs[i..], n)) == all
    ensures (wire + Serialized(Finalized(msgs[i], n))) + Frames(Numbered(msgs[i + 1..], n + 1)) == all
  {
    FramesStep(msgs, i, n);
    var frame, rest := Serialized(Finalized(msgs[i], n)), Frames(Numbered(msgs[i + 1..], n + 1));
    assert wire + (frame + rest) == (wire + frame) + rest;
  }

  /** One message after another onto the wire. */
  method SendAll(e: Encoder, msgs: seq<Msg>) returns (wire: Bytes)
    modifies e
    ensures wire == Frames(Numbered(msgs, old(e.seqNo)))
    ensures e.seqNo == Later(old(e.seqNo), |msgs|)
  {
    hide Serialized, Finalized, Numbered;
    ghost var n, all := e.seqNo, Frames(Numbered(msgs, e.seqNo));
    wire := [];
    assert msgs[0..] == msgs;
    for i := 0 to |msgs|
      invariant wire + Frames(Numbered(msgs[i..], e.seqNo)) == all
      invariant e.seqNo == Later(n, i)
    {
      hide Frames;
      ghost var number := e.seqNo;
      OneMore(wire, msgs, i, number, all);
      var frame := SendOne(e, msgs[i]);
      wire := wire + frame;
    }
    assert msgs[|msgs|..] == [];
    assert wire + [] == wire;
  }

  /** End to end: every message handed to the encoder reaches an idle receiver as the caller filled it in,
      numbered consecutively modulo 256. */
  method Session(e: Encoder, r: Receiver, msgs: seq<Msg>)
    requires r.Valid() && r.state.Idle? && forall m :: m in msgs ==> Id24(m.msgid)
    modifies e, r
    ensures r.Valid() && r.state.Idle?
    ensures |r.received| == old(|r.received|) + |msgs| && old(r.received) <= r.received
    ensures forall k :: 0 <= k < |msgs| ==>
      Carries(r.received[old(|r.received|) + k], msgs[k], (Number(old(e.seqNo)) + k) % 256)
  {
    hide Run, Outs, Frames, Numbered, Carries, Next, Emits;
    CallersMessagesDelivered(r.Value(), msgs, e.seqNo);
    var wire := SendAll(e, msgs);
    r.ProcessIncoming(wire);
  }
}
