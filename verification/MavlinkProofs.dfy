/** What the MAVLink parser makes of a byte stream: every well-framed message, whatever came before,
    and no frame whose payload was changed in two adjacent bytes. */
module MavlinkProofs {
  import opened MavlinkCrc
  import opened MavlinkModel

  lemma {:induction false} RunAppend(p: Parser, a: Bytes, b: Bytes)
    requires Ok(p)
    ensures Run(p, a + b) == Run(Run(p, a), b)
    ensures Outs(p, a + b) == Outs(p, a) + Outs(Run(p, a), b)
    decreases |a|
  {
    if a == [] {
      assert a + b == b;
    } else {
      assert (a + b)[1..] == a[1..] + b;
      RunAppend(Next(p, a[0]), a[1..], b);
    }
  }

  lemma RunNothing(p: Parser)
    requires Ok(p)
    ensures Run(p, []) == p && Outs(p, []) == []
  {
  }

  lemma RunOne(p: Parser, b: bv8)
    requires Ok(p)
    ensures Run(p, [b]) == Next(p, b) && Outs(p, [b]) == Emits(p, b)
  {
    assert [b][1..] == [];
    assert Run(Next(p, b), []) == Next(p, b);
  }

  lemma RunThree(p: Parser, a: bv8, b: bv8, c: bv8)
    requires Ok(p)
    ensures var q := Next(Next(p, a), b);
            Run(p, [a, b, c]) == Next(q, c)
            && Outs(p, [a, b, c]) == Emits(p, a) + Emits(Next(p, a), b) + Emits(q, c)
  {
    hide Next, Emits;
    assert [a, b, c][1..] == [b, c];
    assert [b, c][1..] == [c];
    RunOne(Next(Next(p, a), b), c);
  }

  // ----- garbage between frames

  predicate NoStx(bs: Bytes) {
    STX !in bs
  }

  /** An idle parser ignores everything but the start marker. */
  lemma {:induction false} IdleIgnores(p: Parser, bs: Bytes)
    requires p.state.Idle? && NoStx(bs)
    ensures Run(p, bs) == p && Outs(p, bs) == []
    decreases |bs|
  {
    if bs != [] {
      assert bs[0] in bs;
      IdleIgnores(p, bs[1..]);
    }
  }

  // ----- one frame

  /** The message under construction once the header is in. */
  function HeaderOnly(m: Msg): Msg {
    m.(payload := Zeros(MAX_PAYLOAD), checksum := 0)
  }

  lemma HeaderA(p: Parser, m: Msg)
    requires p.state.Idle?
    ensures var bs := [STX, m.len, m.incompat];
            && Run(p, bs) == Parser(GotIncompat, Blank.(magic := STX, len := m.len, incompat := m.incompat), 0,
                                    Step(Step(INIT, m.len), m.incompat))
            && Outs(p, bs) == []
  {
    hide Step, Run, Outs;
    RunThree(p, STX, m.len, m.incompat);
  }

  lemma HeaderB(p: Parser, m: Msg)
    requires p.state.GotIncompat?
    ensures var bs := [m.compat, m.seqNo, m.sysid];
            && Run(p, bs) == Parser(GotSysid, p.rx.(compat := m.compat, seqNo := m.seqNo, sysid := m.sysid), p.idx,
                                    Step(Step(Step(p.crc, m.compat), m.seqNo), m.sysid))
            && Outs(p, bs) == []
  {
    hide Step, Run, Outs;
    RunThree(p, m.compat, m.seqNo, m.sysid);
  }

  lemma HeaderC(p: Parser, compid: bv8, b0: bv8, b1: bv8)
    requires p.state.GotSysid?
    ensures Run(p, [compid, b0, b1])
         == Parser(GotMsgid2, p.rx.(compid := compid, msgid := IdOr(IdOr(p.rx.msgid, b0, 0), b1, 1)),
                   p.idx, Step(Step(Step(p.crc, compid), b0), b1))
    ensures Outs(p, [compid, b0, b1]) == []
  {
    hide Step, IdOr, Run, Outs;
    RunThree(p, compid, b0, b1);
  }

  /** After the last identifier byte the header is complete; without payload the CRC is sealed. */
  lemma HeaderD(p: Parser, b: bv8)
    requires p.state.GotMsgid2?
    ensures var q := Parser(GotMsgid3, p.rx.(msgid := IdOr(p.rx.msgid, b, 2)), p.idx, Step(p.crc, b));
            && Run(p, [b]) == (if Size(p.rx.len) == 0 then Sealed(q) else q.(idx := 0))
            && Outs(p, [b]) == []
  {
    hide Step, IdOr;
    RunOne(p, b);
  }

  /** The CRC of the nine header bytes, as nested steps. */
  lemma HeaderCrc(m: Msg)
    ensures Accumulate(INIT, HeaderBytes(m))
         == Step(Step(Step(Step(Step(Step(Step(Step(Step(INIT, m.len), m.incompat), m.compat), m.seqNo), m.sysid),
              m.compid), IdByte(m.msgid, 0)), IdByte(m.msgid, 1)), IdByte(m.msgid, 2))
  {
    hide Step, IdByte;
    var b := HeaderBytes(m);
    AccumulateThree(INIT, b[0], b[1], b[2]);
    var c := Accumulate(INIT, [b[0], b[1], b[2]]);
    AccumulateThree(c, b[3], b[4], b[5]);
    var d := Accumulate(c, [b[3], b[4], b[5]]);
    AccumulateThree(d, b[6], b[7], b[8]);
    AccumulateAppend(INIT, [b[0], b[1], b[2]], [b[3], b[4], b[5]]);
    AccumulateAppend(INIT, [b[0], b[1], b[2]] + [b[3], b[4], b[5]], [b[6], b[7], b[8]]);
    assert b == [b[0], b[1], b[2]] + [b[3], b[4], b[5]] + [b[6], b[7], b[8]];
  }

  lemma AccumulateThree(c: bv16, x: bv8, y: bv8, z: bv8)
    ensures Accumulate(c, [x, y, z]) == Step(Step(Step(c, x), y), z)
  {
    hide Step;
    assert [x, y, z][1..] == [y, z];
    AccumulateTwo(Step(c, x), y, z);
  }

  /** The parser after the start marker and the header of m. */
  function AfterHeader(m: Msg): Parser {
    var q := Parser(GotMsgid3, HeaderOnly(m), 0, Accumulate(INIT, HeaderBytes(m)));
    if Size(m.len) == 0 then Sealed(q) else q
  }

  lemma RunFour(p: Parser, a: Bytes, b: Bytes, c: Bytes, d: Bytes)
    requires Ok(p)
    ensures Run(p, a + b + c + d) == Run(Run(Run(Run(p, a), b), c), d)
    ensures Outs(p, a + b + c + d)
         == Outs(p, a) + Outs(Run(p, a), b) + Outs(Run(Run(p, a), b), c) + Outs(Run(Run(Run(p, a), b), c), d)
  {
    RunAppend(p, a, b);
    RunAppend(p, a + b, c);
    RunAppend(p, a + b + c, d);
  }

  lemma HeaderLayout(m: Msg)
    ensures [STX] + HeaderBytes(m)
         == [STX, m.len, m.incompat] + [m.compat, m.seqNo, m.sysid]
          + [m.compid, IdByte(m.msgid, 0), IdByte(m.msgid, 1)] + [IdByte(m.msgid, 2)]
  {
    hide IdByte;
  }

  lemma HeaderRun(p: Parser, m: Msg)
    requires p.state.Idle? && m.magic == STX && Id24(m.msgid)
    ensures Run(p, [STX] + HeaderBytes(m)) == AfterHeader(m)
    ensures Outs(p, [STX] + HeaderBytes(m)) == []
  {
    hide Step, IdOr, IdByte, Run, Outs, HeaderBytes;
    var i0, i1, i2 := IdByte(m.msgid, 0), IdByte(m.msgid, 1), IdByte(m.msgid, 2);
    var a, b, c, d := [STX, m.len, m.incompat], [m.compat, m.seqNo, m.sysid], [m.compid, i0, i1], [i2];
    HeaderLayout(m);
    RunFour(p, a, b, c, d);
    HeaderA(p, m);
    HeaderB(Run(p, a), m);
    HeaderC(Run(Run(p, a), b), m.compid, i0, i1);
    HeaderD(Run(Run(Run(p, a), b), c), i2);
    HeaderCrc(m);
    IdRoundTrip(m.msgid);
  }

  /** A message with its first n payload bytes in place and zeros after them. */
  function Padded(bytes: Bytes): Payload
    requires |bytes| <= MAX_PAYLOAD
  {
    bytes + Zeros(MAX_PAYLOAD - |bytes|)
  }

  /** Mid-payload, the parser holds the bytes seen so far and their CRC. */
  predicate Collecting(p: Parser, m: Msg, bytes: Bytes, crc: bv16) {
    && |bytes| <= MAX_PAYLOAD
    && p.rx == m.(payload := Padded(bytes), checksum := 0)
    && p.crc == crc
  }

  lemma PaddedUpdate(bytes: Bytes, b: bv8)
    requires |bytes| < MAX_PAYLOAD
    ensures Padded(bytes)[|bytes| := b] == Padded(bytes + [b])
  {
  }

  /** One payload byte. */
  lemma PayloadStep(p: Parser, m: Msg, done: Bytes, b: bv8)
    requires p.state.GotMsgid3? && p.idx == |done| < Size(m.len) && Collecting(p, m, done, p.crc)
    ensures Emits(p, b) == []
    ensures var q := Next(p, b);
            if |done| + 1 == Size(m.len)
            then q.state.GotPayload? && Collecting(q, m, done + [b], Step(Step(p.crc, b), CrcExtra(m.msgid)))
            else q.state.GotMsgid3? && q.idx == |done| + 1 && Collecting(q, m, done + [b], Step(p.crc, b))
  {
    hide Step, CrcExtra, Padded;
    PaddedUpdate(done, b);
  }

  /** The rest of a payload: the parser appends it, folds it into the CRC and seals the CRC. */
  lemma {:induction false} PayloadRun(p: Parser, m: Msg, done: Bytes, rest: Bytes)
    requires p.state.GotMsgid3? && p.idx == |done| && rest != []
    requires |done| + |rest| == Size(m.len) && Collecting(p, m, done, p.crc)
    ensures var q := Run(p, rest);
            && q.state.GotPayload?
            && Collecting(q, m, done + rest, Step(Accumulate(p.crc, rest), CrcExtra(m.msgid)))
    ensures Outs(p, rest) == []
    decreases |rest|
  {
    hide Step, CrcExtra, Padded, Next, Emits;
    var b := rest[0];
    PayloadStep(p, m, done, b);
    assert done + rest == (done + [b]) + rest[1..];
    if |rest| > 1 {
      PayloadRun(Next(p, b), m, done + [b], rest[1..]);
    } else {
      assert rest[1..] == [];
      assert done + rest == done + [b];
    }
  }

  /** What a receiver sees of a message: the payload beyond its length reads as zeros. */
  function Seen(m: Msg): Msg {
    m.(payload := Padded(Body(m)))
  }

  lemma PaddedNothing()
    ensures Padded([]) == Zeros(MAX_PAYLOAD)
  {
  }

  lemma PayloadDone(p: Parser, m: Msg, body: Bytes)
    requires p == AfterHeader(m) && |body| == Size(m.len)
    ensures var q := Run(p, body);
            && q.state.GotPayload?
            && Collecting(q, m, body, Step(Accumulate(Accumulate(INIT, HeaderBytes(m)), body), CrcExtra(m.msgid)))
    ensures Outs(p, body) == []
  {
    hide Step, CrcExtra, HeaderBytes, Size;
    PaddedNothing();
    hide Padded, Zeros;
    if body != [] {
      PayloadRun(p, m, [], body);
      assert [] + body == body;
    }
  }

  /** The two checksum bytes deliver the message or drop it, and the parser is idle again. */
  lemma ChecksumRun(p: Parser, m: Msg, body: Bytes, crc: bv16, sum: bv16)
    requires p.state.GotPayload? && Collecting(p, m, body, crc)
    ensures var bs := [SumLow(sum), SumHigh(sum)];
            && Run(p, bs).state.Idle?
            && Outs(p, bs) == if sum == crc then [m.(payload := Padded(body), checksum := sum)] else []
  {
    hide SumLow, SumHigh, SumSetLow, SumSetHigh, Padded, Run, Outs;
    SumRoundTrip(sum);
    var a, b := SumLow(sum), SumHigh(sum);
    assert [a] + [b] == [a, b];
    RunAppend(p, [a], [b]);
    RunOne(p, a);
    RunOne(Next(p, a), b);
  }

  /** A frame on the wire with the header of m, any payload of the right length and any checksum. */
  function Frame(m: Msg, body: Bytes, sum: bv16): Bytes {
    [STX] + HeaderBytes(m) + body + [SumLow(sum), SumHigh(sum)]
  }

  /** The parser accepts a frame exactly when its checksum is right, and then yields what it says. */
  lemma FrameRun(p: Parser, m: Msg, body: Bytes, sum: bv16)
    requires p.state.Idle? && m.magic == STX && Id24(m.msgid) && |body| == Size(m.len)
    ensures Run(p, Frame(m, body, sum)).state.Idle?
    ensures var crc := Step(Accumulate(Accumulate(INIT, HeaderBytes(m)), body), CrcExtra(m.msgid));
            Outs(p, Frame(m, body, sum))
            == if sum == crc then [m.(payload := Padded(body), checksum := sum)] else []
  {
    hide Step, CrcExtra, HeaderBytes, Run, Outs, Padded, SumLow, SumHigh, AfterHeader;
    var head, tail := [STX] + HeaderBytes(m), [SumLow(sum), SumHigh(sum)];
    HeaderRun(p, m);
    PayloadDone(AfterHeader(m), m, body);
    var crc := Step(Accumulate(Accumulate(INIT, HeaderBytes(m)), body), CrcExtra(m.msgid));
    ChecksumRun(Run(AfterHeader(m), body), m, body, crc, sum);
    RunAppend(p, head, body);
    RunAppend(p, head + body, tail);
  }

  /** A finalised message, serialised, is delivered as it was sent. */
  lemma MessageDelivered(p: Parser, m: Msg)
    requires p.state.Idle? && IsFinal(m) && Id24(m.msgid)
    ensures Run(p, Serialized(m)).state.Idle? && Outs(p, Serialized(m)) == [Seen(m)]
  {
    hide Step, CrcExtra, HeaderBytes, Run, Outs, Padded, SumLow, SumHigh;
    FrameRun(p, m, Body(m), m.checksum);
  }

  // ----- streams

  /** Frames with garbage before, between and after them. */
  datatype Traffic = Silence(garbage: Bytes) | Then(garbage: Bytes, m: Msg, rest: Traffic)

  function OnWire(t: Traffic): Bytes {
    match t
    case Silence(g) => g
    case Then(g, m, rest) => g + Serialized(m) + OnWire(rest)
  }

  function Messages(t: Traffic): seq<Msg> {
    match t
    case Silence(_) => []
    case Then(_, m, rest) => [Seen(m)] + Messages(rest)
  }

  predicate CleanTraffic(t: Traffic) {
    match t
    case Silence(g) => NoStx(g)
    case Then(g, m, rest) => NoStx(g) && IsFinal(m) && Id24(m.msgid) && CleanTraffic(rest)
  }

  /** Every message of a stream comes out, in order and nothing else, starting from idle. */
  lemma {:induction false} TrafficDelivered(p: Parser, t: Traffic)
    requires p.state.Idle? && CleanTraffic(t)
    ensures Outs(p, OnWire(t)) == Messages(t) && Run(p, OnWire(t)).state.Idle?
    decreases t
  {
    hide Run, Outs, Serialized, Seen, IsFinal, Id24, NoStx;
    match t
    case Silence(g) => IdleIgnores(p, g);
    case Then(g, m, rest) =>
      IdleIgnores(p, g);
      MessageDelivered(p, m);
      RunAppend(p, g, Serialized(m));
      RunAppend(p, g + Serialized(m), OnWire(rest));
      TrafficDelivered(Run(p, Serialized(m)), rest);
  }

  // ----- from the callers' messages to the receiver's

  /** The finalised messages of consecutive calls, the first under number n. */
  function Numbered(msgs: seq<Msg>, n: bv8): (r: seq<Msg>)
    ensures |r| == |msgs|
    decreases |msgs|
  {
    if msgs == [] then [] else [Finalized(msgs[0], n)] + Numbered(msgs[1..], n + 1)
  }

  function Frames(msgs: seq<Msg>): Bytes
    decreases |msgs|
  {
    if msgs == [] then [] else Serialized(msgs[0]) + Frames(msgs[1..])
  }

  /** The value of a sequence number. */
  function Number(n: bv8): int {
    n as int
  }

  /** got is what the caller filled in as m, framed under the given number; nothing of the payload beyond
      its length travels. */
  predicate Carries(got: Msg, m: Msg, number: int) {
    && got.magic == 0xFD && got.incompat == 0 && got.compat == 0
    && Number(got.seqNo) == number
    && got.len == m.len && got.sysid == m.sysid && got.compid == m.compid && got.msgid == m.msgid
    && got.payload[..Size(m.len)] == m.payload[..Size(m.len)]
    && forall i :: Size(m.len) <= i < MAX_PAYLOAD ==> got.payload[i] == 0
  }

  lemma NextNumber(n: bv8)
    ensures Number(n + 1) == (Number(n) + 1) % 256
  {
  }

  lemma NumberBound(n: bv8)
    ensures 0 <= Number(n) < 256
  {
  }

  lemma AddModulo(a: int, k: int)
    ensures ((a + k) % 256 + 1) % 256 == (a + k + 1) % 256 && ((a + 1) % 256 + k) % 256 == (a + k + 1) % 256
  {
  }

  /** The counter k messages later. */
  function Later(n: bv8, k: nat): bv8 {
    if k == 0 then n else Later(n, k - 1) + 1
  }

  lemma {:induction false} LaterIs(n: bv8, k: nat)
    ensures Number(Later(n, k)) == (Number(n) + k) % 256
  {
    hide Number;
    if k == 0 {
      NumberBound(n);
    } else {
      LaterIs(n, k - 1);
      NextNumber(Later(n, k - 1));
      AddModulo(Number(n), k - 1);
    }
  }

  lemma SeenCarries(m: Msg, n: bv8)
    ensures Carries(Seen(Finalized(m, n)), m, Number(n))
  {
    hide Checksum;
  }

  /** A message finalised under number n arrives as the caller filled it in, under that number. */
  lemma FinalizedDelivered(p: Parser, m: Msg, n: bv8)
    requires p.state.Idle? && Id24(m.msgid)
    ensures var wire := Serialized(Finalized(m, n));
            && Run(p, wire).state.Idle? && |Outs(p, wire)| == 1 && Carries(Outs(p, wire)[0], m, Number(n))
  {
    SeenCarries(m, n);
    hide Run, Outs, Serialized, Step, CrcExtra, IdByte, Carries, Seen;
    MessageDelivered(p, Finalized(m, n));
  }

  /** End to end: what k calls of the encoder put on the wire leaves an idle parser with exactly the callers'
      messages, field by field, in order, numbered consecutively modulo 256. */
  lemma {:induction false} CallersMessagesDelivered(p: Parser, msgs: seq<Msg>, n: bv8)
    requires p.state.Idle? && forall m :: m in msgs ==> Id24(m.msgid)
    ensures var wire := Frames(Numbered(msgs, n));
            && Run(p, wire).state.Idle? && |Outs(p, wire)| == |msgs|
            && forall k :: 0 <= k < |msgs| ==> Carries(Outs(p, wire)[k], msgs[k], (Number(n) + k) % 256)
    decreases |msgs|
  {
    hide Run, Outs, Serialized, Finalized, Carries, Number;
    if msgs == [] {
      RunNothing(p);
    } else {
      var head, rest := Serialized(Finalized(msgs[0], n)), Frames(Numbered(msgs[1..], n + 1));
      var q := Run(p, head);
      FinalizedDelivered(p, msgs[0], n);
      CallersMessagesDelivered(q, msgs[1..], n + 1);
      RunAppend(p, head, rest);
      assert Frames(Numbered(msgs, n)) == head + rest;
      NextNumber(n);
      NumberBound(n);
      hide Frames, Numbered;
      forall k | 0 <= k < |msgs|
        ensures Carries(Outs(p, head + rest)[k], msgs[k], (Number(n) + k) % 256)
      {
        if k > 0 {
          assert Outs(p, head + rest)[k] == Outs(q, rest)[k - 1];
          AddModulo(Number(n), k - 1);
        }
      }
    }
  }

  // ----- self-stabilisation

  /** How many bytes, at most, the parser takes before it is idle again. */
  function Remaining(p: Parser): nat
    requires Ok(p)
  {
    var len := Size(p.rx.len);
    match p.state
    case Idle => 0
    case GotStx => 266
    case GotLength => 10 + len
    case GotIncompat => 9 + len
    case GotCompat => 8 + len
    case GotSeq => 7 + len
    case GotSysid => 6 + len
    case GotCompid => 5 + len
    case GotMsgid1 => 4 + len
    case GotMsgid2 => 3 + len
    case GotMsgid3 => 2 + len - p.idx
    case GotPayload => 2
    case GotCrc1 => 1
  }

  predicate Early(s: ParseState) {
    s.GotStx? || s.GotLength? || s.GotIncompat? || s.GotCompat? || s.GotSeq? || s.GotSysid?
  }

  lemma EarlyDrops(p: Parser, b: bv8)
    requires Early(p.state)
    ensures Remaining(Next(p, b)) < Remaining(p)
  {
    hide Step, CrcExtra, IdOr, SumSetLow, SumSetHigh, Size, Sealed;
  }

  lemma IdentifierDrops(p: Parser, b: bv8)
    requires p.state.GotCompid? || p.state.GotMsgid1? || p.state.GotMsgid2?
    ensures Remaining(Next(p, b)) < Remaining(p)
  {
    hide Step, CrcExtra, IdOr, Size;
  }

  lemma LateDrops(p: Parser, b: bv8)
    requires Ok(p) && (p.state.GotMsgid3? || p.state.GotPayload? || p.state.GotCrc1?)
    ensures Remaining(Next(p, b)) < Remaining(p)
  {
    hide Step, CrcExtra, SumSetLow, SumSetHigh, Size;
  }

  lemma RemainingDrops(p: Parser, b: bv8)
    requires Ok(p) && !p.state.Idle?
    ensures Remaining(Next(p, b)) < Remaining(p)
  {
    hide Next, Remaining;
    if Early(p.state) {
      EarlyDrops(p, b);
    } else if p.state.GotCompid? || p.state.GotMsgid1? || p.state.GotMsgid2? {
      IdentifierDrops(p, b);
    } else {
      LateDrops(p, b);
    }
  }

  /** From any reachable state and on any bytes the parser is idle within 266 further bytes. */
  lemma {:induction false} IdleWithin(p: Parser, bs: Bytes) returns (k: nat)
    requires Ok(p) && |bs| >= Remaining(p)
    ensures k <= Remaining(p) <= 266 && Run(p, bs[..k]).state.Idle?
    decreases |bs|
  {
    if p.state.Idle? {
      k := 0;
    } else {
      hide Next;
      RemainingBound(p);
      RemainingDrops(p, bs[0]);
      var j := IdleWithin(Next(p, bs[0]), bs[1..]);
      k := j + 1;
      assert bs[..k][1..] == bs[1..][..j];
    }
  }

  /** 266 bytes without a start marker bring every state to idle. */
  lemma QuietResets(p: Parser, quiet: Bytes)
    requires Ok(p) && NoStx(quiet) && |quiet| >= 266
    ensures Run(p, quiet).state.Idle?
  {
    RemainingBound(p);
    var k := IdleWithin(p, quiet);
    assert quiet == quiet[..k] + quiet[k..];
    RunAppend(p, quiet[..k], quiet[k..]);
    assert NoStx(quiet[k..]);
    IdleIgnores(Run(p, quiet[..k]), quiet[k..]);
  }

  lemma RemainingBound(p: Parser)
    requires Ok(p)
    ensures Remaining(p) <= 266
  {
  }

  /** Whatever came before, all frames that follow 266 marker-free bytes are delivered. */
  lemma Resynchronises(p: Parser, before: Bytes, quiet: Bytes, t: Traffic)
    requires Ok(p) && NoStx(quiet) && |quiet| >= 266 && CleanTraffic(t)
    ensures Outs(p, before + quiet + OnWire(t)) == Outs(p, before + quiet) + Messages(t)
  {
    RunAppend(p, before, quiet);
    QuietResets(Run(p, before), quiet);
    RunAppend(p, before + quiet, OnWire(t));
    TrafficDelivered(Run(p, before + quiet), t);
  }

  // ----- corruption

  /** A frame of any length with one or two adjacent payload bytes changed is rejected. */
  lemma CorruptionRejected(p: Parser, m: Msg, pre: Bytes, mid: Bytes, bad: Bytes, post: Bytes)
    requires p.state.Idle? && IsFinal(m) && Id24(m.msgid) && Body(m) == pre + mid + post
    requires 1 <= |mid| == |bad| <= 2 && mid != bad
    ensures Outs(p, Frame(m, pre + bad + post, m.checksum)) == []
    ensures Outs(p, Frame(m, pre + mid + post, m.checksum)) == [Seen(m)]
  {
    hide Step, CrcExtra, HeaderBytes, Run, Outs, Padded, SumLow, SumHigh;
    FrameRun(p, m, pre + bad + post, m.checksum);
    FrameRun(p, m, pre + mid + post, m.checksum);
    var c := Accumulate(INIT, HeaderBytes(m));
    ShortBurst(c, pre, mid, bad, post);
    var right, wrong := Accumulate(c, pre + mid + post), Accumulate(c, pre + bad + post);
    if Step(right, CrcExtra(m.msgid)) == Step(wrong, CrcExtra(m.msgid)) {
      StepInjective(Accumulate(c, pre + mid + post), Accumulate(c, pre + bad + post), CrcExtra(m.msgid));
      assert false;
    }
  }

  lemma ShortBurst(c: bv16, pre: Bytes, mid: Bytes, bad: Bytes, post: Bytes)
    requires 1 <= |mid| == |bad| <= 2 && mid != bad
    ensures Accumulate(c, pre + mid + post) != Accumulate(c, pre + bad + post)
  {
    if |mid| == 2 {
      assert mid == [mid[0], mid[1]] && bad == [bad[0], bad[1]];
      BurstDetected(c, pre, mid[0], mid[1], bad[0], bad[1], post);
    } else {
      assert mid == [mid[0]] && bad == [bad[0]];
      ByteDetected(c, pre, mid[0], bad[0], post);
    }
  }
}
