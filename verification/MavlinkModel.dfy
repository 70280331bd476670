/** The MAVLink v2 codec as functions: what finalising and serialising a message produce, and the
    byte-driven parser as a transition function. */
module MavlinkModel {
  import opened MavlinkCrc

  const STX: bv8 := 0xFD
  const MAX_PAYLOAD := 255
  const NON_PAYLOAD := 12

  type Payload = b: Bytes | |b| == MAX_PAYLOAD ghost witness seq(MAX_PAYLOAD, _ => 0)

  /** mavlink_message_t. */
  datatype Msg = Msg(magic: bv8, len: bv8, incompat: bv8, compat: bv8, seqNo: bv8, sysid: bv8, compid: bv8,
                     msgid: bv32, payload: Payload, checksum: bv16)

  function Zeros(n: nat): Bytes {
    seq(n, _ => 0)
  }

  const Blank := Msg(0, 0, 0, 0, 0, 0, 0, 0, Zeros(MAX_PAYLOAD), 0)

  function Size(b: bv8): (n: nat)
    ensures n <= MAX_PAYLOAD
  {
    b as int
  }

  /** The per-message CRC seed. */
  function CrcExtra(msgid: bv32): bv8 {
    if msgid == 0 then 50
    else if msgid == 1 then 124
    else if msgid == 24 then 24
    else if msgid == 30 then 39
    else if msgid == 33 then 104
    else if msgid == 65 then 118
    else if msgid == 74 then 20
    else if msgid == 76 then 152
    else if msgid == 77 then 143
    else if msgid == 147 then 154
    else if msgid == 253 then 83
    else 0
  }

  function IdByte(msgid: bv32, k: nat): bv8
    requires k < 3
  {
    if k == 0 then (msgid & 0xFF) as bv8
    else if k == 1 then ((msgid >> 8) & 0xFF) as bv8
    else ((msgid >> 16) & 0xFF) as bv8
  }

  function IdOr(id: bv32, b: bv8, k: nat): bv32
    requires k < 3
  {
    if k == 0 then b as bv32
    else if k == 1 then id | ((b as bv32) << 8)
    else id | ((b as bv32) << 16)
  }

  predicate Id24(msgid: bv32) {
    msgid < 0x100_0000
  }

  lemma IdRoundTrip(msgid: bv32)
    requires Id24(msgid)
    ensures IdOr(IdOr(IdOr(0, IdByte(msgid, 0), 0), IdByte(msgid, 1), 1), IdByte(msgid, 2), 2) == msgid
  {
  }

  function SumLow(c: bv16): bv8 {
    (c & 0xFF) as bv8
  }

  function SumHigh(c: bv16): bv8 {
    ((c >> 8) & 0xFF) as bv8
  }

  function SumSetLow(b: bv8): bv16 {
    b as bv16
  }

  function SumSetHigh(c: bv16, b: bv8): bv16 {
    c | ((b as bv16) << 8)
  }

  lemma SumRoundTrip(c: bv16)
    ensures SumSetHigh(SumSetLow(SumLow(c)), SumHigh(c)) == c
  {
  }

  // ----- encoding

  /** The nine header bytes after the start marker. */
  function HeaderBytes(m: Msg): Bytes {
    [m.len, m.incompat, m.compat, m.seqNo, m.sysid, m.compid,
     IdByte(m.msgid, 0), IdByte(m.msgid, 1), IdByte(m.msgid, 2)]
  }

  function Body(m: Msg): Bytes
  {
    m.payload[..Size(m.len)]
  }

  /** The checksum over the header bytes, the payload and the seed of the message. */
  function Checksum(m: Msg): bv16
  {
    Step(Accumulate(Accumulate(INIT, HeaderBytes(m)), Body(m)), CrcExtra(m.msgid))
  }

  function Finalized(m: Msg, seqNo: bv8): Msg
  {
    var n := m.(magic := STX, incompat := 0, compat := 0, seqNo := seqNo);
    n.(checksum := Checksum(n))
  }

  /** A message as mavlink_finalize leaves it, flags and number free. */
  predicate IsFinal(m: Msg) {
    m.magic == STX && m.checksum == Checksum(m)
  }

  function Serialized(m: Msg): Bytes
  {
    [m.magic] + HeaderBytes(m) + Body(m) + [SumLow(m.checksum), SumHigh(m.checksum)]
  }

  // ----- the parser

  datatype ParseState =
    | Idle | GotStx | GotLength | GotIncompat | GotCompat | GotSeq | GotSysid | GotCompid
    | GotMsgid1 | GotMsgid2 | GotMsgid3 | GotPayload | GotCrc1

  datatype Parser = Parser(state: ParseState, rx: Msg, idx: nat, crc: bv16)

  const FreshParser := Parser(Idle, Blank, 0, 0)

  /** What holds between bytes; in particular a payload byte always has room. */
  predicate Ok(p: Parser) {
    p.state.GotMsgid3? ==> p.idx < Size(p.rx.len)
  }

  function Fed(p: Parser, state: ParseState, rx: Msg, b: bv8): Parser {
    Parser(state, rx, p.idx, Step(p.crc, b))
  }

  /** The seed closes the CRC once the payload is complete. */
  function Sealed(p: Parser): Parser {
    p.(state := GotPayload, crc := Step(p.crc, CrcExtra(p.rx.msgid)))
  }

  /** mavlink_parse_byte. */
  function Next(p: Parser, b: bv8): (q: Parser)
    requires Ok(p)
    ensures Ok(q)
  {
    match p.state
    case Idle =>
      if b == STX then Parser(GotStx, Blank.(magic := b), 0, INIT) else p
    case GotStx => Fed(p, GotLength, p.rx.(len := b), b)
    case GotLength => Fed(p, GotIncompat, p.rx.(incompat := b), b)
    case GotIncompat => Fed(p, GotCompat, p.rx.(compat := b), b)
    case GotCompat => Fed(p, GotSeq, p.rx.(seqNo := b), b)
    case GotSeq => Fed(p, GotSysid, p.rx.(sysid := b), b)
    case GotSysid => Fed(p, GotCompid, p.rx.(compid := b), b)
    case GotCompid => Fed(p, GotMsgid1, p.rx.(msgid := IdOr(p.rx.msgid, b, 0)), b)
    case GotMsgid1 => Fed(p, GotMsgid2, p.rx.(msgid := IdOr(p.rx.msgid, b, 1)), b)
    case GotMsgid2 =>
      var q := Fed(p, GotMsgid3, p.rx.(msgid := IdOr(p.rx.msgid, b, 2)), b);
      if Size(q.rx.len) == 0 then Sealed(q) else q.(idx := 0)
    case GotMsgid3 =>
      var q := Fed(p, GotMsgid3, p.rx.(payload := p.rx.payload[p.idx := b]), b).(idx := p.idx + 1);
      if q.idx >= Size(q.rx.len) then Sealed(q) else q
    case GotPayload => p.(state := GotCrc1, rx := p.rx.(checksum := SumSetLow(b)))
    case GotCrc1 => p.(state := Idle, rx := p.rx.(checksum := SumSetHigh(p.rx.checksum, b)))
  }

  /** The message a byte completes, if it does and the checksum agrees. */
  function Emits(p: Parser, b: bv8): seq<Msg>
    requires Ok(p)
  {
    if p.state.GotCrc1? && Next(p, b).rx.checksum == p.crc then [Next(p, b).rx] else []
  }

  function Run(p: Parser, bs: Bytes): (q: Parser)
    requires Ok(p)
    ensures Ok(q)
    decreases |bs|
  {
    if bs == [] then p else Run(Next(p, bs[0]), bs[1..])
  }

  function Outs(p: Parser, bs: Bytes): seq<Msg>
    requires Ok(p)
    decreases |bs|
  {
    if bs == [] then [] else Emits(p, bs[0]) + Outs(Next(p, bs[0]), bs[1..])
  }
}
