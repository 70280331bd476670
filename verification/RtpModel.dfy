/** H.264 over RTP as functions on byte strings: the packets a frame is cut into (sections 5.6 and
    5.8 of RFC 6184, header of section 5.1 of RFC 3550) and what the viewer makes of a packet. */
module RtpModel {

  /** Byte strings.  Nothing below depends on the 0..255 range of an element, so it is not
      part of the type; ByteString says when it holds. */
  type Bytes = seq<int>

  predicate ByteString(b: Bytes) {
    forall i :: 0 <= i < |b| ==> 0 <= b[i] < 256
  }

  const HEADER_SIZE := 12
  const PKT_MAX := 1200
  const CHUNK_MAX := 1198
  const TS_STEP := 18000
  const U16 := 0x1_0000
  const U32 := 0x1_0000_0000

  type u16 = x: int | 0 <= x < 0x1_0000
  type u32 = x: int | 0 <= x < 0x1_0000_0000

  // ----- Annex B splitting

  /** Length of the start code at p; one must be followed by at least one byte to count. */
  function StartLen(buf: Bytes, p: nat): nat {
    if p + 4 < |buf| && buf[p] == 0 && buf[p + 1] == 0 && buf[p + 2] == 0 && buf[p + 3] == 1 then 4
    else if p + 3 < |buf| && buf[p] == 0 && buf[p + 1] == 0 && buf[p + 2] == 1 then 3
    else 0
  }

  predicate CodeAt(buf: Bytes, p: nat)
    requires p + 3 < |buf|
  {
    buf[p] == 0 && buf[p + 1] == 0 && (buf[p + 2] == 1 || (buf[p + 2] == 0 && buf[p + 3] == 1))
  }

  /** The next start code at or after p, or the end of the buffer. */
  function NextCode(buf: Bytes, p: nat): (n: nat)
    requires p <= |buf|
    ensures p <= n <= |buf|
    decreases |buf| - p
  {
    if p + 3 >= |buf| then |buf| else if CodeAt(buf, p) then p else NextCode(buf, p + 1)
  }

  /** A NAL unit to send, whether it closes its frame, and the frame's timestamp. */
  datatype RawJob = Job(nal: Bytes, marker: bool, ts: u32)

  type Job = j: RawJob | |j.nal| > 0 witness Job([0], false, 0)

  datatype Found = NotFound | Found(start: nat, next: nat)

  /** The first NAL unit that starts at or after p; empty ones are passed over. */
  function Find(buf: Bytes, p: nat): (f: Found)
    requires p <= |buf|
    ensures f.Found? ==> p < f.start < f.next <= |buf|
    decreases |buf| - p
  {
    if p == |buf| then NotFound else
    var start := p + StartLen(buf, p);
    if start == p then Find(buf, p + 1)
    else if NextCode(buf, start) == start then Find(buf, start)
    else Found(start, NextCode(buf, start))
  }

  function Jobs(buf: Bytes, p: nat, ts: u32): seq<Job>
    requires p <= |buf|
    decreases |buf| - p
  {
    match Find(buf, p)
    case NotFound => []
    case Found(start, next) => [Job(buf[start..next], next == |buf|, ts)] + Jobs(buf, next, ts)
  }

  // ----- packets

  /** A packet by what it carries: a whole NAL, or the fragment of one that starts at off.
      num is the sequence number before it is reduced to 16 bits. */
  datatype RawPacket =
    | Single(num: nat, nal: Bytes, marker: bool, ts: u32)
    | Fu(num: nat, nal: Bytes, off: nat, marker: bool, ts: u32)

  predicate PacketOk(p: RawPacket) {
    match p
    case Single(_, nal, _, _) => 1 <= |nal| <= PKT_MAX
    case Fu(_, nal, off, _, _) => |nal| > PKT_MAX && 1 <= off < |nal|
  }

  type Packet = p: RawPacket | PacketOk(p) witness Single(0, [0], false, 0)

  function Min(a: int, b: int): int {
    if a < b then a else b
  }

  function End(nal: Bytes, off: nat): nat
    requires off <= |nal|
  {
    off + Min(CHUNK_MAX, |nal| - off)
  }

  function NalType(b: int): int {
    b % 32
  }

  /** The forbidden bit and the importance bits, in place. */
  function Nri(b: int): int {
    b - b % 32
  }

  function Payload(p: Packet): Bytes
  {
    match p
    case Single(_, nal, _, _) => nal
    case Fu(_, nal, off, _, _) =>
      var start, end := if off == 1 then 0x80 else 0, if End(nal, off) == |nal| then 0x40 else 0;
      [Nri(nal[0]) + 28, start + end + NalType(nal[0])] + nal[off..End(nal, off)]
  }

  /** The marker bit on the wire: only the last fragment of a closing NAL carries it. */
  predicate WireMarker(p: Packet)
  {
    p.marker && (p.Fu? ==> End(p.nal, p.off) == |p.nal|)
  }

  function Header(seqNo: u16, ts: u32, ssrc: u32, marker: bool): Bytes {
    [0x80, (if marker then 0x80 else 0) + 96, seqNo / 256, seqNo % 256,
     ts / 0x100_0000, (ts / 0x1_0000) % 256, (ts / 0x100) % 256, ts % 256,
     ssrc / 0x100_0000, (ssrc / 0x1_0000) % 256, (ssrc / 0x100) % 256, ssrc % 256]
  }

  /** Four bytes, big-endian. */
  function Big32(b: Bytes, at: nat): int
    requires at + 4 <= |b|
  {
    ((b[at] * 256 + b[at + 1]) * 256 + b[at + 2]) * 256 + b[at + 3]
  }

  lemma Big32Is(n: u32)
    ensures Big32([n / 0x100_0000, (n / 0x1_0000) % 256, (n / 0x100) % 256, n % 256], 0) == n
  {
    assert n / 0x100_0000 == n / 0x1_0000 / 256;
    assert n / 0x1_0000 == n / 0x100 / 256;
  }

  /** The twelve header bytes of RFC 3550, section 5.1: version 2 and no padding, extension or sources; the
      marker over payload type 96; then number, timestamp and source, big-endian. */
  lemma HeaderFields(seqNo: u16, ts: u32, ssrc: u32, marker: bool)
    ensures var h := Header(seqNo, ts, ssrc, marker);
            && |h| == 12 && h[0] / 64 == 2 && h[0] % 64 == 0
            && h[1] % 128 == 96 && (h[1] / 128 == 1 <==> marker) && h[1] / 128 <= 1
            && h[2] * 256 + h[3] == seqNo && Big32(h, 4) == ts && Big32(h, 8) == ssrc
  {
    Big32Is(ts);
    Big32Is(ssrc);
  }

  /** The first two payload bytes of a fragment, as RFC 6184, section 5.8 lays out an FU-A: the unit's forbidden
      and importance bits over type 28; then start and end flags over the unit's type. */
  lemma FragmentHeader(p: Packet)
    requires p.Fu?
    ensures var b := Payload(p);
            && b[0] % 32 == 28 && b[0] / 32 == p.nal[0] / 32
            && b[1] % 32 == p.nal[0] % 32 && b[1] / 32 % 2 == 0
            && (b[1] / 128 % 2 == 1 <==> p.off == 1) && (b[1] / 64 % 2 == 1 <==> End(p.nal, p.off) == |p.nal|)
            && b[2..] == p.nal[p.off..End(p.nal, p.off)]
  {
  }

  function Wire(p: Packet, ssrc: u32): Bytes
  {
    Header(p.num % U16, p.ts, ssrc, WireMarker(p)) + Payload(p)
  }

  function Wires(ps: seq<Packet>, ssrc: u32): seq<Bytes>
  {
    seq(|ps|, i requires 0 <= i < |ps| => Wire(ps[i], ssrc))
  }

  /** The fragments of a long NAL from off on.  Each one first wastes `extra` numbers. */
  function FuPackets(j: Job, off: nat, num: nat, extra: nat): (ps: seq<Packet>)
    requires |j.nal| > PKT_MAX && 1 <= off <= |j.nal|
    decreases |j.nal| - off
  {
    if off == |j.nal| then [] else
    [Fu(num + extra, j.nal, off, j.marker, j.ts)] + FuPackets(j, End(j.nal, off), num + extra + 1, extra)
  }

  function PacketsOf(j: Job, num: nat, extra: nat): (ps: seq<Packet>)
  {
    if |j.nal| <= PKT_MAX then [Single(num, j.nal, j.marker, j.ts)] else FuPackets(j, 1, num, extra)
  }

  function FuNumbers(j: Job, off: nat, num: nat, extra: nat): (n: nat)
    requires 1 <= off <= |j.nal|
    ensures n >= num
    decreases |j.nal| - off
  {
    if off == |j.nal| then num else FuNumbers(j, End(j.nal, off), num + extra + 1, extra)
  }

  /** The number after those a job uses up. */
  function NumberAfter(j: Job, num: nat, extra: nat): (n: nat)
    ensures n > num
  {
    if |j.nal| <= PKT_MAX then num + 1 else FuNumbers(j, End(j.nal, 1), num + extra + 1, extra)
  }

  /** Everything a sender puts on the wire for a list of jobs. */
  function History(jobs: seq<Job>, num: nat, extra: nat): (ps: seq<Packet>)
  {
    if jobs == [] then [] else
    PacketsOf(jobs[0], num, extra) + History(jobs[1..], NumberAfter(jobs[0], num, extra), extra)
  }

  function NumberAfterAll(jobs: seq<Job>, num: nat, extra: nat): nat
  {
    if jobs == [] then num else NumberAfterAll(jobs[1..], NumberAfter(jobs[0], num, extra), extra)
  }

  // ----- the viewer

  datatype Option<T> = None | Some(value: T)

  datatype Yield = Yield(nal: Bytes, marker: bool)

  /** RTPParser's fields; lastSeq is -1 before the first packet. */
  datatype ParserState = ParserState(fuaBuf: Bytes, nalHeader: int, lastSeq: int, drops: int, count: nat)

  const Fresh := ParserState([], 0, -1, 0, 0)

  /** The sequence check: a gap drops whatever was being reassembled. */
  function Continue(st: ParserState, seqNo: int): ParserState {
    var gap := (seqNo - st.lastSeq) % U16;
    var counted := st.(count := st.count + 1, lastSeq := seqNo);
    if st.lastSeq >= 0 && seqNo != (st.lastSeq + 1) % U16
    then counted.(drops := st.drops + gap - 1, fuaBuf := [])
    else counted
  }

  /** The packet body, after the sequence check. */
  function Receive(st: ParserState, payload: Bytes, marker: bool): (ParserState, Option<Yield>)
    requires |payload| > 0
  {
    var t := NalType(payload[0]);
    if 1 <= t <= 23 then (st, Some(Yield(payload, marker)))
    else if t != 28 || |payload| < 2 then (st, None)
    else
      var header := Nri(payload[0]) + NalType(payload[1]);
      var st1 :=
        if payload[1] >= 0x80 then st.(nalHeader := header, fuaBuf := [header] + payload[2..])
        else if st.fuaBuf != [] then st.(fuaBuf := st.fuaBuf + payload[2..])
        else st;
      if (payload[1] / 0x40) % 2 == 1 && st1.fuaBuf != []
      then (st1.(fuaBuf := []), Some(Yield(st1.fuaBuf, marker)))
      else (st1, None)
  }

  function SeqOf(data: Bytes): int
    requires |data| >= 4
  {
    data[2] * 256 + data[3]
  }

  function Parse(st: ParserState, data: Bytes): (ParserState, Option<Yield>) {
    if |data| < HEADER_SIZE || |data| <= HEADER_SIZE + (data[0] % 16) * 4 then (st, None)
    else Receive(Continue(st, SeqOf(data)), data[HEADER_SIZE + (data[0] % 16) * 4..], data[1] >= 0x80)
  }

  function Items(o: Option<Yield>): seq<Yield> {
    if o.Some? then [o.value] else []
  }

  /** The state after, and what is yielded by, a sequence of datagrams. */
  function ParsedState(st: ParserState, datas: seq<Bytes>): ParserState
    decreases |datas|
  {
    if datas == [] then st else ParsedState(Parse(st, datas[0]).0, datas[1..])
  }

  function Parsed(st: ParserState, datas: seq<Bytes>): seq<Yield>
    decreases |datas|
  {
    if datas == [] then [] else Items(Parse(st, datas[0]).1) + Parsed(Parse(st, datas[0]).0, datas[1..])
  }
}
