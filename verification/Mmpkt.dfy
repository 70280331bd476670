/** The packet buffer of mmpkt.h: laying a packet out in one buffer, and the operations on its data. */
module Mmpkt {

  type Byte = x: int | 0 <= x < 256
  type Bytes = seq<Byte>

  datatype Option<+T> = None | Some(value: T)

  const WRAP := 0x1_0000_0000
  const UINT32_MAX := 0xFFFF_FFFF
  const INT32_MAX := 0x7FFF_FFFF

  // ----- mmpkt_init_buf

  /** sizeof(struct mmpkt) on the 32-bit target: seven words. */
  const HEADER := 28

  /** x with its two low bits set: x | 3. */
  function OrThree(x: nat): nat {
    x - x % 4 + 3
  }

  /** MM_FAST_ROUND_UP(x, 4) on 32-bit words: ((x - 1) | 3) + 1. */
  function RoundUp(x: nat): nat {
    (OrThree((x - 1) % WRAP) + 1) % WRAP
  }

  /** The next multiple of 4, as it would be without wrap-around. */
  function Up4(x: nat): nat {
    (x + 3) / 4 * 4
  }

  function Signed(x: nat): int
    requires x < WRAP
  {
    if x <= INT32_MAX then x else x - WRAP
  }

  /** Where the parts of a packet lie in its buffer: the header at 0, the data at HEADER and the
      metadata after it.  `start` is the initial start_offset. */
  datatype Layout = Layout(dataLen: nat, metadata: nat, start: nat)

  /** The data area that the sizes ask for, or the largest that the buffer leaves. */
  function DataLength(bufLen: nat, spaceAtStart: nat, spaceAtEnd: nat, metadata: nat): nat {
    if spaceAtEnd != UINT32_MAX then RoundUp((spaceAtStart + spaceAtEnd) % WRAP)
    else
      var left := (bufLen - HEADER - metadata) % WRAP;
      left - left % 4
  }

  function InitBuf(bufLen: nat, spaceAtStart: nat, spaceAtEnd: nat, metadataSize: nat): Option<Layout>
    requires bufLen < WRAP && spaceAtStart < WRAP && spaceAtEnd < WRAP && metadataSize < WRAP
  {
    var metadata := RoundUp(metadataSize);
    var dataLen := DataLength(bufLen, spaceAtStart, spaceAtEnd, metadata);
    if spaceAtEnd == UINT32_MAX && Signed(dataLen) < Signed(spaceAtStart) then None
    else if (HEADER + dataLen + metadata) % WRAP > bufLen then None
    else Some(Layout(dataLen, metadata, spaceAtStart))
  }

  /** Header, data and metadata lie one after another inside the buffer, on word boundaries; the
      metadata has its size and the data area its reserved space. */
  predicate WellLaid(l: Layout, bufLen: nat, spaceAtStart: nat, room: nat, metadataSize: nat) {
    && HEADER + l.dataLen + l.metadata <= bufLen
    && l.dataLen % 4 == 0 && l.metadata % 4 == 0 && l.metadata >= metadataSize
    && l.start == spaceAtStart && l.start + room <= l.dataLen
  }

  lemma Up4Least(x: nat, y: nat)
    requires y % 4 == 0 && x <= y
    ensures x <= Up4(x) <= y && Up4(x) % 4 == 0
  {
  }

  /** The macro rounds up to a multiple of 4, and wraps to 0 from above the last one. */
  lemma RoundUpExact(x: nat)
    requires x < WRAP
    ensures RoundUp(x) == Up4(x) % WRAP && RoundUp(x) % 4 == 0
    ensures Up4(x) < WRAP ==> RoundUp(x) == Up4(x) >= x
    ensures Up4(x) >= WRAP ==> Up4(x) == WRAP && RoundUp(x) == 0
  {
    if x == 0 {
      assert (x - 1) % WRAP == WRAP - 1;
    } else {
      assert (x - 1) % WRAP == x - 1;
      assert Up4(x) == OrThree(x - 1) + 1;
    }
  }

  /** With both spaces given: a result that is not NULL is well laid out exactly when the sizes, rounded
      up, do not add up to 2^32 or more. */
  lemma LaidOutIffNoWrap(bufLen: nat, spaceAtStart: nat, spaceAtEnd: nat, metadataSize: nat)
    requires bufLen < WRAP && spaceAtStart < WRAP && spaceAtEnd < UINT32_MAX && metadataSize < WRAP
    requires InitBuf(bufLen, spaceAtStart, spaceAtEnd, metadataSize).Some?
    ensures var l := InitBuf(bufLen, spaceAtStart, spaceAtEnd, metadataSize).value;
            WellLaid(l, bufLen, spaceAtStart, spaceAtEnd, metadataSize)
            <==> HEADER + Up4(spaceAtStart + spaceAtEnd) + Up4(metadataSize) < WRAP
  {
    hide RoundUp;
    var l := InitBuf(bufLen, spaceAtStart, spaceAtEnd, metadataSize).value;
    var space := spaceAtStart + spaceAtEnd;
    RoundUpExact(metadataSize);
    RoundUpExact(space % WRAP);
    assert l.dataLen == RoundUp(space % WRAP) && l.metadata == RoundUp(metadataSize);
    Up4AtLeast(space);
    if space < WRAP {
      assert space % WRAP == space;
    }
    if WellLaid(l, bufLen, spaceAtStart, spaceAtEnd, metadataSize) {
      Up4Least(space, l.dataLen);
      Up4Least(metadataSize, l.metadata);
    }
  }

  lemma Up4AtLeast(x: nat)
    ensures Up4(x) >= x && Up4(x) % 4 == 0
  {
  }

  /** Without wrap-around the result is not NULL exactly when everything fits. */
  lemma InitBufFits(bufLen: nat, spaceAtStart: nat, spaceAtEnd: nat, metadataSize: nat)
    requires bufLen < WRAP && spaceAtStart < WRAP && spaceAtEnd < UINT32_MAX && metadataSize < WRAP
    requires HEADER + Up4(spaceAtStart + spaceAtEnd) + Up4(metadataSize) < WRAP
    ensures InitBuf(bufLen, spaceAtStart, spaceAtEnd, metadataSize).Some?
            <==> HEADER + Up4(spaceAtStart + spaceAtEnd) + Up4(metadataSize) <= bufLen
  {
    hide RoundUp;
    RoundUpExact(metadataSize);
    RoundUpExact(spaceAtStart + spaceAtEnd);
  }

  /** With the whole buffer asked for and any sizes: a result that is not NULL is well laid out exactly when
      header, metadata and the space at the start, each rounded up, fit the buffer. */
  lemma WholeLaidOutIffFits(bufLen: nat, spaceAtStart: nat, metadataSize: nat)
    requires bufLen < WRAP && spaceAtStart < WRAP && metadataSize < WRAP
    requires InitBuf(bufLen, spaceAtStart, UINT32_MAX, metadataSize).Some?
    ensures var l := InitBuf(bufLen, spaceAtStart, UINT32_MAX, metadataSize).value;
            WellLaid(l, bufLen, spaceAtStart, 0, metadataSize)
            <==> HEADER + Up4(metadataSize) + Up4(spaceAtStart) <= bufLen
  {
    hide RoundUp;
    var l := InitBuf(bufLen, spaceAtStart, UINT32_MAX, metadataSize).value;
    RoundUpExact(metadataSize);
    Up4AtLeast(metadataSize);
    Up4AtLeast(spaceAtStart);
    if WellLaid(l, bufLen, spaceAtStart, 0, metadataSize) {
      Up4Least(spaceAtStart, l.dataLen);
      Up4Least(metadataSize, l.metadata);
    }
    var room := bufLen - HEADER - Up4(metadataSize);
    if room >= 0 {
      assert room % WRAP == room;
    }
  }

  /** And when they fit, the result is NULL only if the signed comparison is fooled: exactly when more than
      INT32_MAX bytes are left for the data and no more than that are to be kept free before it. */
  lemma WholeBufferFits(bufLen: nat, spaceAtStart: nat, metadataSize: nat)
    requires bufLen < WRAP && spaceAtStart < WRAP && metadataSize < WRAP
    requires HEADER + Up4(metadataSize) + Up4(spaceAtStart) <= bufLen
    ensures var room := bufLen - HEADER - Up4(metadataSize);
            InitBuf(bufLen, spaceAtStart, UINT32_MAX, metadataSize) == None
            <==> room - room % 4 > INT32_MAX && spaceAtStart <= INT32_MAX
  {
    hide RoundUp;
    RoundUpExact(metadataSize);
    Up4AtLeast(spaceAtStart);
    var room := bufLen - HEADER - Up4(metadataSize);
    assert room % WRAP == room;
    Up4Least(spaceAtStart, Up4(spaceAtStart));
  }

  /** With the whole buffer asked for and no size over INT32_MAX, header and metadata together: the result is
      not NULL exactly when the reserved space fits, and then it is well laid out and takes all whole words
      there are. */
  lemma WholeBuffer(bufLen: nat, spaceAtStart: nat, metadataSize: nat)
    requires bufLen <= INT32_MAX && spaceAtStart <= INT32_MAX && HEADER + Up4(metadataSize) <= INT32_MAX + 1
    ensures var r := InitBuf(bufLen, spaceAtStart, UINT32_MAX, metadataSize);
            && (r.Some? <==> HEADER + Up4(metadataSize) + Up4(spaceAtStart) <= bufLen)
            && (r.Some? ==> WellLaid(r.value, bufLen, spaceAtStart, 0, metadataSize)
                            && bufLen < HEADER + r.value.dataLen + r.value.metadata + 4)
  {
    hide RoundUp;
    RoundUpExact(metadataSize);
    Up4Least(spaceAtStart, Up4(spaceAtStart));
    var room := bufLen - HEADER - Up4(metadataSize);
    if room >= 0 {
      assert (room % WRAP) == room;
      if spaceAtStart <= room - room % 4 {
        Up4Least(spaceAtStart, room - room % 4);
      }
    } else {
      assert room % WRAP == room + WRAP;
    }
  }

  /** Metadata of INT32_MAX bytes is over that limit, and is accepted in an empty buffer. */
  lemma HugeMetadataIsAccepted()
    ensures InitBuf(0, 0, UINT32_MAX, INT32_MAX) == Some(Layout(0x7FFF_FFE4, 0x8000_0000, 0))
  {
  }

  /** Wrap-around is possible: with 2^32 - 4 bytes before the data and 8 after it, a 64-byte buffer is
      accepted, with a start offset far outside it. */
  lemma WrapIsAccepted()
    ensures InitBuf(64, 0xFFFF_FFFC, 8, 0) == Some(Layout(4, 0, 0xFFFF_FFFC))
  {
  }

  // ----- the operations on the data

  /** A packet as the bytes before its data, the data, and the bytes after it. */
  datatype Packet = Packet(head: Bytes, data: Bytes, tail: Bytes)

  /** The functions of the header, and the store through a pointer that one of them returned: Write puts
      bytes into the data from place `at` on. */
  datatype Op =
    | Prepend(n: nat) | PrependData(bytes: Bytes)
    | Append(n: nat) | AppendData(bytes: Bytes)
    | RemoveFromStart(n: nat) | RemoveFromEnd(n: nat)
    | Truncate(n: nat)
    | AdjustStart(delta: int)
    | Write(at: nat, bytes: Bytes)

  function Overwritten(w: Bytes, at: nat, bytes: Bytes): Bytes
    requires at + |bytes| <= |w|
  {
    w[..at] + bytes + w[at + |bytes|..]
  }

  function Capacity(p: Packet): nat {
    |p.head| + |p.data| + |p.tail|
  }

  /** The start offset that a call of mmpkt_adjust_start_offset leaves. */
  function Adjusted(p: Packet, delta: int): nat {
    (|p.head| + delta) % WRAP
  }

  /** One operation; None when one of its assertions fails. */
  function Step(p: Packet, op: Op): Option<Packet> {
    match op
    case Prepend(n) =>
      if n > |p.head| then None
      else Some(Packet(p.head[..|p.head| - n], p.head[|p.head| - n..] + p.data, p.tail))
    case PrependData(bytes) =>
      if |bytes| > |p.head| then None
      else Some(Packet(p.head[..|p.head| - |bytes|], bytes + p.data, p.tail))
    case Append(n) =>
      if n > |p.tail| then None else Some(Packet(p.head, p.data + p.tail[..n], p.tail[n..]))
    case AppendData(bytes) =>
      if |bytes| > |p.tail| then None else Some(Packet(p.head, p.data + bytes, p.tail[|bytes|..]))
    case RemoveFromStart(n) =>
      if n > |p.data| then Some(p) else Some(Packet(p.head + p.data[..n], p.data[n..], p.tail))
    case RemoveFromEnd(n) =>
      if n > |p.data| then Some(p)
      else Some(Packet(p.head, p.data[..|p.data| - n], p.data[|p.data| - n..] + p.tail))
    case Truncate(n) =>
      if n > |p.data| then None else Some(Packet(p.head, p.data[..n], p.data[n..] + p.tail))
    case AdjustStart(delta) =>
      var start := Adjusted(p, delta);
      if p.data != [] || start > Capacity(p) then None
      else Some(Packet((p.head + p.tail)[..start], [], (p.head + p.tail)[start..]))
    case Write(at, bytes) =>
      if at + |bytes| > |p.data| then None else Some(p.(data := Overwritten(p.data, at, bytes)))
  }

  function Run(p: Packet, ops: seq<Op>): Option<Packet>
    decreases |ops|
  {
    if ops == [] then Some(p)
    else
      var before := Run(p, ops[..|ops| - 1]);
      if before == None then None else Step(before.value, ops[|ops| - 1])
  }

  lemma StepKeepsCapacity(p: Packet, op: Op)
    requires Step(p, op).Some?
    ensures Capacity(Step(p, op).value) == Capacity(p)
  {
  }

  /** Where the data starts after an adjustment: for buffers up to 2 GB and any int32 the assertions pass exactly
      when there is no data and the shifted start lies in the buffer, and then that is where it starts. */
  lemma AdjustMovesStart(p: Packet, delta: int)
    requires Capacity(p) < 0x8000_0000 && -0x8000_0000 <= delta < 0x8000_0000
    ensures Step(p, AdjustStart(delta)).Some? <==> p.data == [] && 0 <= |p.head| + delta <= Capacity(p)
    ensures Step(p, AdjustStart(delta)).Some? ==>
      (var q := Step(p, AdjustStart(delta)).value;
       |q.head| == |p.head| + delta && q.data == [] && q.head + q.tail == p.head + p.tail)
  {
    var sum := |p.head| + delta;
    assert Adjusted(p, delta) == if sum < 0 then sum + WRAP else sum;
    if p.data == [] && 0 <= sum <= Capacity(p) {
      assert (p.head + p.tail)[..sum] + (p.head + p.tail)[sum..] == p.head + p.tail;
    }
  }

  /** An adjustment and its opposite leave the packet as it was. */
  lemma AdjustUndone(p: Packet, delta: int)
    requires Capacity(p) < 0x8000_0000 && -0x8000_0000 < delta < 0x8000_0000
    requires Step(p, AdjustStart(delta)).Some?
    ensures Step(Step(p, AdjustStart(delta)).value, AdjustStart(-delta)) == Some(p)
  {
    var q := Step(p, AdjustStart(delta)).value;
    StepKeepsCapacity(p, AdjustStart(delta));
    AdjustMovesStart(p, delta);
    AdjustMovesStart(q, -delta);
    var r := Step(q, AdjustStart(-delta)).value;
    assert r.head == (r.head + r.tail)[..|p.head|] == p.head;
    assert r.tail == (r.head + r.tail)[|p.head|..] == p.tail;
  }

  /** Whatever the operations, if their assertions pass the packet keeps within its buffer: head, data and
      tail always add up to the buffer's length. */
  lemma {:induction false} RunKeepsCapacity(p: Packet, ops: seq<Op>)
    ensures Run(p, ops).Some? ==> Capacity(Run(p, ops).value) == Capacity(p)
    decreases |ops|
  {
    hide Step;
    if ops != [] && Run(p, ops).Some? {
      var before := ops[..|ops| - 1];
      RunKeepsCapacity(p, before);
      StepKeepsCapacity(Run(p, before).value, ops[|ops| - 1]);
    }
  }

  /** Removing what was prepended restores the packet; only the bytes before the data may differ, and
      not even those if nothing was copied in. */
  lemma RemoveUndoesPrepend(p: Packet, bytes: Bytes, n: nat)
    requires |bytes| <= |p.head| && n <= |p.head|
    ensures Step(Step(p, Prepend(n)).value, RemoveFromStart(n)).value == p
    ensures var q := Step(Step(p, PrependData(bytes)).value, RemoveFromStart(|bytes|)).value;
            q == p.(head := p.head[..|p.head| - |bytes|] + bytes)
  {
  }

  lemma RemoveUndoesAppend(p: Packet, bytes: Bytes, n: nat)
    requires |bytes| <= |p.tail| && n <= |p.tail|
    ensures Step(Step(p, Append(n)).value, RemoveFromEnd(n)).value == p
    ensures var q := Step(Step(p, AppendData(bytes)).value, RemoveFromEnd(|bytes|)).value;
            q == p.(tail := bytes + p.tail[|bytes|..])
  {
    assert (p.data + p.tail[..n])[..|p.data|] == p.data;
    assert (p.data + p.tail[..n])[|p.data|..] == p.tail[..n];
    assert (p.data + bytes)[..|p.data|] == p.data;
    assert (p.data + bytes)[|p.data|..] == bytes;
  }

  /** And conversely, what was removed can be taken back. */
  lemma PrependUndoesRemove(p: Packet, n: nat)
    requires n <= |p.data|
    ensures Step(Step(p, RemoveFromStart(n)).value, Prepend(n)).Some?
    ensures Step(Step(p, RemoveFromStart(n)).value, Prepend(n)).value == p
    ensures Step(Step(p, RemoveFromEnd(n)).value, Append(n)).Some?
    ensures Step(Step(p, RemoveFromEnd(n)).value, Append(n)).value == p
    ensures Step(p, Truncate(|p.data| - n)) == Step(p, RemoveFromEnd(n))
  {
    var q := Step(p, RemoveFromEnd(n)).value;
    assert q.tail[..n] == p.data[|p.data| - n..];
    assert q.tail[n..] == p.tail;
  }

  /** The same operations on a plain byte sequence, which has no room to reserve. */
  function OnBytes(data: Bytes, op: Op): Bytes {
    match op
    case PrependData(bytes) => bytes + data
    case AppendData(bytes) => data + bytes
    case RemoveFromStart(n) => if n > |data| then data else data[n..]
    case RemoveFromEnd(n) => if n > |data| then data else data[..|data| - n]
    case Truncate(n) => if n > |data| then data else data[..n]
    case Write(at, bytes) => if at + |bytes| > |data| then data else Overwritten(data, at, bytes)
    case _ => data
  }

  function OnBytesAll(data: Bytes, ops: seq<Op>): Bytes
    decreases |ops|
  {
    if ops == [] then data else OnBytes(OnBytesAll(data, ops[..|ops| - 1]), ops[|ops| - 1])
  }

  /** What reserving room amounts to: the data grows by the bytes that happen to be there. */
  function Resolved(p: Packet, op: Op): Op {
    match op
    case Prepend(n) => if n > |p.head| then op else PrependData(p.head[|p.head| - n..])
    case Append(n) => if n > |p.tail| then op else AppendData(p.tail[..n])
    case _ => op
  }

  function ResolvedAll(p: Packet, ops: seq<Op>): seq<Op>
    decreases |ops|
  {
    if ops == [] then []
    else
      var last := |ops| - 1;
      var before := Run(p, ops[..last]);
      ResolvedAll(p, ops[..last]) + [if before.Some? then Resolved(before.value, ops[last]) else ops[last]]
  }

  lemma StepRefinesBytes(p: Packet, op: Op)
    requires Step(p, op).Some?
    ensures Step(p, op).value.data == OnBytes(p.data, Resolved(p, op))
    ensures !Resolved(p, op).Prepend? && !Resolved(p, op).Append?
  {
  }

  /** Any run that passes its assertions does to the data what the resolved operations do to a byte
      sequence. */
  lemma {:induction false} RunRefinesBytes(p: Packet, ops: seq<Op>)
    requires Run(p, ops).Some?
    ensures |ResolvedAll(p, ops)| == |ops| && Run(p, ops).value.data == OnBytesAll(p.data, ResolvedAll(p, ops))
    ensures forall i :: 0 <= i < |ops| ==> !ResolvedAll(p, ops)[i].Prepend? && !ResolvedAll(p, ops)[i].Append?
    decreases |ops|
  {
    hide Step, OnBytes, Resolved;
    if ops != [] {
      var last := |ops| - 1;
      var rest := ResolvedAll(p, ops[..last]);
      RunRefinesBytes(p, ops[..last]);
      StepRefinesBytes(Run(p, ops[..last]).value, ops[last]);
      assert ResolvedAll(p, ops)[..last] == rest;
    }
  }

  /** Reserving room and then filling it is copying in: what was there before leaves no trace. */
  lemma ReserveThenWrite(p: Packet, bytes: Bytes)
    ensures |bytes| <= |p.head| ==>
      Step(Step(p, Prepend(|bytes|)).value, Write(0, bytes)) == Step(p, PrependData(bytes))
    ensures |bytes| <= |p.tail| ==>
      Step(Step(p, Append(|bytes|)).value, Write(|p.data|, bytes)) == Step(p, AppendData(bytes))
  {
    if |bytes| <= |p.head| {
      var q := Step(p, Prepend(|bytes|)).value;
      assert Overwritten(q.data, 0, bytes) == bytes + p.data;
    }
    if |bytes| <= |p.tail| {
      var q := Step(p, Append(|bytes|)).value;
      assert Overwritten(q.data, |p.data|, bytes) == p.data + bytes;
    }
  }

  /** A buffer cut at the start and the end of the data. */
  function Parts(w: Bytes, start: nat, len: nat): Packet
    requires start + len <= |w|
  {
    Packet(w[..start], w[start..start + len], w[start + len..])
  }

  lemma MoveStart(w: Bytes, start: nat, len: nat, n: nat)
    requires start + len <= |w| && n <= len
    ensures var p := Parts(w, start, len);
            Parts(w, start + n, len - n) == Packet(p.head + p.data[..n], p.data[n..], p.tail)
  {
  }

  /** Prepending moves the start, and the data with it. */
  lemma PrependMoves(w: Bytes, start: nat, len: nat, n: nat)
    requires start + len <= |w| && Step(Parts(w, start, len), Prepend(n)).Some?
    ensures n <= start && Some(Parts(w, start - n, len + n)) == Step(Parts(w, start, len), Prepend(n))
  {
    MoveStart(w, start - n, len + n, n);
    assert w[..start][start - n..] + w[start..start + len] == w[start - n..start + len];
  }

  lemma MoveEnd(w: Bytes, start: nat, len: nat, n: nat)
    requires start + len <= |w| && n <= len
    ensures var p := Parts(w, start, len);
            Parts(w, start, n) == Packet(p.head, p.data[..n], p.data[n..] + p.tail)
  {
  }

  lemma OverwriteStart(w: Bytes, start: nat, len: nat, bytes: Bytes)
    requires start + len <= |w| && |bytes| <= len
    ensures var p := Parts(w, start, len);
            Parts(Overwritten(w, start, bytes), start, len) == p.(data := bytes + p.data[|bytes|..])
  {
  }

  lemma OverwriteInside(w: Bytes, start: nat, len: nat, at: nat, bytes: Bytes)
    requires start + len <= |w| && at + |bytes| <= len
    ensures var p := Parts(w, start, len);
            Parts(Overwritten(w, start + at, bytes), start, len) == p.(data := Overwritten(p.data, at, bytes))
  {
  }

  lemma OverwriteEnd(w: Bytes, start: nat, len: nat, bytes: Bytes)
    requires start + len <= |w| && |bytes| <= len
    ensures var p := Parts(w, start, len);
            Parts(Overwritten(w, start + len - |bytes|, bytes), start, len)
            == p.(data := p.data[..len - |bytes|] + bytes)
  {
  }

  // ----- struct mmpkt

  class Buffer {
    const buf: array<Byte>
    var start: nat
    var len: nat

    ghost predicate Valid()
      reads this
    {
      start + len <= buf.Length < WRAP
    }

    ghost function View(): Packet
      requires Valid()
      reads this, buf
    {
      Parts(buf[..], start, len)
    }

    /** mmpkt_init on a buffer of a given length. */
    constructor (capacity: nat, offset: nat)
      requires offset <= capacity < WRAP
      ensures Valid() && fresh(buf) && buf.Length == capacity && start == offset && len == 0
    {
      buf := new Byte[capacity](_ => 0);
      start, len := offset, 0;
    }

    method Reserve(n: nat) returns (at: nat)
      requires Valid() && Step(View(), Prepend(n)).Some?
      modifies this
      ensures Valid() && View() == Step(old(View()), Prepend(n)).value && at == start == old(start) - n
      ensures len == old(len) + n
    {
      PrependMoves(buf[..], start, len, n);
      hide Step, Parts;
      start := start - n;
      len := len + n;
      at := start;
    }

    method CopyIn(at: nat, bytes: Bytes)
      requires at + |bytes| <= buf.Length
      modifies buf
      ensures buf[..] == Overwritten(old(buf[..]), at, bytes)
    {
      var i := 0;
      while i < |bytes|
        invariant 0 <= i <= |bytes|
        invariant forall k :: at <= k < at + i ==> buf[k] == bytes[k - at]
        invariant forall k :: 0 <= k < at || at + i <= k < buf.Length ==> buf[k] == old(buf[k])
      {
        buf[at + i] := bytes[i];
        i := i + 1;
      }
    }

    method DoPrependData(bytes: Bytes)
      requires Valid() && Step(View(), PrependData(bytes)).Some?
      modifies this, buf
      ensures Valid() && View() == Step(old(View()), PrependData(bytes)).value
    {
      hide Overwritten;
      var at := Reserve(|bytes|);
      OverwriteStart(buf[..], start, len, bytes);
      CopyIn(at, bytes);
    }

    method Extend(n: nat) returns (at: nat)
      requires Valid() && Step(View(), Append(n)).Some?
      modifies this
      ensures Valid() && View() == Step(old(View()), Append(n)).value && at == old(start + len)
      ensures start == old(start) && len == old(len) + n
    {
      MoveEnd(buf[..], start, len + n, len);
      at := start + len;
      len := len + n;
    }

    method DoAppendData(bytes: Bytes)
      requires Valid() && Step(View(), AppendData(bytes)).Some?
      modifies this, buf
      ensures Valid() && View() == Step(old(View()), AppendData(bytes)).value
    {
      hide Overwritten;
      var at := Extend(|bytes|);
      OverwriteEnd(buf[..], start, len, bytes);
      CopyIn(at, bytes);
    }

    /** The caller's stores through a pointer into the data. */
    method DoWrite(at: nat, bytes: Bytes)
      requires Valid() && Step(View(), Write(at, bytes)).Some?
      modifies buf
      ensures Valid() && View() == Step(old(View()), Write(at, bytes)).value
    {
      OverwriteInside(buf[..], start, len, at, bytes);
      hide Overwritten;
      CopyIn(start + at, bytes);
    }

    method DoRemoveFromStart(n: nat) returns (at: Option<nat>)
      requires Valid()
      modifies this
      ensures Valid() && View() == Step(old(View()), RemoveFromStart(n)).value
      ensures at == if n > old(len) then None else Some(old(start))
    {
      if len < n {
        return None;
      }
      at := Some(start);
      MoveStart(buf[..], start, len, n);
      start := start + n;
      len := len - n;
    }

    method DoRemoveFromEnd(n: nat) returns (at: Option<nat>)
      requires Valid()
      modifies this
      ensures Valid() && View() == Step(old(View()), RemoveFromEnd(n)).value
      ensures at == if n > old(len) then None else Some(old(start + len) - n)
    {
      if len < n {
        return None;
      }
      MoveEnd(buf[..], start, len, len - n);
      at := Some(start + len - n);
      len := len - n;
    }

    method DoTruncate(n: nat)
      requires Valid() && Step(View(), Truncate(n)).Some?
      modifies this
      ensures Valid() && View() == Step(old(View()), Truncate(n)).value
    {
      MoveEnd(buf[..], start, len, n);
      len := n;
    }

    method DoAdjustStart(delta: int)
      requires Valid() && Step(View(), AdjustStart(delta)).Some?
      modifies this
      ensures Valid() && View() == Step(old(View()), AdjustStart(delta)).value
    {
      ghost var p := View();
      start := (start + delta) % WRAP;
      assert buf[..] == p.head + p.tail;
    }
  }
}
