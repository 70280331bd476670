/** The VoSPI frame reader of thermal_camera.c, run over a recording of SPI transfers.  Where the
    recording ends, further transfers fail. */
module Thermal {

  type Byte = x: int | 0 <= x < 256
  type PacketBytes = s: seq<Byte> | |s| == PACKET_SIZE witness seq(PACKET_SIZE, _ => 0)

  const HEADER := 4
  const PAYLOAD := 160
  const PACKET_SIZE := HEADER + PAYLOAD
  const PER_SEGMENT := 60
  const SEGMENTS := 4
  const PACKETS := 240
  const FRAME_SIZE := 38400
  const PIXELS := 19200

  datatype Transfer = Failed | Packet(bytes: PacketBytes)

  function Big16(high: Byte, low: Byte): nat {
    high as int * 256 + low
  }

  // The 16-bit id is bytes 0 and 1, big-endian.

  /** Bits 8..11 of the id are all set. */
  predicate IsDiscard(t: Transfer) {
    t.Packet? && t.bytes[0] % 16 == 15
  }

  /** The low 12 bits of the id. */
  function Number(bytes: PacketBytes): nat {
    var high: int := bytes[0];
    high % 16 * 256 + bytes[1]
  }

  /** Bits 12..14 of the id: the segment number, meaningful in packet 20. */
  function Ttt(bytes: PacketBytes): nat {
    bytes[0] / 16 % 8
  }

  lemma SplitAt8(high: int, low: int)
    requires 0 <= low < 256
    ensures (high * 256 + low) / 256 == high && (high * 256 + low) % 256 == low
  {
  }

  lemma SplitAt12(high: int, low: int)
    requires 0 <= low < 4096
    ensures (high * 4096 + low) / 4096 == high && (high * 4096 + low) % 4096 == low
  {
  }

  /** The three fields as bits of the 16-bit identifier: packet number in the low twelve, segment number in bits
      12 to 14, and all of bits 8 to 11 set in a discard packet. */
  lemma IdFields(bytes: PacketBytes)
    ensures var id := Big16(bytes[0], bytes[1]);
            && id < 0x1_0000 && id / 256 == bytes[0] && id % 256 == bytes[1]
            && Number(bytes) == id % 4096 && Ttt(bytes) == id / 4096 % 8
            && (IsDiscard(Packet(bytes)) <==> id / 256 % 16 == 15)
  {
    var high: int, low: int := bytes[0], bytes[1];
    SplitAt8(high, low);
    SplitAt12(high / 16, high % 16 * 256 + low);
    assert high * 256 + low == high / 16 * 4096 + (high % 16 * 256 + low);
  }

  /** Transfer i of the recording can be packet k of a frame: it is packet k % 60 of its segment, and if
      it carries the segment number, that is right. */
  predicate Fits(input: seq<Transfer>, i: nat, k: nat) {
    && i < |input| && input[i].Packet? && !IsDiscard(input[i])
    && Number(input[i].bytes) == k % PER_SEGMENT
    && (k % PER_SEGMENT == 20 ==> Ttt(input[i].bytes) == k / PER_SEGMENT + 1)
  }

  predicate OnlyDiscards(input: seq<Transfer>, i: nat, j: nat) {
    forall x :: i <= x < j && x < |input| ==> IsDiscard(input[x])
  }

  /** `at` gives the transfers of the first packets of a frame: each fits its place, and between the
      packets of one segment there is nothing but discard packets. */
  predicate InOrder(input: seq<Transfer>, at: seq<nat>) {
    && (forall k :: 0 <= k < |at| ==> Fits(input, at[k], k))
    && (forall k :: 0 < k < |at| ==> at[k - 1] < at[k])
    && (forall k :: 0 < k < |at| && k % PER_SEGMENT != 0 ==> OnlyDiscards(input, at[k - 1] + 1, at[k]))
  }

  /** A whole frame. */
  predicate Complete(input: seq<Transfer>, at: seq<nat>) {
    |at| == PACKETS && InOrder(input, at)
  }

  /** An undisturbed frame: it begins at once, and its segments too are separated by discard packets
      only. */
  predicate Undisturbed(input: seq<Transfer>, from: nat, at: seq<nat>) {
    && Complete(input, at) && at[0] == from
    && forall k :: 0 < k < PACKETS ==> OnlyDiscards(input, at[k - 1] + 1, at[k])
  }

  /** Byte b of the payloads of the packets in `at`. */
  function PayloadByte(input: seq<Transfer>, at: seq<nat>, b: nat): Byte
    requires b / PAYLOAD < |at| && at[b / PAYLOAD] < |input| && input[at[b / PAYLOAD]].Packet?
  {
    input[at[b / PAYLOAD]].bytes[HEADER + b % PAYLOAD]
  }

  /** The first bytes of the buffer are the payloads of the packets in `at`. */
  predicate Holds(buffer: seq<Byte>, input: seq<Transfer>, at: seq<nat>) {
    && |at| * PAYLOAD <= |buffer| && InOrder(input, at)
    && forall b {:trigger buffer[b]} :: 0 <= b < |at| * PAYLOAD ==> buffer[b] == PayloadByte(input, at, b)
  }

  /** Pixel p of the published frame, decoded from the payloads of a whole frame. */
  function Pixel(input: seq<Transfer>, at: seq<nat>, p: nat): nat
    requires Complete(input, at) && p < PIXELS
  {
    Big16(PayloadByte(input, at, 2 * p), PayloadByte(input, at, 2 * p + 1))
  }

  predicate Decodes(frame: seq<nat>, input: seq<Transfer>, at: seq<nat>) {
    Complete(input, at) && |frame| == PIXELS && forall p :: 0 <= p < PIXELS ==> frame[p] == Pixel(input, at, p)
  }

  /** A reader that has taken the first n packets of w and is at `pos` finds nothing but discard packets
      before the next. */
  predicate Following(input: seq<Transfer>, w: seq<nat>, n: nat, pos: nat) {
    && Complete(input, w) && n <= PACKETS
    && (forall k :: 0 < k < PACKETS ==> OnlyDiscards(input, w[k - 1] + 1, w[k]))
    && (n < PACKETS ==> pos <= w[n] && OnlyDiscards(input, pos, w[n]) && (n == 0 ==> pos == w[0]))
  }

  /** What the reader makes of a transfer when it expects packet `num` of segment `seg`. */
  datatype Verdict = Broken | Discarded | Mismatch | Taken(skip: bool)

  function Judge(t: Transfer, seg: nat, num: nat): (v: Verdict)
    ensures v != Broken ==> t.Packet?
  {
    if t == Failed then Broken
    else if IsDiscard(t) then Discarded
    else if Number(t.bytes) != num then Mismatch
    else if num == 20 && Ttt(t.bytes) == 0 then Taken(true)
    else if num == 20 && Ttt(t.bytes) != seg then Mismatch
    else Taken(false)
  }

  predicate Before(at: seq<nat>, pos: nat) {
    forall k :: 0 <= k < |at| ==> at[k] < pos
  }

  // ----- one packet

  lemma Extend(s: seq<Byte>, u: seq<Byte>, input: seq<Transfer>, at: seq<nat>, i: nat)
    requires |s| == |u| == FRAME_SIZE && |at| < PACKETS && Holds(s, input, at) && Fits(input, i, |at|)
    requires at != [] ==> at[|at| - 1] < i
    requires |at| % PER_SEGMENT != 0 ==> OnlyDiscards(input, at[|at| - 1] + 1, i)
    requires forall b :: 0 <= b < |at| * PAYLOAD ==> u[b] == s[b]
    requires forall b :: |at| * PAYLOAD <= b < (|at| + 1) * PAYLOAD ==> u[b] == input[i].bytes[HEADER + b % PAYLOAD]
    ensures Holds(u, input, at + [i])
  {
    hide OnlyDiscards;
    assert InOrder(input, at + [i]);
    forall b | 0 <= b < (|at| + 1) * PAYLOAD
      ensures u[b] == input[(at + [i])[b / PAYLOAD]].bytes[HEADER + b % PAYLOAD]
    {
      if b < |at| * PAYLOAD {
        assert s[b] == PayloadByte(input, at, b);
      }
    }
  }

  lemma Keep(s: seq<Byte>, u: seq<Byte>, input: seq<Transfer>, at: seq<nat>)
    requires |s| == |u| && Holds(s, input, at)
    requires forall b :: 0 <= b < |at| * PAYLOAD ==> u[b] == s[b]
    ensures Holds(u, input, at)
  {
    hide InOrder;
  }

  /** A packet that is taken, and does not ask for the segment to be skipped, fits. */
  lemma TakenFits(input: seq<Transfer>, i: nat, seg: nat, num: nat)
    requires i < |input| && 1 <= seg <= SEGMENTS && num < PER_SEGMENT
    requires Judge(input[i], seg, num) == Taken(false)
    ensures Fits(input, i, (seg - 1) * PER_SEGMENT + num)
  {
  }

  /** A pass over segment `seg` that has stored `num` packets and is at `pos`: the packets of the
      segments before are in place, and those of this one too unless it is to be skipped. */
  predicate Passing(buffer: seq<Byte>, input: seq<Transfer>, at: seq<nat>, there: seq<nat>,
                    num: nat, pos: nat, skip: bool)
  {
    && |buffer| == FRAME_SIZE && Holds(buffer, input, at) && Before(at, pos)
    && (!skip ==> |there| == |at| + num && Holds(buffer, input, there) && Before(there, pos))
    && (!skip && num > 0 ==> OnlyDiscards(input, there[|there| - 1] + 1, pos))
  }

  lemma PassStart(s: seq<Byte>, input: seq<Transfer>, at: seq<nat>, pos: nat)
    requires |s| == FRAME_SIZE && Holds(s, input, at) && Before(at, pos)
    ensures Passing(s, input, at, at, 0, pos, false)
  {
  }

  lemma PassEnd(s: seq<Byte>, input: seq<Transfer>, at: seq<nat>, there: seq<nat>, pos: nat, skip: bool)
    requires Passing(s, input, at, there, PER_SEGMENT, pos, skip)
    ensures Holds(s, input, at) && Before(at, pos)
    ensures !skip ==> |there| == |at| + PER_SEGMENT && Holds(s, input, there) && Before(there, pos)
  {
  }

  lemma PassDiscard(s: seq<Byte>, input: seq<Transfer>, at: seq<nat>, there: seq<nat>,
                    seg: nat, num: nat, pos: nat, skip: bool)
    requires Passing(s, input, at, there, num, pos, skip) && pos < |input|
    requires Judge(input[pos], seg, num) == Discarded
    ensures Passing(s, input, at, there, num, pos + 1, skip)
  {
    hide Holds;
  }

  /** The payload of the packet at i is in place n of u, which is otherwise s. */
  predicate Stored(s: seq<Byte>, u: seq<Byte>, bytes: PacketBytes, n: nat) {
    && |s| == |u| == FRAME_SIZE && n < PACKETS
    && (forall b :: n * PAYLOAD <= b < (n + 1) * PAYLOAD ==> u[b] == bytes[HEADER + b % PAYLOAD])
    && forall b :: 0 <= b < FRAME_SIZE && !(n * PAYLOAD <= b < (n + 1) * PAYLOAD) ==> u[b] == s[b]
  }

  lemma PassTaken(s: seq<Byte>, u: seq<Byte>, input: seq<Transfer>, at: seq<nat>, there: seq<nat>,
                  seg: nat, num: nat, pos: nat, skip: bool)
    requires Passing(s, input, at, there, num, pos, skip) && pos < |input|
    requires 1 <= seg <= SEGMENTS && num < PER_SEGMENT && |at| == (seg - 1) * PER_SEGMENT
    requires Judge(input[pos], seg, num).Taken? && Stored(s, u, input[pos].bytes, |at| + num)
    ensures var more := skip || Judge(input[pos], seg, num).skip;
            Passing(u, input, at, if more then there else there + [pos], num + 1, pos + 1, more)
  {
    Keep(s, u, input, at);
    if !skip && !Judge(input[pos], seg, num).skip {
      TakenFits(input, pos, seg, num);
      Extend(s, u, input, there, pos);
    }
    hide Holds, Fits, Judge;
  }

  /** The reader has taken exactly the first n packets of w. */
  predicate Tracks(input: seq<Transfer>, w: seq<nat>, there: seq<nat>, n: nat, pos: nat) {
    |w| == PACKETS && n <= PACKETS && there == w[..n] && Following(input, w, n, pos)
  }

  /** An undisturbed frame is followed packet by packet. */
  lemma TrackStep(input: seq<Transfer>, w: seq<nat>, there: seq<nat>, seg: nat, num: nat, pos: nat)
    requires 1 <= seg <= SEGMENTS && num < PER_SEGMENT
    requires Tracks(input, w, there, (seg - 1) * PER_SEGMENT + num, pos)
    ensures pos < |input|
    ensures var n := (seg - 1) * PER_SEGMENT + num;
            var v := Judge(input[pos], seg, num);
            || (v == Discarded && n > 0 && Tracks(input, w, there, n, pos + 1))
            || (v == Taken(false) && Tracks(input, w, there + [pos], n + 1, pos + 1))
  {
    var n := (seg - 1) * PER_SEGMENT + num;
    assert Fits(input, w[n], n);
    if pos < w[n] {
      assert IsDiscard(input[pos]);
    } else if n + 1 < PACKETS {
      assert OnlyDiscards(input, w[n] + 1, w[n + 1]);
    }
  }

  lemma TrackStart(input: seq<Transfer>, from: nat, w: seq<nat>)
    requires Undisturbed(input, from, w)
    ensures Tracks(input, w, [], 0, from)
  {
  }

  lemma TrackEnd(input: seq<Transfer>, w: seq<nat>, at: seq<nat>, pos: nat)
    requires |at| == PACKETS && Tracks(input, w, at, PACKETS, pos)
    ensures at == w
  {
  }

  // ----- the whole frame

  lemma HoldsNothing(s: seq<Byte>, input: seq<Transfer>, pos: nat)
    ensures Holds(s, input, []) && Before([], pos)
  {
  }

  lemma HoldsComplete(s: seq<Byte>, input: seq<Transfer>, at: seq<nat>)
    requires Holds(s, input, at) && |at| == PACKETS
    ensures Complete(input, at)
  {
  }

  /** A whole frame determines all 38400 bytes of the buffer: nothing stale survives. */
  lemma NothingStale(s: seq<Byte>, u: seq<Byte>, input: seq<Transfer>, at: seq<nat>)
    requires |s| == |u| == FRAME_SIZE && Complete(input, at) && Holds(s, input, at) && Holds(u, input, at)
    ensures s == u
  {
    forall b | 0 <= b < FRAME_SIZE
      ensures s[b] == u[b]
    {
      assert s[b] == PayloadByte(input, at, b);
    }
  }

  lemma DecodedFrame(s: seq<Byte>, frame: seq<nat>, input: seq<Transfer>, at: seq<nat>)
    requires |s| == FRAME_SIZE && Complete(input, at) && Holds(s, input, at) && |frame| == PIXELS
    requires forall p :: 0 <= p < PIXELS ==> frame[p] == Big16(s[2 * p], s[2 * p + 1])
    ensures Decodes(frame, input, at)
  {
    forall p | 0 <= p < PIXELS
      ensures frame[p] == Pixel(input, at, p)
    {
      assert s[2 * p] == PayloadByte(input, at, 2 * p);
      assert s[2 * p + 1] == PayloadByte(input, at, 2 * p + 1);
    }
  }

  // ----- the reader

  class Lepton {
    const vospi: array<Byte>
    const frame: array<nat>
    var frameValid: bool
    var synced: bool
    var discards: nat
    var resyncs: nat
    var frames: nat
    /** Where the published frame came from. */
    ghost var source: seq<nat>

    ghost predicate Sized()
      reads this
    {
      vospi.Length == FRAME_SIZE && frame.Length == PIXELS
    }

    /** A published frame is the decoding of some whole frame of the recording. */
    ghost predicate Valid(input: seq<Transfer>)
      reads this, frame
    {
      Sized() && (frameValid ==> Decodes(frame[..], input, source))
    }

    constructor ()
      ensures Sized() && !frameValid && fresh(vospi) && fresh(frame)
    {
      vospi := new Byte[FRAME_SIZE](_ => 0);
      frame := new nat[PIXELS](_ => 0);
      frameValid, synced, discards, resyncs, frames, source := false, false, 0, 0, 0, [];
    }

    /** memcpy of a packet's payload to its place in the buffer. */
    method CopyPayload(bytes: PacketBytes, n: nat)
      requires Sized() && n < PACKETS
      modifies vospi
      ensures Stored(old(vospi[..]), vospi[..], bytes, n)
    {
      var offset, j := n * PAYLOAD, 0;
      while j < PAYLOAD
        invariant 0 <= j <= PAYLOAD
        invariant forall b :: offset <= b < offset + j ==> vospi[b] == bytes[HEADER + b % PAYLOAD]
        invariant forall b :: 0 <= b < FRAME_SIZE && !(offset <= b < offset + j) ==> vospi[b] == old(vospi[b])
      {
        vospi[offset + j] := bytes[HEADER + j];
        j := j + 1;
      }
    }

    /** The packet expected has come. */
    method StorePacket(input: seq<Transfer>, pos: nat, seg: nat, num: nat, skip: bool,
                       ghost at: seq<nat>, ghost there: seq<nat>)
      returns (ghost now: seq<nat>)
      requires Sized() && pos < |input| && 1 <= seg <= SEGMENTS && num < PER_SEGMENT
      requires |at| == (seg - 1) * PER_SEGMENT && Passing(vospi[..], input, at, there, num, pos, skip)
      requires Judge(input[pos], seg, num).Taken?
      modifies vospi
      ensures now == if skip || Judge(input[pos], seg, num).skip then there else there + [pos]
      ensures Passing(vospi[..], input, at, now, num + 1, pos + 1, skip || Judge(input[pos], seg, num).skip)
    {
      hide Passing, Judge, Stored;
      ghost var s := vospi[..];
      CopyPayload(input[pos].bytes, (seg - 1) * PER_SEGMENT + num);
      PassTaken(s, vospi[..], input, at, there, seg, num, pos, skip);
      now := if skip || Judge(input[pos], seg, num).skip then there else there + [pos];
    }

    /** One transfer of a pass: the body of the packet loop, which ends the pass when `ok` is false. */
    method ReadPacket(input: seq<Transfer>, from: nat, seg: nat, num: nat, skip: bool,
                      ghost at: seq<nat>, ghost there: seq<nat>)
      returns (ok: bool, skips: bool, taken: nat, pos: nat, ghost now: seq<nat>)
      requires Sized() && from <= |input| && 1 <= seg <= SEGMENTS && num < PER_SEGMENT
      requires |at| == (seg - 1) * PER_SEGMENT && Passing(vospi[..], input, at, there, num, from, skip)
      modifies vospi, this`discards, this`synced
      ensures pos == (if from < |input| then from + 1 else from) && (taken == num || taken == num + 1)
      ensures ok ==> from < |input| && Passing(vospi[..], input, at, now, taken, pos, skips)
      ensures from < |input| ==> (
        match Judge(input[from], seg, num)
        case Broken => !ok && synced == old(synced)
        case Mismatch => !ok && !synced
        case Discarded =>
          && (!ok <==> num == 0 && seg == 1) && discards == old(discards) + 1 && synced == old(synced)
          && skips == skip && taken == num && now == there
        case Taken(skipping) =>
          && ok && synced == old(synced) && skips == (skip || skipping)
          && taken == num + 1 && now == if skips then there else there + [from])
    {
      hide Passing, Stored;
      ok, skips, taken, pos, now := true, skip, num, from, there;
      if from == |input| {
        return false, skip, num, from, there;
      }
      pos := from + 1;
      match Judge(input[from], seg, num) {
        case Broken =>
          ok := false;
        case Discarded =>
          discards := discards + 1;
          PassDiscard(vospi[..], input, at, there, seg, num, from, skip);
          ok := !(num == 0 && seg == 1);
        case Mismatch =>
          ok, synced := false, false;
        case Taken(skipping) =>
          now := StorePacket(input, from, seg, num, skip, at, there);
          skips, taken := skip || skipping, num + 1;
      }
    }

    /** One pass over a segment.  `at` are the transfers of the packets of the segments before; on
        success `there` adds those of this one, unless packet 20 said the segment is to be skipped.
        `w` is an undisturbed frame that is perhaps being followed. */
    method ReadSegment(input: seq<Transfer>, from: nat, seg: nat, ghost at: seq<nat>, ghost w: seq<nat>)
      returns (ok: bool, skip: bool, pos: nat, ghost there: seq<nat>)
      requires Sized() && 1 <= seg <= SEGMENTS && from <= |input|
      requires |at| == (seg - 1) * PER_SEGMENT && Holds(vospi[..], input, at) && Before(at, from)
      modifies vospi, this`discards, this`synced
      ensures from <= pos <= |input| && (from < |input| ==> from < pos)
      ensures ok ==> Holds(vospi[..], input, there) && Before(there, pos)
      ensures ok ==> if skip then there == at else |there| == seg * PER_SEGMENT
      ensures ok ==> from < pos
      ensures Tracks(input, w, at, |at|, from) ==> ok && !skip && Tracks(input, w, there, |at| + PER_SEGMENT, pos)
    {
      ok, skip, pos := true, false, from;
      var num := 0;
      there := at;
      PassStart(vospi[..], input, at, from);
      hide Passing, Holds, Following, Before, Judge, Tracks;
      ghost var follows := Tracks(input, w, at, |at|, from);
      while num < PER_SEGMENT && ok
        invariant 0 <= num <= PER_SEGMENT && from <= pos <= |input|
        invariant (ok && num > 0) || (!ok && from < |input|) ==> from < pos
        invariant ok ==> Passing(vospi[..], input, at, there, num, pos, skip)
        invariant follows ==> ok && !skip && Tracks(input, w, there, |at| + num, pos)
        decreases |input| - pos, ok
      {
        if follows { TrackStep(input, w, there, seg, num, pos); }
        ok, skip, num, pos, there := ReadPacket(input, pos, seg, num, skip, at, there);
      }
      if ok {
        PassEnd(vospi[..], input, at, there, pos, skip);
        if skip { there := at; }
      }
    }

    /** The two nested loops: one attempt at a frame. */
    method ReadFrame(input: seq<Transfer>, from: nat, ghost w: seq<nat>)
      returns (ok: bool, pos: nat, ghost at: seq<nat>)
      requires Sized() && from <= |input|
      modifies vospi, this`discards, this`synced
      ensures from <= pos <= |input| && (from < |input| ==> from < pos)
      ensures ok ==> Complete(input, at) && Holds(vospi[..], input, at) && Before(at, pos)
      ensures Undisturbed(input, from, w) ==> ok && at == w
    {
      ok, pos, at := true, from, [];
      var seg := 1;
      ghost var follows := Undisturbed(input, from, w);
      if follows { TrackStart(input, from, w); }
      hide Tracks, Holds, Before, Undisturbed;
      HoldsNothing(vospi[..], input, from);
      while seg <= SEGMENTS && ok
        invariant 1 <= seg <= SEGMENTS + 1 && from <= pos <= |input|
        invariant (!ok && from < |input|) || (ok && seg > 1) ==> from < pos
        invariant ok ==> |at| == (seg - 1) * PER_SEGMENT && Holds(vospi[..], input, at) && Before(at, pos)
        invariant follows ==> ok && Tracks(input, w, at, |at|, pos)
        decreases |input| - pos, ok
      {
        var skip;
        ok, skip, pos, at := ReadSegment(input, pos, seg, at, w);
        if !skip { seg := seg + 1; }
      }
      if ok { HoldsComplete(vospi[..], input, at); }
      if follows { TrackEnd(input, w, at, pos); }
    }

    /** The copy to the published frame. */
    method Decode()
      requires Sized()
      modifies frame
      ensures forall p :: 0 <= p < PIXELS ==> frame[p] == Big16(vospi[2 * p], vospi[2 * p + 1])
    {
      var p := 0;
      while p < PIXELS
        invariant 0 <= p <= PIXELS
        invariant forall q :: 0 <= q < p ==> frame[q] == Big16(vospi[2 * q], vospi[2 * q + 1])
      {
        frame[p] := Big16(vospi[2 * p], vospi[2 * p + 1]);
        p := p + 1;
      }
    }

    /** One turn of the endless loop.  A frame is published exactly when it was read whole and
        nobody holds the frame's mutex; an undisturbed frame is read whole. */
    method Turn(input: seq<Transfer>, from: nat, mutexFree: bool, ghost w: seq<nat>) returns (published: bool, pos: nat)
      requires Valid(input) && from <= |input|
      modifies this, vospi, frame
      ensures Valid(input)
      ensures from <= pos <= |input| && (from < |input| ==> from < pos)
      ensures published ==> mutexFree && frameValid && Decodes(frame[..], input, source)
      ensures !published ==> frame[..] == old(frame[..]) && frameValid == old(frameValid) && source == old(source)
      ensures Undisturbed(input, from, w) && mutexFree ==> published && source == w
    {
      published := false;
      var ok;
      ghost var at;
      ok, pos, at := ReadFrame(input, from, w);
      if !ok {
        if !synced {
          resyncs, synced := resyncs + 1, true;
        }
        return;
      }
      synced, frames := true, frames + 1;
      if mutexFree {
        Decode();
        DecodedFrame(vospi[..], frame[..], input, at);
        source, frameValid, published := at, true, true;
      }
    }

    /** The reader over a whole recording, with the mutex free or not at each publication. */
    method Run(input: seq<Transfer>, mutexFree: nat -> bool)
      requires Sized() && !frameValid
      modifies this, vospi, frame
      ensures frameValid ==> Decodes(frame[..], input, source)
    {
      var pos, turn := 0, 0;
      while pos < |input|
        invariant pos <= |input| && Valid(input)
        decreases |input| - pos
      {
        var published;
        published, pos := Turn(input, pos, mutexFree(turn), []);
        turn := turn + 1;
      }
    }
  }
}
