/** The viewer on a network that loses, repeats and reorders packets. */
module RtpHostile {
  import opened RtpModel
  import opened RtpProofs
  import NumberTheory

  /** A fragment that another one must follow. */
  predicate Mid(p: Packet) {
    p.Fu? && End(p.nal, p.off) < |p.nal|
  }

  // ----- numbering

  lemma {:induction false} FuNumbered(j: Job, off: nat, num: nat, extra: nat, p: Packet)
    requires |j.nal| > PKT_MAX && 1 <= off <= |j.nal| && p in FuPackets(j, off, num, extra)
    ensures num + extra <= p.num < FuNumbers(j, off, num, extra)
    ensures p.Fu? && p.nal == j.nal && p.marker == j.marker && p.ts == j.ts
    ensures Mid(p) ==> p.num + extra + 1 < FuNumbers(j, off, num, extra)
    decreases |j.nal| - off
  {
    var head := Fu(num + extra, j.nal, off, j.marker, j.ts);
    var rest := FuPackets(j, End(j.nal, off), num + extra + 1, extra);
    if p in rest {
      FuNumbered(j, End(j.nal, off), num + extra + 1, extra, p);
    } else {
      assert p == head;
    }
  }

  /** Within one NAL only the next fragment follows a fragment by one, and only if no number is
      wasted. */
  lemma {:induction false} FuSuccessor(j: Job, off: nat, num: nat, extra: nat, l: Packet, p: Packet)
    requires |j.nal| > PKT_MAX && 1 <= off <= |j.nal|
    requires l in FuPackets(j, off, num, extra) && p in FuPackets(j, off, num, extra)
    requires Mid(l) && p.num == l.num + 1
    ensures extra == 0 && p == Fu(l.num + 1, l.nal, End(l.nal, l.off), l.marker, l.ts)
    decreases |j.nal| - off
  {
    var head := Fu(num + extra, j.nal, off, j.marker, j.ts);
    var off1, num1 := End(j.nal, off), num + extra + 1;
    var rest := FuPackets(j, off1, num1, extra);
    if l in rest {
      FuNumbered(j, off1, num1, extra, l);
      assert p in rest;
      FuSuccessor(j, off1, num1, extra, l, p);
    } else {
      assert l == head && p in rest;
      FuNumbered(j, off1, num1, extra, p);
      if p in FuPackets(j, End(j.nal, off1), num1 + extra + 1, extra) {
        FuNumbered(j, End(j.nal, off1), num1 + extra + 1, extra, p);
      }
    }
  }

  lemma JobNumbered(j: Job, num: nat, extra: nat, p: Packet)
    requires p in PacketsOf(j, num, extra)
    ensures num <= p.num < NumberAfter(j, num, extra)
    ensures p.nal == j.nal && p.marker == j.marker
    ensures Mid(p) ==> |j.nal| > PKT_MAX && p.num + 1 < NumberAfter(j, num, extra)
  {
    if |j.nal| > PKT_MAX {
      FuNumbered(j, 1, num, extra, p);
    }
  }

  lemma {:induction false} HistoryNumbered(jobs: seq<Job>, num: nat, extra: nat, p: Packet)
    requires p in History(jobs, num, extra)
    ensures num <= p.num
    ensures exists j :: j in jobs && j.nal == p.nal && j.marker == p.marker
    decreases |jobs|
  {
    if p in PacketsOf(jobs[0], num, extra) {
      JobNumbered(jobs[0], num, extra, p);
      assert jobs[0] in jobs;
    } else {
      HistoryNumbered(jobs[1..], NumberAfter(jobs[0], num, extra), extra, p);
      var j :| j in jobs[1..] && j.nal == p.nal && j.marker == p.marker;
      assert j in jobs;
    }
  }

  /** In a whole history too, the number after a fragment belongs to its continuation or to
      no transmitted packet. */
  lemma {:induction false} HistorySuccessor(jobs: seq<Job>, num: nat, extra: nat, l: Packet, p: Packet)
    requires l in History(jobs, num, extra) && p in History(jobs, num, extra)
    requires Mid(l) && p.num == l.num + 1
    ensures extra == 0 && p == Fu(l.num + 1, l.nal, End(l.nal, l.off), l.marker, l.ts)
    decreases |jobs|
  {
    var j, next := jobs[0], NumberAfter(jobs[0], num, extra);
    var own, rest := PacketsOf(j, num, extra), History(jobs[1..], next, extra);
    if l in own {
      JobNumbered(j, num, extra, l);
      if p in rest {
        HistoryNumbered(jobs[1..], next, extra, p);
      }
      assert p in own;
      FuSuccessor(j, 1, num, extra, l, p);
    } else {
      HistoryNumbered(jobs[1..], next, extra, l);
      if p in own {
        JobNumbered(j, num, extra, p);
      }
      assert p in rest;
      HistorySuccessor(jobs[1..], next, extra, l, p);
    }
  }

  // ----- safety

  /** What the viewer's buffer can hold: nothing, or a prefix of the NAL it last saw a piece of. */
  predicate Sane(st: ParserState, last: Option<Packet>) {
    match last
    case None => st.lastSeq == -1 && st.fuaBuf == []
    case Some(l) =>
      st.lastSeq == l.num % U16 && (st.fuaBuf == [] || (Mid(l) && st.fuaBuf == l.nal[..End(l.nal, l.off)]))
  }

  /** Two arrivals of which the 16-bit numbers tell whether the second is the next one: all, except those
      that are a multiple of 2^16 off. */
  predicate Near(a: nat, b: nat) {
    (b - a - 1) % U16 == 0 ==> b == a + 1
  }

  /** A short NAL must not look like a fragment. */
  predicate Honest(p: Packet) {
    p.Single? ==> NalType(p.nal[0]) != 28
  }

  lemma NearMeansNext(a: nat, b: nat)
    requires Near(a, b) && b % U16 == (a % U16 + 1) % U16
    ensures b == a + 1
  {
    var d := b - a - 1;
    assert d % U16 == 0;
  }

  lemma KeptMeansConsecutive(st: ParserState, seqNo: int)
    requires st.lastSeq >= 0 && Continue(st, seqNo).fuaBuf != []
    ensures seqNo == (st.lastSeq + 1) % U16
  {
  }

  /** A piece that the viewer takes as the continuation of what it holds is the continuation. */
  lemma ContinuationIsNext(st: ParserState, jobs: seq<Job>, num: nat, extra: nat, l: Packet, p: Packet)
    requires Sane(st, Some(l)) && st.fuaBuf != []
    requires l in History(jobs, num, extra) && p in History(jobs, num, extra)
    requires Near(l.num, p.num) && Continue(st, p.num % U16).fuaBuf != []
    ensures extra == 0 && p == Fu(l.num + 1, l.nal, End(l.nal, l.off), l.marker, l.ts)
  {
    KeptMeansConsecutive(st, p.num % U16);
    assert Mid(l) && st.lastSeq == l.num % U16;
    hide History, Near, Mid, Continue, Sane, End;
    NextInHistory(jobs, num, extra, l, p);
  }

  lemma NextInHistory(jobs: seq<Job>, num: nat, extra: nat, l: Packet, p: Packet)
    requires l in History(jobs, num, extra) && p in History(jobs, num, extra) && Mid(l)
    requires Near(l.num, p.num) && p.num % U16 == (l.num % U16 + 1) % U16
    ensures extra == 0 && p == Fu(l.num + 1, l.nal, End(l.nal, l.off), l.marker, l.ts)
  {
    NearMeansNext(l.num, p.num);
    HistorySuccessor(jobs, num, extra, l, p);
  }

  /** One arrival: the buffer stays sane, and what is yielded is the packet's whole NAL. */
  lemma ArrivalSafe(st: ParserState, jobs: seq<Job>, num: nat, extra: nat, last: Option<Packet>, p: Packet)
    requires Sane(st, last) && Honest(p) && p in History(jobs, num, extra)
    requires last.Some? ==> last.value in History(jobs, num, extra) && Near(last.value.num, p.num)
    ensures Sane(Deliver(st, p).0, Some(p))
    ensures var o := Deliver(st, p).1;
            o == None || (o == Some(Yield(p.nal, p.marker)) && (p.Single? || extra == 0))
  {
    if Continue(st, p.num % U16).fuaBuf == [] {
      IdleArrival(st, p);
    } else {
      ContinuationIsNext(st, jobs, num, extra, last.value, p);
      HeldArrival(st, last.value, p);
    }
  }

  lemma HeldArrival(st: ParserState, l: Packet, p: Packet)
    requires Sane(st, Some(l)) && st.fuaBuf != []
    requires p == Fu(l.num + 1, l.nal, End(l.nal, l.off), l.marker, l.ts)
    ensures Sane(Deliver(st, p).0, Some(p))
    ensures Deliver(st, p).1 == None || Deliver(st, p).1 == Some(Yield(p.nal, p.marker))
  {
    FragmentExtends(st, Job(l.nal, l.marker, l.ts), End(l.nal, l.off), p.num);
  }

  /** With nothing held, only a whole NAL is yielded and only a first fragment is kept. */
  lemma IdleArrival(st: ParserState, p: Packet)
    requires Honest(p) && Continue(st, p.num % U16).fuaBuf == []
    ensures Sane(Deliver(st, p).0, Some(p))
    ensures Deliver(st, p).1 == None || (p.Single? && Deliver(st, p).1 == Some(Yield(p.nal, p.marker)))
  {
    if p.Fu? && p.off == 1 {
      FirstFragment(st, p.num, p.nal, p.marker, p.ts);
    }
  }

  /** Yielded data that is byte for byte a NAL the sender was given, with its own marker. */
  ghost predicate Genuine(y: Yield, jobs: seq<Job>, extra: nat) {
    exists j :: j in jobs && y == Yield(j.nal, j.marker) && (|j.nal| <= PKT_MAX || extra == 0)
  }

  lemma ArrivalGenuine(st: ParserState, jobs: seq<Job>, num: nat, extra: nat, last: Option<Packet>, p: Packet)
    requires Sane(st, last) && Honest(p) && p in History(jobs, num, extra)
    requires last.Some? ==> last.value in History(jobs, num, extra) && Near(last.value.num, p.num)
    ensures forall y :: y in Items(Deliver(st, p).1) ==> Genuine(y, jobs, extra)
  {
    ArrivalSafe(st, jobs, num, extra, last, p);
    HistoryNumbered(jobs, num, extra, p);
    var j :| j in jobs && j.nal == p.nal && j.marker == p.marker;
    assert Deliver(st, p).1.Some? ==> Genuine(Yield(j.nal, j.marker), jobs, extra);
  }

  /** However packets are lost, repeated or reordered, everything the viewer yields is byte for
      byte a NAL that was sent, with its own marker; and a sender that wastes numbers between
      fragments gets no NAL longer than one packet through. */
  lemma {:induction false} HostileRunFrom(st: ParserState, jobs: seq<Job>, num: nat, extra: nat,
                                          last: Option<Packet>, ds: seq<Packet>)
    requires Sane(st, last)
    requires forall d :: d in ds ==> d in History(jobs, num, extra) && Honest(d)
    requires forall i :: 0 <= i < |ds| - 1 ==> Near(ds[i].num, ds[i + 1].num)
    requires last.Some? ==> last.value in History(jobs, num, extra) && (ds != [] ==> Near(last.value.num, ds[0].num))
    ensures forall y :: y in Delivered(st, ds) ==> Genuine(y, jobs, extra)
    decreases |ds|
  {
    if ds != [] {
      var p := ds[0];
      ArrivalSafe(st, jobs, num, extra, last, p);
      ArrivalGenuine(st, jobs, num, extra, last, p);
      HostileRunFrom(Deliver(st, p).0, jobs, num, extra, Some(p), ds[1..]);
    }
  }

  lemma HostileRun(jobs: seq<Job>, num: nat, extra: nat, ds: seq<Packet>, ssrc: u32)
    requires forall d :: d in ds ==> d in History(jobs, num, extra) && Honest(d)
    requires forall i :: 0 <= i < |ds| - 1 ==> Near(ds[i].num, ds[i + 1].num)
    ensures forall y :: y in Parsed(Fresh, Wires(ds, ssrc)) ==> Genuine(y, jobs, extra)
  {
    WiresRoundTrip(Fresh, ds, ssrc);
    HostileRunFrom(Fresh, jobs, num, extra, None, ds);
  }

  /** Fewer than 2^16 distinct numbers in play is close enough. */
  lemma WindowIsNear(ds: seq<Packet>, lo: nat)
    requires forall d :: d in ds ==> lo <= d.num < lo + U16 - 1
    ensures forall i :: 0 <= i < |ds| - 1 ==> Near(ds[i].num, ds[i + 1].num)
  {
    forall i | 0 <= i < |ds| - 1
      ensures Near(ds[i].num, ds[i + 1].num)
    {
      assert ds[i] in ds && ds[i + 1] in ds;
    }
  }

  // ----- the condition cannot be dropped

  lemma {:induction false} HistoryAppend(a: seq<Job>, b: seq<Job>, num: nat, extra: nat)
    ensures History(a + b, num, extra) == History(a, num, extra) + History(b, NumberAfterAll(a, num, extra), extra)
    ensures NumberAfterAll(a + b, num, extra) == NumberAfterAll(b, NumberAfterAll(a, num, extra), extra)
    decreases |a|
  {
    if a == [] {
      assert a + b == b;
    } else {
      assert (a + b)[1..] == a[1..] + b;
      HistoryAppend(a[1..], b, NumberAfter(a[0], num, extra), extra);
    }
  }

  /** n NAL units of one byte. */
  function Fillers(n: nat, ts: u32): seq<Job>
    decreases n
  {
    if n == 0 then [] else [Job([1], false, ts)] + Fillers(n - 1, ts)
  }

  lemma {:induction false} FillersNumber(n: nat, ts: u32, num: nat, extra: nat)
    ensures NumberAfterAll(Fillers(n, ts), num, extra) == num + n
    decreases n
  {
    if n > 0 {
      assert Fillers(n, ts)[1..] == Fillers(n - 1, ts);
      FillersNumber(n - 1, ts, num + 1, extra);
    }
  }

  lemma {:induction false} FillersShort(n: nat, ts: u32)
    ensures forall j :: j in Fillers(n, ts) ==> |j.nal| == 1
    decreases n
  {
    if n > 0 {
      FillersShort(n - 1, ts);
    }
  }

  /** A NAL unit that takes two fragments. */
  predicate TwoPieces(nal: Bytes) {
    |nal| == 2 * CHUNK_MAX + 1
  }

  function First(j: Job, num: nat, extra: nat): Packet
    requires TwoPieces(j.nal)
  {
    Fu(num + extra, j.nal, 1, j.marker, j.ts)
  }

  function Second(j: Job, num: nat, extra: nat): Packet
    requires TwoPieces(j.nal)
  {
    Fu(num + 2 * extra + 1, j.nal, CHUNK_MAX + 1, j.marker, j.ts)
  }

  lemma TwoPackets(j: Job, num: nat, extra: nat)
    requires TwoPieces(j.nal)
    ensures PacketsOf(j, num, extra) == [First(j, num, extra), Second(j, num, extra)]
    ensures NumberAfter(j, num, extra) == num + 2 * extra + 2
  {
    assert End(j.nal, 1) == CHUNK_MAX + 1 && End(j.nal, CHUNK_MAX + 1) == |j.nal|;
    assert FuPackets(j, |j.nal|, num + 2 * extra + 2, extra) == [];
    assert FuPackets(j, CHUNK_MAX + 1, num + extra + 1, extra) == [Second(j, num, extra)];
    assert FuNumbers(j, |j.nal|, num + 2 * extra + 2, extra) == num + 2 * extra + 2;
  }

  lemma HistoryOne(j: Job, num: nat, extra: nat)
    ensures History([j], num, extra) == PacketsOf(j, num, extra)
    ensures NumberAfterAll([j], num, extra) == NumberAfter(j, num, extra)
  {
    assert [j][1..] == [];
  }

  /** k full turns of the 16-bit counter. */
  function Turns(k: nat): nat {
    k * U16
  }

  /** Two long units with n short ones between them. */
  function Apart(x: Job, n: nat, y: Job): seq<Job> {
    [x] + (Fillers(n, 0) + [y])
  }

  lemma ApartPackets(x: Job, n: nat, y: Job, num: nat, extra: nat)
    requires TwoPieces(x.nal) && TwoPieces(y.nal)
    ensures var ps := History(Apart(x, n, y), num, extra);
            var start := num + 2 * extra + 2 + n;
            && First(x, num, extra) in ps && Second(x, num, extra) in ps
            && First(y, start, extra) in ps && Second(y, start, extra) in ps
  {
    hide History, PacketsOf, NumberAfterAll, NumberAfter, Fillers, First, Second;
    var next := num + 2 * extra + 2;
    HistoryAppend([x], Fillers(n, 0) + [y], num, extra);
    HistoryOne(x, num, extra);
    TwoPackets(x, num, extra);
    HistoryAppend(Fillers(n, 0), [y], next, extra);
    FillersNumber(n, 0, next, extra);
    HistoryOne(y, next + n, extra);
    TwoPackets(y, next + n, extra);
  }

  /** The second piece of b, arriving when the viewer holds the first piece of a and expects its number. */
  lemma Splice(a: Job, b: Job, p: Packet, q: Packet)
    requires TwoPieces(a.nal) && TwoPieces(b.nal)
    requires p == Fu(p.num, a.nal, 1, a.marker, a.ts) && q == Fu(q.num, b.nal, CHUNK_MAX + 1, b.marker, b.ts)
    requires q.num % U16 == (p.num + 1) % U16
    ensures Delivered(Fresh, [p, q]) == [Spliced(a, b)]
  {
    FirstFragment(Fresh, p.num, a.nal, a.marker, a.ts);
    var st := Deliver(Fresh, p).0;
    assert q.num % U16 == (p.num % U16 + 1) % U16;
    assert Payload(q)[2..] == b.nal[CHUNK_MAX + 1..];
    assert End(b.nal, CHUNK_MAX + 1) == |b.nal|;
    DeliverTwo(Fresh, p, q);
  }

  function Spliced(a: Job, b: Job): Yield
    requires TwoPieces(a.nal) && TwoPieces(b.nal)
  {
    Yield(a.nal[..CHUNK_MAX + 1] + b.nal[CHUNK_MAX + 1..], b.marker)
  }

  /** Neither half is shared. */
  predicate Unlike(a: Bytes, b: Bytes)
    requires TwoPieces(a) && TwoPieces(b)
  {
    a[..CHUNK_MAX + 1] != b[..CHUNK_MAX + 1] && a[CHUNK_MAX + 1..] != b[CHUNK_MAX + 1..]
  }

  lemma SplicedNotSent(a: Job, b: Job, jobs: seq<Job>, extra: nat)
    requires TwoPieces(a.nal) && TwoPieces(b.nal) && Unlike(a.nal, b.nal)
    requires forall j :: j in jobs ==> j == a || j == b || |j.nal| == 1
    ensures !Genuine(Spliced(a, b), jobs, extra)
  {
    var y := Spliced(a, b).nal;
    assert y[..CHUNK_MAX + 1] == a.nal[..CHUNK_MAX + 1] && y[CHUNK_MAX + 1..] == b.nal[CHUNK_MAX + 1..];
  }

  /** The distance condition cannot be dropped, whatever the starting number and the count of wasted
      numbers: for every k > 0 (large enough for the units to fit between the numbers) a sender can have
      sent two fragments whose numbers are k 2^16 + 1 apart, which arrive one after the other and are
      spliced into a unit that was never sent. */
  lemma WrapSplices(a: Job, b: Job, num: nat, extra: nat, k: nat)
    requires TwoPieces(a.nal) && TwoPieces(b.nal) && k > 0 && 3 * extra + 2 <= Turns(k)
    ensures var jobs := Apart(a, Turns(k) - 3 * extra - 2, b);
            var p := Fu(num + extra, a.nal, 1, a.marker, a.ts);
            var q := Fu(num + extra + Turns(k) + 1, b.nal, CHUNK_MAX + 1, b.marker, b.ts);
            && p in History(jobs, num, extra) && q in History(jobs, num, extra) && !Near(p.num, q.num)
            && Delivered(Fresh, [p, q]) == [Spliced(a, b)]
            && (Unlike(a.nal, b.nal) ==> !Genuine(Spliced(a, b), jobs, extra))
  {
    hide History, Apart, Genuine, Turns, Unlike, Delivered, Spliced, Fillers;
    var n := Turns(k) - 3 * extra - 2;
    var jobs := Apart(a, n, b);
    ApartPackets(a, n, b, num, extra);
    var p, q := First(a, num, extra), Second(b, num + 2 * extra + 2 + n, extra);
    WrapOff(num + extra, k);
    assert q.num == num + extra + Turns(k) + 1;
    Splice(a, b, p, q);
    if Unlike(a.nal, b.nal) {
      ApartJobs(a, n, b);
      SplicedNotSent(a, b, jobs, extra);
    }
  }

  /** Nor can it when the second fragment is an old one: the numbers are then k 2^16 - 1 apart. */
  lemma LateSplices(a: Job, b: Job, num: nat, extra: nat, k: nat)
    requires TwoPieces(a.nal) && TwoPieces(b.nal) && k > 0 && extra + 2 <= Turns(k)
    ensures var jobs := Apart(b, Turns(k) - extra - 2, a);
            var q := Fu(num + 2 * extra + 1, b.nal, CHUNK_MAX + 1, b.marker, b.ts);
            var p := Fu(num + 2 * extra + Turns(k), a.nal, 1, a.marker, a.ts);
            && p in History(jobs, num, extra) && q in History(jobs, num, extra) && !Near(p.num, q.num)
            && Delivered(Fresh, [p, q]) == [Spliced(a, b)]
            && (Unlike(a.nal, b.nal) ==> !Genuine(Spliced(a, b), jobs, extra))
  {
    hide History, Apart, Genuine, Turns, Unlike, Delivered, Spliced, Fillers;
    var n := Turns(k) - extra - 2;
    var jobs := Apart(b, n, a);
    ApartPackets(b, n, a, num, extra);
    var p, q := First(a, num + 2 * extra + 2 + n, extra), Second(b, num, extra);
    WrapOff(q.num - 1, k);
    assert p.num == num + 2 * extra + Turns(k);
    Splice(a, b, p, q);
    if Unlike(a.nal, b.nal) {
      ApartJobs(b, n, a);
      SplicedNotSent(a, b, jobs, extra);
    }
  }

  lemma TurnsVanish(x: int, k: nat)
    ensures (x + Turns(k)) % U16 == x % U16 && (x - Turns(k)) % U16 == x % U16
  {
    NumberTheory.DivUnique(x + Turns(k), U16, x / U16 + k, x % U16);
    NumberTheory.DivUnique(x - Turns(k), U16, x / U16 - k, x % U16);
  }

  lemma WrapOff(m: nat, k: nat)
    requires k > 0
    ensures (m + Turns(k) + 1) % U16 == (m + 1) % U16
    ensures Turns(k) % U16 == 0 && (0 - Turns(k) as int) % U16 == 0 && Turns(k) > 0
  {
    TurnsVanish(m + 1, k);
    TurnsVanish(0, k);
  }

  lemma ApartJobs(x: Job, n: nat, y: Job)
    ensures forall j :: j in Apart(x, n, y) ==> j == x || j == y || |j.nal| == 1
  {
    FillersShort(n, 0);
  }

  lemma DeliverTwo(st: ParserState, p: Packet, q: Packet)
    ensures Delivered(st, [p, q]) == Items(Deliver(st, p).1) + Items(Deliver(Deliver(st, p).0, q).1)
  {
    assert [p, q][1..] == [q];
    assert [q][1..] == [];
    var st1 := Deliver(st, p).0;
    assert Delivered(st1, [q]) == Items(Deliver(st1, q).1) + Delivered(Deliver(st1, q).0, []);
  }

  // ----- the numbering as written: one wasted number before every fragment

  lemma GapClears(st: ParserState, num: nat)
    requires num > 0 && st.lastSeq == (num - 1) % U16
    ensures Continue(st, (num + 1) % U16).fuaBuf == []
  {
  }

  lemma LateFragment(st: ParserState, p: Packet)
    requires p.Fu? && p.off > 1 && Continue(st, p.num % U16).fuaBuf == []
    ensures Deliver(st, p).1 == None && Deliver(st, p).0.lastSeq == p.num % U16
  {
  }

  /** A fragment that follows a gap yields nothing, and nothing it leaves behind survives the next. */
  lemma {:induction false} GappedFragments(st: ParserState, j: Job, off: nat, num: nat)
    requires |j.nal| > PKT_MAX && 1 < off <= |j.nal| && num > 0 && st.lastSeq == (num - 1) % U16
    ensures Delivered(st, FuPackets(j, off, num, 1)) == []
    decreases |j.nal| - off
  {
    if off < |j.nal| {
      var p := Fu(num + 1, j.nal, off, j.marker, j.ts);
      var rest := FuPackets(j, End(j.nal, off), num + 2, 1);
      assert FuPackets(j, off, num, 1) == [p] + rest;
      assert ([p] + rest)[1..] == rest;
      GapClears(st, num);
      LateFragment(st, p);
      GappedFragments(Deliver(st, p).0, j, End(j.nal, off), num + 2);
    }
  }

  /** The NALs that fit one packet. */
  function ShortYields(jobs: seq<Job>): seq<Yield> {
    if jobs == [] then [] else
    (if |jobs[0].nal| <= PKT_MAX then [Yield(jobs[0].nal, jobs[0].marker)] else []) + ShortYields(jobs[1..])
  }

  /** As written, even a faithful in-order network delivers exactly the short NALs. */
  lemma {:induction false} AsWrittenInOrder(st: ParserState, jobs: seq<Job>, num: nat)
    requires forall j :: j in jobs ==> Deliverable(j.nal)
    ensures Delivered(st, History(jobs, num, 1)) == ShortYields(jobs)
    decreases |jobs|
  {
    if jobs != [] {
      var a, next := PacketsOf(jobs[0], num, 1), NumberAfter(jobs[0], num, 1);
      AsWrittenJob(st, jobs[0], num);
      DeliverAppend(st, a, History(jobs[1..], next, 1));
      AsWrittenInOrder(StateAfter(st, a), jobs[1..], next);
    }
  }

  lemma AsWrittenJob(st: ParserState, j: Job, num: nat)
    requires Deliverable(j.nal)
    ensures Delivered(st, PacketsOf(j, num, 1)) == ShortYields([j])
  {
    assert [j][1..] == [];
    if |j.nal| <= PKT_MAX {
      JobDelivers(st, j, num);
      assert PacketsOf(j, num, 0) == PacketsOf(j, num, 1);
    } else {
      AsWrittenLong(st, j, num);
    }
  }

  lemma AsWrittenLong(st: ParserState, j: Job, num: nat)
    requires |j.nal| > PKT_MAX
    ensures Delivered(st, PacketsOf(j, num, 1)) == []
  {
    FirstFragment(st, num + 1, j.nal, j.marker, j.ts);
    var p := Fu(num + 1, j.nal, 1, j.marker, j.ts);
    var rest := FuPackets(j, End(j.nal, 1), num + 2, 1);
    assert FuPackets(j, 1, num, 1) == [p] + rest;
    assert ([p] + rest)[1..] == rest;
    GappedFragments(Deliver(st, p).0, j, End(j.nal, 1), num + 2);
  }
}
