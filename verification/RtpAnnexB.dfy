/** Splitting an Annex B stream at its start codes undoes joining NAL units with them. */
module RtpAnnexB {
  import opened RtpModel
  import opened RtpProofs

  /** The NAL units of a stream, each with the length of the start code before it. */
  datatype Units = Nil | Unit(long: bool, nal: Bytes, rest: Units)

  function Code(long: bool): Bytes {
    if long then [0, 0, 0, 1] else [0, 0, 1]
  }

  function Join(us: Units): Bytes {
    match us
    case Nil => []
    case Unit(long, nal, rest) => Code(long) + nal + Join(rest)
  }

  /** No start code inside. */
  predicate Clean(nal: Bytes) {
    |nal| > 0 && forall k :: 0 <= k < |nal| - 2 ==> !(nal[k] == 0 && nal[k + 1] == 0 && nal[k + 2] == 1)
  }

  /** Only a NAL before a three-byte code may not end in zero: the zero would join the code. */
  predicate CleanUnits(us: Units) {
    us.Unit? ==> Clean(us.nal) && FitsBefore(us.nal, us.rest) && CleanUnits(us.rest)
  }

  predicate FitsBefore(nal: Bytes, rest: Units)
    requires |nal| > 0
  {
    rest.Unit? ==> (rest.long || nal[|nal| - 1] != 0) && |rest.nal| > 0
  }

  predicate DeliverableUnits(us: Units) {
    us.Unit? ==> Deliverable(us.nal) && DeliverableUnits(us.rest)
  }

  function JobsFor(us: Units, ts: u32): seq<Job>
    requires CleanUnits(us)
  {
    match us
    case Nil => []
    case Unit(_, nal, rest) => [Job(nal, rest == Nil, ts)] + JobsFor(rest, ts)
  }

  /** What a viewer should see of the stream. */
  function YieldsFor(us: Units): seq<Yield> {
    match us
    case Nil => []
    case Unit(_, nal, rest) => [Yield(nal, rest == Nil)] + YieldsFor(rest)
  }

  /** buf holds nal at s and the units rest after it. */
  predicate Layout(buf: Bytes, s: nat, nal: Bytes, rest: Units) {
    && s + |nal| <= |buf|
    && buf[s..s + |nal|] == nal
    && buf[s + |nal|..] == Join(rest)
    && Clean(nal)
    && FitsBefore(nal, rest)
  }

  lemma JoinStart(rest: Units)
    requires rest.Unit? && |rest.nal| > 0
    ensures var j := Join(rest);
            |j| >= 4 && j[0] == 0 && j[1] == 0 && (if rest.long then j[2] == 0 && j[3] == 1 else j[2] == 1)
  {
  }

  /** No start code is seen before the NAL ends. */
  lemma NoCodeInside(buf: Bytes, s: nat, nal: Bytes, rest: Units, p: nat)
    requires Layout(buf, s, nal, rest) && s <= p < s + |nal|
    ensures p + 3 < |buf| ==> !CodeAt(buf, p)
    ensures rest.Unit? ==> p + 3 < |buf|
  {
    var k, j := p - s, buf[s + |nal|..];
    assert forall i :: 0 <= i < |nal| ==> buf[s + i] == nal[i];
    assert forall i :: 0 <= i < |j| ==> buf[s + |nal| + i] == j[i];
    if rest.Unit? {
      JoinStart(rest);
    }
    if k + 3 < |nal| {
      assert !(nal[k] == 0 && nal[k + 1] == 0 && nal[k + 2] == 1);
      assert !(nal[k + 1] == 0 && nal[k + 1 + 1] == 0 && nal[k + 1 + 2] == 1);
    } else if k + 2 < |nal| {
      assert !(nal[k] == 0 && nal[k + 1] == 0 && nal[k + 2] == 1);
    }
  }

  lemma {:induction false} NextCodeAfterNal(buf: Bytes, s: nat, nal: Bytes, rest: Units, p: nat)
    requires Layout(buf, s, nal, rest) && s <= p <= s + |nal|
    ensures NextCode(buf, p) == s + |nal|
    decreases s + |nal| - p
  {
    if p < s + |nal| {
      NoCodeInside(buf, s, nal, rest, p);
      if p + 3 < |buf| {
        NextCodeAfterNal(buf, s, nal, rest, p + 1);
      }
    } else if rest.Unit? {
      JoinStart(rest);
      var j := buf[p..];
      assert buf[p] == j[0] && buf[p + 1] == j[1] && buf[p + 2] == j[2] && buf[p + 3] == j[3];
    }
  }

  lemma StartLenHere(buf: Bytes, p: nat, long: bool)
    requires p + |Code(long)| < |buf| && buf[p..p + |Code(long)|] == Code(long)
    ensures StartLen(buf, p) == |Code(long)|
  {
    var code := buf[p..p + |Code(long)|];
    assert buf[p] == code[0] && buf[p + 1] == code[1] && buf[p + 2] == code[2];
    if long {
      assert buf[p + 3] == code[3];
    }
  }

  lemma FoundHere(buf: Bytes, p: nat, long: bool, next: nat)
    requires p + |Code(long)| < next <= |buf| && buf[p..p + |Code(long)|] == Code(long)
    requires NextCode(buf, p + |Code(long)|) == next
    ensures Find(buf, p) == Found(p + |Code(long)|, next)
  {
    StartLenHere(buf, p, long);
  }

  lemma Slices(buf: Bytes, p: nat, a: Bytes, b: Bytes, c: Bytes)
    requires p <= |buf| && buf[p..] == a + b + c
    ensures |buf| == p + |a| + |b| + |c|
    ensures buf[p..p + |a|] == a
    ensures buf[p + |a|..p + |a| + |b|] == b
    ensures buf[p + |a| + |b|..] == c
  {
    var t := buf[p..];
    assert t[..|a|] == a && t[|a|..|a| + |b|] == b && t[|a| + |b|..] == c;
  }

  /** One unit: its code is skipped, its NAL is found, and the rest of the stream follows. */
  lemma SplitOne(buf: Bytes, p: nat, us: Units)
    requires us.Unit? && CleanUnits(us) && p <= |buf| && buf[p..] == Join(us)
    ensures var (start, next) := (p + |Code(us.long)|, p + |Code(us.long)| + |us.nal|);
            && next <= |buf| && buf[next..] == Join(us.rest)
            && Find(buf, p) == Found(start, next)
            && buf[start..next] == us.nal
  {
    var s := p + |Code(us.long)|;
    Slices(buf, p, Code(us.long), us.nal, Join(us.rest));
    NextCodeAfterNal(buf, s, us.nal, us.rest, s);
    FoundHere(buf, p, us.long, s + |us.nal|);
  }

  lemma JobsStep(buf: Bytes, p: nat, start: nat, next: nat, ts: u32)
    requires p <= |buf| && Find(buf, p) == Found(start, next)
    ensures Jobs(buf, p, ts) == [Job(buf[start..next], next == |buf|, ts)] + Jobs(buf, next, ts)
  {
  }

  /** Splitting recovers exactly the NAL units, with the marker on the last one only. */
  lemma {:induction false} SplitJoin(buf: Bytes, p: nat, us: Units, ts: u32)
    requires CleanUnits(us) && p <= |buf| && buf[p..] == Join(us)
    ensures Jobs(buf, p, ts) == JobsFor(us, ts)
    decreases us
  {
    if us == Nil {
      assert p == |buf|;
    } else {
      var start := p + |Code(us.long)|;
      var next := start + |us.nal|;
      SplitOne(buf, p, us);
      JobsStep(buf, p, start, next, ts);
      SplitJoin(buf, next, us.rest, ts);
      if us.rest.Unit? {
        JoinStart(us.rest);
      }
    }
  }

  lemma {:induction false} JobsForDeliverable(us: Units, ts: u32)
    requires CleanUnits(us) && DeliverableUnits(us)
    ensures forall j :: j in JobsFor(us, ts) ==> Deliverable(j.nal)
    ensures Yields(JobsFor(us, ts)) == YieldsFor(us)
  {
    if us.Unit? {
      JobsForDeliverable(us.rest, ts);
      assert JobsFor(us, ts)[1..] == JobsFor(us.rest, ts);
    }
  }

  /** The frame round trip: NAL units joined with any start codes, packetised with one number per
      packet and delivered in order, come out as exactly that list, marker on the last. */
  lemma FrameRoundTrip(st: ParserState, us: Units, ts: u32, num: nat, ssrc: u32)
    requires CleanUnits(us) && DeliverableUnits(us)
    ensures Parsed(st, Wires(History(Jobs(Join(us), 0, ts), num, 0), ssrc)) == YieldsFor(us)
  {
    SplitJoin(Join(us), 0, us, ts);
    var jobs := JobsFor(us, ts);
    JobsForDeliverable(us, ts);
    WiresRoundTrip(st, History(jobs, num, 0), ssrc);
    InOrderRoundTrip(st, jobs, num);
  }
}
