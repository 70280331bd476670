/** The byte-wise CRC-16/MCRF4XX of the MAVLink codec against the bitwise definition with the
    reflected polynomial 0x8408, and what makes it detect short changes. */
module MavlinkCrc {

  type Bytes = seq<bv8>

  const INIT: bv16 := 0xFFFF

  function Xor(a: bv16, b: bv16): bv16 { a ^ b }

  function Nibbles(b: bv8): bv8 {
    b ^ (b << 4)
  }

  function Spread(tmp: bv16): bv16 {
    (tmp << 8) ^ (tmp << 3) ^ (tmp >> 4)
  }

  /** mavlink_crc_accumulate. */
  function Step(crc: bv16, data: bv8): bv16 {
    var tmp := Nibbles(data ^ ((crc & 0xFF) as bv8)) as bv16;
    Xor(crc >> 8, Spread(tmp))
  }

  function Accumulate(crc: bv16, buf: Bytes): bv16
    decreases |buf|
  {
    if buf == [] then crc else Accumulate(Step(crc, buf[0]), buf[1..])
  }

  /** One bit of the reflected shift register. */
  function Bit(crc: bv16): bv16 {
    if crc & 1 == 1 then (crc >> 1) ^ 0x8408 else crc >> 1
  }

  function Bits2(crc: bv16): bv16 {
    Bit(Bit(crc))
  }

  function Bits4(crc: bv16): bv16 {
    Bits2(Bits2(crc))
  }

  function Bits8(crc: bv16): bv16 {
    Bits4(Bits4(crc))
  }

  // ----- the byte step is eight bit steps

  // A value whose low bits are clear only shifts.  The lemmas double the number of steps each time;
  // Xor and the shifts are named so that the doubling is equational.

  function Shr(h: bv16): bv16 { h >> 1 }

  function Shr2(h: bv16): bv16 { Shr(Shr(h)) }

  function Shr4(h: bv16): bv16 { Shr2(Shr2(h)) }

  function Shr8(h: bv16): bv16 { Shr4(Shr4(h)) }

  predicate Clear(h: bv16) { h & 1 == 0 }

  predicate Clear2(h: bv16) { Clear(h) && Clear(Shr(h)) }

  predicate Clear4(h: bv16) { Clear2(h) && Clear2(Shr2(h)) }

  predicate Clear8(h: bv16) { Clear4(h) && Clear4(Shr4(h)) }

  lemma XorShift(h: bv16, l: bv16)
    ensures (h ^ l) >> 1 == (h >> 1) ^ (l >> 1)
  {
  }

  lemma XorLowBit(h: bv16, l: bv16)
    requires h & 1 == 0
    ensures (h ^ l) & 1 == l & 1
  {
  }

  lemma XorAssoc(a: bv16, b: bv16, c: bv16)
    ensures (a ^ b) ^ c == a ^ (b ^ c)
  {
  }

  lemma BitXor(h: bv16, l: bv16)
    requires h & 1 == 0
    ensures Bit(h ^ l) == (h >> 1) ^ Bit(l)
  {
    XorShift(h, l);
    XorLowBit(h, l);
    XorAssoc(h >> 1, l >> 1, 0x8408);
  }

  lemma BitSplit(h: bv16, l: bv16)
    requires Clear(h)
    ensures Bit(Xor(h, l)) == Xor(Shr(h), Bit(l))
  {
    hide Bit;
    BitXor(h, l);
  }

  lemma Bits2Split(h: bv16, l: bv16)
    requires Clear2(h)
    ensures Bits2(Xor(h, l)) == Xor(Shr2(h), Bits2(l))
  {
    hide Bit, Xor, Shr, Clear;
    BitSplit(h, l);
    BitSplit(Shr(h), Bit(l));
  }

  lemma Bits4Split(h: bv16, l: bv16)
    requires Clear4(h)
    ensures Bits4(Xor(h, l)) == Xor(Shr4(h), Bits4(l))
  {
    hide Bits2, Xor, Shr2, Clear2;
    Bits2Split(h, l);
    Bits2Split(Shr2(h), Bits2(l));
  }

  lemma Bits8Split(h: bv16, l: bv16)
    requires Clear8(h)
    ensures Bits8(Xor(h, l)) == Xor(Shr8(h), Bits8(l))
  {
    hide Bits4, Xor, Shr4, Clear4;
    Bits4Split(h, l);
    Bits4Split(Shr4(h), Bits4(l));
  }

  /** What the code does to state and byte once they are combined: shift out the low byte and fold
      its contribution back in. */
  function Fold(x: bv16): bv16 {
    Xor(x >> 8, Low(x & 0xFF))
  }

  function Low(l: bv16): bv16 {
    Spread((l ^ (l << 4)) & 0xFF)
  }

  lemma Bits8Low(l: bv16)
    requires l & 0xFF00 == 0
    ensures Bits8(l) == Low(l)
  {
  }

  lemma StepIsFold(crc: bv16, data: bv8)
    ensures Step(crc, data) == Fold(Xor(crc, data as bv16))
  {
    hide Step, Low;
    StepRaw(crc, data);
  }

  lemma StepRaw(crc: bv16, data: bv8)
    ensures Step(crc, data) == ((crc ^ (data as bv16)) >> 8) ^ Low((crc ^ (data as bv16)) & 0xFF)
  {
    hide Step, Low;
    StepByLow(crc, data);
    HighKept(crc, data);
  }

  lemma StepByLow(crc: bv16, data: bv8)
    ensures Step(crc, data) == Xor(crc >> 8, Low((crc ^ (data as bv16)) & 0xFF))
  {
    hide Spread, Nibbles, Xor;
    NibblesWide(crc, data);
  }

  lemma NibblesWide(crc: bv16, data: bv8)
    ensures var l := (crc ^ (data as bv16)) & 0xFF;
            Nibbles(data ^ ((crc & 0xFF) as bv8)) as bv16 == (l ^ (l << 4)) & 0xFF
  {
  }

  lemma HighKept(crc: bv16, data: bv8)
    ensures (crc ^ (data as bv16)) >> 8 == crc >> 8
  {
  }

  lemma Halves(x: bv16)
    ensures x == Xor(x & 0xFF00, x & 0xFF) && Shr8(x & 0xFF00) == x >> 8
    ensures Clear8(x & 0xFF00) && (x & 0xFF) & 0xFF00 == 0
  {
  }

  lemma FoldIsBits8(x: bv16)
    ensures Fold(x) == Bits8(x)
  {
    hide Bits8, Low, Clear8, Shr8, Xor;
    Halves(x);
    Bits8Split(x & 0xFF00, x & 0xFF);
    Bits8Low(x & 0xFF);
  }

  /** The byte-wise step equals eight bit steps of the reflected CRC with polynomial 0x8408. */
  lemma StepIsBitwise(crc: bv16, data: bv8)
    ensures Step(crc, data) == Bits8(Xor(crc, data as bv16))
  {
    hide Step, Fold, Bits8, Xor;
    StepIsFold(crc, data);
    FoldIsBits8(Xor(crc, data as bv16));
  }

  // ----- detection

  lemma FoldInjective(x: bv16, y: bv16)
    requires Fold(x) == Fold(y)
    ensures x == y
  {
  }

  lemma XorRightCancel(c: bv16, d: bv16, m: bv16)
    requires Xor(c, m) == Xor(d, m)
    ensures c == d
  {
  }

  /** For each byte the step is injective on the 16-bit state. */
  lemma StepInjective(c: bv16, d: bv16, data: bv8)
    requires Step(c, data) == Step(d, data)
    ensures c == d
  {
    hide Step, Fold, Xor;
    StepIsFold(c, data);
    StepIsFold(d, data);
    FoldInjective(Xor(c, data as bv16), Xor(d, data as bv16));
    XorRightCancel(c, d, data as bv16);
  }

  /** One bit step backwards: the polynomial's top bit tells whether it was added. */
  function Unbit(crc: bv16): bv16 {
    if crc & 0x8000 == 0 then crc << 1 else ((crc ^ 0x8408) << 1) | 1
  }

  function Unbits2(crc: bv16): bv16 {
    Unbit(Unbit(crc))
  }

  function Unbits4(crc: bv16): bv16 {
    Unbits2(Unbits2(crc))
  }

  function Unbits8(crc: bv16): bv16 {
    Unbits4(Unbits4(crc))
  }

  lemma UnshiftEven(y: bv16)
    requires y & 0x8000 == 0
    ensures (y << 1) & 1 == 0 && (y << 1) >> 1 == y
  {
  }

  lemma UnshiftOdd(y: bv16)
    requires y & 0x8000 == 0
    ensures ((y << 1) | 1) & 1 == 1 && ((y << 1) | 1) >> 1 == y
  {
  }

  lemma TopBit(y: bv16)
    requires y & 0x8000 != 0
    ensures (y ^ 0x8408) & 0x8000 == 0 && (y ^ 0x8408) ^ 0x8408 == y
  {
  }

  lemma BitUnbit(y: bv16)
    ensures Bit(Unbit(y)) == y
  {
    if y & 0x8000 == 0 {
      UnshiftEven(y);
    } else {
      TopBit(y);
      UnshiftOdd(y ^ 0x8408);
    }
  }

  lemma Bits8Unbits8(y: bv16)
    ensures Bits8(Unbits8(y)) == y
  {
    hide Bit, Unbit;
    BitUnbit(y);
    BitUnbit(Unbit(y));
    BitUnbit(Unbits2(y));
    BitUnbit(Unbit(Unbits2(y)));
    BitUnbit(Unbits4(y));
    BitUnbit(Unbit(Unbits4(y)));
    BitUnbit(Unbits2(Unbits4(y)));
    BitUnbit(Unbit(Unbits2(Unbits4(y))));
  }

  lemma XorTwice(u: bv16, d: bv16)
    ensures Xor(Xor(u, d), d) == u
  {
  }

  /** Every state is reached: the state before a byte, from the byte and the state after it. */
  function StepBack(y: bv16, data: bv8): bv16 {
    Xor(Unbits8(y), data as bv16)
  }

  /** So for each byte the step is a bijection. */
  lemma StepOnto(y: bv16, data: bv8)
    ensures Step(StepBack(y, data), data) == y
  {
    hide Step, Bits8, Unbits8, Xor;
    StepIsBitwise(StepBack(y, data), data);
    XorTwice(Unbits8(y), data as bv16);
    Bits8Unbits8(y);
  }

  /** The high byte of a contribution determines the byte it came from. */
  lemma LowHighByte(p: bv16, q: bv16)
    requires p & 0xFF00 == 0 && q & 0xFF00 == 0
    requires (Low(p) ^ Low(q)) & 0xFF00 == 0
    ensures p == q
  {
  }

  lemma SharedHigh(m: bv16, p: bv16, q: bv16)
    requires (m ^ p) >> 8 == (m ^ q) >> 8
    ensures (p ^ q) & 0xFF00 == 0
  {
  }

  lemma SameLow(c: bv16, a: bv8, x: bv8)
    requires (c ^ (a as bv16)) & 0xFF == (c ^ (x as bv16)) & 0xFF
    ensures a == x
  {
  }

  lemma MaskSmall(c: bv16)
    ensures (c & 0xFF) & 0xFF00 == 0
  {
  }

  /** One byte is determined by the state before and the high byte of the state after. */
  lemma FirstByte(c: bv16, a: bv8, x: bv8)
    requires Step(c, a) >> 8 == Step(c, x) >> 8
    ensures a == x
  {
    hide Step, Low;
    var p, q := (c ^ (a as bv16)) & 0xFF, (c ^ (x as bv16)) & 0xFF;
    StepByLow(c, a);
    StepByLow(c, x);
    MaskSmall(c ^ (a as bv16));
    MaskSmall(c ^ (x as bv16));
    SharedHigh(c >> 8, Low(p), Low(q));
    LowHighByte(p, q);
    SameLow(c, a, x);
  }

  /** Byte values only touch the low half of the state. */
  lemma XorByte(u: bv16, b: bv8, v: bv16, y: bv8)
    requires Xor(u, b as bv16) == Xor(v, y as bv16)
    ensures u >> 8 == v >> 8 && (u == v ==> b == y)
  {
  }

  /** Two consecutive bytes are determined by the state before and after them. */
  lemma TwoBytesInjective(c: bv16, a: bv8, b: bv8, x: bv8, y: bv8)
    requires Step(Step(c, a), b) == Step(Step(c, x), y)
    ensures a == x && b == y
  {
    hide Step, Fold, Xor;
    StepIsFold(Step(c, a), b);
    StepIsFold(Step(c, x), y);
    FoldInjective(Xor(Step(c, a), b as bv16), Xor(Step(c, x), y as bv16));
    XorByte(Step(c, a), b, Step(c, x), y);
    FirstByte(c, a, x);
  }

  lemma {:induction false} AccumulateAppend(crc: bv16, a: Bytes, b: Bytes)
    ensures Accumulate(crc, a + b) == Accumulate(Accumulate(crc, a), b)
    decreases |a|
  {
    if a == [] {
      assert a + b == b;
    } else {
      assert (a + b)[1..] == a[1..] + b;
      AccumulateAppend(Step(crc, a[0]), a[1..], b);
    }
  }

  lemma {:induction false} AccumulateInjective(c: bv16, d: bv16, buf: Bytes)
    requires Accumulate(c, buf) == Accumulate(d, buf)
    ensures c == d
    decreases |buf|
  {
    if buf != [] {
      AccumulateInjective(Step(c, buf[0]), Step(d, buf[0]), buf[1..]);
      StepInjective(c, d, buf[0]);
    }
  }

  /** A change confined to two adjacent bytes always changes the CRC, at any distance from the end. */
  lemma BurstDetected(crc: bv16, pre: Bytes, a: bv8, b: bv8, x: bv8, y: bv8, post: Bytes)
    requires a != x || b != y
    ensures Accumulate(crc, pre + [a, b] + post) != Accumulate(crc, pre + [x, y] + post)
  {
    var c := Accumulate(crc, pre);
    AccumulateAppend(crc, pre + [a, b], post);
    AccumulateAppend(crc, pre, [a, b]);
    AccumulateAppend(crc, pre + [x, y], post);
    AccumulateAppend(crc, pre, [x, y]);
    AccumulateTwo(c, a, b);
    AccumulateTwo(c, x, y);
    if Accumulate(crc, pre + [a, b] + post) == Accumulate(crc, pre + [x, y] + post) {
      AccumulateInjective(Step(Step(c, a), b), Step(Step(c, x), y), post);
      TwoBytesInjective(c, a, b, x, y);
      assert false;
    }
  }

  /** So does a change of a single byte. */
  lemma ByteDetected(crc: bv16, pre: Bytes, a: bv8, x: bv8, post: Bytes)
    requires a != x
    ensures Accumulate(crc, pre + [a] + post) != Accumulate(crc, pre + [x] + post)
  {
    hide Step;
    var c := Accumulate(crc, pre);
    AccumulateAppend(crc, pre + [a], post);
    AccumulateAppend(crc, pre, [a]);
    AccumulateAppend(crc, pre + [x], post);
    AccumulateAppend(crc, pre, [x]);
    AccumulateOne(c, a);
    AccumulateOne(c, x);
    if Accumulate(crc, pre + [a] + post) == Accumulate(crc, pre + [x] + post) {
      AccumulateInjective(Step(c, a), Step(c, x), post);
      FirstByte(c, a, x);
      assert false;
    }
  }

  lemma AccumulateOne(c: bv16, a: bv8)
    ensures Accumulate(c, [a]) == Step(c, a)
  {
    assert [a][1..] == [];
    assert Accumulate(Step(c, a), []) == Step(c, a);
  }

  lemma AccumulateTwo(c: bv16, a: bv8, b: bv8)
    ensures Accumulate(c, [a, b]) == Step(Step(c, a), b)
  {
    assert [a, b][1..] == [b];
    assert [b][1..] == [];
    assert Accumulate(Step(c, a), [b]) == Accumulate(Step(Step(c, a), b), []);
  }

  lemma AccumulateFour(c: bv16, x: bv8, y: bv8, z: bv8, w: bv8)
    ensures Accumulate(c, [x, y, z, w]) == Step(Step(Step(Step(c, x), y), z), w)
  {
    hide Step;
    AccumulateTwo(c, x, y);
    AccumulateTwo(Step(Step(c, x), y), z, w);
    AccumulateAppend(c, [x, y], [z, w]);
    assert [x, y] + [z, w] == [x, y, z, w];
  }

  /** The catalogue's check value of CRC-16/MCRF4XX, for the nine characters 1 to 9. */
  lemma CheckValue()
    ensures Accumulate(INIT, [0x31, 0x32, 0x33, 0x34, 0x35, 0x36, 0x37, 0x38, 0x39]) == 0x6F91
  {
    AccumulateFour(0xFFFF, 0x31, 0x32, 0x33, 0x34);
    assert Step(Step(Step(Step(0xFFFF, 0x31), 0x32), 0x33), 0x34) == 0x8B13;
    AccumulateFour(0x8B13, 0x35, 0x36, 0x37, 0x38);
    assert Step(Step(Step(Step(0x8B13, 0x35), 0x36), 0x37), 0x38) == 0xF795;
    AccumulateOne(0xF795, 0x39);
    assert Step(0xF795, 0x39) == 0x6F91;
    hide Step, Accumulate;
    var a: Bytes, b: Bytes := [0x31, 0x32, 0x33, 0x34], [0x35, 0x36, 0x37, 0x38];
    AccumulateAppend(0xFFFF, a, b);
    AccumulateAppend(0xFFFF, a + b, [0x39]);
    assert a + b + [0x39] == [0x31, 0x32, 0x33, 0x34, 0x35, 0x36, 0x37, 0x38, 0x39];
  }
}
