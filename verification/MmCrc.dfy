/** The table-driven CRC-16/XMODEM of mmcrc.c against the bitwise definition with the polynomial
    0x1021. */
module MmCrc {

  type Bytes = seq<bv8>

  // Operations on the words, named so that the proofs above the bit level are equational.

  function Xor(a: bv16, b: bv16): bv16 { a ^ b }

  function Up(a: bv16): bv16 { a << 8 }

  function Wide(d: bv8): bv16 { d as bv16 }

  // ----- the lookup table, sixteen entries to a row

  function Row0(l: bv16): bv16 {
    if l < 4 then (if l == 0 then 0x0000 else if l == 1 then 0x1021 else if l == 2 then 0x2042 else 0x3063)
    else if l < 8 then (if l == 4 then 0x4084 else if l == 5 then 0x50a5 else if l == 6 then 0x60c6 else 0x70e7)
    else if l < 12 then (if l == 8 then 0x8108 else if l == 9 then 0x9129 else if l == 10 then 0xa14a else 0xb16b)
    else if l == 12 then 0xc18c else if l == 13 then 0xd1ad else if l == 14 then 0xe1ce else 0xf1ef
  }

  function Row1(l: bv16): bv16 {
    if l < 4 then (if l == 0 then 0x1231 else if l == 1 then 0x0210 else if l == 2 then 0x3273 else 0x2252)
    else if l < 8 then (if l == 4 then 0x52b5 else if l == 5 then 0x4294 else if l == 6 then 0x72f7 else 0x62d6)
    else if l < 12 then (if l == 8 then 0x9339 else if l == 9 then 0x8318 else if l == 10 then 0xb37b else 0xa35a)
    else if l == 12 then 0xd3bd else if l == 13 then 0xc39c else if l == 14 then 0xf3ff else 0xe3de
  }

  function Row2(l: bv16): bv16 {
    if l < 4 then (if l == 0 then 0x2462 else if l == 1 then 0x3443 else if l == 2 then 0x0420 else 0x1401)
    else if l < 8 then (if l == 4 then 0x64e6 else if l == 5 then 0x74c7 else if l == 6 then 0x44a4 else 0x5485)
    else if l < 12 then (if l == 8 then 0xa56a else if l == 9 then 0xb54b else if l == 10 then 0x8528 else 0x9509)
    else if l == 12 then 0xe5ee else if l == 13 then 0xf5cf else if l == 14 then 0xc5ac else 0xd58d
  }

  function Row3(l: bv16): bv16 {
    if l < 4 then (if l == 0 then 0x3653 else if l == 1 then 0x2672 else if l == 2 then 0x1611 else 0x0630)
    else if l < 8 then (if l == 4 then 0x76d7 else if l == 5 then 0x66f6 else if l == 6 then 0x5695 else 0x46b4)
    else if l < 12 then (if l == 8 then 0xb75b else if l == 9 then 0xa77a else if l == 10 then 0x9719 else 0x8738)
    else if l == 12 then 0xf7df else if l == 13 then 0xe7fe else if l == 14 then 0xd79d else 0xc7bc
  }

  function Row4(l: bv16): bv16 {
    if l < 4 then (if l == 0 then 0x48c4 else if l == 1 then 0x58e5 else if l == 2 then 0x6886 else 0x78a7)
    else if l < 8 then (if l == 4 then 0x0840 else if l == 5 then 0x1861 else if l == 6 then 0x2802 else 0x3823)
    else if l < 12 then (if l == 8 then 0xc9cc else if l == 9 then 0xd9ed else if l == 10 then 0xe98e else 0xf9af)
    else if l == 12 then 0x8948 else if l == 13 then 0x9969 else if l == 14 then 0xa90a else 0xb92b
  }

  function Row5(l: bv16): bv16 {
    if l < 4 then (if l == 0 then 0x5af5 else if l == 1 then 0x4ad4 else if l == 2 then 0x7ab7 else 0x6a96)
    else if l < 8 then (if l == 4 then 0x1a71 else if l == 5 then 0x0a50 else if l == 6 then 0x3a33 else 0x2a12)
    else if l < 12 then (if l == 8 then 0xdbfd else if l == 9 then 0xcbdc else if l == 10 then 0xfbbf else 0xeb9e)
    else if l == 12 then 0x9b79 else if l == 13 then 0x8b58 else if l == 14 then 0xbb3b else 0xab1a
  }

  function Row6(l: bv16): bv16 {
    if l < 4 then (if l == 0 then 0x6ca6 else if l == 1 then 0x7c87 else if l == 2 then 0x4ce4 else 0x5cc5)
    else if l < 8 then (if l == 4 then 0x2c22 else if l == 5 then 0x3c03 else if l == 6 then 0x0c60 else 0x1c41)
    else if l < 12 then (if l == 8 then 0xedae else if l == 9 then 0xfd8f else if l == 10 then 0xcdec else 0xddcd)
    else if l == 12 then 0xad2a else if l == 13 then 0xbd0b else if l == 14 then 0x8d68 else 0x9d49
  }

  function Row7(l: bv16): bv16 {
    if l < 4 then (if l == 0 then 0x7e97 else if l == 1 then 0x6eb6 else if l == 2 then 0x5ed5 else 0x4ef4)
    else if l < 8 then (if l == 4 then 0x3e13 else if l == 5 then 0x2e32 else if l == 6 then 0x1e51 else 0x0e70)
    else if l < 12 then (if l == 8 then 0xff9f else if l == 9 then 0xefbe else if l == 10 then 0xdfdd else 0xcffc)
    else if l == 12 then 0xbf1b else if l == 13 then 0xaf3a else if l == 14 then 0x9f59 else 0x8f78
  }

  function Row8(l: bv16): bv16 {
    if l < 4 then (if l == 0 then 0x9188 else if l == 1 then 0x81a9 else if l == 2 then 0xb1ca else 0xa1eb)
    else if l < 8 then (if l == 4 then 0xd10c else if l == 5 then 0xc12d else if l == 6 then 0xf14e else 0xe16f)
    else if l < 12 then (if l == 8 then 0x1080 else if l == 9 then 0x00a1 else if l == 10 then 0x30c2 else 0x20e3)
    else if l == 12 then 0x5004 else if l == 13 then 0x4025 else if l == 14 then 0x7046 else 0x6067
  }

  function Row9(l: bv16): bv16 {
    if l < 4 then (if l == 0 then 0x83b9 else if l == 1 then 0x9398 else if l == 2 then 0xa3fb else 0xb3da)
    else if l < 8 then (if l == 4 then 0xc33d else if l == 5 then 0xd31c else if l == 6 then 0xe37f else 0xf35e)
    else if l < 12 then (if l == 8 then 0x02b1 else if l == 9 then 0x1290 else if l == 10 then 0x22f3 else 0x32d2)
    else if l == 12 then 0x4235 else if l == 13 then 0x5214 else if l == 14 then 0x6277 else 0x7256
  }

  function RowA(l: bv16): bv16 {
    if l < 4 then (if l == 0 then 0xb5ea else if l == 1 then 0xa5cb else if l == 2 then 0x95a8 else 0x8589)
    else if l < 8 then (if l == 4 then 0xf56e else if l == 5 then 0xe54f else if l == 6 then 0xd52c else 0xc50d)
    else if l < 12 then (if l == 8 then 0x34e2 else if l == 9 then 0x24c3 else if l == 10 then 0x14a0 else 0x0481)
    else if l == 12 then 0x7466 else if l == 13 then 0x6447 else if l == 14 then 0x5424 else 0x4405
  }

  function RowB(l: bv16): bv16 {
    if l < 4 then (if l == 0 then 0xa7db else if l == 1 then 0xb7fa else if l == 2 then 0x8799 else 0x97b8)
    else if l < 8 then (if l == 4 then 0xe75f else if l == 5 then 0xf77e else if l == 6 then 0xc71d else 0xd73c)
    else if l < 12 then (if l == 8 then 0x26d3 else if l == 9 then 0x36f2 else if l == 10 then 0x0691 else 0x16b0)
    else if l == 12 then 0x6657 else if l == 13 then 0x7676 else if l == 14 then 0x4615 else 0x5634
  }

  function RowC(l: bv16): bv16 {
    if l < 4 then (if l == 0 then 0xd94c else if l == 1 then 0xc96d else if l == 2 then 0xf90e else 0xe92f)
    else if l < 8 then (if l == 4 then 0x99c8 else if l == 5 then 0x89e9 else if l == 6 then 0xb98a else 0xa9ab)
    else if l < 12 then (if l == 8 then 0x5844 else if l == 9 then 0x4865 else if l == 10 then 0x7806 else 0x6827)
    else if l == 12 then 0x18c0 else if l == 13 then 0x08e1 else if l == 14 then 0x3882 else 0x28a3
  }

  function RowD(l: bv16): bv16 {
    if l < 4 then (if l == 0 then 0xcb7d else if l == 1 then 0xdb5c else if l == 2 then 0xeb3f else 0xfb1e)
    else if l < 8 then (if l == 4 then 0x8bf9 else if l == 5 then 0x9bd8 else if l == 6 then 0xabbb else 0xbb9a)
    else if l < 12 then (if l == 8 then 0x4a75 else if l == 9 then 0x5a54 else if l == 10 then 0x6a37 else 0x7a16)
    else if l == 12 then 0x0af1 else if l == 13 then 0x1ad0 else if l == 14 then 0x2ab3 else 0x3a92
  }

  function RowE(l: bv16): bv16 {
    if l < 4 then (if l == 0 then 0xfd2e else if l == 1 then 0xed0f else if l == 2 then 0xdd6c else 0xcd4d)
    else if l < 8 then (if l == 4 then 0xbdaa else if l == 5 then 0xad8b else if l == 6 then 0x9de8 else 0x8dc9)
    else if l < 12 then (if l == 8 then 0x7c26 else if l == 9 then 0x6c07 else if l == 10 then 0x5c64 else 0x4c45)
    else if l == 12 then 0x3ca2 else if l == 13 then 0x2c83 else if l == 14 then 0x1ce0 else 0x0cc1
  }

  function RowF(l: bv16): bv16 {
    if l < 4 then (if l == 0 then 0xef1f else if l == 1 then 0xff3e else if l == 2 then 0xcf5d else 0xdf7c)
    else if l < 8 then (if l == 4 then 0xaf9b else if l == 5 then 0xbfba else if l == 6 then 0x8fd9 else 0x9ff8)
    else if l < 12 then (if l == 8 then 0x6e17 else if l == 9 then 0x7e36 else if l == 10 then 0x4e55 else 0x5e74)
    else if l == 12 then 0x2e93 else if l == 13 then 0x3eb2 else if l == 14 then 0x0ed1 else 0x1ef0
  }

  function Table(i: bv16): bv16 {
    var l := i & 0xF;
    match i >> 4
    case 0 => Row0(l)
    case 1 => Row1(l)
    case 2 => Row2(l)
    case 3 => Row3(l)
    case 4 => Row4(l)
    case 5 => Row5(l)
    case 6 => Row6(l)
    case 7 => Row7(l)
    case 8 => Row8(l)
    case 9 => Row9(l)
    case 10 => RowA(l)
    case 11 => RowB(l)
    case 12 => RowC(l)
    case 13 => RowD(l)
    case 14 => RowE(l)
    case _ => RowF(l)
  }

  // ----- the bitwise definition

  /** One bit of the shift register, most significant first. */
  function Bit(crc: bv16): bv16 {
    if crc & 0x8000 != 0 then (crc << 1) ^ 0x1021 else crc << 1
  }

  function Bits2(crc: bv16): bv16 {
    Bit(Bit(crc))
  }

  function Bits4(crc: bv16): bv16 {
    Bits2(Bits2(crc))
  }

  function Bits8(crc: bv16): bv16 {
    Bits4(Bits4(crc))
  }

  /** A byte is added into the high half and shifted through. */
  function Step(crc: bv16, d: bv8): bv16 {
    Bits8(Xor(crc, Up(Wide(d))))
  }

  function Crc(crc: bv16, data: Bytes): bv16
    decreases |data|
  {
    if data == [] then crc else Crc(Step(crc, data[0]), data[1..])
  }

  // ----- the table holds the effect of each byte

  lemma Row0Is(l: bv16)
    requires l < 16
    ensures Row0(l) == Bits8(Xor(0x0000, l << 8))
  {
  }

  lemma Row1Is(l: bv16)
    requires l < 16
    ensures Row1(l) == Bits8(Xor(0x1000, l << 8))
  {
  }

  lemma Row2Is(l: bv16)
    requires l < 16
    ensures Row2(l) == Bits8(Xor(0x2000, l << 8))
  {
  }

  lemma Row3Is(l: bv16)
    requires l < 16
    ensures Row3(l) == Bits8(Xor(0x3000, l << 8))
  {
  }

  lemma Row4Is(l: bv16)
    requires l < 16
    ensures Row4(l) == Bits8(Xor(0x4000, l << 8))
  {
  }

  lemma Row5Is(l: bv16)
    requires l < 16
    ensures Row5(l) == Bits8(Xor(0x5000, l << 8))
  {
  }

  lemma Row6Is(l: bv16)
    requires l < 16
    ensures Row6(l) == Bits8(Xor(0x6000, l << 8))
  {
  }

  lemma Row7Is(l: bv16)
    requires l < 16
    ensures Row7(l) == Bits8(Xor(0x7000, l << 8))
  {
  }

  lemma Row8Is(l: bv16)
    requires l < 16
    ensures Row8(l) == Bits8(Xor(0x8000, l << 8))
  {
  }

  lemma Row9Is(l: bv16)
    requires l < 16
    ensures Row9(l) == Bits8(Xor(0x9000, l << 8))
  {
  }

  lemma RowAIs(l: bv16)
    requires l < 16
    ensures RowA(l) == Bits8(Xor(0xA000, l << 8))
  {
  }

  lemma RowBIs(l: bv16)
    requires l < 16
    ensures RowB(l) == Bits8(Xor(0xB000, l << 8))
  {
  }

  lemma RowCIs(l: bv16)
    requires l < 16
    ensures RowC(l) == Bits8(Xor(0xC000, l << 8))
  {
  }

  lemma RowDIs(l: bv16)
    requires l < 16
    ensures RowD(l) == Bits8(Xor(0xD000, l << 8))
  {
  }

  lemma RowEIs(l: bv16)
    requires l < 16
    ensures RowE(l) == Bits8(Xor(0xE000, l << 8))
  {
  }

  lemma RowFIs(l: bv16)
    requires l < 16
    ensures RowF(l) == Bits8(Xor(0xF000, l << 8))
  {
  }

  lemma TableIs(i: bv16)
    requires i < 256
    ensures Table(i) == Bits8(Up(i))
  {
    var l := i & 0xF;
    RowOf(i);
    hide Bits8, Xor, Up, Row0, Row1, Row2, Row3, Row4, Row5, Row6, Row7, Row8, Row9, RowA, RowB, RowC, RowD, RowE, RowF;
    match i >> 4 {
      case 0 => Row0Is(l);
      case 1 => Row1Is(l);
      case 2 => Row2Is(l);
      case 3 => Row3Is(l);
      case 4 => Row4Is(l);
      case 5 => Row5Is(l);
      case 6 => Row6Is(l);
      case 7 => Row7Is(l);
      case 8 => Row8Is(l);
      case 9 => Row9Is(l);
      case 10 => RowAIs(l);
      case 11 => RowBIs(l);
      case 12 => RowCIs(l);
      case 13 => RowDIs(l);
      case 14 => RowEIs(l);
      case _ => RowFIs(l);
    }
  }

  lemma RowOf(i: bv16)
    requires i < 256
    ensures i & 0xF < 16 && i >> 4 < 16 && Up(i) == Xor((i >> 4) << 12, (i & 0xF) << 8)
  {
  }

  // ----- the byte step is eight bit steps

  lemma ShiftXor(a: bv16, b: bv16)
    ensures (a ^ b) << 1 == (a << 1) ^ (b << 1)
  {
  }

  lemma TopXor(a: bv16, b: bv16)
    ensures (a ^ b) & 0x8000 == (a & 0x8000) ^ (b & 0x8000)
    ensures a & 0x8000 == 0 || a & 0x8000 == 0x8000
  {
  }

  lemma Cancel(a: bv16, b: bv16, c: bv16)
    ensures (a ^ c) ^ (b ^ c) == a ^ b
    ensures (a ^ c) ^ b == (a ^ b) ^ c
    ensures a ^ (b ^ c) == (a ^ b) ^ c
  {
  }

  lemma BitLinear(a: bv16, b: bv16)
    ensures Bit(Xor(a, b)) == Xor(Bit(a), Bit(b))
  {
    ShiftXor(a, b);
    TopXor(a, b);
    TopXor(b, a);
    Cancel(a << 1, b << 1, 0x1021);
  }

  lemma Bits2Linear(a: bv16, b: bv16)
    ensures Bits2(Xor(a, b)) == Xor(Bits2(a), Bits2(b))
  {
    hide Bit, Xor;
    BitLinear(a, b);
    BitLinear(Bit(a), Bit(b));
  }

  lemma Bits4Linear(a: bv16, b: bv16)
    ensures Bits4(Xor(a, b)) == Xor(Bits4(a), Bits4(b))
  {
    hide Bits2, Xor;
    Bits2Linear(a, b);
    Bits2Linear(Bits2(a), Bits2(b));
  }

  lemma Bits8Linear(a: bv16, b: bv16)
    ensures Bits8(Xor(a, b)) == Xor(Bits8(a), Bits8(b))
  {
    hide Bits4, Xor;
    Bits4Linear(a, b);
    Bits4Linear(Bits4(a), Bits4(b));
  }

  /** The low half only moves up. */
  lemma LowHalf(l: bv16)
    requires l < 256
    ensures Bits8(l) == Up(l)
  {
  }

  /** The table index: the high half of the CRC against the byte. */
  function Index(crc: bv16, d: bv8): bv16 {
    IndexOf(crc, Wide(d))
  }

  function IndexOf(crc: bv16, w: bv16): bv16 {
    Xor(crc >> 8, w)
  }

  function LowByte(crc: bv16): bv16 { crc & 0xFF }

  lemma HalvesRange(crc: bv16, d: bv8)
    ensures Index(crc, d) < 256 && LowByte(crc) < 256
    ensures Up(LowByte(crc)) == crc << 8
  {
  }

  lemma UpXor(a: bv16, b: bv16)
    ensures Up(Xor(a, b)) == Xor(Up(a), Up(b))
  {
  }

  lemma Rejoin(crc: bv16)
    ensures Xor(Up(crc >> 8), LowByte(crc)) == crc
  {
  }

  lemma XorSwap(a: bv16, b: bv16, c: bv16)
    ensures Xor(Xor(a, c), b) == Xor(Xor(a, b), c)
  {
  }

  lemma Halves(crc: bv16, w: bv16)
    ensures Xor(crc, Up(w)) == Xor(Up(IndexOf(crc, w)), LowByte(crc))
  {
    hide Xor, Up, LowByte;
    UpXor(crc >> 8, w);
    Rejoin(crc);
    XorSwap(Up(crc >> 8), LowByte(crc), Up(w));
  }

  lemma WideRange(d: bv8)
    ensures Wide(d) < 256
  {
  }

  lemma IndexHalves(crc: bv16, d: bv8)
    ensures Xor(crc, Up(Wide(d))) == Xor(Up(Index(crc, d)), LowByte(crc))
  {
    hide Wide, Xor, Up, LowByte, IndexOf;
    Halves(crc, Wide(d));
  }

  /** The table-driven step is the bitwise one. */
  lemma TableStep(crc: bv16, d: bv8)
    ensures Xor(Table(Index(crc, d)), crc << 8) == Step(crc, d)
  {
    hide Table, Bits8, Xor, Index, Up, Wide, LowByte;
    HalvesRange(crc, d);
    IndexHalves(crc, d);
    TableIs(Index(crc, d));
    LowHalf(LowByte(crc));
    Bits8Linear(Up(Index(crc, d)), LowByte(crc));
  }

  /** mmcrc_16_xmodem. */
  method Mmcrc16Xmodem(start: bv16, data: Bytes) returns (crc: bv16)
    ensures crc == Crc(start, data)
  {
    hide Table, Step, Xor, Index;
    crc := start;
    var d, left := 0, |data|;
    while left != 0
      invariant d + left == |data| && left >= 0
      invariant Crc(crc, data[d..]) == Crc(start, data)
    {
      TableStep(crc, data[d]);
      crc := Xor(Table(Index(crc, data[d])), crc << 8);
      d, left := d + 1, left - 1;
    }
  }

  // ----- what the CRC of a message says

  /** Checksumming in pieces gives the same result. */
  lemma {:induction false} CrcAppend(crc: bv16, a: Bytes, b: Bytes)
    ensures Crc(crc, a + b) == Crc(Crc(crc, a), b)
    decreases |a|
  {
    hide Step;
    if a == [] {
      assert a + b == b;
    } else {
      assert (a + b)[1..] == a[1..] + b;
      CrcAppend(Step(crc, a[0]), a[1..], b);
    }
  }

  lemma BitInjective(a: bv16)
    requires Bit(a) == 0
    ensures a == 0
  {
  }

  lemma Bits8Zero(a: bv16)
    requires Bits8(a) == 0
    ensures a == 0
  {
    hide Bit;
    BitInjective(Bit(Bit(Bit(Bit(Bit(Bit(Bit(a))))))));
    BitInjective(Bit(Bit(Bit(Bit(Bit(Bit(a)))))));
    BitInjective(Bit(Bit(Bit(Bit(Bit(a))))));
    BitInjective(Bit(Bit(Bit(Bit(a)))));
    BitInjective(Bit(Bit(Bit(a))));
    BitInjective(Bit(Bit(a)));
    BitInjective(Bit(a));
    BitInjective(a);
  }

  /** The two bytes of a CRC, the high one first. */
  function High(crc: bv16): bv8 {
    (crc >> 8) as bv8
  }

  function Low(crc: bv16): bv8 {
    (crc & 0xFF) as bv8
  }

  lemma WordsAre(crc: bv16, w: bv16, v: bv16)
    requires w < 256 && v < 256
    ensures Xor(crc, Up(w)) == v <==> w == crc >> 8 && v == crc & 0xFF
  {
  }

  lemma BytesAre(crc: bv16, h: bv8, l: bv8)
    ensures Wide(h) == crc >> 8 <==> h == High(crc)
    ensures Wide(l) == crc & 0xFF <==> l == Low(crc)
  {
  }

  lemma HalvesAre(crc: bv16, h: bv8, l: bv8)
    ensures Xor(crc, Up(Wide(h))) == Wide(l) <==> h == High(crc) && l == Low(crc)
  {
    hide Xor, Up, Wide, High, Low;
    WideRange(h);
    WideRange(l);
    WordsAre(crc, Wide(h), Wide(l));
    BytesAre(crc, h, l);
  }

  lemma XorZero(a: bv16, b: bv16)
    ensures Xor(a, b) == 0 <==> a == b
  {
  }

  /** Equal after eight bits means equal before. */
  lemma Bits8Injective(a: bv16, b: bv16)
    requires Bits8(a) == Bits8(b)
    ensures a == b
  {
    hide Bits8, Xor;
    Bits8Linear(a, b);
    XorZero(Bits8(a), Bits8(b));
    Bits8Zero(Xor(a, b));
    XorZero(a, b);
  }

  lemma StepZero(x: bv16, l: bv8)
    ensures Step(x, l) == 0 <==> x == Bits8(Wide(l))
  {
    hide Bits8, Xor, Up, Wide;
    WideRange(l);
    LowHalf(Wide(l));
    Bits8OfZero();
    XorZero(x, Up(Wide(l)));
    if Step(x, l) == 0 {
      Bits8Zero(Xor(x, Up(Wide(l))));
    }
  }

  /** Two byte steps give 0 exactly when the bytes are the halves of the CRC. */
  lemma TwoStepsZero(crc: bv16, h: bv8, l: bv8)
    ensures Step(Step(crc, h), l) == 0 <==> h == High(crc) && l == Low(crc)
  {
    hide Bits8, Xor, Up, Wide, High, Low;
    HalvesAre(crc, h, l);
    StepZero(Step(crc, h), l);
    if Step(crc, h) == Bits8(Wide(l)) {
      Bits8Injective(Xor(crc, Up(Wide(h))), Wide(l));
    }
  }

  lemma Bits8OfZero()
    ensures Bits8(0) == 0
  {
  }

  /** A message followed by two bytes has CRC 0 exactly when they are its own CRC, high byte first. */
  lemma SelfCheck(start: bv16, message: Bytes, h: bv8, l: bv8)
    ensures Crc(start, message + [h, l]) == 0
            <==> h == High(Crc(start, message)) && l == Low(Crc(start, message))
  {
    hide Step, High, Low;
    var crc := Crc(start, message);
    CrcAppend(start, message, [h, l]);
    assert [h, l][1..] == [l] && [l][1..] == [];
    assert Crc(crc, [h, l]) == Crc(Step(crc, h), [l]);
    TwoStepsZero(crc, h, l);
  }
}
