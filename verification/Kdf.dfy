/** Key expansion in the crypto shim: hmac_prf_bits (section 11.6.1.7.2 of IEEE Std 802.11ac-2013)
    and sha1_prf, with HMAC left uninterpreted. */
module Kdf {
  import NumberTheory

  type Byte = x: int | 0 <= x < 256
  type Bytes = seq<Byte>
  type Size = x: int | 0 < x witness 1

  /** An HMAC: the size of its result and byte j of the result for a key and a message. */
  datatype Hash = Hash(size: Size, byte: (Bytes, Bytes, nat) -> Byte)

  /** The message that block i is the HMAC of. */
  type Messages = nat -> Bytes

  /** Byte k of the stream that the blocks make up. */
  function At(h: Hash, key: Bytes, messages: Messages, k: nat): Byte {
    h.byte(key, messages(k / h.size), k % h.size)
  }

  /** The first n bytes of the stream. */
  function Take(h: Hash, key: Bytes, messages: Messages, n: nat): (r: Bytes)
    ensures |r| == n && forall k :: 0 <= k < n ==> r[k] == At(h, key, messages, k)
  {
    seq(n, k requires 0 <= k => At(h, key, messages, k))
  }

  function Little16(n: nat): Bytes {
    [n % 256, n / 256 % 256]
  }

  function Word(low: int, high: int): int {
    low + 256 * high
  }

  /** The low byte comes first. */
  lemma Little16Is(n: nat)
    ensures var b := Little16(n); Word(b[0], b[1]) == n % 0x1_0000 && (n < 0x1_0000 ==> Word(b[0], b[1]) == n)
  {
  }

  // ----- bits, the most significant of a byte first

  function Power2(k: nat): (r: nat)
    ensures r > 0
  {
    if k == 0 then 1 else 2 * Power2(k - 1)
  }

  function BitOf(b: Byte, t: nat): int
    requires t < 8
  {
    b / Power2(7 - t) % 2
  }

  function Bit(s: Bytes, t: nat): int
    requires t / 8 < |s|
  {
    BitOf(s[t / 8], t % 8)
  }

  /** A byte and-ed with 0xff << (8 - r). */
  function Mask(b: Byte, r: nat): Byte
    requires 0 < r < 8
  {
    var low := Power2(8 - r);
    assert 0 <= b % low <= b by { MaskRange(b, low); }
    b - b % low
  }

  lemma MaskRange(b: nat, m: nat)
    requires m > 0
    ensures 0 <= b % m <= b
  {
    assert b == m * (b / m) + b % m;
  }

  /** `s` with the unused low bits of its last byte cleared, when it is to hold `bits` bits. */
  function Masked(s: Bytes, bits: nat): Bytes {
    if bits % 8 == 0 || s == [] then s else s[|s| - 1 := Mask(s[|s| - 1], bits % 8)]
  }

  // ----- hmac_prf_bits

  function Counter16(i: nat): nat {
    (i + 1) % 0x1_0000
  }

  /** Counter, label without its terminator, data, and the length in bits, the two numbers as 16-bit
      little-endian words.  Blocks count from 0 and the counter from 1. */
  function PrfMessage(name: Bytes, data: Bytes, bits: nat, i: nat): Bytes {
    Little16(Counter16(i)) + name + data + Little16(bits % 0x1_0000)
  }

  function PrfMessages(name: Bytes, data: Bytes, bits: nat): Messages {
    i => PrfMessage(name, data, bits, i)
  }

  lemma PrfMessageIs(name: Bytes, data: Bytes, bits: nat, i: nat)
    ensures PrfMessages(name, data, bits)(i)
            == Little16(Counter16(i)) + name + data + Little16(bits % 0x1_0000)
  {
  }

  /** Section 11.6.1.7.2 of IEEE Std 802.11ac-2013: block i is computed over i + 1 and the number of bits, both
      little-endian, around the label and the data. */
  lemma PrfLayout(name: Bytes, data: Bytes, bits: nat, i: nat)
    requires i < 0xFFFF && bits < 0x1_0000
    ensures var m, end := PrfMessages(name, data, bits)(i), 2 + |name| + |data|;
            && |m| == end + 2
            && Word(m[0], m[1]) == i + 1 && Word(m[end], m[end + 1]) == bits
            && m[2..2 + |name|] == name && m[2 + |name|..end] == data
  {
    Little16Is(i + 1);
    Little16Is(bits);
  }


  function Prf(h: Hash, key: Bytes, name: Bytes, data: Bytes, bits: nat): Bytes {
    Masked(Take(h, key, PrfMessages(name, data, bits), (bits + 7) / 8), bits)
  }

  /** Where block i begins. */
  function Start(size: Size, i: nat): nat {
    assert size * i >= 0;
    size * i
  }

  lemma StartNext(size: Size, i: nat)
    ensures Start(size, i + 1) == Start(size, i) + size && Start(size, 0) == 0
  {
  }

  lemma {:induction false} StartMonotone(size: Size, i: nat, k: nat)
    requires i <= k
    ensures Start(size, i) <= Start(size, k)
  {
    if i < k {
      StartMonotone(size, i, k - 1);
    }
  }

  lemma SplitIndex(size: Size, i: nat, j: nat)
    requires j < size
    ensures (size * i + j) / size == i && (size * i + j) % size == j
  {
    NumberTheory.DivUnique(size * i + j, size, i, j);
  }

  lemma Counter16Next(i: nat)
    ensures Counter16(i + 1) == (Counter16(i) + 1) % 0x1_0000 && Counter16(0) == 1
  {
  }

  /** Writes block after block while a whole one fits, then the start of one more. */
  method Expand(h: Hash, key: Bytes, name: Bytes, data: Bytes, buf: array<Byte>, bits: nat, total: nat)
    requires total <= buf.Length
    modifies buf
    ensures buf[..total] == Take(h, key, PrfMessages(name, data, bits), total)
    ensures buf[total..] == old(buf[total..])
  {
    hide Take, PrfMessages, PrfMessage, Little16, Start, Counter16;
    ghost var messages := PrfMessages(name, data, bits);
    var length := Little16(bits % 0x1_0000);
    StartNext(h.size, 0);
    Counter16Next(0);
    var left, pos, ctr := total, 0, 1;
    ghost var i: nat := 0;
    while left >= h.size
      invariant 0 <= left && pos + left == total && pos == Start(h.size, i) && ctr == Counter16(i)
      invariant buf[..pos] == Take(h, key, messages, pos)
      invariant forall k :: pos <= k < buf.Length ==> buf[k] == old(buf[k])
    {
      PrfMessageIs(name, data, bits, i);
      StartNext(h.size, i);
      Counter16Next(i);
      WriteMac(h, key, Little16(ctr) + name + data + length, messages, i, buf, pos, h.size);
      pos, left, ctr := pos + h.size, left - h.size, (ctr + 1) % 0x1_0000;
      i := i + 1;
    }
    if left != 0 {
      PrfMessageIs(name, data, bits, i);
      WriteMac(h, key, Little16(ctr) + name + data + length, messages, i, buf, pos, left);
    }
  }

  /** hmac_prf_bits.  The size_t arithmetic on the length does not wrap: the caller's buffer lies in
      32-bit memory.  `setup` is whether mbedtls_md_setup succeeds. */
  method HmacPrfBits(h: Hash, setup: bool, key: Bytes, name: Bytes, data: Bytes, buf: array<Byte>, bits: nat)
    returns (ret: int)
    requires bits + 7 < 0x1_0000_0000 && (bits + 7) / 8 <= buf.Length
    modifies buf
    ensures ret == if setup then 0 else -1
    ensures buf[..] == if setup then Prf(h, key, name, data, bits) + old(buf[(bits + 7) / 8..]) else old(buf[..])
  {
    if !setup {
      return -1;
    }
    hide Take, Mask, At;
    var total := (bits + 7) / 8;
    Expand(h, key, name, data, buf, bits, total);
    if bits % 8 != 0 {
      buf[total - 1] := Mask(buf[total - 1], bits % 8);
    }
    ret := 0;
  }

  /** mbedtls_md_hmac_finish of the message for block i, all of it or its first `count` bytes. */
  method WriteMac(h: Hash, key: Bytes, message: Bytes, ghost messages: Messages, ghost i: nat,
                  buf: array<Byte>, pos: nat, count: nat)
    requires message == messages(i)
    requires pos == Start(h.size, i) && count <= h.size && pos + count <= buf.Length
    requires buf[..pos] == Take(h, key, messages, pos)
    modifies buf
    ensures buf[..pos + count] == Take(h, key, messages, pos + count)
    ensures forall k :: pos + count <= k < buf.Length ==> buf[k] == old(buf[k])
  {
    var j := 0;
    while j < count
      invariant 0 <= j <= count
      invariant forall k :: 0 <= k < pos + j ==> buf[k] == At(h, key, messages, k)
      invariant forall k :: pos + j <= k < buf.Length ==> buf[k] == old(buf[k])
    {
      SplitIndex(h.size, i, j);
      buf[pos + j] := h.byte(key, message, j);
      j := j + 1;
    }
  }

  // ----- sha1_prf

  /** Label with its terminator, data, and an 8-bit counter. */
  function Sha1Message(name: Bytes, data: Bytes, i: nat): Bytes {
    name + [0] + data + [i % 256]
  }

  function Sha1Messages(name: Bytes, data: Bytes): Messages {
    i => Sha1Message(name, data, i)
  }

  lemma Sha1MessageIs(name: Bytes, data: Bytes, i: nat)
    ensures Sha1Messages(name, data)(i) == name + [0] + data + [Counter8(i)]
  {
  }

  function Counter8(i: nat): Byte {
    i % 256
  }

  lemma Counter8Next(i: nat)
    ensures Counter8(i + 1) == (if Counter8(i) == 255 then 0 else Counter8(i) + 1) && Counter8(0) == 0
  {
  }

  /** The same with SHA-1 and its own message layout, and with the possibility that an HMAC call fails:
      the first failAt calls succeed and the next one does not. */
  method Sha1Prf(h: Hash, failAt: nat, key: Bytes, name: Bytes, data: Bytes, buf: array<Byte>, total: nat)
    returns (ret: int)
    requires total <= buf.Length
    modifies buf
    ensures ret == if Start(h.size, failAt) < total then -1 else 0
    ensures var n := if Start(h.size, failAt) < total then Start(h.size, failAt) else total;
            buf[..n] == Take(h, key, Sha1Messages(name, data), n) && buf[n..] == old(buf[n..])
  {
    hide Take, Sha1Messages, Sha1Message, Start, Counter8;
    ghost var messages := Sha1Messages(name, data);
    StartNext(h.size, 0);
    Counter8Next(0);
    var left, pos, counter, calls := total, 0, 0, 0;
    while left >= h.size
      invariant 0 <= left && pos + left == total && pos == Start(h.size, calls)
      invariant counter == Counter8(calls) && calls <= failAt
      invariant buf[..pos] == Take(h, key, messages, pos)
      invariant forall k :: pos <= k < buf.Length ==> buf[k] == old(buf[k])
    {
      if calls == failAt {
        return -1;
      }
      Sha1MessageIs(name, data, calls);
      StartNext(h.size, calls);
      Counter8Next(calls);
      WriteMac(h, key, name + [0] + data + [counter], messages, calls, buf, pos, h.size);
      pos, left, counter, calls := pos + h.size, left - h.size, if counter == 255 then 0 else counter + 1, calls + 1;
    }
    if left != 0 {
      if calls == failAt {
        return -1;
      }
      Sha1MessageIs(name, data, calls);
      StartNext(h.size, calls);
      StartMonotone(h.size, calls + 1, failAt);
      WriteMac(h, key, name + [0] + data + [counter], messages, calls, buf, pos, left);
    }
    StartMonotone(h.size, calls, failAt);
    ret := 0;
  }

  // ----- what the outputs are

  /** Block 0 followed by block 1 and so on: HMAC(1 ...) || HMAC(2 ...) || ... */
  function Concatenated(h: Hash, key: Bytes, messages: Messages, n: nat): Bytes {
    if n == 0 then []
    else Concatenated(h, key, messages, n - 1) + seq(h.size, j requires 0 <= j => h.byte(key, messages(n - 1), j))
  }

  /** The stream is the concatenation of the blocks. */
  lemma {:induction false} TakeConcatenates(h: Hash, key: Bytes, messages: Messages, n: nat)
    ensures h.size * n >= 0 && Take(h, key, messages, h.size * n) == Concatenated(h, key, messages, n)
  {
    if n > 0 {
      TakeConcatenates(h, key, messages, n - 1);
      assert h.size * n == h.size * (n - 1) + h.size;
      forall k | h.size * (n - 1) <= k < h.size * n
        ensures At(h, key, messages, k) == h.byte(key, messages(n - 1), k - h.size * (n - 1))
      {
        SplitIndex(h.size, n - 1, k - h.size * (n - 1));
      }
    } else {
      assert h.size * n == 0;
    }
  }

  lemma TakePrefix(h: Hash, key: Bytes, messages: Messages, m: nat, n: nat)
    requires m <= n
    ensures Take(h, key, messages, n)[..m] == Take(h, key, messages, m)
  {
  }

  /** A shorter sha1_prf output is a prefix of a longer one. */
  lemma Sha1Prefix(h: Hash, key: Bytes, name: Bytes, data: Bytes, m: nat, n: nat)
    requires m <= n
    ensures Take(h, key, Sha1Messages(name, data), m) <= Take(h, key, Sha1Messages(name, data), n)
  {
    TakePrefix(h, key, Sha1Messages(name, data), m, n);
  }

  /** Masking keeps the first r bits of a byte and clears the others. */
  lemma MaskBits(b: Byte, r: nat, t: nat)
    requires 0 < r < 8 && t < 8
    ensures BitOf(Mask(b, r), t) == if t < r then BitOf(b, t) else 0
  {
    var low, q := Power2(8 - r), b / Power2(8 - r);
    assert b == low * q + b % low;
    assert Mask(b, r) == low * q;
    if t >= r {
      PowerSplit(7 - t, t - r);
      assert low == 2 * Power2(7 - r);
      var unit := Power2(7 - t);
      assert low * q == unit * (2 * (Power2(t - r) * q)) by { Regroup(unit, Power2(t - r), q); }
      NumberTheory.DivUnique(low * q, unit, 2 * (Power2(t - r) * q), 0);
    } else {
      PowerSplit(8 - r, r - 1 - t);
      var more := Power2(r - 1 - t);
      assert Power2(7 - t) == low * more;
      DivDiv(b, low, more);
      DivDiv(low * q, low, more);
      NumberTheory.DivUnique(low * q, low, q, 0);
    }
  }

  lemma Regroup(unit: int, more: int, q: int)
    ensures (2 * (unit * more)) * q == unit * (2 * (more * q))
  {
    assert (2 * (unit * more)) * q == 2 * ((unit * more) * q);
    assert (unit * more) * q == unit * (more * q);
  }

  lemma {:induction false} PowerSplit(a: nat, c: nat)
    ensures Power2(a + c) == Power2(a) * Power2(c)
  {
    if c > 0 {
      PowerSplit(a, c - 1);
      Swap(Power2(a), Power2(c - 1));
      assert Power2(c) == 2 * Power2(c - 1);
    }
  }

  lemma Swap(x: int, y: int)
    ensures x * (2 * y) == 2 * (x * y)
  {
  }

  lemma DivDiv(b: nat, m: nat, n: nat)
    requires m > 0 && n > 0
    ensures m * n > 0 && b / (m * n) == (b / m) / n
  {
    var q, r := (b / m) / n, (b / m) % n;
    assert b == m * (b / m) + b % m;
    assert b / m == n * q + r;
    assert m * (n * q + r) == (m * n) * q + m * r;
    assert m * r + b % m < m * n by {
      assert m * r <= m * (n - 1);
      assert m * (n - 1) == m * n - m;
    }
    NumberTheory.DivUnique(b, m * n, q, m * r + b % m);
  }

  lemma LastByte(bits: nat, t: nat)
    requires t / 8 < (bits + 7) / 8
    ensures bits % 8 == 0 || t / 8 < (bits + 7) / 8 - 1 ==> t < bits
    ensures bits % 8 != 0 && t / 8 == (bits + 7) / 8 - 1 ==> (t < bits <==> t % 8 < bits % 8)
  {
  }

  /** hmac_prf_bits gives the first `bits` bits of the stream, and zeros in the rest of the last
      byte. */
  lemma PrfBits(h: Hash, key: Bytes, name: Bytes, data: Bytes, bits: nat, t: nat)
    requires t / 8 < (bits + 7) / 8
    ensures |Prf(h, key, name, data, bits)| == (bits + 7) / 8
    ensures Bit(Prf(h, key, name, data, bits), t)
            == if t < bits then Bit(Take(h, key, PrfMessages(name, data, bits), (bits + 7) / 8), t) else 0
  {
    var s := Take(h, key, PrfMessages(name, data, bits), (bits + 7) / 8);
    hide Take, BitOf, Mask, PrfMessages;
    LastByte(bits, t);
    if bits % 8 != 0 && t / 8 == |s| - 1 {
      MaskBits(s[|s| - 1], bits % 8, t % 8);
    }
  }

  lemma Counter16Repeats(i: nat)
    ensures Counter16(i + 0x1_0000) == Counter16(i)
  {
  }

  lemma NextPeriod(size: Size, i: nat)
    ensures size * (i + 0x1_0000) == size * i + size * 0x1_0000
  {
  }

  /** The 16-bit counter repeats the stream after 65536 blocks. */
  lemma StreamRepeats(h: Hash, key: Bytes, name: Bytes, data: Bytes, bits: nat, k: nat)
    ensures var messages := PrfMessages(name, data, bits);
            At(h, key, messages, k + h.size * 0x1_0000) == At(h, key, messages, k)
  {
    hide Counter16, Little16;
    var i, j := k / h.size, k % h.size;
    NextPeriod(h.size, i);
    SplitIndex(h.size, i + 0x1_0000, j);
    Counter16Repeats(i);
  }

  lemma Little16Injective(c: nat, d: nat)
    requires c < 0x1_0000 && d < 0x1_0000 && Little16(c) == Little16(d)
    ensures c == d
  {
    assert Little16(c)[0] == Little16(d)[0] && Little16(c)[1] == Little16(d)[1];
  }

  /** Within 65536 blocks no two messages are the same. */
  lemma MessagesDiffer(name: Bytes, data: Bytes, bits: nat, i: nat, k: nat)
    requires i < k < 0x1_0000
    ensures PrfMessage(name, data, bits, i) != PrfMessage(name, data, bits, k)
  {
    var c, d := Counter16(i), Counter16(k);
    if PrfMessage(name, data, bits, i) == PrfMessage(name, data, bits, k) {
      assert PrfMessage(name, data, bits, i)[..2] == Little16(c);
      assert PrfMessage(name, data, bits, k)[..2] == Little16(d);
      Little16Injective(c, d);
    }
  }

  /** Lengths that agree in their low 16 bits have the same stream. */
  lemma SameStream(h: Hash, key: Bytes, name: Bytes, data: Bytes, m: nat, n: nat, k: nat)
    requires m % 0x1_0000 == n % 0x1_0000
    ensures At(h, key, PrfMessages(name, data, m), k) == At(h, key, PrfMessages(name, data, n), k)
  {
    assert PrfMessage(name, data, m, k / h.size) == PrfMessage(name, data, n, k / h.size);
  }

  lemma ByteOfBit(m: nat, n: nat, t: nat)
    requires t < m <= n
    ensures t / 8 < (m + 7) / 8 <= (n + 7) / 8
  {
  }

  /** Only the low 16 bits of the length reach the messages: for lengths that agree in them the bits of the
      shorter output are the first bits of the longer. */
  lemma LengthWraps(h: Hash, key: Bytes, name: Bytes, data: Bytes, m: nat, n: nat, t: nat)
    requires t < m <= n && m % 0x1_0000 == n % 0x1_0000
    ensures t / 8 < |Prf(h, key, name, data, m)| <= |Prf(h, key, name, data, n)|
    ensures Bit(Prf(h, key, name, data, m), t) == Bit(Prf(h, key, name, data, n), t)
  {
    ByteOfBit(m, n, t);
    PrfBits(h, key, name, data, m, t);
    PrfBits(h, key, name, data, n, t);
    SameStream(h, key, name, data, m, n, t / 8);
    hide Prf, At, BitOf, PrfMessages;
  }
}
