/** The elliptic-curve arithmetic of the crypto shim: branch-free selection on 32-bit words, the
    Legendre symbol, the right-hand side of a short Weierstrass curve and the recovery of y. */
module ConstTime {

  const ALL: bv32 := 0xFFFF_FFFF

  function FillMsb(val: bv32): bv32 {
    (val >> 31) * ALL
  }

  function IsZero(val: bv32): (r: bv32)
    ensures r == if val == 0 then ALL else 0
  {
    FillMsb(!val & (val - 1))
  }

  function Eq(a: bv32, b: bv32): (r: bv32)
    ensures r == if a == b then ALL else 0
  {
    IsZero(a ^ b)
  }

  function EqU8(a: bv32, b: bv32): (r: bv8)
    ensures r == if a == b then 0xFF else 0
  {
    (Eq(a, b) & 0xFF) as bv8
  }

  function Select(mask: bv32, yes: bv32, no: bv32): (r: bv32)
    ensures mask == ALL ==> r == yes
    ensures mask == 0 ==> r == no
  {
    (mask & yes) | (!mask & no)
  }

  /** A C int as the word that holds it, and back. */
  function FromInt(x: int): bv32
    requires -1 <= x <= 1
  {
    if x == -1 then ALL else if x == 0 then 0 else 1
  }

  function ToInt(x: bv32): int {
    if x < 0x8000_0000 then x as int else x as int - 0x1_0000_0000
  }
}

module EcPoint {
  import opened NumberTheory
  import opened Residues
  import ConstTime

  /** An mbedtls_ecp_group: the field's p and the curve y^2 = x^3 + ax + b, where an absent a stands
      for -3. */
  datatype Curve = Curve(p: int, a: Option<int>, b: int)

  datatype Option<+T> = None | Some(value: T)

  function Coefficient(e: Curve): int {
    if e.a.Some? then e.a.value else -3
  }

  /** x^3 + ax + b. */
  function Rhs(e: Curve, x: int): int {
    x * x * x + Coefficient(e) * x + e.b
  }

  /** The two kinds of curve: an absent coefficient stands for -3. */
  lemma RhsIs(p: int, a: int, b: int, x: int)
    ensures Rhs(Curve(p, None, b), x) == x * x * x - 3 * x + b
    ensures Rhs(Curve(p, Some(a), b), x) == x * x * x + a * x + b
  {
  }

  function Product(a: int, b: int): int {
    a * b
  }

  function Reduced(a: int, n: int): int
    requires n > 0
  {
    a % n
  }

  /** A big number that mbedtls overwrites in place, by its integer meaning.  The methods return
      whether the library call fails. */
  class Mpi {
    var value: int

    constructor (v: int)
      ensures value == v
    {
      value := v;
    }

    method MulMpi(a: Mpi, b: Mpi) returns (err: bool)
      modifies this
      ensures !err && value == Product(old(a.value), old(b.value))
    {
      value := a.value * b.value;
      err := false;
    }

    method AddInt(a: Mpi, b: int) returns (err: bool)
      modifies this
      ensures !err && value == old(a.value) + b
    {
      value := a.value + b;
      err := false;
    }

    /** mbedtls_mpi_mod_mpi leaves a result in [0, n), whatever the sign of a. */
    method ModMpi(a: Mpi, n: int) returns (err: bool)
      modifies this
      ensures err == (n <= 0)
      ensures err ==> value == old(value)
      ensures !err ==> value == Reduced(old(a.value), n)
    {
      err := n <= 0;
      if !err {
        value := a.value % n;
      }
    }

    /** mbedtls_mpi_shift_r shifts the magnitude. */
    method ShiftR(count: nat) returns (err: bool)
      requires 0 < count < 3
      modifies this
      ensures !err && (old(value) >= 0 ==> value == old(value) / if count == 1 then 2 else 4)
      ensures old(value) < 0 ==> value <= 0
    {
      var d := if count == 1 then 2 else 4;
      value := if value >= 0 then value / d else -(-value / d);
      err := false;
    }

    /** mbedtls_mpi_exp_mod wants an odd positive modulus and a non-negative exponent. */
    method ExpMod(a: Mpi, e: Mpi, n: int) returns (err: bool)
      modifies this
      ensures err == (n <= 0 || n % 2 == 0 || old(e.value) < 0)
      ensures err ==> value == old(value)
      ensures !err ==> value == Pow(old(a.value), old(e.value)) % n
    {
      err := n <= 0 || n % 2 == 0 || e.value < 0;
      if !err {
        value := Pow(a.value, e.value) % n;
      }
    }

    method GetBit(i: nat) returns (bit: int)
      requires i < 2
      ensures value >= 0 ==> bit == if i == 0 then value % 2 else value / 2 % 2
    {
      var m := if value >= 0 then value else -value;
      bit := if i == 0 then m % 2 else m / 2 % 2;
    }
  }

  // ----- crypto_bignum_legendre

  /** The Legendre symbol of a modulo an odd prime p. */
  ghost function Symbol(a: int, p: int): int
    requires p > 0
  {
    if Cong(a, 0, p) then 0 else if Square(a, p) then 1 else -1
  }

  function LegendreOf(a: int, p: int): int {
    if p <= 0 || p % 2 == 0 then -2
    else
      var t := Pow(a, (p - 1) / 2) % p;
      if t == 0 then 0 else if t == 1 then 1 else -1
  }

  method Legendre(a: Mpi, p: Mpi) returns (res: int)
    ensures res == LegendreOf(a.value, p.value)
  {
    var exp := new Mpi(0);
    var tmp := new Mpi(0);
    var err := exp.AddInt(p, -1);
    if !err { err := exp.ShiftR(1); }
    if !err { err := tmp.ExpMod(a, exp, p.value); }
    if err {
      return -2;
    }
    var word := ConstTime.FromInt(-1);
    var mask := ConstTime.Eq(if tmp.value == 1 then 1 else 0, 1);
    word := ConstTime.Select(mask, 1, word);
    mask := ConstTime.Eq(if tmp.value == 0 then 1 else 0, 1);
    word := ConstTime.Select(mask, 0, word);
    res := ConstTime.ToInt(word);
  }

  /** For every odd prime the function computes the Legendre symbol. */
  lemma LegendreIsSymbol(a: int, p: int)
    requires Prime(p) && p % 2 == 1
    ensures LegendreOf(a, p) == Symbol(a, p)
  {
    var t := Pow(a, (p - 1) / 2);
    SameResidue(t, 0, p);
    SameResidue(t, 1, p);
    Residue(0, p);
    Residue(1, p);
    if Cong(a, 0, p) {
      CongPow(a, 0, (p - 1) / 2, p);
      assert Pow(0, (p - 1) / 2) == 0 * Pow(0, (p - 1) / 2 - 1);
      CongTrans(t, Pow(0, (p - 1) / 2), 0, p);
    } else {
      if Cong(t, 0, p) { PowZero(p, a, (p - 1) / 2); }
      if Cong(t, 1, p) { OneGivesSquare(p, a); }
      if Square(a, p) {
        var s :| RootOf(s, a, p);
        SquareGivesOne(p, a, s);
      }
    }
  }

  // ----- crypto_ec_point_y_sqr_weierstrass

  /** The nested form with its intermediate reductions is the curve's right-hand side modulo p. */
  method YSqr(e: Curve, x: Mpi, y2: Mpi) returns (err: bool)
    requires x != y2
    modifies y2
    ensures err == (e.p <= 0)
    ensures !err ==> y2.value == Reduced(Rhs(e, x.value), e.p)
  {
    hide Product, Reduced, Rhs;
    err := y2.MulMpi(x, x);
    if !err { err := y2.ModMpi(y2, e.p); }
    if !err { err := y2.AddInt(y2, if e.a.Some? then e.a.value else -3); }
    if !err { err := y2.ModMpi(y2, e.p); }
    if !err { err := y2.MulMpi(y2, x); }
    if !err { err := y2.ModMpi(y2, e.p); }
    if !err { err := y2.AddInt(y2, e.b); }
    if !err { err := y2.ModMpi(y2, e.p); }
    if e.p > 0 {
      NestedForm(e, x.value);
    }
  }

  lemma NestedForm(e: Curve, x: int)
    requires e.p > 0
    ensures var s := Reduced(Reduced(Product(x, x), e.p) + Coefficient(e), e.p);
            Reduced(Reduced(Product(s, x), e.p) + e.b, e.p) == Reduced(Rhs(e, x), e.p)
  {
    var p, a := e.p, Coefficient(e);
    var s1 := (x * x) % p;
    var s2 := (s1 + a) % p;
    var s3 := (s2 * x) % p;
    CongMod(x * x, p);
    CongSym(a, a, p);
    CongAdd(s1, x * x, a, a, p);
    CongMod(s1 + a, p);
    CongTrans(s2, s1 + a, x * x + a, p);
    CongSym(x, x, p);
    CongMul(s2, x * x + a, x, x, p);
    CongMod(s2 * x, p);
    CongTrans(s3, s2 * x, (x * x + a) * x, p);
    CongSym(e.b, e.b, p);
    CongAdd(s3, (x * x + a) * x, e.b, e.b, p);
    assert (x * x + a) * x == x * x * x + a * x;
    SameResidue(s3 + e.b, Rhs(e, x), p);
  }

  // ----- crypto_mbedtls_short_weierstrass_derive_y

  /** The candidate root, and p minus it when its parity is not the one asked for. */
  function Candidate(e: Curve, x: int): int
    requires e.p > 0
  {
    Pow(Rhs(e, x) % e.p, (e.p + 1) / 4) % e.p
  }

  function DerivedY(e: Curve, x: int, parity: int): int
    requires e.p > 0
  {
    var r := Candidate(e, x);
    if r % 2 != parity then e.p - r else r
  }

  lemma LowBits(p: int)
    ensures p % 4 == 3 <==> p % 2 == 1 && p / 2 % 2 == 1
  {
  }

  /** Replaces the x in `bn` by y.  The result is 0 exactly for a positive p = 3 modulo 4. */
  method DeriveY(e: Curve, bn: Mpi, parity: int) returns (ret: int)
    modifies bn
    ensures ret == if e.p <= 0 then -1 else if e.p % 4 == 3 then 0 else 1
    ensures bn.value == if ret == 0 then DerivedY(e, old(bn.value), parity) else old(bn.value)
  {
    hide Pow, Rhs, Coefficient;
    var cy2 := new Mpi(0);
    var err := YSqr(e, bn, cy2);
    if err {
      return -1;
    }
    var exp := new Mpi(0);
    var p := new Mpi(e.p);
    var low := p.GetBit(0);
    var high := p.GetBit(1);
    err := low != 1 || high != 1;
    LowBits(e.p);
    if !err { err := exp.AddInt(p, 1); }
    if !err { err := exp.ShiftR(2); }
    if !err { err := bn.ExpMod(cy2, exp, e.p); }
    if !err {
      var bit := bn.GetBit(0);
      if bit != parity {
        err := bn.AddInt(p, -bn.value);
      }
    }
    ret := if err then 1 else 0;
  }

  /** The candidate's square is w w^((p-1)/2), where w is the right-hand side. */
  lemma CandidateSquared(e: Curve, x: int)
    requires e.p > 0 && e.p % 4 == 3
    ensures var r := Candidate(e, x);
            Cong(r * r, Rhs(e, x) * Pow(Rhs(e, x), (e.p - 1) / 2), e.p)
  {
    var p, w := e.p, Rhs(e, x);
    var k := (p + 1) / 4;
    var r := Candidate(e, x);
    CongMod(w, p);
    CongPow(w % p, w, k, p);
    CongMod(Pow(w % p, k), p);
    CongTrans(r, Pow(w % p, k), Pow(w, k), p);
    CongMul(r, Pow(w, k), r, Pow(w, k), p);
    PowAdd(w, k, k);
    assert k + k == 1 + (p - 1) / 2;
  }

  lemma NegatedSquare(p: int, r: int)
    requires p > 0
    ensures Cong((p - r) * (p - r), r * r, p)
  {
    assert (p - r) * (p - r) == r * r + p * (p - 2 * r);
    FromWitness((p - r) * (p - r), r * r, p, p - 2 * r);
  }

  lemma DerivedSquared(e: Curve, x: int, parity: int)
    requires e.p > 0
    ensures var y := DerivedY(e, x, parity);
            var r := Candidate(e, x);
            Cong(y * y, r * r, e.p)
  {
    var r := Candidate(e, x);
    NegatedSquare(e.p, r);
    CongSym(r * r, r * r, e.p);
  }

  /** If the Legendre test says 1 (p need not be prime for this), y is a root of the right-hand side,
      whichever parity is asked for. */
  lemma LegendreOneSolves(e: Curve, x: int, parity: int)
    requires e.p > 0 && e.p % 4 == 3 && LegendreOf(Rhs(e, x), e.p) == 1
    ensures RootOf(DerivedY(e, x, parity), Rhs(e, x), e.p)
  {
    var p, w := e.p, Rhs(e, x);
    var t := Pow(w, (p - 1) / 2);
    var y, r := DerivedY(e, x, parity), Candidate(e, x);
    CandidateSquared(e, x);
    Residue(1, p);
    SameResidue(t, 1, p);
    CongSym(w, w, p);
    CongMul(w, w, t, 1, p);
    CongTrans(r * r, w * t, w, p);
    DerivedSquared(e, x, parity);
    CongTrans(y * y, r * r, w, p);
  }

  /** For a prime p = 3 modulo 4, y is a root of the right-hand side exactly when it has one. */
  lemma SolvesIffSquare(e: Curve, x: int, parity: int)
    requires Prime(e.p) && e.p % 4 == 3
    ensures RootOf(DerivedY(e, x, parity), Rhs(e, x), e.p) <==> Square(Rhs(e, x), e.p)
  {
    var p, w := e.p, Rhs(e, x);
    var y, r := DerivedY(e, x, parity), Candidate(e, x);
    if Square(w, p) {
      LegendreIsSymbol(w, p);
      if Cong(w, 0, p) {
        var t := Pow(w, (p - 1) / 2);
        CandidateSquared(e, x);
        CongSym(t, t, p);
        CongMul(w, 0, t, t, p);
        CongTrans(r * r, w * t, 0, p);
        CongSym(w, 0, p);
        CongTrans(r * r, 0, w, p);
        DerivedSquared(e, x, parity);
        CongTrans(y * y, r * r, w, p);
      } else {
        LegendreOneSolves(e, x, parity);
      }
    }
  }

  /** The parity is the one asked for.  An even y lies in [0, p); an odd y lies in (0, p], and is p
      itself exactly when the candidate is 0. */
  lemma ParityAndRange(e: Curve, x: int)
    requires e.p > 0 && e.p % 4 == 3
    ensures var even := DerivedY(e, x, 0);
            0 <= even < e.p && even % 2 == 0
    ensures var odd := DerivedY(e, x, 1);
            0 < odd <= e.p && odd % 2 == 1 && (odd == e.p <==> Candidate(e, x) == 0)
  {
  }

  /** For a prime p the odd y overflows to p exactly when p divides the right-hand side. */
  lemma OverflowsIffRootZero(e: Curve, x: int)
    requires Prime(e.p) && e.p % 4 == 3
    ensures DerivedY(e, x, 1) == e.p <==> Cong(Rhs(e, x), 0, e.p)
  {
    var p, w := e.p, Rhs(e, x);
    ParityAndRange(e, x);
    CongMod(w, p);
    var b, k := Pow(w % p, (p + 1) / 4), (p + 1) / 4;
    SameResidue(b, 0, p);
    Residue(0, p);
    if Cong(b, 0, p) {
      PowZero(p, w % p, k);
      CongSym(w % p, w, p);
      CongTrans(w, w % p, 0, p);
    }
    if Cong(w, 0, p) {
      CongTrans(w % p, w, 0, p);
      CongPow(w % p, 0, k, p);
      assert Pow(0, k) == 0 * Pow(0, k - 1);
    }
  }

  lemma SevenIsPrime()
    ensures Prime(7)
  {
    forall d | 1 < d < 7
      ensures 7 % d != 0
    {
      if d == 2 {} else if d == 3 {} else if d == 4 {} else if d == 5 {} else {}
    }
  }

  /** The overflow happens: on y^2 = x^3 - 3x over the field of 7 elements, x = 0 and an odd y. */
  lemma OddOverflow()
    ensures DerivedY(Curve(7, None, 0), 0, 1) == 7
  {
    var e := Curve(7, None, 0);
    assert Rhs(e, 0) == 0;
    hide Pow, DerivedY, Prime, Rhs;
    SevenIsPrime();
    OverflowsIffRootZero(e, 0);
  }

  /** Two roots of the same parity in [0, p) are the same. */
  lemma SameParityRoot(p: int, y: int, z: int)
    requires Prime(p) && p % 2 == 1 && 0 <= y < p && 0 <= z < p && y % 2 == z % 2 && Cong(y * y, z * z, p)
    ensures y == z
  {
    var k := Witness(y * y, z * z, p);
    assert (y - z) * (y + z) == y * y - z * z;
    FromWitness((y - z) * (y + z), 0, p, k);
    EuclidAny(p, y - z, y + z);
    SameResidue(y, z, p);
    Residue(y, p);
    Residue(z, p);
    if Cong(y + z, 0, p) && y != z {
      DivUnique(y + z, p, if y + z < p then 0 else 1, if y + z < p then y + z else y + z - p);
    }
  }

  /** Recovering y from x and y's parity gives back the point: for a prime p = 3 modulo 4 and every
      point (x, y) of the curve. */
  lemma PointRoundTrip(e: Curve, x: int, y: int)
    requires Prime(e.p) && e.p % 4 == 3 && 0 <= y < e.p && RootOf(y, Rhs(e, x), e.p)
    ensures DerivedY(e, x, y % 2) == y
  {
    var p, w := e.p, Rhs(e, x);
    var z := DerivedY(e, x, y % 2);
    SolvesIffSquare(e, x, y % 2);
    ParityAndRange(e, x);
    CongSym(y * y, w, p);
    CongTrans(z * z, w, y * y, p);
    if z == p {
      OverflowsIffRootZero(e, x);
      CongTrans(y * y, w, 0, p);
      EuclidAny(p, y, y);
      Residue(y, p);
      assert false;
    }
    SameParityRoot(p, z, y);
  }
}
