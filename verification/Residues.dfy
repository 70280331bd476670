/** Which numbers are squares modulo an odd prime: Lagrange's bound on the roots of a polynomial, and
    from it Euler's criterion. */
module Residues {
  import opened NumberTheory

  predicate RootOf(s: int, a: int, p: int)
    requires p > 0
  {
    Cong(s * s, a, p)
  }

  ghost predicate Square(a: int, p: int)
    requires p > 0
  {
    exists s :: RootOf(s, a, p)
  }

  // ----- monic polynomials

  /** A polynomial with leading coefficient 1, lowest coefficient first. */
  datatype Monic = Lead | More(low: int, rest: Monic)

  function Degree(f: Monic): nat {
    match f
    case Lead => 0
    case More(_, rest) => 1 + Degree(rest)
  }

  function Eval(f: Monic, x: int): int {
    match f
    case Lead => 1
    case More(low, rest) => low + x * Eval(rest, x)
  }

  /** f divided by x - r. */
  function Quotient(f: Monic, r: int): Monic
    requires f.More?
  {
    if f.rest == Lead then Lead else More(Eval(f.rest, r), Quotient(f.rest, r))
  }

  lemma {:induction false} Divide(f: Monic, r: int, x: int)
    requires f.More?
    ensures Degree(Quotient(f, r)) == Degree(f) - 1
    ensures Eval(f, x) == (x - r) * Eval(Quotient(f, r), x) + Eval(f, r)
  {
    if f.rest != Lead {
      Divide(f.rest, r, x);
      var e, q := Eval(f.rest, r), Eval(Quotient(f.rest, r), x);
      DivideStep(x, r, e, q);
    }
  }

  lemma DivideStep(x: int, r: int, e: int, q: int)
    ensures x * ((x - r) * q + e) == (x - r) * (e + x * q) + r * e
  {
    assert x * ((x - r) * q) == (x - r) * (x * q);
    assert (x - r) * (e + x * q) == (x - r) * e + (x - r) * (x * q);
    assert (x - r) * e == x * e - r * e;
  }

  predicate Distinct(rs: seq<int>, p: int)
    requires p > 0
  {
    forall i, j :: 0 <= i < j < |rs| ==> !Cong(rs[j], rs[i], p)
  }

  predicate Roots(f: Monic, rs: seq<int>, p: int)
    requires p > 0
  {
    forall i :: 0 <= i < |rs| ==> Cong(Eval(f, rs[i]), 0, p)
  }

  /** A second root is a root of the quotient. */
  lemma RootOfQuotient(f: Monic, r: int, x: int, p: int)
    requires Prime(p) && f.More? && !Cong(x, r, p)
    requires Cong(Eval(f, r), 0, p) && Cong(Eval(f, x), 0, p)
    ensures Cong(Eval(Quotient(f, r), x), 0, p)
  {
    Divide(f, r, x);
    var q := Eval(Quotient(f, r), x);
    var k := Witness(Eval(f, x), 0, p);
    var l := Witness(Eval(f, r), 0, p);
    assert p * (k - l) == p * k - p * l;
    FromWitness((x - r) * q, 0, p, k - l);
    EuclidAny(p, x - r, q);
  }

  /** Modulo a prime, a monic polynomial of degree d has at most d distinct roots. */
  lemma {:induction false} Lagrange(f: Monic, rs: seq<int>, p: int)
    requires Prime(p) && Distinct(rs, p) && Roots(f, rs, p)
    ensures |rs| <= Degree(f)
    decreases Degree(f)
  {
    if rs != [] {
      var r := rs[0];
      Residue(1, p);
      if f.More? {
        Divide(f, r, r);
        forall i | 0 <= i < |rs| - 1
          ensures Cong(Eval(Quotient(f, r), rs[1..][i]), 0, p)
        {
          RootOfQuotient(f, r, rs[i + 1], p);
        }
        Lagrange(Quotient(f, r), rs[1..], p);
      }
    }
  }

  /** x^n - 1, for n > 0. */
  function PowerMinusOne(n: nat): Monic
    requires n > 0
  {
    More(-1, JustPower(n - 1))
  }

  function JustPower(n: nat): Monic {
    if n == 0 then Lead else More(0, JustPower(n - 1))
  }

  lemma {:induction false} EvalPower(n: nat, x: int)
    ensures Eval(JustPower(n), x) == Pow(x, n) && Degree(JustPower(n)) == n
  {
    if n > 0 {
      EvalPower(n - 1, x);
    }
  }

  lemma EvalPowerMinusOne(n: nat, x: int)
    requires n > 0
    ensures Eval(PowerMinusOne(n), x) == Pow(x, n) - 1 && Degree(PowerMinusOne(n)) == n
  {
    EvalPower(n - 1, x);
  }

  // ----- Euler's criterion

  /** The half power of a square is 1. */
  lemma SquareGivesOne(p: int, a: int, s: int)
    requires Prime(p) && p % 2 == 1 && !Cong(a, 0, p) && RootOf(s, a, p)
    ensures Cong(Pow(a, (p - 1) / 2), 1, p)
  {
    var m := (p - 1) / 2;
    if Cong(s, 0, p) {
      CongMul(s, 0, s, 0, p);
      CongSym(s * s, a, p);
      CongTrans(a, s * s, 0, p);
    }
    Fermat(p, s);
    PowTwo(s);
    PowPow(s, 2, m);
    CongPow(s * s, a, m, p);
    CongSym(Pow(s * s, m), Pow(a, m), p);
    CongTrans(Pow(a, m), Pow(s * s, m), 1, p);
  }

  function Squares(m: nat): seq<int> {
    seq(m, i => (i + 1) * (i + 1))
  }

  lemma SquaresDistinct(p: int, i: int, j: int)
    requires Prime(p) && 0 < i < j && i + j < p
    ensures !Cong(j * j, i * i, p)
  {
    if Cong(j * j, i * i, p) {
      var k := Witness(j * j, i * i, p);
      assert (j - i) * (j + i) == j * j - i * i;
      FromWitness((j - i) * (j + i), 0, p, k);
      EuclidAny(p, j - i, j + i);
      Residue(j - i, p);
      Residue(j + i, p);
    }
  }

  lemma NotZero(p: int, i: int)
    requires Prime(p) && 0 < i < p
    ensures !Cong(i, 0, p)
  {
    Residue(i, p);
  }

  /** If the half power is 1 there is a root among 1 .. (p-1)/2: else the squares of those numbers and
      a would be too many roots of x^((p-1)/2) - 1. */
  lemma OneGivesSquare(p: int, a: int)
    requires Prime(p) && p % 2 == 1 && Cong(Pow(a, (p - 1) / 2), 1, p)
    ensures Square(a, p)
  {
    var m := (p - 1) / 2;
    if !Square(a, p) {
      var rs := Squares(m) + [a];
      var f := PowerMinusOne(m);
      forall i, j | 0 <= i < j < |rs|
        ensures !Cong(rs[j], rs[i], p)
      {
        if j < m {
          SquaresDistinct(p, i + 1, j + 1);
        } else if Cong(a, rs[i], p) {
          CongSym(a, rs[i], p);
          assert RootOf(i + 1, a, p);
        }
      }
      forall i | 0 <= i < |rs|
        ensures Cong(Eval(f, rs[i]), 0, p)
      {
        EvalPowerMinusOne(m, rs[i]);
        if i < m {
          var s := i + 1;
          NotZero(p, s);
          if Cong(s * s, 0, p) {
            EuclidAny(p, s, s);
          }
          CongSym(s * s, s * s, p);
          SquareGivesOne(p, s * s, s);
        }
      }
      EvalPowerMinusOne(m, a);
      Lagrange(f, rs, p);
    }
  }
}
