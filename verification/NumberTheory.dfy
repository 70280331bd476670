/** Powers and congruences, up to Euclid's lemma and Fermat's little theorem. */
module NumberTheory {

  function Pow(b: int, e: nat): int {
    if e == 0 then 1 else b * Pow(b, e - 1)
  }

  predicate Cong(a: int, b: int, n: int)
    requires n > 0
  {
    (a - b) % n == 0
  }

  predicate Prime(p: int) {
    p > 1 && forall d :: 1 < d < p ==> p % d != 0
  }

  // ----- division

  lemma NotBetween(n: int, k: int)
    requires n > 0
    ensures k >= 1 ==> n * k >= n
    ensures k <= -1 ==> n * k <= -n
  {
    if k >= 1 { assert n * (k - 1) >= 0; }
    if k <= -1 { assert n * (k + 1) <= 0; }
  }

  lemma DivUnique(x: int, n: int, q: int, r: int)
    requires n > 0 && 0 <= r < n && x == n * q + r
    ensures x / n == q && x % n == r
  {
    NotBetween(n, q - x / n);
    assert n * (q - x / n) == n * q - n * (x / n);
  }

  lemma Multiple(n: int, k: int)
    requires n > 0
    ensures (n * k) % n == 0
  {
    DivUnique(n * k, n, k, 0);
  }

  lemma Witness(a: int, b: int, n: int) returns (k: int)
    requires n > 0 && Cong(a, b, n)
    ensures a == b + n * k
  {
    k := (a - b) / n;
  }

  lemma FromWitness(a: int, b: int, n: int, k: int)
    requires n > 0 && a == b + n * k
    ensures Cong(a, b, n)
  {
    Multiple(n, k);
  }

  // ----- congruences

  lemma CongMod(a: int, n: int)
    requires n > 0
    ensures Cong(a % n, a, n)
  {
    FromWitness(a % n, a, n, -(a / n));
  }

  lemma SameResidue(a: int, b: int, n: int)
    requires n > 0
    ensures Cong(a, b, n) <==> a % n == b % n
  {
    if Cong(a, b, n) {
      var k := Witness(a, b, n);
      assert a == n * (b / n + k) + b % n by { assert n * (b / n + k) == n * (b / n) + n * k; }
      DivUnique(a, n, b / n + k, b % n);
    }
    if a % n == b % n {
      assert a == b + n * (a / n - b / n) by { assert n * (a / n - b / n) == n * (a / n) - n * (b / n); }
      FromWitness(a, b, n, a / n - b / n);
    }
  }

  lemma Residue(a: int, n: int)
    requires 0 <= a < n
    ensures a % n == a
  {
    DivUnique(a, n, 0, a);
  }

  lemma CongTrans(a: int, b: int, c: int, n: int)
    requires n > 0 && Cong(a, b, n) && Cong(b, c, n)
    ensures Cong(a, c, n)
  {
    SameResidue(a, b, n);
    SameResidue(b, c, n);
    SameResidue(a, c, n);
  }

  lemma CongSym(a: int, b: int, n: int)
    requires n > 0 && Cong(a, b, n)
    ensures Cong(b, a, n)
  {
    SameResidue(a, b, n);
    SameResidue(b, a, n);
  }

  lemma CongAdd(a: int, b: int, c: int, d: int, n: int)
    requires n > 0 && Cong(a, b, n) && Cong(c, d, n)
    ensures Cong(a + c, b + d, n)
  {
    var k := Witness(a, b, n);
    var l := Witness(c, d, n);
    assert a + c == b + d + n * (k + l) by { assert n * (k + l) == n * k + n * l; }
    FromWitness(a + c, b + d, n, k + l);
  }

  lemma Expand(b: int, d: int, n: int, k: int, l: int)
    ensures (b + n * k) * (d + n * l) == b * d + n * (b * l + k * d + k * (n * l))
  {
    calc {
      (b + n * k) * (d + n * l);
      (b + n * k) * d + (b + n * k) * (n * l);
      b * d + (n * k) * d + b * (n * l) + (n * k) * (n * l);
      {
        assert (n * k) * d == n * (k * d);
        assert b * (n * l) == n * (b * l);
        assert (n * k) * (n * l) == n * (k * (n * l));
      }
      b * d + n * (k * d) + n * (b * l) + n * (k * (n * l));
      { assert n * (b * l + k * d + k * (n * l)) == n * (b * l) + n * (k * d) + n * (k * (n * l)); }
      b * d + n * (b * l + k * d + k * (n * l));
    }
  }

  lemma CongMul(a: int, b: int, c: int, d: int, n: int)
    requires n > 0 && Cong(a, b, n) && Cong(c, d, n)
    ensures Cong(a * c, b * d, n)
  {
    var k := Witness(a, b, n);
    var l := Witness(c, d, n);
    Expand(b, d, n, k, l);
    FromWitness(a * c, b * d, n, b * l + k * d + k * (n * l));
  }

  lemma {:induction false} CongPow(a: int, b: int, e: nat, n: int)
    requires n > 0 && Cong(a, b, n)
    ensures Cong(Pow(a, e), Pow(b, e), n)
  {
    if e > 0 {
      CongPow(a, b, e - 1, n);
      CongMul(a, b, Pow(a, e - 1), Pow(b, e - 1), n);
    }
  }

  // ----- powers

  lemma {:induction false} PowAdd(b: int, d: nat, e: nat)
    ensures Pow(b, d + e) == Pow(b, d) * Pow(b, e)
  {
    if d > 0 {
      PowAdd(b, d - 1, e);
      assert b * (Pow(b, d - 1) * Pow(b, e)) == (b * Pow(b, d - 1)) * Pow(b, e);
    }
  }

  lemma {:induction false} PowPow(b: int, d: nat, e: nat)
    ensures Pow(Pow(b, d), e) == Pow(b, d * e)
  {
    if e == 0 {
      assert d * e == 0;
    } else {
      PowPow(b, d, e - 1);
      assert d * e == d + d * (e - 1);
      PowAdd(b, d, d * (e - 1));
    }
  }

  lemma PowTwo(b: int)
    ensures Pow(b, 2) == b * b && Pow(b, 1) == b
  {
    assert Pow(b, 1) == b * Pow(b, 0);
  }

  lemma {:induction false} PowOne(e: nat)
    ensures Pow(1, e) == 1
  {
    if e > 0 {
      PowOne(e - 1);
    }
  }

  // ----- Euclid's lemma

  /** A prime that divides a product divides a factor. */
  lemma {:induction false} Euclid(p: int, a: int, b: int)
    requires Prime(p) && 0 < a < p && Cong(a * b, 0, p)
    ensures Cong(b, 0, p)
    decreases a
  {
    if a > 1 {
      var q, r := p / a, p % a;
      assert p == a * q + r;
      var k := Witness(a * b, 0, p);
      assert r * b == 0 + p * (b - q * k) by {
        assert r * b == p * b - (a * q) * b;
        assert (a * q) * b == q * (a * b);
        assert q * (p * k) == p * (q * k);
        assert p * (b - q * k) == p * b - p * (q * k);
      }
      FromWitness(r * b, 0, p, b - q * k);
      Euclid(p, r, b);
    }
  }

  lemma EuclidAny(p: int, a: int, b: int)
    requires Prime(p) && Cong(a * b, 0, p)
    ensures Cong(a, 0, p) || Cong(b, 0, p)
  {
    var r := a % p;
    CongMod(a, p);
    if r > 0 {
      CongSym(b, b, p);
      CongMul(r, a, b, b, p);
      CongTrans(r * b, a * b, 0, p);
      Euclid(p, r, b);
    }
  }

  lemma {:induction false} PowZero(p: int, b: int, e: nat)
    requires Prime(p) && Cong(Pow(b, e), 0, p)
    ensures Cong(b, 0, p)
  {
    if e == 0 {
      Residue(1, p);
    } else {
      EuclidAny(p, b, Pow(b, e - 1));
      if !Cong(b, 0, p) {
        PowZero(p, b, e - 1);
      }
    }
  }

  // ----- binomial coefficients

  function Choose(n: nat, k: nat): nat {
    if k == 0 then 1 else if n == 0 then 0 else Choose(n - 1, k) + Choose(n - 1, k - 1)
  }

  lemma {:induction false} ChooseSmall(n: nat, k: nat)
    ensures k > n ==> Choose(n, k) == 0
    ensures k == n ==> Choose(n, k) == 1
  {
    if k > 0 && n > 0 {
      ChooseSmall(n - 1, k);
      ChooseSmall(n - 1, k - 1);
    }
  }

  /** k C(n,k) = n C(n-1,k-1). */
  lemma {:induction false} Absorb(n: nat, k: nat)
    requires n > 0 && k > 0
    ensures k * Choose(n, k) == n * Choose(n - 1, k - 1)
  {
    if n == 1 {
      if k > 1 { ChooseSmall(0, k); ChooseSmall(0, k - 1); }
    } else {
      Absorb(n - 1, k);
      if k > 1 { Absorb(n - 1, k - 1); }
      var corner := if k == 1 then 0 else Choose(n - 2, k - 2);
      AbsorbStep(n, k, Choose(n - 1, k), Choose(n - 1, k - 1), Choose(n - 2, k - 1), corner);
    }
  }

  lemma AbsorbStep(n: int, k: int, c: int, d: int, e: int, f: int)
    requires d == e + f
    requires k * c == (n - 1) * e
    requires (k - 1) * d == (n - 1) * f
    ensures k * (c + d) == n * d
  {
    assert k * (c + d) == k * c + k * d;
    assert k * d == (k - 1) * d + d;
    assert (n - 1) * e + (n - 1) * f == (n - 1) * (e + f);
    assert (n - 1) * d == n * d - d;
  }

  lemma PrimeDividesChoose(p: int, k: nat)
    requires Prime(p) && 0 < k < p
    ensures Cong(Choose(p, k), 0, p)
  {
    Absorb(p, k);
    FromWitness(k * Choose(p, k), 0, p, Choose(p - 1, k - 1));
    Euclid(p, k, Choose(p, k));
  }

  // ----- the binomial theorem, by partial sums

  function Term(a: int, n: nat, k: nat): int {
    Choose(n, k) * Pow(a, k)
  }

  /** The sum of C(n,i) a^i over i <= k. */
  function Partial(a: int, n: nat, k: nat): int {
    Term(a, n, k) + if k == 0 then 0 else Partial(a, n, k - 1)
  }

  lemma PascalTerm(a: int, n: nat, k: nat)
    requires k > 0
    ensures Term(a, n + 1, k) == Term(a, n, k) + a * Term(a, n, k - 1)
  {
    var c, d, x := Choose(n, k), Choose(n, k - 1), Pow(a, k - 1);
    assert Pow(a, k) == a * x;
    assert (c + d) * (a * x) == c * (a * x) + d * (a * x);
    assert d * (a * x) == a * (d * x);
  }

  lemma {:induction false} PascalSum(a: int, n: nat, k: nat)
    requires k > 0
    ensures Partial(a, n + 1, k) == Partial(a, n, k) + a * Partial(a, n, k - 1)
  {
    hide Term;
    PascalTerm(a, n, k);
    if k == 1 {
      FirstTerm(a, n);
      FirstTerm(a, n + 1);
    } else {
      PascalSum(a, n, k - 1);
      Distribute(a, Term(a, n, k - 1), Partial(a, n, k - 2));
    }
  }

  lemma Distribute(a: int, x: int, y: int)
    ensures a * (x + y) == a * x + a * y
  {
  }

  lemma FirstTerm(a: int, n: nat)
    ensures Term(a, n, 0) == 1
  {
    assert Pow(a, 0) == 1;
  }

  lemma BeyondLast(a: int, n: nat)
    ensures Term(a, n, n + 1) == 0
  {
    ChooseSmall(n, n + 1);
  }

  /** (a + 1)^n is the full sum. */
  lemma {:induction false} Binomial(a: int, n: nat)
    ensures Partial(a, n, n) == Pow(a + 1, n)
  {
    hide Term;
    if n == 0 {
      FirstTerm(a, 0);
    } else {
      Binomial(a, n - 1);
      PascalSum(a, n - 1, n);
      BeyondLast(a, n - 1);
      Distribute(Pow(a + 1, n - 1), a, 1);
    }
  }

  /** Modulo a prime p, all that is left of the first k < p terms is the first. */
  lemma {:induction false} MiddleVanishes(p: int, a: int, k: nat)
    requires Prime(p) && k < p
    ensures Cong(Partial(a, p, k), 1, p)
  {
    if k == 0 {
      assert Pow(a, 0) == 1 && Term(a, p, 0) == 1;
      CongSym(1, 1, p);
    } else {
      MiddleVanishes(p, a, k - 1);
      PrimeDividesChoose(p, k);
      var w := Witness(Choose(p, k), 0, p);
      assert Term(a, p, k) == 0 + p * (w * Pow(a, k)) by { assert (p * w) * Pow(a, k) == p * (w * Pow(a, k)); }
      FromWitness(Term(a, p, k), 0, p, w * Pow(a, k));
      CongAdd(Term(a, p, k), 0, Partial(a, p, k - 1), 1, p);
    }
  }

  /** (a + 1)^p = a^p + 1 modulo a prime p. */
  lemma Freshman(p: int, a: int)
    requires Prime(p)
    ensures Cong(Pow(a + 1, p), Pow(a, p) + 1, p)
  {
    Binomial(a, p);
    MiddleVanishes(p, a, p - 1);
    ChooseSmall(p, p);
    assert Term(a, p, p) == Pow(a, p);
    CongSym(Pow(a, p), Pow(a, p), p);
    CongAdd(Pow(a, p), Pow(a, p), Partial(a, p, p - 1), 1, p);
  }

  lemma {:induction false} FermatNat(p: int, a: nat)
    requires Prime(p)
    ensures Cong(Pow(a, p), a, p)
  {
    if a == 0 {
      assert Pow(0, p) == 0 * Pow(0, p - 1);
    } else {
      FermatNat(p, a - 1);
      Freshman(p, a - 1);
      CongSym(1, 1, p);
      CongAdd(Pow(a - 1, p), a - 1, 1, 1, p);
      CongTrans(Pow(a, p), Pow(a - 1, p) + 1, a, p);
    }
  }

  /** Fermat's little theorem: a^p = a, and a^(p-1) = 1 unless p divides a. */
  lemma Fermat(p: int, a: int)
    requires Prime(p)
    ensures Cong(Pow(a, p), a, p)
    ensures !Cong(a, 0, p) ==> Cong(Pow(a, p - 1), 1, p)
  {
    CongMod(a, p);
    FermatNat(p, a % p);
    CongPow(a % p, a, p, p);
    CongSym(Pow(a % p, p), Pow(a, p), p);
    CongTrans(Pow(a, p), Pow(a % p, p), a % p, p);
    CongTrans(Pow(a, p), a % p, a, p);
    if !Cong(a, 0, p) {
      assert a * (Pow(a, p - 1) - 1) == Pow(a, p) - a by {
        assert a * (Pow(a, p - 1) - 1) == a * Pow(a, p - 1) - a;
      }
      EuclidAny(p, a, Pow(a, p - 1) - 1);
    }
  }
}
