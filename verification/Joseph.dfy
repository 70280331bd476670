/** The Joseph identity for the optimal gain, entry by entry: the short form (I - K H) P that the filter
    computes is the symmetric form (I - K H) P (I - K H)' + r K K'. */
module Joseph {
  import opened LinearAlgebra
  import opened Covariance

  /** m + a n. */
  function AddScaled(m: Mat, a: real, n: Mat, k: nat): Mat
    requires IsMat(m, k, k) && IsMat(n, k, k)
  {
    seq(k, i requires 0 <= i < k => Add(m[i], Scale(a, n[i])))
  }

  /** I - K H for the gain K. */
  function Complement(p: Mat, h: Mat, r: real): (m: Mat)
    requires IsMat(p, 6, 6) && IsMat(h, 3, 6) && Det(Innovation(p, h, r)) != 0.0
  {
    SubMat(Identity(6), Mul(Gain(p, h, r), h, 6, 3, 6), 6, 6)
  }

  function JosephCov(p: Mat, h: Mat, r: real): Mat
    requires IsMat(p, 6, 6) && IsMat(h, 3, 6) && Det(Innovation(p, h, r)) != 0.0
  {
    var a, k := Complement(p, h, r), Gain(p, h, r);
    AddScaled(MulT(Mul(a, p, 6, 6, 6), a, 6, 6, 6), r, MulT(k, k, 6, 3, 6), 6)
  }

  // ----- row vectors

  /** A row vector times a product. */
  lemma VecMulMul(y: Vec, a: Mat, b: Mat, n: nat, k: nat, m: nat)
    requires IsMat(a, n, k) && IsMat(b, k, m) && |y| == n
    ensures VecMul(y, Mul(a, b, n, k, m), n, m) == VecMul(VecMul(y, a, n, k), b, k, m)
  {
    MulAssoc([y], a, b, 1, n, k, m);
    assert Mul([y], Mul(a, b, n, k, m), 1, n, m)[0] == VecMul(y, Mul(a, b, n, k, m), n, m);
    assert Mul([y], a, 1, n, k) == [VecMul(y, a, n, k)];
    assert Mul([VecMul(y, a, n, k)], b, 1, k, m)[0] == VecMul(VecMul(y, a, n, k), b, k, m);
  }

  /** K' x is S^-1 H P x. */
  lemma GainTransposed(p: Mat, h: Mat, r: real, x: Vec)
    requires Symmetric(p, 6) && IsMat(h, 3, 6) && |x| == 6 && Det(Innovation(p, h, r)) != 0.0
    ensures VecMul(x, Gain(p, h, r), 6, 3)
            == MulVec(Cramer(Innovation(p, h, r)), 3, 3, MulVec(h, 3, 6, MulVec(p, 6, 6, x)))
  {
    var si, pht := Cramer(Innovation(p, h, r)), MulT(p, h, 6, 6, 3);
    InnovationSymmetric(p, h, r);
    CramerSymmetric(Innovation(p, h, r));
    VecMulMul(x, pht, si, 6, 3, 3);
    CrossRow(p, h, x);
    SymmetricVecMul(si, 3, MulVec(h, 3, 6, MulVec(p, 6, 6, x)));
  }

  /** (I - K H)' x is x - H' K' x. */
  lemma ComplementTransposed(p: Mat, h: Mat, r: real, x: Vec)
    requires Symmetric(p, 6) && IsMat(h, 3, 6) && |x| == 6 && Det(Innovation(p, h, r)) != 0.0
    ensures VecMul(x, Complement(p, h, r), 6, 6)
            == Sub(x, VecMul(VecMul(x, Gain(p, h, r), 6, 3), h, 3, 6))
  {
    var k := Gain(p, h, r);
    var kh := Mul(k, h, 6, 3, 6);
    VecMulMul(x, k, h, 6, 3, 6);
    forall j | 0 <= j < 6
      ensures VecMul(x, Complement(p, h, r), 6, 6)[j] == x[j] - VecMul(x, kh, 6, 6)[j]
    {
      var c := Col(kh, 6, 6, j);
      assert Col(Complement(p, h, r), 6, 6, j) == Sub(Unit(6, j), c);
      DotSub(Unit(6, j), c, x);
      DotComm(x, Unit(6, j));
      DotUnit(6, j, x);
    }
  }

  // ----- the quadratic form of the symmetric expression

  lemma AddScaledForm(m: Mat, a: real, n: Mat, k: nat, x: Vec)
    requires IsMat(m, k, k) && IsMat(n, k, k) && |x| == k
    ensures Form(AddScaled(m, a, n, k), k, x, x) == Form(m, k, x, x) + a * Form(n, k, x, x)
  {
    var mx, nx := MulVec(m, k, k, x), MulVec(n, k, k, x);
    forall i | 0 <= i < k
      ensures MulVec(AddScaled(m, a, n, k), k, k, x)[i] == Add(mx, Scale(a, nx))[i]
    {
      DotLinear(a, m[i], n[i], x);
    }
    assert MulVec(AddScaled(m, a, n, k), k, k, x) == Add(mx, Scale(a, nx));
    DotLinear(a, mx, nx, x);
  }

  lemma MulIdentity(k: Mat)
    requires IsMat(k, 6, 3)
    ensures Mul(k, Identity(3), 6, 3, 3) == k
  {
    forall i, j | 0 <= i < 6 && 0 <= j < 3
      ensures Dot(k[i], Col(Identity(3), 3, 3, j)) == k[i][j]
    {
      assert Col(Identity(3), 3, 3, j) == Unit(3, j);
      DotComm(k[i], Unit(3, j));
      DotUnit(3, j, k[i]);
    }
    MatEq(Mul(k, Identity(3), 6, 3, 3), k, 6, 3);
  }

  /** x . (K K') x is the square of the length of K' x. */
  lemma OuterForm(k: Mat, x: Vec)
    requires IsMat(k, 6, 3) && |x| == 6
    ensures Form(MulT(k, k, 6, 3, 6), 6, x, x) == Dot(VecMul(x, k, 6, 3), VecMul(x, k, 6, 3))
  {
    var w := VecMul(x, k, 6, 3);
    MulIdentity(k);
    SandwichForm(k, Identity(3), 6, 3, x);
    forall i | 0 <= i < 3
      ensures MulVec(Identity(3), 3, 3, w)[i] == w[i]
    {
      DotUnit(3, i, w);
    }
    assert MulVec(Identity(3), 3, 3, w) == w;
  }

  /** Both sides of the identity have the same quadratic form. */
  lemma SameForm(p: Mat, h: Mat, r: real, x: Vec)
    requires Symmetric(p, 6) && IsMat(h, 3, 6) && |x| == 6 && Det(Innovation(p, h, r)) != 0.0
    ensures Form(JosephCov(p, h, r), 6, x, x) == Form(CorrectCov(p, h, r), 6, x, x)
  {
    var a, k := Complement(p, h, r), Gain(p, h, r);
    JosephForm(p, h, r, x);
    GainTransposed(p, h, r, x);
    ComplementTransposed(p, h, r, x);
    SandwichForm(a, p, 6, 6, x);
    OuterForm(k, x);
    hide Form, Gain, Complement, Mul, MulT, CorrectCov, Cramer, Innovation, MulVec, VecMul;
    AddScaledForm(MulT(Mul(a, p, 6, 6, 6), a, 6, 6, 6), r, MulT(k, k, 6, 3, 6), 6, x);
  }

  // ----- a symmetric matrix is determined by its quadratic form

  lemma FormEntry(m: Mat, n: nat, i: nat, j: nat)
    requires IsMat(m, n, n) && i < n && j < n
    ensures Form(m, n, Unit(n, i), Unit(n, j)) == m[i][j]
  {
    var e := Unit(n, j);
    DotUnit(n, i, MulVec(m, n, n, e));
    DotComm(m[i], e);
    DotUnit(n, j, m[i]);
  }

  lemma OuterSymmetric(k: Mat)
    requires IsMat(k, 6, 3)
    ensures Symmetric(MulT(k, k, 6, 3, 6), 6)
  {
    forall i, j | 0 <= i < 6 && 0 <= j < 6
      ensures MulT(k, k, 6, 3, 6)[i][j] == MulT(k, k, 6, 3, 6)[j][i]
    {
      DotComm(k[i], k[j]);
    }
  }

  lemma AddScaledSymmetric(m: Mat, a: real, n: Mat, k: nat)
    requires Symmetric(m, k) && Symmetric(n, k)
    ensures Symmetric(AddScaled(m, a, n, k), k)
  {
  }

  lemma JosephSymmetric(p: Mat, h: Mat, r: real)
    requires Symmetric(p, 6) && IsMat(h, 3, 6) && Det(Innovation(p, h, r)) != 0.0
    ensures Symmetric(JosephCov(p, h, r), 6)
  {
    var a, k := Complement(p, h, r), Gain(p, h, r);
    SandwichSymmetric(a, p, 6, 6);
    OuterSymmetric(k);
    AddScaledSymmetric(MulT(Mul(a, p, 6, 6, 6), a, 6, 6, 6), r, MulT(k, k, 6, 3, 6), 6);
    hide Symmetric, Mul, MulT, AddScaled;
  }

  lemma JosephEntry(p: Mat, h: Mat, r: real, i: nat, j: nat)
    requires Symmetric(p, 6) && IsMat(h, 3, 6) && i < 6 && j < 6 && Det(Innovation(p, h, r)) != 0.0
    ensures JosephCov(p, h, r)[i][j] == CorrectCov(p, h, r)[i][j]
  {
    var m, n := JosephCov(p, h, r), CorrectCov(p, h, r);
    var u, v := Unit(6, i), Unit(6, j);
    JosephSymmetric(p, h, r);
    CorrectSymmetric(p, h, r);
    hide JosephCov, CorrectCov, Form, Unit;
    SameForm(p, h, r, u);
    SameForm(p, h, r, v);
    SameForm(p, h, r, Sub(u, v));
    FormSquare(m, 6, u, v);
    FormSquare(n, 6, u, v);
    FormEntry(m, 6, i, j);
    FormEntry(n, 6, i, j);
  }

  /** The Joseph identity: for a symmetric P and the gain K = P H' S^-1,
      (I - K H) P == (I - K H) P (I - K H)' + r K K'. */
  lemma JosephIdentity(p: Mat, h: Mat, r: real)
    requires Symmetric(p, 6) && IsMat(h, 3, 6) && Det(Innovation(p, h, r)) != 0.0
    ensures CorrectCov(p, h, r) == JosephCov(p, h, r)
  {
    forall i, j | 0 <= i < 6 && 0 <= j < 6
      ensures CorrectCov(p, h, r)[i][j] == JosephCov(p, h, r)[i][j]
    {
      JosephEntry(p, h, r, i, j);
    }
    MatEq(CorrectCov(p, h, r), JosephCov(p, h, r), 6, 6);
  }
}
