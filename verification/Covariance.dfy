/** The covariance algebra of the error-state filter: a 6x6 prediction P' = F P F' + Q, a 3-row
    measurement with S = H P H' + r I inverted by Cramer's rule, and the short correction
    P' = (I - K H) P.  Over the reals each of them keeps a symmetric positive semidefinite matrix. */
module Covariance {
  import opened LinearAlgebra

  function Identity(n: nat): Mat {
    seq(n, i requires 0 <= i < n => Unit(n, i))
  }

  function AddDiag(m: Mat, n: nat, d: Vec): Mat
    requires IsMat(m, n, n) && |d| == n
  {
    seq(n, i requires 0 <= i < n =>
      seq(n, j requires 0 <= j < n => if i == j then m[i][j] + d[i] else m[i][j]))
  }

  function SubMat(a: Mat, b: Mat, rows: nat, cols: nat): Mat
    requires IsMat(a, rows, cols) && IsMat(b, rows, cols)
  {
    seq(rows, i requires 0 <= i < rows => Sub(a[i], b[i]))
  }

  // ----- prediction

  function PredictCov(f: Mat, p: Mat, q: Vec): Mat
    requires IsMat(f, 6, 6) && IsMat(p, 6, 6) && |q| == 6
  {
    AddDiag(Mul(Mul(f, p, 6, 6, 6), Transpose(f, 6, 6), 6, 6, 6), 6, q)
  }

  /** Entry (i, j) of A P A' is the form of P at rows i and j of A. */
  lemma SandwichEntry(a: Mat, p: Mat, k: nat, n: nat, i: nat, j: nat)
    requires IsMat(a, k, n) && IsMat(p, n, n) && i < k && j < k
    ensures MulT(Mul(a, p, k, n, n), a, k, n, k)[i][j] == Form(p, n, a[i], a[j])
  {
    DotComm(VecMul(a[i], p, n, n), a[j]);
    Adjoint(a[i], p, n, n, a[j]);
  }

  lemma SandwichSymmetric(a: Mat, p: Mat, k: nat, n: nat)
    requires IsMat(a, k, n) && Symmetric(p, n)
    ensures Symmetric(MulT(Mul(a, p, k, n, n), a, k, n, k), k)
  {
    var s := MulT(Mul(a, p, k, n, n), a, k, n, k);
    forall i, j | 0 <= i < k && 0 <= j < k
      ensures s[i][j] == s[j][i]
    {
      SandwichEntry(a, p, k, n, i, j);
      SandwichEntry(a, p, k, n, j, i);
      FormSymmetric(p, n, a[i], a[j]);
    }
  }

  /** x . (A P A' x) is the form of P at A' x. */
  lemma SandwichForm(a: Mat, p: Mat, k: nat, n: nat, x: Vec)
    requires IsMat(a, k, n) && IsMat(p, n, n) && |x| == k
    ensures Form(MulT(Mul(a, p, k, n, n), a, k, n, k), k, x, x)
         == Form(p, n, VecMul(x, a, k, n), VecMul(x, a, k, n))
  {
    var z := VecMul(x, a, k, n);
    var at := Transpose(a, k, n);
    MulTransposed(Mul(a, p, k, n, n), a, k, n, k);
    MulActs(Mul(a, p, k, n, n), at, k, n, k, x);
    TransposeMul(x, a, k, n);
    MulActs(a, p, k, n, n, z);
    Adjoint(x, a, k, n, MulVec(p, n, n, z));
  }

  lemma SandwichPsd(a: Mat, p: Mat, k: nat, n: nat)
    requires IsMat(a, k, n) && Psd(p, n)
    ensures Psd(MulT(Mul(a, p, k, n, n), a, k, n, k), k)
  {
    forall x: Vec | |x| == k
      ensures Form(MulT(Mul(a, p, k, n, n), a, k, n, k), k, x, x) >= 0.0
    {
      SandwichForm(a, p, k, n, x);
      assert |VecMul(x, a, k, n)| == n;
    }
  }

  lemma {:induction false} DiagRow(m: Mat, n: nat, d: Vec, x: Vec, i: nat, len: nat)
    requires IsMat(m, n, n) && |d| == n && |x| == n && i < n && len <= n
    ensures DotUpTo(AddDiag(m, n, d)[i], x, len)
         == DotUpTo(m[i], x, len) + (if i < len then d[i] * x[i] else 0.0)
  {
    if len > 0 {
      DiagRow(m, n, d, x, i, len - 1);
    }
  }

  function Weighted(d: Vec, x: Vec): Vec
    requires |d| == |x|
  {
    seq(|d|, i requires 0 <= i < |d| => d[i] * x[i])
  }

  lemma AddDiagActs(m: Mat, n: nat, d: Vec, x: Vec)
    requires IsMat(m, n, n) && |d| == n && |x| == n
    ensures MulVec(AddDiag(m, n, d), n, n, x) == Add(MulVec(m, n, n, x), Scale(1.0, Weighted(d, x)))
  {
    forall i | 0 <= i < n
      ensures MulVec(AddDiag(m, n, d), n, n, x)[i] == Add(MulVec(m, n, n, x), Scale(1.0, Weighted(d, x)))[i]
    {
      DiagRow(m, n, d, x, i, n);
    }
  }

  lemma AddDiagForm(m: Mat, n: nat, d: Vec, x: Vec)
    requires IsMat(m, n, n) && |d| == n && |x| == n
    ensures Form(AddDiag(m, n, d), n, x, x) == Form(m, n, x, x) + Dot(x, Weighted(d, x))
  {
    AddDiagActs(m, n, d, x);
    DotLinear(1.0, MulVec(m, n, n, x), Weighted(d, x), x);
  }

  lemma WeightedTerm(x: real, d: real)
    requires d >= 0.0
    ensures x * (d * x) >= 0.0
  {
    assert x * (d * x) == d * (x * x);
    assert x * x >= 0.0;
  }

  lemma {:induction false} WeightedDot(d: Vec, x: Vec, len: nat)
    requires |d| == |x| && len <= |x|
    requires forall i :: 0 <= i < |d| ==> d[i] >= 0.0
    ensures DotUpTo(x, Weighted(d, x), len) >= 0.0
  {
    if len > 0 {
      WeightedDot(d, x, len - 1);
      WeightedTerm(x[len - 1], d[len - 1]);
    }
  }

  lemma AddDiagPsd(m: Mat, n: nat, d: Vec)
    requires Symmetric(m, n) && Psd(m, n) && |d| == n
    requires forall i :: 0 <= i < n ==> d[i] >= 0.0
    ensures Symmetric(AddDiag(m, n, d), n) && Psd(AddDiag(m, n, d), n)
  {
    forall x: Vec | |x| == n
      ensures Form(AddDiag(m, n, d), n, x, x) >= 0.0
    {
      AddDiagForm(m, n, d, x);
      WeightedDot(d, x, n);
    }
  }

  /** The prediction step keeps a symmetric positive semidefinite covariance. */
  lemma PredictKeepsPsd(f: Mat, p: Mat, q: Vec)
    requires IsMat(f, 6, 6) && Symmetric(p, 6) && Psd(p, 6) && |q| == 6
    requires forall i :: 0 <= i < 6 ==> q[i] >= 0.0
    ensures Symmetric(PredictCov(f, p, q), 6) && Psd(PredictCov(f, p, q), 6)
  {
    MulTransposed(Mul(f, p, 6, 6, 6), f, 6, 6, 6);
    SandwichSymmetric(f, p, 6, 6);
    SandwichPsd(f, p, 6, 6);
    AddDiagPsd(MulT(Mul(f, p, 6, 6, 6), f, 6, 6, 6), 6, q);
  }

  // ----- inversion of a 3x3 matrix by Cramer's rule

  function Det3(a: real, b: real, c: real, d: real, e: real, f: real, x: real, y: real, z: real): real {
    a * (e * z - f * y) - b * (d * z - f * x) + c * (d * y - e * x)
  }

  function Det(s: Mat): real
    requires IsMat(s, 3, 3)
  {
    Det3(s[0][0], s[0][1], s[0][2], s[1][0], s[1][1], s[1][2], s[2][0], s[2][1], s[2][2])
  }

  /** The 2x2 determinant | a b ; c d |. */
  function Minor(a: real, b: real, c: real, d: real): real {
    a * d - b * c
  }

  /** A product that the proofs below treat as one term. */
  function Times(x: real, y: real): real {
    x * y
  }

  /** The nine cofactor formulas, each multiplied by inv. */
  function Cofactors(s: Mat, inv: real): Mat
    requires IsMat(s, 3, 3)
  {
    var (a, b, c) := (s[0][0], s[0][1], s[0][2]);
    var (d, e, f) := (s[1][0], s[1][1], s[1][2]);
    var (x, y, z) := (s[2][0], s[2][1], s[2][2]);
    [[Times(Minor(e, f, y, z), inv), Times(Minor(c, b, z, y), inv), Times(Minor(b, c, e, f), inv)],
     [Times(Minor(f, d, z, x), inv), Times(Minor(a, c, x, z), inv), Times(Minor(c, a, f, d), inv)],
     [Times(Minor(d, e, x, y), inv), Times(Minor(b, a, y, x), inv), Times(Minor(a, b, d, e), inv)]]
  }

  function Cramer(s: Mat): Mat
    requires IsMat(s, 3, 3) && Det(s) != 0.0
  {
    Cofactors(s, 1.0 / Det(s))
  }

  /** Expanding a determinant along its own row gives it back, along another row zero. */
  lemma Expansion(a: real, b: real, c: real, d: real, e: real, f: real, x: real, y: real, z: real)
    ensures a * Minor(e, f, y, z) + b * Minor(f, d, z, x) + c * Minor(d, e, x, y)
         == Det3(a, b, c, d, e, f, x, y, z)
    ensures d * Minor(e, f, y, z) + e * Minor(f, d, z, x) + f * Minor(d, e, x, y) == 0.0
    ensures x * Minor(e, f, y, z) + y * Minor(f, d, z, x) + z * Minor(d, e, x, y) == 0.0
  {
  }

  /** The three rows of a determinant may be rotated. */
  lemma Rotation(a: real, b: real, c: real, d: real, e: real, f: real, x: real, y: real, z: real)
    ensures Det3(x, y, z, a, b, c, d, e, f) == Det3(a, b, c, d, e, f, x, y, z)
  {
  }

  lemma ScaledColumn(row: Vec, col: Vec, p: real, q: real, r: real, inv: real)
    requires |row| == 3 && col == [Times(p, inv), Times(q, inv), Times(r, inv)]
    ensures Dot(row, col) == (row[0] * p + row[1] * q + row[2] * r) * inv
  {
    Dot3(row, col);
    var x, y, z := row[0], row[1], row[2];
    assert x * (p * inv) + y * (q * inv) + z * (r * inv) == (x * p + y * q + z * r) * inv;
  }

  /** A column of cofactors that the rows of s meet in t0, t1, t2, divided through by the determinant. */
  lemma ColumnEntry(s: Mat, col: Vec, i: nat, j: nat, p: real, q: real, r: real, inv: real)
    requires IsMat(s, 3, 3) && i < 3 && j < 3 && Det(s) * inv == 1.0
    requires col == [Times(p, inv), Times(q, inv), Times(r, inv)]
    requires s[0][0] * p + s[0][1] * q + s[0][2] * r == if j == 0 then Det(s) else 0.0
    requires s[1][0] * p + s[1][1] * q + s[1][2] * r == if j == 1 then Det(s) else 0.0
    requires s[2][0] * p + s[2][1] * q + s[2][2] * r == if j == 2 then Det(s) else 0.0
    ensures Dot(s[i], col) == if i == j then 1.0 else 0.0
  {
    ScaledColumn(s[i], col, p, q, r, inv);
    var det := Det(s);
    var sum := if i == j then det else 0.0;
    if i == 0 {
      assert s[i][0] * p + s[i][1] * q + s[i][2] * r == sum;
    } else if i == 1 {
      assert s[i][0] * p + s[i][1] * q + s[i][2] * r == sum;
    } else {
      assert s[i][0] * p + s[i][1] * q + s[i][2] * r == sum;
    }
  }

  lemma CramerColumn(s: Mat, inv: real, i: nat, j: nat)
    requires IsMat(s, 3, 3) && Det(s) * inv == 1.0 && i < 3 && j < 3
    ensures Dot(s[i], Col(Cofactors(s, inv), 3, 3, j)) == if i == j then 1.0 else 0.0
  {
    var m := Cofactors(s, inv);
    var col := Col(m, 3, 3, j);
    assert col == [m[0][j], m[1][j], m[2][j]];
    var a, b, c := s[0][0], s[0][1], s[0][2];
    var d, e, f := s[1][0], s[1][1], s[1][2];
    var x, y, z := s[2][0], s[2][1], s[2][2];
    if j == 0 {
      Expansion(a, b, c, d, e, f, x, y, z);
      ColumnEntry(s, col, i, j, Minor(e, f, y, z), Minor(f, d, z, x), Minor(d, e, x, y), inv);
    } else if j == 1 {
      Rotation(x, y, z, a, b, c, d, e, f);
      Rotation(a, b, c, d, e, f, x, y, z);
      Expansion(d, e, f, x, y, z, a, b, c);
      MinorTurn(y, z, b, c);
      MinorTurn(z, x, c, a);
      MinorTurn(x, y, a, b);
      ColumnEntry(s, col, i, j, Minor(y, z, b, c), Minor(z, x, c, a), Minor(x, y, a, b), inv);
    } else {
      Rotation(a, b, c, d, e, f, x, y, z);
      Expansion(x, y, z, a, b, c, d, e, f);
      ColumnEntry(s, col, i, j, Minor(b, c, e, f), Minor(c, a, f, d), Minor(a, b, d, e), inv);
    }
  }

  /** Exchanging both the rows and the columns of a 2x2 determinant keeps it. */
  lemma MinorTurn(a: real, b: real, c: real, d: real)
    ensures Minor(a, b, c, d) == Minor(d, c, b, a)
  {
  }

  /** The Cramer formulas give a right inverse whenever the determinant is not zero. */
  lemma CramerInverts(s: Mat)
    requires IsMat(s, 3, 3) && Det(s) != 0.0
    ensures Mul(s, Cramer(s), 3, 3, 3) == Identity(3)
  {
    forall i, j | 0 <= i < 3 && 0 <= j < 3
      ensures Mul(s, Cramer(s), 3, 3, 3)[i][j] == Identity(3)[i][j]
    {
      CramerColumn(s, 1.0 / Det(s), i, j);
    }
    MatEq(Mul(s, Cramer(s), 3, 3, 3), Identity(3), 3, 3);
  }

  lemma CramerSymmetric(s: Mat)
    requires Symmetric(s, 3) && Det(s) != 0.0
    ensures Symmetric(Cramer(s), 3)
  {
    var (a, b, c) := (s[0][0], s[0][1], s[0][2]);
    var (d, e, f) := (s[1][1], s[1][2], s[2][2]);
    assert Minor(c, b, f, e) == Minor(e, b, f, c);
    assert s[1][0] == b && s[2][0] == c && s[2][1] == e;
    var m := Cramer(s);
    assert m[0][1] == m[1][0];
    assert m[0][2] == m[2][0];
    assert m[1][2] == m[2][1];
  }

  // ----- the innovation covariance and its determinant

  function Innovation(p: Mat, h: Mat, r: real): Mat
    requires IsMat(p, 6, 6) && IsMat(h, 3, 6)
  {
    AddDiag(MulT(Mul(h, p, 3, 6, 6), h, 3, 6, 3), 3, [r, r, r])
  }

  lemma InnovationSymmetric(p: Mat, h: Mat, r: real)
    requires Symmetric(p, 6) && IsMat(h, 3, 6)
    ensures Symmetric(Innovation(p, h, r), 3)
  {
    SandwichSymmetric(h, p, 3, 6);
  }

  /** x . S x is the form of P at H' x plus r |x|^2. */
  lemma InnovationForm(p: Mat, h: Mat, r: real, x: Vec)
    requires IsMat(p, 6, 6) && IsMat(h, 3, 6) && |x| == 3
    ensures Form(Innovation(p, h, r), 3, x, x)
         == Form(p, 6, VecMul(x, h, 3, 6), VecMul(x, h, 3, 6)) + r * Dot(x, x)
  {
    AddDiagForm(MulT(Mul(h, p, 3, 6, 6), h, 3, 6, 3), 3, [r, r, r], x);
    SandwichForm(h, p, 3, 6, x);
    var rx := Weighted([r, r, r], x);
    DotZero(Zero(3), x, 3);
    DotComm(Zero(3), x);
    DotLinear(r, Zero(3), x, x);
    forall i | 0 <= i < 3
      ensures rx[i] == Add(Zero(3), Scale(r, x))[i]
    {
    }
    assert rx == Add(Zero(3), Scale(r, x));
  }

  /** The value at (x, y, z) of the quadratic form with matrix (a b c; b d e; c e f). */
  function Quadratic(a: real, b: real, c: real, d: real, e: real, f: real, x: real, y: real, z: real): real {
    x * (a * x + b * y + c * z) + y * (b * x + d * y + e * z) + z * (c * x + e * y + f * z)
  }

  lemma FormIsQuadratic(s: Mat, v: Vec)
    requires Symmetric(s, 3) && |v| == 3
    ensures Form(s, 3, v, v)
         == Quadratic(s[0][0], s[0][1], s[0][2], s[1][1], s[1][2], s[2][2], v[0], v[1], v[2])
    ensures Dot(v, v) == v[0] * v[0] + v[1] * v[1] + v[2] * v[2]
  {
    Dot3(s[0], v);
    Dot3(s[1], v);
    Dot3(s[2], v);
    Dot3(v, MulVec(s, 3, 3, v));
    Dot3(v, v);
  }

  /** The form at the negated first row gives the leading 2x2 minor. */
  lemma QuadraticAtMinor(a: real, b: real, c: real, d: real, e: real, f: real)
    ensures Quadratic(a, b, c, d, e, f, -b, a, 0.0) == a * Minor(a, b, b, d)
  {
  }

  /** The form at the last column of cofactors gives the determinant. */
  lemma QuadraticAtCofactors(a: real, b: real, c: real, d: real, e: real, f: real)
    ensures Quadratic(a, b, c, d, e, f, Minor(b, c, d, e), Minor(c, a, e, b), Minor(a, b, b, d))
         == Minor(a, b, b, d) * Det3(a, b, c, b, d, e, c, e, f)
  {
    var x, y, z := Minor(b, c, d, e), Minor(c, a, e, b), Minor(a, b, b, d);
    Expansion(c, e, f, a, b, c, b, d, e);
    assert Det3(c, e, f, a, b, c, b, d, e) == Det3(a, b, c, b, d, e, c, e, f);
    assert c * x + e * y + f * z == Det3(a, b, c, b, d, e, c, e, f);
    assert a * x + b * y + c * z == 0.0;
    assert b * x + d * y + e * z == 0.0;
  }

  lemma SquaresDominate(x: real, y: real, z: real, r: real)
    requires r > 0.0
    ensures r * (x * x + y * y + z * z) >= z * (r * z)
  {
    assert x * x >= 0.0 && y * y >= 0.0;
    assert r * (x * x + y * y) >= 0.0;
    assert r * (x * x + y * y + z * z) == r * (x * x + y * y) + z * (r * z);
  }

  /** A quadratic form that dominates r |v|^2 has determinant at least r^3. */
  lemma QuadraticDet(a: real, b: real, c: real, d: real, e: real, f: real, r: real)
    requires r > 0.0
    requires forall x, y, z ::
      Quadratic(a, b, c, d, e, f, x, y, z) >= r * (x * x + y * y + z * z)
    ensures Det3(a, b, c, b, d, e, c, e, f) >= r * (r * r)
  {
    var minor, det := Minor(a, b, b, d), Det3(a, b, c, b, d, e, c, e, f);
    assert Quadratic(a, b, c, d, e, f, 1.0, 0.0, 0.0) == a;
    assert a >= r;

    QuadraticAtMinor(a, b, c, d, e, f);
    SquaresDominate(-b, 0.0, a, r);
    assert a * minor >= a * (r * a);
    CancelPositive(a, minor, r * a);
    ScaleUp(r, a, r);
    assert minor > 0.0;

    QuadraticAtCofactors(a, b, c, d, e, f);
    SquaresDominate(Minor(b, c, d, e), Minor(c, a, e, b), minor, r);
    assert minor * det >= minor * (r * minor);
    CancelPositive(minor, det, r * minor);
    ScaleUp(r, minor, r * r);
  }

  /** A symmetric 3x3 matrix whose form dominates r |x|^2 has determinant at least r^3. */
  lemma DetBound(s: Mat, r: real)
    requires Symmetric(s, 3) && r > 0.0
    requires forall x: Vec :: |x| == 3 ==> Form(s, 3, x, x) >= r * Dot(x, x)
    ensures Det(s) >= r * (r * r)
  {
    var (a, b, c) := (s[0][0], s[0][1], s[0][2]);
    var (d, e, f) := (s[1][1], s[1][2], s[2][2]);
    forall x, y, z
      ensures Quadratic(a, b, c, d, e, f, x, y, z) >= r * (x * x + y * y + z * z)
    {
      var v := [x, y, z];
      FormIsQuadratic(s, v);
      assert Form(s, 3, v, v) >= r * Dot(v, v);
    }
    QuadraticDet(a, b, c, d, e, f, r);
  }

  lemma InnovationDet(p: Mat, h: Mat, r: real)
    requires Symmetric(p, 6) && Psd(p, 6) && IsMat(h, 3, 6) && r > 0.0
    ensures Det(Innovation(p, h, r)) >= r * (r * r)
  {
    InnovationSymmetric(p, h, r);
    forall x: Vec | |x| == 3
      ensures Form(Innovation(p, h, r), 3, x, x) >= r * Dot(x, x)
    {
      InnovationForm(p, h, r, x);
      assert |VecMul(x, h, 3, 6)| == 6;
    }
    DetBound(Innovation(p, h, r), r);
  }

  // ----- correction

  function Gain(p: Mat, h: Mat, r: real): Mat
    requires IsMat(p, 6, 6) && IsMat(h, 3, 6) && Det(Innovation(p, h, r)) != 0.0
  {
    Mul(MulT(p, h, 6, 6, 3), Cramer(Innovation(p, h, r)), 6, 3, 3)
  }

  /** (I - K H) P. */
  function CorrectWith(p: Mat, h: Mat, k: Mat): Mat
    requires IsMat(p, 6, 6) && IsMat(h, 3, 6) && IsMat(k, 6, 3)
  {
    Mul(SubMat(Identity(6), Mul(k, h, 6, 3, 6), 6, 6), p, 6, 6, 6)
  }

  function CorrectCov(p: Mat, h: Mat, r: real): Mat
    requires IsMat(p, 6, 6) && IsMat(h, 3, 6) && Det(Innovation(p, h, r)) != 0.0
  {
    CorrectWith(p, h, Gain(p, h, r))
  }

  /** Row by row, (I - K H) P is P - K (H P). */
  lemma CorrectActs(p: Mat, h: Mat, k: Mat, x: Vec)
    requires IsMat(p, 6, 6) && IsMat(h, 3, 6) && IsMat(k, 6, 3) && |x| == 6
    ensures MulVec(CorrectWith(p, h, k), 6, 6, x)
         == Sub(MulVec(p, 6, 6, x), MulVec(k, 6, 3, MulVec(h, 3, 6, MulVec(p, 6, 6, x))))
  {
    var kh := Mul(k, h, 6, 3, 6);
    var m := SubMat(Identity(6), kh, 6, 6);
    var px := MulVec(p, 6, 6, x);
    MulActs(m, p, 6, 6, 6, x);
    MulActs(k, h, 6, 3, 6, px);
    forall i | 0 <= i < 6
      ensures Dot(m[i], px) == px[i] - Dot(kh[i], px)
    {
      DotSub(Unit(6, i), kh[i], px);
      DotUnit(6, i, px);
    }
  }

  /** With P symmetric, the columns of P H' are the rows of H P. */
  lemma CrossRow(p: Mat, h: Mat, x: Vec)
    requires Symmetric(p, 6) && IsMat(h, 3, 6) && |x| == 6
    ensures VecMul(x, MulT(p, h, 6, 6, 3), 6, 3) == MulVec(h, 3, 6, MulVec(p, 6, 6, x))
  {
    var pht := MulT(p, h, 6, 6, 3);
    forall j | 0 <= j < 3
      ensures Dot(x, Col(pht, 6, 3, j)) == Dot(h[j], MulVec(p, 6, 6, x))
    {
      forall i | 0 <= i < 6
        ensures Col(pht, 6, 3, j)[i] == MulVec(p, 6, 6, h[j])[i]
      {
        DotComm(h[j], p[i]);
      }
      assert Col(pht, 6, 3, j) == MulVec(p, 6, 6, h[j]);
      FormSymmetric(p, 6, x, h[j]);
    }
  }

  /** The Joseph identity as a quadratic form: with v = H P x, w = S^-1 v and z = x - H' w,
      x . (I - K H) P x = z . P z + r |w|^2. */
  lemma JosephForm(p: Mat, h: Mat, r: real, x: Vec)
    requires Symmetric(p, 6) && IsMat(h, 3, 6) && |x| == 6
    requires Det(Innovation(p, h, r)) != 0.0
    ensures var v := MulVec(h, 3, 6, MulVec(p, 6, 6, x));
            var w := MulVec(Cramer(Innovation(p, h, r)), 3, 3, v);
            var z := Sub(x, VecMul(w, h, 3, 6));
            Form(CorrectCov(p, h, r), 6, x, x) == Form(p, 6, z, z) + r * Dot(w, w)
  {
    var s := Innovation(p, h, r);
    var si := Cramer(s);
    var k := Gain(p, h, r);
    var px := MulVec(p, 6, 6, x);
    var v := MulVec(h, 3, 6, px);
    var w := MulVec(si, 3, 3, v);
    var u := VecMul(w, h, 3, 6);

    // x . P+ x == x . P x - v . w
    CorrectActs(p, h, k, x);
    var kv := MulVec(k, 6, 3, v);
    DotSub(px, kv, x);
    MulActs(MulT(p, h, 6, 6, 3), si, 6, 3, 3, v);
    Adjoint(x, MulT(p, h, 6, 6, 3), 6, 3, w);
    CrossRow(p, h, x);
    assert Dot(x, kv) == Dot(v, w);

    // z . P z == x . P x - 2 w . v + w . (S w) - r |w|^2
    FormSquare(p, 6, x, u);
    FormSymmetric(p, 6, x, u);
    Adjoint(w, h, 3, 6, px);
    assert Form(p, 6, x, u) == Dot(w, v);
    InnovationForm(p, h, r, w);
    SolveInnovation(p, h, r, v);
    DotComm(v, w);
  }

  lemma SolveInnovation(p: Mat, h: Mat, r: real, v: Vec)
    requires IsMat(p, 6, 6) && IsMat(h, 3, 6) && |v| == 3 && Det(Innovation(p, h, r)) != 0.0
    ensures var s := Innovation(p, h, r);
            MulVec(s, 3, 3, MulVec(Cramer(s), 3, 3, v)) == v
  {
    var s := Innovation(p, h, r);
    CramerInverts(s);
    MulActs(s, Cramer(s), 3, 3, 3, v);
    forall i | 0 <= i < 3
      ensures MulVec(Identity(3), 3, 3, v)[i] == v[i]
    {
      DotUnit(3, i, v);
    }
    assert MulVec(Identity(3), 3, 3, v) == v;
  }

  lemma CorrectEntry(p: Mat, h: Mat, r: real, i: nat, j: nat)
    requires Symmetric(p, 6) && IsMat(h, 3, 6) && i < 6 && j < 6
    requires Det(Innovation(p, h, r)) != 0.0
    ensures var pht := MulT(p, h, 6, 6, 3);
            CorrectCov(p, h, r)[i][j] == p[i][j] - Form(Cramer(Innovation(p, h, r)), 3, pht[i], pht[j])
  {
    var si, k, pht := Cramer(Innovation(p, h, r)), Gain(p, h, r), MulT(p, h, 6, 6, 3);
    var e := Unit(6, j);
    var pe := MulVec(p, 6, 6, e);
    forall l | 0 <= l < 6
      ensures pe[l] == p[l][j]
    {
      DotComm(p[l], e);
      DotUnit(6, j, p[l]);
    }
    assert pe == Col(p, 6, 6, j);
    assert pe == p[j];
    CorrectActs(p, h, k, e);
    var m := CorrectCov(p, h, r);
    DotComm(m[i], e);
    DotUnit(6, j, m[i]);
    assert m[i][j] == MulVec(m, 6, 6, e)[i];
    var v := MulVec(h, 3, 6, pe);
    forall l | 0 <= l < 3
      ensures v[l] == pht[j][l]
    {
    }
    assert v == pht[j];
    Adjoint(pht[i], si, 3, 3, v);
  }

  lemma CorrectSymmetric(p: Mat, h: Mat, r: real)
    requires Symmetric(p, 6) && IsMat(h, 3, 6)
    requires Det(Innovation(p, h, r)) != 0.0
    ensures Symmetric(CorrectCov(p, h, r), 6)
  {
    InnovationSymmetric(p, h, r);
    CramerSymmetric(Innovation(p, h, r));
    var m, pht := CorrectCov(p, h, r), MulT(p, h, 6, 6, 3);
    forall i, j | 0 <= i < 6 && 0 <= j < 6
      ensures m[i][j] == m[j][i]
    {
      CorrectEntry(p, h, r, i, j);
      CorrectEntry(p, h, r, j, i);
      FormSymmetric(Cramer(Innovation(p, h, r)), 3, pht[i], pht[j]);
    }
  }

  lemma CorrectPsd(p: Mat, h: Mat, r: real)
    requires Symmetric(p, 6) && Psd(p, 6) && IsMat(h, 3, 6) && r >= 0.0
    requires Det(Innovation(p, h, r)) != 0.0
    ensures Psd(CorrectCov(p, h, r), 6)
  {
    forall x: Vec | |x| == 6
      ensures Form(CorrectCov(p, h, r), 6, x, x) >= 0.0
    {
      CorrectFormNonNegative(p, h, r, x);
    }
  }

  lemma CorrectFormNonNegative(p: Mat, h: Mat, r: real, x: Vec)
    requires Symmetric(p, 6) && Psd(p, 6) && IsMat(h, 3, 6) && r >= 0.0 && |x| == 6
    requires Det(Innovation(p, h, r)) != 0.0
    ensures Form(CorrectCov(p, h, r), 6, x, x) >= 0.0
  {
    JosephForm(p, h, r, x);
    var w := MulVec(Cramer(Innovation(p, h, r)), 3, 3, MulVec(h, 3, 6, MulVec(p, 6, 6, x)));
    var z := Sub(x, VecMul(w, h, 3, 6));
    DotSelf(w);
    assert Form(p, 6, z, z) >= 0.0;
    assert r * Dot(w, w) >= 0.0;
  }

  /** The correction step keeps a symmetric positive semidefinite covariance, and its
      determinant is never near zero. */
  lemma CorrectKeepsPsd(p: Mat, h: Mat, r: real)
    requires Symmetric(p, 6) && Psd(p, 6) && IsMat(h, 3, 6) && r > 0.0
    ensures Det(Innovation(p, h, r)) >= r * (r * r) > 0.0
    ensures Symmetric(CorrectCov(p, h, r), 6) && Psd(CorrectCov(p, h, r), 6)
  {
    InnovationDet(p, h, r);
    ScaleUp(r, r, 0.0);
    ScaleUp(r, r * r, 0.0);
    CorrectSymmetric(p, h, r);
    CorrectPsd(p, h, r);
  }

  /** The same for callers that need no bound on the determinant. */
  lemma CorrectSafe(p: Mat, h: Mat, r: real)
    requires Symmetric(p, 6) && Psd(p, 6) && IsMat(h, 3, 6) && r > 0.0
    ensures Det(Innovation(p, h, r)) != 0.0
    ensures Symmetric(CorrectCov(p, h, r), 6) && Psd(CorrectCov(p, h, r), 6)
  {
    CorrectKeepsPsd(p, h, r);
  }
}
