/** Real vectors and matrices, as far as the covariance of the attitude filter needs them:
    the adjoint law, products as composed maps, and positive semidefinite quadratic forms. */
module LinearAlgebra {

  type Vec = seq<real>

  /** A matrix is the sequence of its rows. */
  type Mat = seq<Vec>

  ghost predicate IsMat(m: Mat, rows: nat, cols: nat) {
    |m| == rows && forall i :: 0 <= i < rows ==> |m[i]| == cols
  }

  /** The sum of the first n products, added in index order. */
  function DotUpTo(u: Vec, v: Vec, n: nat): real
    requires n <= |u| && n <= |v|
  {
    if n == 0 then 0.0 else DotUpTo(u, v, n - 1) + u[n - 1] * v[n - 1]
  }

  function Dot(u: Vec, v: Vec): real
    requires |u| == |v|
  {
    DotUpTo(u, v, |u|)
  }

  function Zero(n: nat): Vec {
    seq(n, _ => 0.0)
  }

  function Unit(n: nat, i: nat): Vec {
    seq(n, k => if k == i then 1.0 else 0.0)
  }

  function Add(u: Vec, v: Vec): Vec
    requires |u| == |v|
  {
    seq(|u|, i requires 0 <= i < |u| => u[i] + v[i])
  }

  function Sub(u: Vec, v: Vec): Vec
    requires |u| == |v|
  {
    seq(|u|, i requires 0 <= i < |u| => u[i] - v[i])
  }

  function Scale(a: real, u: Vec): Vec {
    seq(|u|, i requires 0 <= i < |u| => a * u[i])
  }

  function Col(m: Mat, rows: nat, cols: nat, j: nat): Vec
    requires IsMat(m, rows, cols) && j < cols
  {
    seq(rows, i requires 0 <= i < rows => m[i][j])
  }

  /** The column vector m * x. */
  function MulVec(m: Mat, rows: nat, cols: nat, x: Vec): Vec
    requires IsMat(m, rows, cols) && |x| == cols
  {
    seq(rows, i requires 0 <= i < rows => Dot(m[i], x))
  }

  /** The row vector y * m. */
  function VecMul(y: Vec, m: Mat, rows: nat, cols: nat): Vec
    requires IsMat(m, rows, cols) && |y| == rows
  {
    seq(cols, j requires 0 <= j < cols => Dot(y, Col(m, rows, cols, j)))
  }

  function Mul(a: Mat, b: Mat, n: nat, k: nat, m: nat): (c: Mat)
    requires IsMat(a, n, k) && IsMat(b, k, m)
  {
    seq(n, i requires 0 <= i < n => VecMul(a[i], b, k, m))
  }

  /** a * transpose(b): the entry (i, j) is the product of row i of a and row j of b. */
  function MulT(a: Mat, b: Mat, n: nat, k: nat, m: nat): Mat
    requires IsMat(a, n, k) && IsMat(b, m, k)
  {
    seq(n, i requires 0 <= i < n => MulVec(b, m, k, a[i]))
  }

  function Transpose(a: Mat, rows: nat, cols: nat): Mat
    requires IsMat(a, rows, cols)
  {
    seq(cols, j requires 0 <= j < cols => Col(a, rows, cols, j))
  }

  ghost predicate Symmetric(m: Mat, n: nat) {
    IsMat(m, n, n) && forall i, j :: 0 <= i < n && 0 <= j < n ==> m[i][j] == m[j][i]
  }

  /** The bilinear form u' * m * v. */
  function Form(m: Mat, n: nat, u: Vec, v: Vec): real
    requires IsMat(m, n, n) && |u| == n && |v| == n
  {
    Dot(u, MulVec(m, n, n, v))
  }

  ghost predicate Psd(m: Mat, n: nat) {
    IsMat(m, n, n) && forall x: Vec :: |x| == n ==> Form(m, n, x, x) >= 0.0
  }

  lemma MatEq(a: Mat, b: Mat, rows: nat, cols: nat)
    requires IsMat(a, rows, cols) && IsMat(b, rows, cols)
    requires forall i, j :: 0 <= i < rows && 0 <= j < cols ==> a[i][j] == b[i][j]
    ensures a == b
  {
    forall i | 0 <= i < rows
      ensures a[i] == b[i]
    {
      assert |a[i]| == |b[i]|;
    }
  }

  lemma CancelPositive(a: real, b: real, c: real)
    requires a > 0.0 && a * b >= a * c
    ensures b >= c
  {
    assert b - c == (a * b - a * c) / a;
  }

  lemma ScaleUp(a: real, b: real, c: real)
    requires a > 0.0 && b >= c
    ensures a * b >= a * c
  {
  }

  // ----- the dot product is bilinear and symmetric

  lemma {:induction false} DotUpToEq(u: Vec, v: Vec, u': Vec, v': Vec, n: nat)
    requires n <= |u| && n <= |v| && n <= |u'| && n <= |v'|
    requires forall k :: 0 <= k < n ==> u[k] == u'[k] && v[k] == v'[k]
    ensures DotUpTo(u, v, n) == DotUpTo(u', v', n)
  {
    if n > 0 {
      DotUpToEq(u, v, u', v', n - 1);
    }
  }

  lemma {:induction false} DotUpToComm(u: Vec, v: Vec, n: nat)
    requires n <= |u| && n <= |v|
    ensures DotUpTo(u, v, n) == DotUpTo(v, u, n)
  {
    if n > 0 {
      DotUpToComm(u, v, n - 1);
    }
  }

  lemma DotComm(u: Vec, v: Vec)
    requires |u| == |v|
    ensures Dot(u, v) == Dot(v, u)
  {
    DotUpToComm(u, v, |u|);
  }

  lemma {:induction false} DotUpToLinear(a: real, u: Vec, v: Vec, x: Vec, n: nat)
    requires n <= |u| == |v| == |x|
    ensures DotUpTo(Add(u, Scale(a, v)), x, n) == DotUpTo(u, x, n) + a * DotUpTo(v, x, n)
  {
    if n > 0 {
      DotUpToLinear(a, u, v, x, n - 1);
      var du, dv := DotUpTo(u, x, n - 1), DotUpTo(v, x, n - 1);
      assert (u[n - 1] + a * v[n - 1]) * x[n - 1] == u[n - 1] * x[n - 1] + a * (v[n - 1] * x[n - 1]);
      assert a * (dv + v[n - 1] * x[n - 1]) == a * dv + a * (v[n - 1] * x[n - 1]);
    }
  }

  lemma DotLinear(a: real, u: Vec, v: Vec, x: Vec)
    requires |u| == |v| == |x|
    ensures Dot(Add(u, Scale(a, v)), x) == Dot(u, x) + a * Dot(v, x)
    ensures Dot(x, Add(u, Scale(a, v))) == Dot(x, u) + a * Dot(x, v)
  {
    DotUpToLinear(a, u, v, x, |u|);
    DotComm(Add(u, Scale(a, v)), x);
    DotComm(u, x);
    DotComm(v, x);
  }

  lemma DotSub(u: Vec, v: Vec, x: Vec)
    requires |u| == |v| == |x|
    ensures Dot(Sub(u, v), x) == Dot(u, x) - Dot(v, x)
    ensures Dot(x, Sub(u, v)) == Dot(x, u) - Dot(x, v)
  {
    DotLinear(-1.0, u, v, x);
    assert Sub(u, v) == Add(u, Scale(-1.0, v));
  }

  lemma {:induction false} DotZero(u: Vec, v: Vec, n: nat)
    requires n <= |u| && n <= |v|
    requires forall k :: 0 <= k < n ==> u[k] == 0.0
    ensures DotUpTo(u, v, n) == 0.0
  {
    if n > 0 {
      DotZero(u, v, n - 1);
    }
  }

  lemma {:induction false} DotUnitUpTo(dim: nat, i: nat, v: Vec, n: nat)
    requires n <= dim == |v| && i < dim
    ensures DotUpTo(Unit(dim, i), v, n) == if i < n then v[i] else 0.0
  {
    if n > 0 {
      DotUnitUpTo(dim, i, v, n - 1);
    }
  }

  lemma DotUnit(dim: nat, i: nat, v: Vec)
    requires |v| == dim && i < dim
    ensures Dot(Unit(dim, i), v) == v[i]
  {
    DotUnitUpTo(dim, i, v, dim);
  }

  lemma {:induction false} DotSelfUpTo(u: Vec, n: nat)
    requires n <= |u|
    ensures DotUpTo(u, u, n) >= 0.0
  {
    if n > 0 {
      DotSelfUpTo(u, n - 1);
      assert u[n - 1] * u[n - 1] >= 0.0;
    }
  }

  lemma DotSelf(u: Vec)
    ensures Dot(u, u) >= 0.0
  {
    DotSelfUpTo(u, |u|);
  }

  /** Three products, as one term. */
  function Lin3(a: real, b: real, c: real, x: real, y: real, z: real): real {
    a * x + b * y + c * z
  }

  lemma Dot3(u: Vec, v: Vec)
    requires |u| == |v| == 3
    ensures Dot(u, v) == Lin3(u[0], u[1], u[2], v[0], v[1], v[2])
  {
    assert DotUpTo(u, v, 1) == u[0] * v[0];
    assert DotUpTo(u, v, 2) == u[0] * v[0] + u[1] * v[1];
  }

  // ----- the adjoint law: (y * m) . x == y . (m * x)

  /** The partial row product: the first n rows of m, weighted by y. */
  function RowSum(y: Vec, m: Mat, rows: nat, cols: nat, n: nat): (r: Vec)
    requires IsMat(m, rows, cols) && |y| == rows && n <= rows
    ensures |r| == cols
  {
    if n == 0 then Zero(cols) else Add(RowSum(y, m, rows, cols, n - 1), Scale(y[n - 1], m[n - 1]))
  }

  lemma {:induction false} RowSumEntry(y: Vec, m: Mat, rows: nat, cols: nat, n: nat, j: nat)
    requires IsMat(m, rows, cols) && |y| == rows && n <= rows && j < cols
    ensures RowSum(y, m, rows, cols, n)[j] == DotUpTo(y, Col(m, rows, cols, j), n)
  {
    if n > 0 {
      RowSumEntry(y, m, rows, cols, n - 1, j);
    }
  }

  lemma {:induction false} RowSumDot(y: Vec, m: Mat, rows: nat, cols: nat, n: nat, x: Vec)
    requires IsMat(m, rows, cols) && |y| == rows && n <= rows && |x| == cols
    ensures Dot(RowSum(y, m, rows, cols, n), x) == DotUpTo(y, MulVec(m, rows, cols, x), n)
  {
    if n == 0 {
      DotZero(Zero(cols), x, cols);
    } else {
      RowSumDot(y, m, rows, cols, n - 1, x);
      DotLinear(y[n - 1], RowSum(y, m, rows, cols, n - 1), m[n - 1], x);
    }
  }

  lemma Adjoint(y: Vec, m: Mat, rows: nat, cols: nat, x: Vec)
    requires IsMat(m, rows, cols) && |y| == rows && |x| == cols
    ensures Dot(VecMul(y, m, rows, cols), x) == Dot(y, MulVec(m, rows, cols, x))
  {
    RowSumDot(y, m, rows, cols, rows, x);
    forall j | 0 <= j < cols
      ensures RowSum(y, m, rows, cols, rows)[j] == VecMul(y, m, rows, cols)[j]
    {
      RowSumEntry(y, m, rows, cols, rows, j);
    }
    assert RowSum(y, m, rows, cols, rows) == VecMul(y, m, rows, cols);
  }

  // ----- products act as composed maps

  lemma MulActs(a: Mat, b: Mat, n: nat, k: nat, m: nat, x: Vec)
    requires IsMat(a, n, k) && IsMat(b, k, m) && |x| == m
    ensures MulVec(Mul(a, b, n, k, m), n, m, x) == MulVec(a, n, k, MulVec(b, k, m, x))
  {
    forall i | 0 <= i < n
      ensures Dot(Mul(a, b, n, k, m)[i], x) == Dot(a[i], MulVec(b, k, m, x))
    {
      Adjoint(a[i], b, k, m, x);
    }
  }

  /** Matrix multiplication is associative. */
  lemma MulAssoc(a: Mat, b: Mat, c: Mat, n: nat, k: nat, m: nat, l: nat)
    requires IsMat(a, n, k) && IsMat(b, k, m) && IsMat(c, m, l)
    ensures Mul(Mul(a, b, n, k, m), c, n, m, l) == Mul(a, Mul(b, c, k, m, l), n, k, l)
  {
    var bc := Mul(b, c, k, m, l);
    forall i, j | 0 <= i < n && 0 <= j < l
      ensures Mul(Mul(a, b, n, k, m), c, n, m, l)[i][j] == Mul(a, bc, n, k, l)[i][j]
    {
      var cj := Col(c, m, l, j);
      Adjoint(a[i], b, k, m, cj);
      assert MulVec(b, k, m, cj) == Col(bc, k, l, j);
    }
    MatEq(Mul(Mul(a, b, n, k, m), c, n, m, l), Mul(a, bc, n, k, l), n, l);
  }

  lemma TransposeMul(y: Vec, m: Mat, rows: nat, cols: nat)
    requires IsMat(m, rows, cols) && |y| == rows
    ensures MulVec(Transpose(m, rows, cols), cols, rows, y) == VecMul(y, m, rows, cols)
  {
    forall j | 0 <= j < cols
      ensures Dot(Col(m, rows, cols, j), y) == Dot(y, Col(m, rows, cols, j))
    {
      DotComm(Col(m, rows, cols, j), y);
    }
  }

  /** Multiplying by a transpose is the row-by-row product. */
  lemma MulTransposed(a: Mat, b: Mat, n: nat, k: nat, m: nat)
    requires IsMat(a, n, k) && IsMat(b, m, k)
    ensures IsMat(Transpose(b, m, k), k, m)
    ensures Mul(a, Transpose(b, m, k), n, k, m) == MulT(a, b, n, k, m)
  {
    var bt := Transpose(b, m, k);
    forall i, j | 0 <= i < n && 0 <= j < m
      ensures Mul(a, bt, n, k, m)[i][j] == MulT(a, b, n, k, m)[i][j]
    {
      assert Col(bt, k, m, j) == b[j];
      DotComm(a[i], b[j]);
    }
    MatEq(Mul(a, bt, n, k, m), MulT(a, b, n, k, m), n, m);
  }

  // ----- symmetric forms

  lemma SymmetricVecMul(m: Mat, n: nat, u: Vec)
    requires Symmetric(m, n) && |u| == n
    ensures VecMul(u, m, n, n) == MulVec(m, n, n, u)
  {
    forall j | 0 <= j < n
      ensures Dot(u, Col(m, n, n, j)) == Dot(m[j], u)
    {
      assert Col(m, n, n, j) == m[j];
      DotComm(u, m[j]);
    }
  }

  lemma FormSymmetric(m: Mat, n: nat, u: Vec, v: Vec)
    requires Symmetric(m, n) && |u| == n && |v| == n
    ensures Form(m, n, u, v) == Form(m, n, v, u)
  {
    Adjoint(u, m, n, n, v);
    SymmetricVecMul(m, n, u);
    DotComm(MulVec(m, n, n, u), v);
  }

  lemma MulVecLinear(m: Mat, rows: nat, cols: nat, a: real, u: Vec, v: Vec)
    requires IsMat(m, rows, cols) && |u| == cols && |v| == cols
    ensures MulVec(m, rows, cols, Add(u, Scale(a, v)))
         == Add(MulVec(m, rows, cols, u), Scale(a, MulVec(m, rows, cols, v)))
  {
    var sum := Add(MulVec(m, rows, cols, u), Scale(a, MulVec(m, rows, cols, v)));
    var image := MulVec(m, rows, cols, Add(u, Scale(a, v)));
    forall i | 0 <= i < rows
      ensures image[i] == sum[i]
    {
      DotLinear(a, u, v, m[i]);
    }
    assert image == sum;
  }

  /** The square of a difference, for a symmetric form. */
  lemma FormSquare(m: Mat, n: nat, u: Vec, v: Vec)
    requires Symmetric(m, n) && |u| == n && |v| == n
    ensures Form(m, n, Sub(u, v), Sub(u, v))
         == Form(m, n, u, u) - 2.0 * Form(m, n, u, v) + Form(m, n, v, v)
  {
    var d := Sub(u, v);
    assert d == Add(u, Scale(-1.0, v));
    MulVecLinear(m, n, n, -1.0, u, v);
    var mu, mv := MulVec(m, n, n, u), MulVec(m, n, n, v);
    DotLinear(-1.0, mu, mv, d);
    DotLinear(-1.0, u, v, mu);
    DotLinear(-1.0, u, v, mv);
    FormSymmetric(m, n, u, v);
  }
}
