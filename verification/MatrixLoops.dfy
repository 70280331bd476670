/** The matrix loops of the attitude filter, over two-dimensional arrays, proved against the
    matrix algebra. */
module MatrixLoops {
  import opened LinearAlgebra
  import opened Covariance

  /** The rows of an array. */
  ghost function Rows(a: array2<real>): (m: Mat)
    reads a
    ensures IsMat(m, a.Length0, a.Length1)
    ensures forall i, j :: 0 <= i < a.Length0 && 0 <= j < a.Length1 ==> m[i][j] == a[i, j]
  {
    Block(a, a.Length0, a.Length1)
  }

  /** The top left block of an array. */
  ghost function Block(a: array2<real>, rows: nat, cols: nat): (m: Mat)
    requires rows <= a.Length0 && cols <= a.Length1
    reads a
    ensures IsMat(m, rows, cols)
    ensures forall i, j :: 0 <= i < rows && 0 <= j < cols ==> m[i][j] == a[i, j]
  {
    seq(rows, i requires 0 <= i < rows reads a =>
      seq(cols, j requires 0 <= j < cols reads a => a[i, j]))
  }

  method IdentityArray(n: nat) returns (c: array2<real>)
    ensures fresh(c) && c.Length0 == n && c.Length1 == n && Rows(c) == Identity(n)
  {
    c := new real[n, n]((i, j) => if i == j then 1.0 else 0.0);
    MatEq(Rows(c), Identity(n), n, n);
  }

  /** The innermost loop of a product: row i of a against column j of b. */
  method RowTimesColumn(a: array2<real>, b: array2<real>, i: nat, j: nat) returns (sum: real)
    requires a.Length1 == b.Length0 && i < a.Length0 && j < b.Length1
    ensures sum == Mul(Rows(a), Rows(b), a.Length0, a.Length1, b.Length1)[i][j]
  {
    ghost var row, col := Rows(a)[i], Col(Rows(b), b.Length0, b.Length1, j);
    sum := 0.0;
    for k := 0 to a.Length1
      invariant sum == DotUpTo(row, col, k)
    {
      sum := sum + a[i, k] * b[k, j];
    }
  }

  method MatMul(a: array2<real>, b: array2<real>) returns (c: array2<real>)
    requires a.Length1 == b.Length0
    ensures fresh(c) && c.Length0 == a.Length0 && c.Length1 == b.Length1
    ensures Rows(c) == Mul(Rows(a), Rows(b), a.Length0, a.Length1, b.Length1)
  {
    c := new real[a.Length0, b.Length1];
    ghost var product := Mul(Rows(a), Rows(b), a.Length0, a.Length1, b.Length1);
    for i := 0 to a.Length0
      invariant forall r, s :: 0 <= r < i && 0 <= s < b.Length1 ==> c[r, s] == product[r][s]
    {
      for j := 0 to b.Length1
        invariant forall r, s :: 0 <= r < i && 0 <= s < b.Length1 ==> c[r, s] == product[r][s]
        invariant forall s :: 0 <= s < j ==> c[i, s] == product[i][s]
      {
        var sum := RowTimesColumn(a, b, i, j);
        c[i, j] := sum;
      }
    }
    MatEq(Rows(c), product, c.Length0, c.Length1);
  }

  /** The innermost loop of a product with a transpose: row i of a against row j of b. */
  method RowTimesRow(a: array2<real>, b: array2<real>, i: nat, j: nat) returns (sum: real)
    requires a.Length1 == b.Length1 && i < a.Length0 && j < b.Length0
    ensures sum == MulT(Rows(a), Rows(b), a.Length0, a.Length1, b.Length0)[i][j]
  {
    ghost var row, other := Rows(a)[i], Rows(b)[j];
    sum := 0.0;
    for k := 0 to a.Length1
      invariant sum == DotUpTo(other, row, k)
    {
      sum := sum + a[i, k] * b[j, k];
    }
  }

  /** The product with a transposed right factor, read row by row. */
  method MatMulT(a: array2<real>, b: array2<real>) returns (c: array2<real>)
    requires a.Length1 == b.Length1
    ensures fresh(c) && c.Length0 == a.Length0 && c.Length1 == b.Length0
    ensures Rows(c) == MulT(Rows(a), Rows(b), a.Length0, a.Length1, b.Length0)
  {
    c := new real[a.Length0, b.Length0];
    ghost var product := MulT(Rows(a), Rows(b), a.Length0, a.Length1, b.Length0);
    for i := 0 to a.Length0
      invariant forall r, s :: 0 <= r < i && 0 <= s < b.Length0 ==> c[r, s] == product[r][s]
    {
      for j := 0 to b.Length0
        invariant forall r, s :: 0 <= r < i && 0 <= s < b.Length0 ==> c[r, s] == product[r][s]
        invariant forall s :: 0 <= s < j ==> c[i, s] == product[i][s]
      {
        var sum := RowTimesRow(a, b, i, j);
        c[i, j] := sum;
      }
    }
    MatEq(Rows(c), product, c.Length0, c.Length1);
  }

  method MatTranspose(a: array2<real>) returns (b: array2<real>)
    ensures fresh(b) && b.Length0 == a.Length1 && b.Length1 == a.Length0
    ensures Rows(b) == Transpose(Rows(a), a.Length0, a.Length1)
  {
    b := new real[a.Length1, a.Length0];
    for i := 0 to a.Length1
      invariant forall r, s :: 0 <= r < i && 0 <= s < a.Length0 ==> b[r, s] == a[s, r]
    {
      for j := 0 to a.Length0
        invariant forall r, s :: 0 <= r < i && 0 <= s < a.Length0 ==> b[r, s] == a[s, r]
        invariant forall s :: 0 <= s < j ==> b[i, s] == a[s, i]
      {
        b[i, j] := a[j, i];
      }
    }
    MatEq(Rows(b), Transpose(Rows(a), a.Length0, a.Length1), a.Length1, a.Length0);
  }

  /** Adds d to the diagonal in place. */
  method AddToDiagonal(a: array2<real>, d: seq<real>)
    requires a.Length0 == a.Length1 == |d|
    modifies a
    ensures Rows(a) == AddDiag(old(Rows(a)), |d|, d)
  {
    ghost var before, n := Rows(a), |d|;
    for i := 0 to |d|
      invariant forall r, s :: 0 <= r < n && 0 <= s < n ==>
        a[r, s] == if r == s && r < i then before[r][s] + d[r] else before[r][s]
    {
      a[i, i] := a[i, i] + d[i];
    }
    MatEq(Rows(a), AddDiag(before, n, d), n, n);
  }

  /** a * x for a matrix with three columns. */
  method MulThree(a: array2<real>, x: seq<real>) returns (y: seq<real>)
    requires a.Length1 == 3 && |x| == 3
    ensures y == MulVec(Rows(a), a.Length0, 3, x)
  {
    y := [];
    for i := 0 to a.Length0
      invariant |y| == i
      invariant forall r :: 0 <= r < i ==> y[r] == Dot(Rows(a)[r], x)
    {
      Dot3(Rows(a)[i], x);
      y := y + [Lin3(a[i, 0], a[i, 1], a[i, 2], x[0], x[1], x[2])];
    }
  }

  /** I - a, and the product of that with p: the code subtracts inside the product loop. */
  method ComplementMul(a: array2<real>, p: array2<real>) returns (c: array2<real>)
    requires a.Length0 == a.Length1 == p.Length0 == p.Length1
    ensures fresh(c) && c.Length0 == a.Length0 && c.Length1 == a.Length0
    ensures var n := a.Length0;
            Rows(c) == Mul(SubMat(Identity(n), Rows(a), n, n), Rows(p), n, n, n)
  {
    var n := a.Length0;
    c := new real[n, n];
    ghost var product := Mul(SubMat(Identity(n), Rows(a), n, n), Rows(p), n, n, n);
    for i := 0 to n
      invariant forall r, s :: 0 <= r < i && 0 <= s < n ==> c[r, s] == product[r][s]
    {
      for j := 0 to n
        invariant forall r, s :: 0 <= r < i && 0 <= s < n ==> c[r, s] == product[r][s]
        invariant forall s :: 0 <= s < j ==> c[i, s] == product[i][s]
      {
        var sum := ComplementRowTimesColumn(a, p, i, j);
        c[i, j] := sum;
      }
    }
    MatEq(Rows(c), product, n, n);
  }

  method ComplementRowTimesColumn(a: array2<real>, p: array2<real>, i: nat, j: nat) returns (sum: real)
    requires a.Length0 == a.Length1 == p.Length0 == p.Length1 && i < a.Length0 && j < a.Length0
    ensures var n := a.Length0;
            sum == Mul(SubMat(Identity(n), Rows(a), n, n), Rows(p), n, n, n)[i][j]
  {
    var n := a.Length0;
    ghost var row, col := SubMat(Identity(n), Rows(a), n, n)[i], Col(Rows(p), n, n, j);
    sum := 0.0;
    for k := 0 to n
      invariant sum == DotUpTo(row, col, k)
    {
      var factor := (if i == k then 1.0 else 0.0) - a[i, k];
      assert row[k] == factor;
      sum := sum + factor * p[k, j];
    }
  }
}
