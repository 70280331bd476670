/** The direction a body sees, how a turn moves it, and that the filter's H is the derivative of it. */
module AhrsDirection {
  import opened LinearAlgebra
  import opened Covariance
  import opened Joseph
  import opened Quaternion
  import opened AhrsModel
  import opened AhrsEstimate

  /** The two kinds of entry of a rotation matrix. */
  function Diagonal(a: real, b: real, c: real, d: real): real {
    a * a + b * b - c * c - d * d
  }

  function Twice(a: real, b: real, c: real, d: real): real {
    2.0 * (a * b + c * d)
  }

  /** The first row of the rotation matrix of (a, b, c, d). */
  function Row(a: real, b: real, c: real, d: real): Vec3 {
    [Diagonal(a, b, c, d), Twice(b, c, -a, d), Twice(b, d, a, c)]
  }

  lemma FirstEntry(a: real, b: real, c: real, d: real, w: real, x: real, y: real, z: real)
    ensures Diagonal(a * w - b * x - c * y - d * z, a * x + b * w + c * z - d * y,
                     a * y - b * z + c * w + d * x, a * z + b * y - c * x + d * w)
         == Lin3(Diagonal(a, b, c, d), Twice(b, c, -a, d), Twice(b, d, a, c),
                 Diagonal(w, x, y, z), Twice(x, y, w, z), Twice(x, z, -w, y))
  {
  }

  lemma SecondEntry(a: real, b: real, c: real, d: real, w: real, x: real, y: real, z: real)
    ensures Twice(a * x + b * w + c * z - d * y, a * y - b * z + c * w + d * x,
                  -(a * w - b * x - c * y - d * z), a * z + b * y - c * x + d * w)
         == Lin3(Diagonal(a, b, c, d), Twice(b, c, -a, d), Twice(b, d, a, c),
                 Twice(x, y, -w, z), Diagonal(w, y, x, z), Twice(y, z, w, x))
  {
  }

  lemma ThirdEntry(a: real, b: real, c: real, d: real, w: real, x: real, y: real, z: real)
    ensures Twice(a * x + b * w + c * z - d * y, a * z + b * y - c * x + d * w,
                  a * w - b * x - c * y - d * z, a * y - b * z + c * w + d * x)
         == Lin3(Diagonal(a, b, c, d), Twice(b, c, -a, d), Twice(b, d, a, c),
                 Twice(x, z, w, y), Twice(y, z, -w, x), Diagonal(w, z, x, y))
  {
  }

  lemma FirstRow(a: real, b: real, c: real, d: real, w: real, x: real, y: real, z: real)
    ensures var h := Hamilton(a, b, c, d, w, x, y, z);
            Row(h.w, h.x, h.y, h.z) == VecMul(Row(a, b, c, d), DcmOf(w, x, y, z), 3, 3)
  {
    var n, r := DcmOf(w, x, y, z), Row(a, b, c, d);
    FirstEntry(a, b, c, d, w, x, y, z);
    SecondEntry(a, b, c, d, w, x, y, z);
    ThirdEntry(a, b, c, d, w, x, y, z);
    Dot3(r, Col(n, 3, 3, 0));
    Dot3(r, Col(n, 3, 3, 1));
    Dot3(r, Col(n, 3, 3, 2));
  }

  // Renaming the axes in turn, x to y to z to x, carries every identity about the first row to the others.

  lemma HamiltonTurns(a: real, b: real, c: real, d: real, w: real, x: real, y: real, z: real)
    ensures var h := Hamilton(a, b, c, d, w, x, y, z);
            Hamilton(a, c, d, b, w, y, z, x) == Quat(h.w, h.y, h.z, h.x)
  {
  }

  lemma DcmTurns(a: real, b: real, c: real, d: real)
    ensures var m, m' := DcmOf(a, b, c, d), DcmOf(a, c, d, b);
            && m[0] == Row(a, b, c, d)
            && m' == [[m[1][1], m[1][2], m[1][0]], [m[2][1], m[2][2], m[2][0]], [m[0][1], m[0][2], m[0][0]]]
  {
  }

  lemma Lin3Turns(a: real, b: real, c: real, x: real, y: real, z: real)
    ensures Lin3(b, c, a, y, z, x) == Lin3(a, b, c, x, y, z)
  {
  }

  lemma RowTurns(r: Vec3, w: real, x: real, y: real, z: real)
    ensures var v := VecMul(r, DcmOf(w, x, y, z), 3, 3);
            VecMul([r[1], r[2], r[0]], DcmOf(w, y, z, x), 3, 3) == [v[1], v[2], v[0]]
  {
    var n, n', r' := DcmOf(w, x, y, z), DcmOf(w, y, z, x), [r[1], r[2], r[0]];
    DcmTurns(w, x, y, z);
    hide DcmOf, Lin3;
    forall j | 0 <= j < 3
      ensures Dot(r', Col(n', 3, 3, j)) == Dot(r, Col(n, 3, 3, (j + 1) % 3))
    {
      var k := (j + 1) % 3;
      Dot3(r', Col(n', 3, 3, j));
      Dot3(r, Col(n, 3, 3, k));
      Lin3Turns(r[0], r[1], r[2], n[0][k], n[1][k], n[2][k]);
    }
  }

  /** The second row, from the first of the renamed factors. */
  lemma SecondRow(a: real, b: real, c: real, d: real, w: real, x: real, y: real, z: real)
    ensures var h := Hamilton(a, b, c, d, w, x, y, z);
            DcmOf(h.w, h.x, h.y, h.z)[1] == VecMul(DcmOf(a, b, c, d)[1], DcmOf(w, x, y, z), 3, 3)
  {
    var h := Hamilton(a, b, c, d, w, x, y, z);
    HamiltonTurns(a, b, c, d, w, x, y, z);
    FirstRow(a, c, d, b, w, y, z, x);
    DcmTurns(a, b, c, d);
    DcmTurns(h.w, h.x, h.y, h.z);
    DcmTurns(a, c, d, b);
    DcmTurns(h.w, h.y, h.z, h.x);
    RowTurns(DcmOf(a, b, c, d)[1], w, x, y, z);
    hide DcmOf, Hamilton, Row, VecMul;
    var v := VecMul(DcmOf(a, b, c, d)[1], DcmOf(w, x, y, z), 3, 3);
    var g := DcmOf(h.w, h.x, h.y, h.z)[1];
    assert [g[1], g[2], g[0]] == [v[1], v[2], v[0]];
  }

  lemma ThirdRow(a: real, b: real, c: real, d: real, w: real, x: real, y: real, z: real)
    ensures var h := Hamilton(a, b, c, d, w, x, y, z);
            DcmOf(h.w, h.x, h.y, h.z)[2] == VecMul(DcmOf(a, b, c, d)[2], DcmOf(w, x, y, z), 3, 3)
  {
    var h := Hamilton(a, b, c, d, w, x, y, z);
    HamiltonTurns(a, b, c, d, w, x, y, z);
    SecondRow(a, c, d, b, w, y, z, x);
    DcmTurns(a, b, c, d);
    DcmTurns(h.w, h.x, h.y, h.z);
    RowTurns(DcmOf(a, b, c, d)[2], w, x, y, z);
    hide DcmOf, Hamilton, Row, VecMul;
    var v := VecMul(DcmOf(a, b, c, d)[2], DcmOf(w, x, y, z), 3, 3);
    var g := DcmOf(h.w, h.x, h.y, h.z)[2];
    assert [g[1], g[2], g[0]] == [v[1], v[2], v[0]];
  }

  /** The rotation matrix of a product is the product of the rotation matrices. */
  lemma DcmMultiplies(p: Quat, q: Quat)
    ensures Dcm(Product(p, q)) == Mul(Dcm(p), Dcm(q), 3, 3, 3)
  {
    var h := Product(p, q);
    FirstRow(p.w, p.x, p.y, p.z, q.w, q.x, q.y, q.z);
    SecondRow(p.w, p.x, p.y, p.z, q.w, q.x, q.y, q.z);
    ThirdRow(p.w, p.x, p.y, p.z, q.w, q.x, q.y, q.z);
    DcmTurns(p.w, p.x, p.y, p.z);
    DcmTurns(h.w, h.x, h.y, h.z);
    MatEq(Dcm(h), Mul(Dcm(p), Dcm(q), 3, 3, 3), 3, 3);
    hide DcmOf, Hamilton, Row, VecMul;
  }

  /** The direction that a body at attitude q sees for the direction ref of the navigation frame. */
  function Seen(q: Quat, ref: Vec3): Vec3 {
    VecMul(ref, Dcm(q), 3, 3)
  }

  /** One component of a row (p, q, r) times the rotation matrix of (w, x, y, z). */
  lemma SeenEntry(p: real, q: real, r: real, w: real, x: real, y: real, z: real, a: real, c: real, e: real)
    requires a == w * w - (x * x + y * y + z * z) && c == q * z - r * y && e == 2.0 * (p * x + q * y + r * z)
    ensures Lin3(p, q, r, Diagonal(w, x, y, z), Twice(x, y, w, z), Twice(x, z, -w, y))
         == Lin3(a, 2.0 * w, e, p, c, x)
  {
  }

  /** A row times the rotation matrix, each component with the axes renamed to put it first. */
  lemma RowTimesDcm(p: Vec3, w: real, x: real, y: real, z: real)
    ensures var v := VecMul(p, DcmOf(w, x, y, z), 3, 3);
            && v[0] == Lin3(p[0], p[1], p[2], Diagonal(w, x, y, z), Twice(x, y, w, z), Twice(x, z, -w, y))
            && v[1] == Lin3(p[1], p[2], p[0], Diagonal(w, y, z, x), Twice(y, z, w, x), Twice(y, x, -w, z))
            && v[2] == Lin3(p[2], p[0], p[1], Diagonal(w, z, x, y), Twice(z, x, w, y), Twice(z, y, -w, x))
  {
    var n := DcmOf(w, x, y, z);
    Dot3(p, Col(n, 3, 3, 0));
    Dot3(p, Col(n, 3, 3, 1));
    Dot3(p, Col(n, 3, 3, 2));
    Lin3Turns(p[0], p[1], p[2], n[0][1], n[1][1], n[2][1]);
    Lin3Turns(p[2], p[0], p[1], n[2][2], n[0][2], n[1][2]);
    hide Lin3;
  }

  /** The same with the length of the vector part and its product with the row as terms of their own. */
  lemma RowTurned(p: Vec3, w: real, v: Vec3)
    ensures var u, c := VecMul(p, DcmOf(w, v[0], v[1], v[2]), 3, 3), Cross(p, v);
            var a, b, e := w * w - Dot(v, v), 2.0 * w, 2.0 * Dot(p, v);
            && u[0] == Lin3(a, b, e, p[0], c[0], v[0])
            && u[1] == Lin3(a, b, e, p[1], c[1], v[1])
            && u[2] == Lin3(a, b, e, p[2], c[2], v[2])
  {
    var (x, y, z, c) := (v[0], v[1], v[2], Cross(p, v));
    var (a, e) := (w * w - Dot(v, v), 2.0 * Dot(p, v));
    hide DcmOf, VecMul;
    RowTimesDcm(p, w, x, y, z);
    Dot3(v, v);
    Dot3(p, v);
    SeenEntry(p[0], p[1], p[2], w, x, y, z, a, c[0], e);
    SeenEntry(p[1], p[2], p[0], w, y, z, x, a, c[1], e);
    SeenEntry(p[2], p[0], p[1], w, z, x, y, a, c[2], e);
    hide Diagonal, Twice, Lin3, Dot, Cross;
  }

  lemma BlendEntry(a: real, u: Vec, b: real, v: Vec, c: real, w: Vec, j: nat)
    requires |u| == |v| == |w| == 3 && j < 3
    ensures Add(Add(Scale(a, u), Scale(b, v)), Scale(c, w))[j] == Lin3(a, b, c, u[j], v[j], w[j])
  {
  }

  /** Rodrigues' formula: (w, v) after q turns the direction p that q sees into
      (w^2 - |v|^2) p + 2 w (p x v) + 2 (p . v) v. */
  lemma SeenTurns(q: Quat, w: real, v: Vec3, ref: Vec3)
    ensures var p := Seen(q, ref);
            Seen(Product(q, Quat(w, v[0], v[1], v[2])), ref)
            == Add(Add(Scale(w * w - Dot(v, v), p), Scale(2.0 * w, Cross(p, v))), Scale(2.0 * Dot(p, v), v))
  {
    var d := Quat(w, v[0], v[1], v[2]);
    var p := Seen(q, ref);
    DcmMultiplies(q, d);
    VecMulMul(ref, Dcm(q), Dcm(d), 3, 3, 3);
    RowTurned(p, w, v);
    hide Lin3, Dot, DcmOf, Mul, VecMul, Cross, Product, Add, Scale;
    var turned := Add(Add(Scale(w * w - Dot(v, v), p), Scale(2.0 * w, Cross(p, v))), Scale(2.0 * Dot(p, v), v));
    forall j | 0 <= j < 3
      ensures Seen(Product(q, d), ref)[j] == turned[j]
    {
      BlendEntry(w * w - Dot(v, v), p, 2.0 * w, Cross(p, v), 2.0 * Dot(p, v), v, j);
    }
  }

  lemma JacobianActs(p: Vec3, dx: Vec)
    requires |dx| == 6
    ensures MulVec(Jacobian(p), 3, 6, dx) == Cross(p, dx[..3])
  {
    var h, c := Jacobian(p), Cross(p, dx[..3]);
    Dot6(h[0], dx);
    Dot6(h[1], dx);
    Dot6(h[2], dx);
    forall i | 0 <= i < 3
      ensures MulVec(h, 3, 6, dx)[i] == c[i]
    {
    }
  }

  /** What turning by d adds beyond the linear term. */
  function SecondOrder(p: Vec3, d: Vec3): Vec3 {
    Sub(Scale(0.5 * Dot(p, d), d), Scale(0.25 * Dot(d, d), p))
  }

  function SecondTerm(a: real, b: real, d: real, p: real): real {
    0.5 * a * d - 0.25 * b * p
  }

  lemma SecondOrderEntry(p: Vec3, d: Vec3, i: nat)
    requires i < 3
    ensures SecondOrder(p, d)[i] == SecondTerm(Dot(p, d), Dot(d, d), d[i], p[i])
  {
  }

  lemma ScaleScale(a: real, b: real, u: Vec, c: real)
    requires c == a * b
    ensures Scale(a, Scale(b, u)) == Scale(c, u)
  {
    forall i | 0 <= i < |u|
      ensures Scale(a, Scale(b, u))[i] == Scale(c, u)[i]
    {
      assert a * (b * u[i]) == (a * b) * u[i];
    }
  }

  lemma ScaleSub(a: real, u: Vec, v: Vec)
    requires |u| == |v|
    ensures Scale(a, Sub(u, v)) == Sub(Scale(a, u), Scale(a, v))
  {
    forall i | 0 <= i < |u|
      ensures Scale(a, Sub(u, v))[i] == Sub(Scale(a, u), Scale(a, v))[i]
    {
      assert a * (u[i] - v[i]) == a * u[i] - a * v[i];
    }
  }

  lemma SecondDegree(t: real, a: real, a': real, b: real, c: real, b': real)
    requires a' == t * a && c == t * b && b' == t * c
    ensures (0.5 * a') * t == (t * t) * (0.5 * a) && 0.25 * b' == (t * t) * (0.25 * b)
  {
  }

  /** It is homogeneous of degree two in d. */
  lemma SecondOrderScales(p: Vec3, d: Vec3, t: real)
    ensures SecondOrder(p, Scale(t, d)) == Scale(t * t, SecondOrder(p, d))
  {
    var e := Scale(t, d);
    var (a, b, c, a', b') := (Dot(p, d), Dot(d, d), Dot(d, e), Dot(p, e), Dot(e, e));
    DotScaled(t, d, p);
    DotScaled(t, d, e);
    DotScaled(t, d, d);
    var (f, g) := ((t * t) * (0.5 * a), (t * t) * (0.25 * b));
    SecondDegree(t, a, a', b, c, b');
    ScaleScale(0.5 * a', t, d, f);
    ScaleScale(t * t, 0.5 * a, d, f);
    ScaleScale(t * t, 0.25 * b, p, g);
    ScaleSub(t * t, Scale(0.5 * a, d), Scale(0.25 * b, p));
    hide Dot, Scale, Sub;
  }

  lemma HalfTerms(a: real, b: real, c: real, d: real, p: real)
    ensures Lin3(1.0 * 1.0 - 0.5 * (0.5 * b), 2.0 * 1.0, 2.0 * (0.5 * a), p, 0.5 * c, 0.5 * d)
         == p + c + SecondTerm(a, b, d, p)
  {
  }

  lemma ScaledMinor(a: real, b: real, x: real, y: real, t: real, x': real, y': real)
    requires x' == t * x && y' == t * y
    ensures Minor(a, b, x', y') == t * Minor(a, b, x, y)
  {
  }

  lemma CrossScaled(p: Vec3, d: Vec3, t: real)
    ensures Cross(p, Scale(t, d)) == Scale(t, Cross(p, d))
  {
    var e := Scale(t, d);
    hide Minor;
    ScaledMinor(p[1], p[2], d[1], d[2], t, e[1], e[2]);
    ScaledMinor(p[2], p[0], d[2], d[0], t, e[2], e[0]);
    ScaledMinor(p[0], p[1], d[0], d[1], t, e[0], e[1]);
    var c', f := Cross(p, e), Scale(t, Cross(p, d));
    assert c'[0] == f[0];
    assert c'[1] == f[1];
    assert c'[2] == f[2];
  }

  /** H is the derivative of the predicted direction at d = 0: turning q by (1, d / 2) predicts
      p + H d plus terms of second degree in d, for gravity and for the magnetic field alike. */
  lemma JacobianIsDerivative(q: Quat, ref: Vec3, dx: Vec)
    requires |dx| == 6
    ensures var p, d := Seen(q, ref), dx[..3];
            Seen(Product(q, Quat(1.0, 0.5 * d[0], 0.5 * d[1], 0.5 * d[2])), ref)
            == Add(Add(p, MulVec(Jacobian(p), 3, 6, dx)), SecondOrder(p, d))
  {
    var p, d: Vec3 := Seen(q, ref), dx[..3];
    var v := Scale(0.5, d);
    SeenTurns(q, 1.0, v, ref);
    JacobianActs(p, dx);
    CrossScaled(p, d, 0.5);
    DotScaled(0.5, d, p);
    DotScaled(0.5, d, v);
    DotScaled(0.5, d, d);
    hide Seen, Product, MulVec, Dot, Jacobian, Cross;
    var turned := Seen(Product(q, Quat(1.0, v[0], v[1], v[2])), ref);
    forall i | 0 <= i < 3
      ensures turned[i] == Add(Add(p, Cross(p, d)), SecondOrder(p, d))[i]
    {
      BlendEntry(1.0 * 1.0 - Dot(v, v), p, 2.0 * 1.0, Cross(p, v), 2.0 * Dot(p, v), v, i);
      HalfTerms(Dot(p, d), Dot(d, d), Cross(p, d)[i], d[i], p[i]);
      SecondOrderEntry(p, d, i);
      hide Lin3, SecondTerm, SecondOrder;
    }
  }
}
