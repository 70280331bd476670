/** What one step of the filter does to its state: prediction turns the attitude by the rate without its
    bias and carries the errors along, and a correction takes the least-squares error estimate. */
module AhrsEstimate {
  import opened LinearAlgebra
  import opened Covariance
  import opened Joseph
  import opened Quaternion
  import opened AhrsModel

  function Cross(u: Vec3, v: Vec3): Vec3 {
    [Minor(u[1], u[2], v[1], v[2]), Minor(u[2], u[0], v[2], v[0]), Minor(u[0], u[1], v[0], v[1])]
  }

  // ----- prediction

  lemma RootOfOne(x: real)
    requires x >= 0.0 && x * x == 1.0
    ensures x == 1.0
  {
    RootAtLeastOne(x, 1.0);
    ScaleUp(x, x, 1.0);
  }

  lemma NormalizeUnitQuat(m: Libm, q: Quat)
    requires Sound(m) && IsUnit(q)
    ensures Normalize(m, q) == q
  {
    RootOfOne(m.sqrt(NormSq(q)));
  }

  lemma NormalizeScales(m: Libm, q: Quat) returns (a: real)
    requires m.sqrt(NormSq(q)) > 0.00000001
    ensures a > 0.0 && Normalize(m, q) == ScaleQuat(a, q)
  {
    a := 1.0 / m.sqrt(NormSq(q));
  }

  /** The quaternion (1, w dt / 2). */
  function HalfTurn(w: Vec3, dt: real): Quat {
    Quat(1.0, w[0] * (0.5 * dt), w[1] * (0.5 * dt), w[2] * (0.5 * dt))
  }

  lemma EulerWith(a: real, b: real, c: real, d: real, x: real, y: real, z: real, dt: real, u: Quat)
    requires u.w == 1.0 && u.x == x * (0.5 * dt) && u.y == y * (0.5 * dt) && u.z == z * (0.5 * dt)
    ensures Euler(a, b, c, d, x, y, z, dt) == Hamilton(a, b, c, d, u.w, u.x, u.y, u.z)
  {
    EulerIsProduct(a, b, c, d, x, y, z, dt);
    hide *;
    assert Hamilton(a, b, c, d, 1.0, x * (0.5 * dt), y * (0.5 * dt), z * (0.5 * dt))
        == Hamilton(a, b, c, d, u.w, u.x, u.y, u.z);
  }

  lemma IntegrateIsProduct(q: Quat, w: Vec3, dt: real)
    ensures Integrate(q, w, dt) == Product(q, HalfTurn(w, dt))
  {
    EulerWith(q.w, q.x, q.y, q.z, w[0], w[1], w[2], dt, HalfTurn(w, dt));
    hide Euler, Hamilton;
  }

  /** The predicted attitude is the product with (1, (gyro - bias) dt / 2), scaled to length 1. */
  lemma PredictTurns(m: Libm, s: Filter, gyro: Vec3, dt: real) returns (a: real)
    requires Sound(m) && IsUnit(s.q)
    ensures a > 0.0 && IsUnit(Predict(m, s, gyro, dt).q)
    ensures var w := [gyro[0] - s.bias[0], gyro[1] - s.bias[1], gyro[2] - s.bias[2]];
            Predict(m, s, gyro, dt).q == ScaleQuat(a, Product(s.q, HalfTurn(w, dt)))
  {
    var w := Sub(gyro, s.bias);
    assert w == [gyro[0] - s.bias[0], gyro[1] - s.bias[1], gyro[2] - s.bias[2]];
    hide Integrate, Product, ScaleQuat, Normalize, NormSq, NextCov, Sound, HalfTurn;
    IntegrateUnit(m, s.q, w, dt);
    IntegrateIsProduct(s.q, w, dt);
    a := NormalizeScales(m, Integrate(s.q, w, dt));
  }

  /** A gyro at rest shows its bias, and then the attitude stays. */
  lemma RestKeepsAttitude(m: Libm, s: Filter, dt: real)
    requires Sound(m) && IsUnit(s.q)
    ensures Predict(m, s, s.bias, dt).q == s.q
  {
    var w := Sub(s.bias, s.bias);
    assert w == [0.0, 0.0, 0.0];
    assert Integrate(s.q, w, dt) == s.q;
    NormalizeUnitQuat(m, s.q);
  }

  lemma {:induction false} Dot6(u: Vec, v: Vec)
    requires |u| == |v| == 6
    ensures Dot(u, v) == Lin3(u[0], u[1], u[2], v[0], v[1], v[2]) + Lin3(u[3], u[4], u[5], v[3], v[4], v[5])
  {
    assert DotUpTo(u, v, 1) == u[0] * v[0];
    assert DotUpTo(u, v, 2) == DotUpTo(u, v, 1) + u[1] * v[1];
    assert DotUpTo(u, v, 3) == DotUpTo(u, v, 2) + u[2] * v[2];
    assert DotUpTo(u, v, 4) == DotUpTo(u, v, 3) + u[3] * v[3];
    assert DotUpTo(u, v, 5) == DotUpTo(u, v, 4) + u[4] * v[4];
  }

  /** F, for the rates (x, y, z) times dt. */
  function Stepped(x: real, y: real, z: real, dt: real): Mat {
    [[1.0, z, -y, -dt, 0.0, 0.0],
     [-z, 1.0, x, 0.0, -dt, 0.0],
     [y, -x, 1.0, 0.0, 0.0, -dt],
     [0.0, 0.0, 0.0, 1.0, 0.0, 0.0],
     [0.0, 0.0, 0.0, 0.0, 1.0, 0.0],
     [0.0, 0.0, 0.0, 0.0, 0.0, 1.0]]
  }

  lemma SignedProducts(a: real, dt: real)
    ensures 1.0 - 0.0 * dt == 1.0 && 0.0 - (-a) * dt == a * dt && 0.0 - a * dt == -(a * dt)
  {
  }

  lemma TransitionRows(w: Vec3, dt: real)
    ensures Transition(w, dt) == Stepped(w[0] * dt, w[1] * dt, w[2] * dt, dt)
  {
    var f, rows := Transition(w, dt), Stepped(w[0] * dt, w[1] * dt, w[2] * dt, dt);
    SignedProducts(w[0], dt);
    SignedProducts(w[1], dt);
    SignedProducts(w[2], dt);
    forall i, j | 0 <= i < 6 && 0 <= j < 6
      ensures f[i][j] == rows[i][j]
    {
      assert f[i][j] == TransitionEntry(w, dt, i, j);
    }
    MatEq(f, rows, 6, 6);
  }

  lemma SteppedActs(x: real, y: real, z: real, dt: real, v: Vec)
    requires |v| == 6
    ensures var v' := MulVec(Stepped(x, y, z, dt), 6, 6, v);
            && v'[0] == v[0] - Minor(y, z, v[1], v[2]) - Times(dt, v[3])
            && v'[1] == v[1] - Minor(z, x, v[2], v[0]) - Times(dt, v[4])
            && v'[2] == v[2] - Minor(x, y, v[0], v[1]) - Times(dt, v[5])
            && v'[3..] == v[3..]
  {
    var f := Stepped(x, y, z, dt);
    Dot6(f[0], v);
    Dot6(f[1], v);
    Dot6(f[2], v);
    Dot6(f[3], v);
    Dot6(f[4], v);
    Dot6(f[5], v);
  }

  lemma SteppedTransposed(x: real, y: real, z: real, dt: real, v: Vec)
    requires |v| == 6
    ensures var v' := VecMul(v, Stepped(x, y, z, dt), 6, 6);
            && v'[0] == v[0] + Minor(y, z, v[1], v[2]) && v'[3] == v[3] - Times(dt, v[0])
            && v'[1] == v[1] + Minor(z, x, v[2], v[0]) && v'[4] == v[4] - Times(dt, v[1])
            && v'[2] == v[2] + Minor(x, y, v[0], v[1]) && v'[5] == v[5] - Times(dt, v[2])
  {
    var f := Stepped(x, y, z, dt);
    Dot6(v, Col(f, 6, 6, 0));
    Dot6(v, Col(f, 6, 6, 1));
    Dot6(v, Col(f, 6, 6, 2));
    Dot6(v, Col(f, 6, 6, 3));
    Dot6(v, Col(f, 6, 6, 4));
    Dot6(v, Col(f, 6, 6, 5));
  }

  lemma CrossTerm(u: real, v: real, x: real, y: real, dt: real)
    ensures dt * Minor(u, v, x, y) == Minor(u * dt, v * dt, x, y)
  {
  }

  /** dt (w x a), with dt taken into w. */
  lemma CrossTerms(w: Vec3, a: Vec3, dt: real)
    ensures var (x, y, z) := (w[0] * dt, w[1] * dt, w[2] * dt);
            var c := Scale(dt, Cross(w, a));
            c[0] == Minor(y, z, a[1], a[2]) && c[1] == Minor(z, x, a[2], a[0]) && c[2] == Minor(x, y, a[0], a[1])
  {
    CrossTerm(w[1], w[2], a[1], a[2], dt);
    CrossTerm(w[2], w[0], a[2], a[0], dt);
    CrossTerm(w[0], w[1], a[0], a[1], dt);
    hide Minor;
  }

  lemma ScaleTerms(a: real, v: Vec3)
    ensures var u := Scale(a, v); u[0] == Times(a, v[0]) && u[1] == Times(a, v[1]) && u[2] == Times(a, v[2])
  {
  }

  /** F carries an attitude error a and a bias error b to (a - dt (w x a) - dt b, b). */
  lemma TransitionActs(w: Vec3, dt: real, x: Vec)
    requires |x| == 6
    ensures var a, b := x[..3], x[3..];
            MulVec(Transition(w, dt), 6, 6, x) == Sub(Sub(a, Scale(dt, Cross(w, a))), Scale(dt, b)) + b
  {
    var a, b := x[..3], x[3..];
    TransitionRows(w, dt);
    CrossTerms(w, a, dt);
    SteppedActs(w[0] * dt, w[1] * dt, w[2] * dt, dt, x);
    ScaleTerms(dt, b);
    hide Stepped, Cross, MulVec, Transition, Minor, Times, Scale;
    var x', image := MulVec(Transition(w, dt), 6, 6, x), Sub(Sub(a, Scale(dt, Cross(w, a))), Scale(dt, b));
    assert x'[0] == image[0];
    assert x'[1] == image[1];
    assert x'[2] == image[2];
  }

  /** Its transpose carries (a, b) to (a + dt (w x a), b - dt a). */
  lemma TransitionTransposed(w: Vec3, dt: real, x: Vec)
    requires |x| == 6
    ensures var a, b := x[..3], x[3..];
            VecMul(x, Transition(w, dt), 6, 6) == Add(a, Scale(dt, Cross(w, a))) + Sub(b, Scale(dt, a))
  {
    var a, b := x[..3], x[3..];
    TransitionRows(w, dt);
    CrossTerms(w, a, dt);
    SteppedTransposed(w[0] * dt, w[1] * dt, w[2] * dt, dt, x);
    ScaleTerms(dt, a);
    hide Stepped, Cross, VecMul, Transition, Minor, Times, Scale;
    var x', image := VecMul(x, Transition(w, dt), 6, 6), Add(a, Scale(dt, Cross(w, a))) + Sub(b, Scale(dt, a));
    assert x'[0] == image[0] && x'[3] == image[3];
    assert x'[1] == image[1] && x'[4] == image[4];
    assert x'[2] == image[2] && x'[5] == image[5];
  }

  /** Every variance after a prediction: that of the error carried back through F, plus gyro noise on the
      attitude and random walk on the bias. */
  lemma PredictVariance(m: Libm, s: Filter, gyro: Vec3, dt: real, x: Vec)
    requires |x| == 6
    ensures var a, b, w := x[..3], x[3..], Sub(gyro, s.bias);
            var back := Add(a, Scale(dt, Cross(w, a))) + Sub(b, Scale(dt, a));
            Form(Predict(m, s, gyro, dt).cov, 6, x, x)
            == Form(s.cov, 6, back, back) + (0.0001 * (dt * dt) * Dot(a, a) + 0.000001 * dt * Dot(b, b))
  {
    var w := Sub(gyro, s.bias);
    var f := Transition(w, dt);
    MulTransposed(Mul(f, s.cov, 6, 6, 6), f, 6, 6, 6);
    AddDiagForm(MulT(Mul(f, s.cov, 6, 6, 6), f, 6, 6, 6), 6, ProcessNoise(dt), x);
    SandwichForm(f, s.cov, 6, 6, x);
    TransitionTransposed(w, dt, x);
    NoiseForm(dt, x);
    hide Form, Transition, Mul, MulT, ProcessNoise, VecMul, Cross, Dot, Add, Sub, Scale, AddDiag;
  }

  lemma NoiseTerms(g: real, x: real, y: real, z: real, square: real)
    requires square == Lin3(x, y, z, x, y, z)
    ensures Lin3(x, y, z, g * x, g * y, g * z) == g * square
  {
  }

  lemma NoiseEntries(dt: real, i: nat)
    requires i < 6
    ensures ProcessNoise(dt)[i] == if i < 3 then 0.0001 * (dt * dt) else 0.000001 * dt
  {
  }

  lemma NoiseForm(dt: real, x: Vec)
    requires |x| == 6
    ensures Dot(x, Weighted(ProcessNoise(dt), x))
         == 0.0001 * (dt * dt) * Dot(x[..3], x[..3]) + 0.000001 * dt * Dot(x[3..], x[3..])
  {
    var g, b := 0.0001 * (dt * dt), 0.000001 * dt;
    var d: Vec := [g, g, g, b, b, b];
    forall i | 0 <= i < 6
      ensures ProcessNoise(dt)[i] == d[i]
    {
      NoiseEntries(dt, i);
    }
    assert ProcessNoise(dt) == d;
    Dot6(x, Weighted(d, x));
    Dot3(x[..3], x[..3]);
    Dot3(x[3..], x[3..]);
    NoiseTerms(g, x[0], x[1], x[2], Dot(x[..3], x[..3]));
    NoiseTerms(b, x[3], x[4], x[5], Dot(x[3..], x[3..]));
    hide Lin3, Dot;
  }

  lemma InitForm(att: real, bias: real, x: Vec)
    requires |x| == 6
    ensures Form(InitCov(att, bias), 6, x, x) == att * Dot(x[..3], x[..3]) + bias * Dot(x[3..], x[3..])
  {
    var z: Mat := seq(6, _ => Zero(6));
    var d: Vec := [att, att, att, bias, bias, bias];
    AddDiagForm(z, 6, d, x);
    forall i | 0 <= i < 6
      ensures MulVec(z, 6, 6, x)[i] == 0.0
    {
      DotZero(z[i], x, 6);
    }
    DotZero(MulVec(z, 6, 6, x), x, 6);
    DotComm(MulVec(z, 6, 6, x), x);
    Dot6(x, Weighted(d, x));
    Dot3(x[..3], x[..3]);
    Dot3(x[3..], x[3..]);
    NoiseTerms(att, x[0], x[1], x[2], Dot(x[..3], x[..3]));
    NoiseTerms(bias, x[3], x[4], x[5], Dot(x[3..], x[3..]));
    hide Lin3, Dot;
  }

  /** At the start the body is level and faces north, no bias is known, and the standard deviations are ten
      degrees for each angle and one degree per second for each bias. */
  lemma StartsLevel(x: Vec)
    requires |x| == 6
    ensures var degree := 3.14159265358979 / 180.0;
            && Dcm(Init().q) == [[1.0, 0.0, 0.0], [0.0, 1.0, 0.0], [0.0, 0.0, 1.0]]
            && Init().bias == [0.0, 0.0, 0.0] && Init().magRef == Unset
            && Form(Init().cov, 6, x, x)
               == (100.0 * (degree * degree)) * Dot(x[..3], x[..3]) + (degree * degree) * Dot(x[3..], x[3..])
  {
    InitForm(ATT_VAR, BIAS_VAR, x);
    hide Form, Dot, InitCov;
  }


  // ----- correction

  lemma CrossMatrix(p: Mat, h: Mat)
    requires IsMat(p, 6, 6) && IsMat(h, 3, 6)
    ensures MulT(Mul(h, p, 3, 6, 6), h, 3, 6, 3) == Mul(h, MulT(p, h, 6, 6, 3), 3, 6, 3)
  {
    var pht := MulT(p, h, 6, 6, 3);
    forall i, j | 0 <= i < 3 && 0 <= j < 3
      ensures MulT(Mul(h, p, 3, 6, 6), h, 3, 6, 3)[i][j] == Mul(h, pht, 3, 6, 3)[i][j]
    {
      SandwichEntry(h, p, 3, 6, i, j);
      ColumnOfCross(p, h, j);
    }
    MatEq(MulT(Mul(h, p, 3, 6, 6), h, 3, 6, 3), Mul(h, pht, 3, 6, 3), 3, 3);
  }

  lemma ColumnOfCross(p: Mat, h: Mat, j: nat)
    requires IsMat(p, 6, 6) && IsMat(h, 3, 6) && j < 3
    ensures Col(MulT(p, h, 6, 6, 3), 6, 3, j) == MulVec(p, 6, 6, h[j])
  {
    forall i | 0 <= i < 6
      ensures Dot(h[j], p[i]) == Dot(p[i], h[j])
    {
      DotComm(h[j], p[i]);
    }
  }

  /** S w is H P H' w + r w. */
  lemma InnovationActs(p: Mat, h: Mat, r: real, w: Vec)
    requires IsMat(p, 6, 6) && IsMat(h, 3, 6) && |w| == 3
    ensures MulVec(Innovation(p, h, r), 3, 3, w)
         == Add(MulVec(h, 3, 6, MulVec(MulT(p, h, 6, 6, 3), 6, 3, w)), Scale(r, w))
  {
    var hph := MulT(Mul(h, p, 3, 6, 6), h, 3, 6, 3);
    AddDiagActs(hph, 3, [r, r, r], w);
    CrossMatrix(p, h);
    MulActs(h, MulT(p, h, 6, 6, 3), 3, 6, 3, w);
    forall i | 0 <= i < 3
      ensures Weighted([r, r, r], w)[i] == Scale(r, w)[i]
    {
    }
    assert Weighted([r, r, r], w) == Scale(r, w);
    assert Scale(1.0, Scale(r, w)) == Scale(r, w);
  }

  /** (P H') w is P (H' w). */
  lemma CrossActs(p: Mat, h: Mat, w: Vec)
    requires IsMat(p, 6, 6) && IsMat(h, 3, 6) && |w| == 3
    ensures MulVec(MulT(p, h, 6, 6, 3), 6, 3, w) == MulVec(p, 6, 6, VecMul(w, h, 3, 6))
  {
    MulTransposed(p, h, 6, 6, 3);
    MulActs(p, Transpose(h, 3, 6), 6, 6, 3, w);
    TransposeMul(w, h, 3, 6);
  }

  /** With S w = y the estimate K y is dx = P H' w, and what is left of the innovation is r w. */
  lemma GainSolves(p: Mat, h: Mat, r: real, y: Vec) returns (w: Vec)
    requires IsMat(p, 6, 6) && IsMat(h, 3, 6) && |y| == 3 && Det(Innovation(p, h, r)) != 0.0
    ensures |w| == 3 && MulVec(Innovation(p, h, r), 3, 3, w) == y
    ensures MulVec(Gain(p, h, r), 6, 3, y) == MulVec(p, 6, 6, VecMul(w, h, 3, 6))
    ensures Sub(y, MulVec(h, 3, 6, MulVec(p, 6, 6, VecMul(w, h, 3, 6)))) == Scale(r, w)
  {
    var si := Cramer(Innovation(p, h, r));
    w := MulVec(si, 3, 3, y);
    SolveInnovation(p, h, r, y);
    MulActs(MulT(p, h, 6, 6, 3), si, 6, 3, 3, y);
    CrossActs(p, h, w);
    InnovationActs(p, h, r, w);
  }

  /** r times the weighted squared error of the estimate P xi: what it departs from the prior, weighted
      by the inverse of P, and what it leaves of the innovation, weighted by 1 / r. */
  function Cost(p: Mat, h: Mat, r: real, y: Vec, xi: Vec): real
    requires IsMat(p, 6, 6) && IsMat(h, 3, 6) && |y| == 3 && |xi| == 6
  {
    var left := Left(p, h, y, xi);
    r * Form(p, 6, xi, xi) + Dot(left, left)
  }

  /** What the estimate P xi leaves of the innovation. */
  function Left(p: Mat, h: Mat, y: Vec, xi: Vec): (v: Vec)
    requires IsMat(p, 6, 6) && IsMat(h, 3, 6) && |y| == 3 && |xi| == 6
  {
    Sub(y, MulVec(h, 3, 6, MulVec(p, 6, 6, xi)))
  }

  lemma DotSquare(u: Vec, v: Vec)
    requires |u| == |v|
    ensures Dot(Sub(u, v), Sub(u, v)) == Dot(u, u) - 2.0 * Dot(u, v) + Dot(v, v)
  {
    DotSub(u, v, Sub(u, v));
    DotSub(u, v, u);
    DotSub(u, v, v);
    DotComm(u, v);
  }

  lemma DotScaled(r: real, u: Vec, v: Vec)
    requires |u| == |v|
    ensures Dot(Scale(r, u), v) == r * Dot(u, v) && Dot(v, Scale(r, u)) == r * Dot(v, u)
  {
    var z := Zero(|u|);
    DotZero(z, v, |u|);
    DotComm(z, v);
    DotLinear(r, z, u, v);
    assert Add(z, Scale(r, u)) == Scale(r, u);
  }

  lemma DotScaledTo(r: real, u: Vec, v: Vec, d: real)
    requires |u| == |v| && Dot(u, v) == d
    ensures Dot(Scale(r, u), v) == r * d
  {
    DotScaled(r, u, v);
  }

  /** A step e away from xi takes H P e off what is left. */
  lemma LeftStep(p: Mat, h: Mat, y: Vec, xi: Vec, other: Vec)
    requires IsMat(p, 6, 6) && IsMat(h, 3, 6) && |y| == 3 && |xi| == |other| == 6
    ensures Left(p, h, y, other)
         == Sub(Left(p, h, y, xi), MulVec(h, 3, 6, MulVec(p, 6, 6, Sub(other, xi))))
  {
    var e := Sub(other, xi);
    assert Add(xi, Scale(1.0, e)) == other;
    MulVecLinear(p, 6, 6, 1.0, xi, e);
    MulVecLinear(h, 3, 6, 1.0, MulVec(p, 6, 6, xi), MulVec(p, 6, 6, e));
  }

  /** The form at xi and at another point. */
  lemma FormStep(p: Mat, xi: Vec, other: Vec)
    requires Symmetric(p, 6) && |xi| == |other| == 6
    ensures var e := Sub(other, xi);
            Form(p, 6, other, other) == Form(p, 6, xi, xi) + 2.0 * Form(p, 6, xi, e) + Form(p, 6, e, e)
  {
    FormSquare(p, 6, other, xi);
    FormSymmetric(p, 6, other, xi);
    MulVecLinear(p, 6, 6, -1.0, other, xi);
    assert Sub(other, xi) == Add(other, Scale(-1.0, xi));
    DotLinear(-1.0, MulVec(p, 6, 6, other), MulVec(p, 6, 6, xi), xi);
  }

  lemma CostTerms(r: real, f: real, cross: real, fe: real, other: real, l: real, lh: real, hh: real, lo: real)
    requires other == f + 2.0 * cross + fe && lh == r * cross && lo == l - 2.0 * lh + hh
    ensures r * other + lo == (r * f + l) + r * fe + hh
  {
  }

  /** The filter's estimate is the least-squares one: any other costs more by r e . P e + |H P e|^2. */
  lemma LeastSquares(p: Mat, h: Mat, r: real, y: Vec, w: Vec, other: Vec)
    requires Symmetric(p, 6) && Psd(p, 6) && IsMat(h, 3, 6) && r > 0.0 && |y| == |w| == 3 && |other| == 6
    requires Left(p, h, y, VecMul(w, h, 3, 6)) == Scale(r, w)
    ensures var xi := VecMul(w, h, 3, 6);
            var e := Sub(other, xi);
            var he := MulVec(h, 3, 6, MulVec(p, 6, 6, e));
            Cost(p, h, r, y, other) == Cost(p, h, r, y, xi) + r * Form(p, 6, e, e) + Dot(he, he)
    ensures Cost(p, h, r, y, VecMul(w, h, 3, 6)) <= Cost(p, h, r, y, other)
  {
    var xi := VecMul(w, h, 3, 6);
    var e := Sub(other, xi);
    var pe := MulVec(p, 6, 6, e);
    var he := MulVec(h, 3, 6, pe);
    LeftStep(p, h, y, xi, other);
    DotSquare(Left(p, h, y, xi), he);
    Adjoint(w, h, 3, 6, pe);
    var cross := Form(p, 6, xi, e);
    DotScaledTo(r, w, he, cross);
    FormStep(p, xi, other);
    var left, left' := Left(p, h, y, xi), Left(p, h, y, other);
    CostTerms(r, Form(p, 6, xi, xi), cross, Form(p, 6, e, e), Form(p, 6, other, other),
              Dot(left, left), Dot(left, he), Dot(he, he), Dot(left', left'));
    DotSelf(he);
    ScaleUp(r, Form(p, 6, e, e), 0.0);
    hide Form, Dot, Left, MulVec, VecMul, Sub;
  }

  /** The correction turns and shifts the state by dx = P H' w with S w = y, leaves r w of the innovation,
      and gives the covariance of the Joseph form. */
  ghost predicate Corrects(m: Libm, s: Filter, t: Filter, h: Mat, y: Vec3, r: real, w: Vec, dx: Vec)
    requires IsMat(h, 3, 6) && Det(Innovation(s.cov, h, r)) != 0.0
  {
    && |w| == 3 && |dx| == 6
    && MulVec(Innovation(s.cov, h, r), 3, 3, w) == y
    && dx == MulVec(s.cov, 6, 6, VecMul(w, h, 3, 6))
    && Sub(y, MulVec(h, 3, 6, dx)) == Scale(r, w)
    && t.q == Turn(m, s.q, dx[..3]) && t.bias == Add(s.bias, dx[3..]) && t.magRef == s.magRef
    && t.cov == JosephCov(s.cov, h, r)
  }

  lemma KalmanCorrects(m: Libm, s: Filter, h: Mat, y: Vec3, r: real) returns (w: Vec, dx: Vec)
    requires Sound(m) && Inv(s) && IsMat(h, 3, 6) && r >= 0.09
    ensures Det(Innovation(s.cov, h, r)) != 0.0
    ensures Corrects(m, s, Kalman(m, s, h, y, r), h, y, r, w, dx)
  {
    KalmanInv(m, s, h, y, r);
    JosephIdentity(s.cov, h, r);
    w := GainSolves(s.cov, h, r, y);
    dx := MulVec(Gain(s.cov, h, r), 6, 3, y);
  }

  /** What a correction leaves of the innovation is no longer than the innovation. */
  lemma ResidualShrinks(p: Mat, h: Mat, r: real, y: Vec, w: Vec)
    requires Symmetric(p, 6) && Psd(p, 6) && IsMat(h, 3, 6) && r > 0.0 && |y| == |w| == 3
    requires MulVec(Innovation(p, h, r), 3, 3, w) == y
    ensures Dot(Scale(r, w), Scale(r, w)) <= Dot(y, y)
  {
    InnovationForm(p, h, r, w);
    assert |VecMul(w, h, 3, 6)| == 6;
    var rw := Scale(r, w);
    DotSquare(y, rw);
    DotSelf(Sub(y, rw));
    DotScaled(r, w, y);
    DotComm(w, y);
    DotScaled(r, w, rw);
    DotScaled(r, w, w);
    ScaleUp(r, Dot(w, y), r * Dot(w, w));
  }
}
