/** What the two sensors mean to the filter: each correction turns the state from the predicted direction
    towards the measured one. */
module AhrsMeaning {
  import opened LinearAlgebra
  import opened Covariance
  import opened Joseph
  import opened Quaternion
  import opened AhrsModel
  import opened AhrsEstimate
  import opened AhrsDirection

  lemma TurnIsProduct(m: Libm, q: Quat, d: Vec3)
    requires Sound(m) && IsUnit(q)
    ensures Turn(m, q, d) == Product(q, SmallAngle(m, d))
  {
    SmallAngleUnit(m, d);
    ProductNorm(q, SmallAngle(m, d));
    NormalizeUnitQuat(m, Product(q, SmallAngle(m, d)));
  }

  /** The length of d. */
  function Length(m: Libm, d: Vec3): real {
    m.sqrt(d[0] * d[0] + d[1] * d[1] + d[2] * d[2])
  }

  lemma SmallAngleAlong(m: Libm, d: Vec3, c: real, s: real)
    requires Length(m, d) >= 0.00000001
    requires c == m.cos(0.5 * Length(m, d)) && s == m.sin(0.5 * Length(m, d)) / Length(m, d)
    ensures var v := Scale(s, d); SmallAngle(m, d) == Quat(c, v[0], v[1], v[2])
  {
  }

  /** The turn the filter applies is the small-angle quaternion itself, whose vector part lies along d: with
      the cosine and the sine of half the length, what q sees turns by Rodrigues' formula. */
  lemma TurnActs(m: Libm, q: Quat, d: Vec3, ref: Vec3, c: real, s: real)
    requires Sound(m) && IsUnit(q) && Length(m, d) >= 0.00000001
    requires c == m.cos(0.5 * Length(m, d)) && s == m.sin(0.5 * Length(m, d)) / Length(m, d)
    ensures var p, v := Seen(q, ref), Scale(s, d);
            Seen(Turn(m, q, d), ref)
            == Add(Add(Scale(c * c - Dot(v, v), p), Scale(2.0 * c, Cross(p, v))), Scale(2.0 * Dot(p, v), v))
  {
    hide Seen, Turn, Product, Dot, SmallAngle, Sound, NormSq, Cross;
    TurnIsProduct(m, q, d);
    SmallAngleAlong(m, d, c, s);
    SeenTurns(q, c, Scale(s, d), ref);
  }

  /** Shorter estimates are dropped. */
  lemma TurnStays(m: Libm, q: Quat, d: Vec3)
    requires Sound(m) && IsUnit(q) && Length(m, d) < 0.00000001
    ensures Turn(m, q, d) == q
  {
    TurnIsProduct(m, q, d);
    assert Product(q, Quat(1.0, 0.0, 0.0, 0.0)) == q;
  }

  /** Gravity as the body sees it is the third row of the rotation matrix. */
  lemma SeenGravity(q: Quat)
    ensures Seen(q, [0.0, 0.0, 1.0]) == Dcm(q)[2]
  {
    var r, down := Dcm(q), [0.0, 0.0, 1.0];
    forall j | 0 <= j < 3
      ensures Dot(down, Col(r, 3, 3, j)) == r[2][j]
    {
      Dot3(down, Col(r, 3, 3, j));
    }
  }

  /** t is s corrected from the predicted direction p towards the measured u, with H = [ [p]x | 0 ]; the
      estimate explains the innovation u - p up to r w, which is never longer than the innovation. */
  ghost predicate Explains(m: Libm, s: Filter, t: Filter, p: Vec3, u: Vec3, r: real, w: Vec, dx: Vec) {
    var h := Jacobian(p);
    && Det(Innovation(s.cov, h, r)) != 0.0
    && Corrects(m, s, t, h, Sub(u, p), r, w, dx)
    && Dot(Scale(r, w), Scale(r, w)) <= Dot(Sub(u, p), Sub(u, p))
  }

  lemma KalmanExplains(m: Libm, s: Filter, p: Vec3, u: Vec3, r: real) returns (w: Vec, dx: Vec)
    requires Sound(m) && Inv(s) && r >= 0.09
    ensures Explains(m, s, Kalman(m, s, Jacobian(p), Sub(u, p), r), p, u, r, w, dx)
  {
    var h := Jacobian(p);
    assert IsMat(h, 3, 6);
    hide Jacobian, Kalman;
    w, dx := KalmanCorrects(m, s, h, Sub(u, p), r);
    ResidualShrinks(s.cov, h, r, Sub(u, p), w);
  }

  /** A sample between 0.8 g and 1.2 g corrects the state from predicted towards measured gravity. */
  lemma AccelCorrects(m: Libm, s: Filter, accel: Vec3) returns (w: Vec, dx: Vec)
    requires Sound(m) && Inv(s) && 7.848 <= Norm(m, accel) <= 11.772
    ensures var u := Scale(1.0 / Norm(m, accel), accel);
            && Dot(u, u) == 1.0
            && Explains(m, s, Accel(m, s, accel), Seen(s.q, [0.0, 0.0, 1.0]), u, 0.25, w, dx)
  {
    UnitVector(m, accel);
    SeenGravity(s.q);
    hide Inv, Explains, Seen, Dcm, Jacobian, Kalman, Sound;
    w, dx := KalmanExplains(m, s, Seen(s.q, [0.0, 0.0, 1.0]), Scale(1.0 / Norm(m, accel), accel), 0.25);
  }

  /** Any other sample changes nothing. */
  lemma AccelIgnored(m: Libm, s: Filter, accel: Vec3)
    requires !(7.848 <= Norm(m, accel) <= 11.772)
    ensures Accel(m, s, accel) == s
  {
  }

  /** The first sample fixes the reference: its horizontal length and its vertical part. */
  lemma CaptureMeasures(m: Libm, s: Filter, u: Vec3)
    requires Sound(m)
    ensures var t, ned := Capture(m, s, u), Rotated(s.q, u);
            if s.magRef.Ref? then t == s
            else
              && t == s.(magRef := t.magRef) && t.magRef.Ref?
              && t.magRef.x >= 0.0 && t.magRef.x * t.magRef.x == ned[0] * ned[0] + ned[1] * ned[1]
              && t.magRef.z == ned[2]
  {
    var ned := Rotated(s.q, u);
    assert ned[0] * ned[0] >= 0.0 && ned[1] * ned[1] >= 0.0;
  }

  /** The field the model predicts from the captured reference. */
  function SeenField(s: Filter): Vec3
    requires s.magRef.Ref?
  {
    Seen(s.q, [s.magRef.x, 0.0, s.magRef.z])
  }

  /** A field sample of any strength corrects the state from predicted towards measured field, likewise. */
  lemma MagCorrects(m: Libm, s: Filter, mag: Vec3) returns (t: Filter, w: Vec, dx: Vec)
    requires Sound(m) && Inv(s) && Norm(m, mag) >= 0.000001
    ensures var u := Scale(1.0 / Norm(m, mag), mag);
            && Dot(u, u) == 1.0
            && t == Capture(m, s, u) && t.magRef.Ref?
            && Explains(m, t, Mag(m, s, mag), SeenField(t), u, 0.09, w, dx)
  {
    var u := Scale(1.0 / Norm(m, mag), mag);
    UnitVector(m, mag);
    CaptureInv(m, s, u);
    t := Capture(m, s, u);
    hide Inv, Explains, Dcm, Jacobian, Kalman, Sound, Capture;
    w, dx := KalmanExplains(m, t, SeenField(t), u, 0.09);
  }

  lemma MagIgnored(m: Libm, s: Filter, mag: Vec3)
    requires Norm(m, mag) < 0.000001
    ensures Mag(m, s, mag) == s
  {
  }

  // ----- the first field sample says nothing about the tilt

  lemma ConjugateInverts(q: Quat)
    requires IsUnit(q)
    ensures Product(q, Conjugate(q)) == Quat(1.0, 0.0, 0.0, 0.0)
  {
  }

  lemma ConjugateColumn(a: real, b: real, c: real, d: real)
    ensures var r, n := DcmOf(a, b, c, d), DcmOf(a, -b, -c, -d);
            n[0][2] == r[2][0] && n[1][2] == r[2][1] && n[2][2] == r[2][2]
  {
  }

  lemma NoTurn()
    ensures var n := Dcm(Quat(1.0, 0.0, 0.0, 0.0)); n[0][2] == 0.0 && n[1][2] == 0.0 && n[2][2] == 1.0
  {
  }

  /** The rows of a rotation matrix are orthogonal, and of length 1. */
  lemma RowsOrthonormal(q: Quat, i: nat)
    requires IsUnit(q) && i < 3
    ensures Dot(Dcm(q)[i], Dcm(q)[2]) == if i == 2 then 1.0 else 0.0
  {
    var r, n := Dcm(q), Dcm(Conjugate(q));
    assert IsMat(r, 3, 3) && IsMat(n, 3, 3);
    ConjugateInverts(q);
    ConjugateColumn(q.w, q.x, q.y, q.z);
    NoTurn();
    DcmMultiplies(q, Conjugate(q));
    hide DcmOf, Dot, NormSq, Product;
    assert Col(n, 3, 3, 2) == [n[0][2], n[1][2], n[2][2]] == r[2];
    assert Mul(r, n, 3, 3, 3)[i][2] == Dot(r[i], r[2]);
  }

  /** Seen from the body, the vertical part of a direction is its part along gravity. */
  lemma SeenVertical(q: Quat, x: real, z: real)
    requires IsUnit(q)
    ensures Dot(Seen(q, [x, 0.0, z]), Dcm(q)[2]) == z
  {
    var r, ref := Dcm(q), [x, 0.0, z];
    Adjoint(ref, r, 3, 3, r[2]);
    RowsOrthonormal(q, 0);
    RowsOrthonormal(q, 1);
    RowsOrthonormal(q, 2);
    Dot3(ref, MulVec(r, 3, 3, r[2]));
    hide Dcm, Dot;
  }

  /** The sample that fixes the reference agrees with it along gravity: its innovation is orthogonal to
      gravity, so all it says is about the heading. */
  lemma FirstSampleIsLevel(m: Libm, s: Filter, u: Vec3)
    requires IsUnit(s.q) && s.magRef.Unset?
    ensures var t := Capture(m, s, u);
            Dot(Sub(u, SeenField(t)), Seen(s.q, [0.0, 0.0, 1.0])) == 0.0
  {
    var t := Capture(m, s, u);
    SeenGravity(s.q);
    SeenVertical(s.q, t.magRef.x, t.magRef.z);
    var g := Dcm(s.q)[2];
    DotSub(u, SeenField(t), g);
    DotComm(u, g);
  }
}
