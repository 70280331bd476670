/** The attitude filter object: the quaternion, bias and covariance storage that ahrs.c overwrites
    in place, with its loops, proved against the functions of AhrsModel. */
module AhrsObject {
  import opened LinearAlgebra
  import opened Covariance
  import opened Quaternion
  import opened MatrixLoops
  import opened AhrsModel

  class AhrsFilter {
    const libm: Libm
    var q: Quat
    const gyroBias: array<real>
    /** 7x7 storage; the filter works on its top left 6x6 block. */
    const P: array2<real>
    var magRefX: real
    var magRefZ: real
    var magRefValid: bool

    ghost predicate Shape() {
      Sound(libm) && gyroBias.Length == 3 && P.Length0 == 7 && P.Length1 == 7
    }

    ghost function State(): Filter
      requires Shape()
      reads this, gyroBias, P
    {
      Filter(q, gyroBias[..], Block(P, 6, 6), if magRefValid then Ref(magRefX, magRefZ) else Unset)
    }

    /** The invariant of every reachable state. */
    ghost predicate Valid()
      reads this, gyroBias, P
    {
      Shape() && Inv(State())
    }

    constructor (libm: Libm)
      requires Sound(libm)
      ensures Valid() && fresh(gyroBias) && fresh(P) && this.libm == libm
      ensures State() == Init()
    {
      this.libm := libm;
      q := Quat(1.0, 0.0, 0.0, 0.0);
      gyroBias := new real[3](_ => 0.0);
      P := new real[7, 7]((_, _) => 0.0);
      magRefX, magRefZ, magRefValid := 0.0, 0.0, false;
      new;
      SetDiagonal(ATT_VAR, BIAS_VAR);
      assert gyroBias[..] == Zero(3);
      InitInv();
    }

    /** The attitude and bias variances, on the diagonal of a cleared covariance. */
    method SetDiagonal(att: real, bias: real)
      requires P.Length0 == 7 && P.Length1 == 7
      requires forall r, s :: 0 <= r < 7 && 0 <= s < 7 ==> P[r, s] == 0.0
      modifies P
      ensures Block(P, 6, 6) == InitCov(att, bias)
    {
      for i := 0 to 3
        invariant forall r, s :: 0 <= r < 6 && 0 <= s < 6 ==>
          P[r, s] == if r == s && r < i then att else if r == s && 3 <= r < i + 3 then bias else 0.0
      {
        P[i, i] := att;
        P[i + 3, i + 3] := bias;
      }
      MatEq(Block(P, 6, 6), InitCov(att, bias), 6, 6);
    }

    /** Copies the 6x6 block out of the 7x7 storage. */
    method LoadCov() returns (p: array2<real>)
      requires Shape()
      ensures fresh(p) && p.Length0 == 6 && p.Length1 == 6 && Rows(p) == Block(P, 6, 6)
    {
      p := new real[6, 6];
      for i := 0 to 6
        invariant forall r, s :: 0 <= r < i && 0 <= s < 6 ==> p[r, s] == P[r, s]
      {
        for j := 0 to 6
          invariant forall r, s :: 0 <= r < i && 0 <= s < 6 ==> p[r, s] == P[r, s]
          invariant forall s :: 0 <= s < j ==> p[i, s] == P[i, s]
        {
          p[i, j] := P[i, j];
        }
      }
      MatEq(Rows(p), Block(P, 6, 6), 6, 6);
    }

    method StoreCov(p: array2<real>)
      requires Shape() && p != P && p.Length0 == 6 && p.Length1 == 6
      modifies P
      ensures Block(P, 6, 6) == old(Rows(p))
    {
      for i := 0 to 6
        invariant forall r, s :: 0 <= r < i && 0 <= s < 6 ==> P[r, s] == p[r, s]
      {
        for j := 0 to 6
          invariant forall r, s :: 0 <= r < i && 0 <= s < 6 ==> P[r, s] == p[r, s]
          invariant forall s :: 0 <= s < j ==> P[i, s] == p[i, s]
        {
          P[i, j] := p[i, j];
        }
      }
      MatEq(Block(P, 6, 6), Rows(p), 6, 6);
    }

    /** Subtracts [w]x dt from the top left 3x3 block. */
    method SubtractSkew(f: array2<real>, wS: Mat, dt: real)
      requires f.Length0 == 6 && f.Length1 == 6 && IsMat(wS, 3, 3)
      modifies f
      ensures forall r, s :: 0 <= r < 6 && 0 <= s < 6 ==>
        f[r, s] == if r < 3 && s < 3 then old(f[r, s]) - wS[r][s] * dt else old(f[r, s])
    {
      for i := 0 to 3
        invariant forall r, s :: 0 <= r < 6 && 0 <= s < 6 ==>
          f[r, s] == if r < i && s < 3 then old(f[r, s]) - wS[r][s] * dt else old(f[r, s])
      {
        for j := 0 to 3
          invariant forall r, s :: 0 <= r < 6 && 0 <= s < 6 ==>
            f[r, s] == if (r < i && s < 3) || (r == i && s < j)
                       then old(f[r, s]) - wS[r][s] * dt else old(f[r, s])
        {
          f[i, j] := f[i, j] - wS[i][j] * dt;
        }
      }
    }

    /** Builds F from the identity. */
    method TransitionArray(w: Vec3, dt: real) returns (f: array2<real>)
      ensures fresh(f) && f.Length0 == 6 && f.Length1 == 6 && Rows(f) == Transition(w, dt)
    {
      f := IdentityArray(6);
      ghost var one := Identity(6);
      var wS := Skew(w);
      SubtractSkew(f, wS, dt);
      for i := 0 to 3
        invariant forall r, s :: 0 <= r < 6 && 0 <= s < 6 ==>
          f[r, s] == if r < 3 && s < 3 then one[r][s] - wS[r][s] * dt
                     else if r < i && s == r + 3 then -dt else one[r][s]
      {
        f[i, i + 3] := -dt;
      }
      MatEq(Rows(f), Transition(w, dt), 6, 6);
    }

    method PredictCovariance(w: Vec3, dt: real)
      requires Shape()
      modifies P
      ensures Block(P, 6, 6) == NextCov(old(Block(P, 6, 6)), w, dt)
    {
      var p := LoadCov();
      var f := TransitionArray(w, dt);
      var fp := MatMul(f, p);
      var ft := MatTranspose(f);
      var pnew := MatMul(fp, ft);
      AddToDiagonal(pnew, ProcessNoise(dt));
      StoreCov(pnew);
    }

    method Predict(gyro: Vec3, dt: real)
      requires Shape()
      modifies this, P
      ensures Shape() && State() == AhrsModel.Predict(libm, old(State()), gyro, dt)
    {
      var w := [gyro[0] - gyroBias[0], gyro[1] - gyroBias[1], gyro[2] - gyroBias[2]];
      assert w == Sub(gyro, gyroBias[..]);
      q := Normalize(libm, Integrate(q, w, dt));
      PredictCovariance(w, dt);
    }

    /** Inverts S by Cramer's rule. */
    method Invert(s: array2<real>, invDet: real) returns (si: array2<real>)
      requires s.Length0 == 3 && s.Length1 == 3
      ensures fresh(si) && si.Length0 == 3 && si.Length1 == 3
      ensures Rows(si) == Cofactors(Rows(s), invDet)
    {
      var v := [[s[0, 0], s[0, 1], s[0, 2]], [s[1, 0], s[1, 1], s[1, 2]], [s[2, 0], s[2, 1], s[2, 2]]];
      MatEq(v, Rows(s), 3, 3);
      si := ArrayOf(Cofactors(v, invDet), 3, 3);
    }

    static method ArrayOf(m: Mat, rows: nat, cols: nat) returns (c: array2<real>)
      requires IsMat(m, rows, cols)
      ensures fresh(c) && c.Length0 == rows && c.Length1 == cols && Rows(c) == m
    {
      c := new real[rows, cols]((i: nat, j: nat) requires i < rows && j < cols => m[i][j]);
      MatEq(Rows(c), m, rows, cols);
    }

    /** S = H P H' + r I, and unless its determinant is tiny K = P H' S^-1. */
    method GainArray(p: array2<real>, h: array2<real>, r: real) returns (ok: bool, k: array2<real>)
      requires p.Length0 == 6 && p.Length1 == 6 && h.Length0 == 3 && h.Length1 == 6
      ensures ok <==> Abs(Det(Innovation(Rows(p), Rows(h), r))) >= 0.0000000001
      ensures ok ==> fresh(k) && k.Length0 == 6 && k.Length1 == 3 && Rows(k) == Gain(Rows(p), Rows(h), r)
    {
      var hp := MatMul(h, p);
      var s := MatMulT(hp, h);
      AddToDiagonal(s, [r, r, r]);
      var det := Det3(s[0, 0], s[0, 1], s[0, 2], s[1, 0], s[1, 1], s[1, 2], s[2, 0], s[2, 1], s[2, 2]);
      assert det == Det(Rows(s));
      if Abs(det) < 0.0000000001 {
        return false, hp;
      }
      var si := Invert(s, 1.0 / det);
      var pht := MatMulT(p, h);
      k := MatMul(pht, si);
      ok := true;
    }

    /** The measurement update that the accelerometer and the magnetometer share. */
    method KalmanUpdate(hRows: Mat, y: Vec3, r: real)
      requires Shape() && IsMat(hRows, 3, 6)
      modifies this, gyroBias, P
      ensures Shape() && State() == Kalman(libm, old(State()), hRows, y, r)
    {
      var h := ArrayOf(hRows, 3, 6);
      var p := LoadCov();
      var ok, k := GainArray(p, h, r);
      if !ok {
        return;
      }
      FoldIn(k, h, p, y);
    }

    /** Applies dx = K y to attitude and bias, and the covariance update to the storage. */
    method FoldIn(k: array2<real>, h: array2<real>, p: array2<real>, y: Vec3)
      requires Shape() && p != P && k.Length0 == 6 && k.Length1 == 3
      requires h.Length0 == 3 && h.Length1 == 6 && p.Length0 == 6 && p.Length1 == 6
      modifies this, gyroBias, P
      ensures Shape() && State() == Fold(libm, old(State()), MulVec(old(Rows(k)), 6, 3, y),
                                         CorrectWith(old(Rows(p)), old(Rows(h)), old(Rows(k))))
    {
      var dx := MulThree(k, y);
      q := Turn(libm, q, dx[..3]);
      AddBias(dx);
      CorrectCovariance(k, h, p);
    }

    method CorrectCovariance(k: array2<real>, h: array2<real>, p: array2<real>)
      requires Shape() && p != P && k.Length0 == 6 && k.Length1 == 3
      requires h.Length0 == 3 && h.Length1 == 6 && p.Length0 == 6 && p.Length1 == 6
      modifies P
      ensures Block(P, 6, 6) == CorrectWith(old(Rows(p)), old(Rows(h)), old(Rows(k)))
    {
      var kh := MatMul(k, h);
      var pnew := ComplementMul(kh, p);
      StoreCov(pnew);
    }

    /** Adds the second half of dx to the bias. */
    method AddBias(dx: Vec)
      requires gyroBias.Length == 3 && |dx| == 6
      modifies gyroBias
      ensures gyroBias[..] == Add(old(gyroBias[..]), dx[3..])
    {
      gyroBias[0] := gyroBias[0] + dx[3];
      gyroBias[1] := gyroBias[1] + dx[4];
      gyroBias[2] := gyroBias[2] + dx[5];
    }

    method UpdateAccel(accel: Vec3)
      requires Shape()
      modifies this, gyroBias, P
      ensures Shape() && State() == Accel(libm, old(State()), accel)
    {
      var norm := Norm(libm, accel);
      if norm < 0.000001 {
        return;
      }
      var ratio := norm / GRAVITY;
      if ratio < 0.8 || ratio > 1.2 {
        return;
      }
      var g := Dcm(q)[2];
      KalmanUpdate(Jacobian(g), Sub(Scale(1.0 / norm, accel), g), ACCEL_NOISE * ACCEL_NOISE);
    }

    method UpdateMag(mag: Vec3)
      requires Shape()
      modifies this, gyroBias, P
      ensures Shape() && State() == Mag(libm, old(State()), mag)
    {
      var norm := Norm(libm, mag);
      if norm < 0.000001 {
        return;
      }
      var u := Scale(1.0 / norm, mag);
      CaptureReference(u);
      var pred := VecMul([magRefX, 0.0, magRefZ], Dcm(q), 3, 3);
      KalmanUpdate(Jacobian(pred), Sub(u, pred), MAG_NOISE * MAG_NOISE);
    }

    /** The first sample, rotated to the navigation frame, fixes the reference direction. */
    method CaptureReference(u: Vec3)
      requires Shape()
      modifies this
      ensures Shape() && State() == Capture(libm, old(State()), u)
    {
      var ned := Rotated(q, u);
      if !magRefValid {
        magRefX := Hypot(libm, ned[0], ned[1]);
        magRefZ := ned[2];
        magRefValid := true;
      }
    }

    /** ahrs_update_imu. */
    method UpdateImu(gyro: Vec3, accel: Vec3, dt: real)
      requires Valid()
      modifies this, gyroBias, P
      ensures Valid() && State() == Run(libm, old(State()), ImuSteps(gyro, accel, dt))
      ensures State() == if 0.0 < dt <= 0.1 then Accel(libm, AhrsModel.Predict(libm, old(State()), gyro, dt), accel)
                         else old(State())
    {
      if dt <= 0.0 || dt > 0.1 {
        return;
      }
      RunTwo(libm, State(), PredictBy(gyro, dt), AccelBy(accel));
      RunInv(libm, State(), ImuSteps(gyro, accel, dt));
      Predict(gyro, dt);
      UpdateAccel(accel);
    }

    /** ahrs_update. */
    method Update(gyro: Vec3, accel: Vec3, mag: Vec3, dt: real)
      requires Valid()
      modifies this, gyroBias, P
      ensures Valid() && State() == Run(libm, old(State()), FullSteps(gyro, accel, mag, dt))
      ensures State() == if 0.0 < dt <= 0.1
        then Mag(libm, Accel(libm, AhrsModel.Predict(libm, old(State()), gyro, dt), accel), mag) else old(State())
    {
      if dt <= 0.0 || dt > 0.1 {
        return;
      }
      RunThree(libm, State(), PredictBy(gyro, dt), AccelBy(accel), MagBy(mag));
      RunInv(libm, State(), FullSteps(gyro, accel, mag, dt));
      Predict(gyro, dt);
      UpdateAccel(accel);
      UpdateMag(mag);
    }
  }
}
