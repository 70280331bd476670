/** The attitude filter as functions on values: what prediction, the two measurement updates and
    a whole run compute, and the invariant every reachable state keeps. */
module AhrsModel {
  import opened LinearAlgebra
  import opened Covariance
  import opened Quaternion

  const GYRO_NOISE := 0.01
  const GYRO_BIAS_NOISE := 0.001
  const ACCEL_NOISE := 0.5
  const MAG_NOISE := 0.3
  const DEG_TO_RAD := 3.14159265358979 / 180.0
  const GRAVITY := 9.81
  const ATT_VAR := Square(10.0 * DEG_TO_RAD)
  const BIAS_VAR := Square(1.0 * DEG_TO_RAD)

  function Square(x: real): real {
    x * x
  }

  /** The magnetic reference, captured by the first accepted magnetometer sample. */
  datatype MagRef = Unset | Ref(x: real, z: real)

  type Vec3 = v: Vec | |v| == 3 witness [0.0, 0.0, 0.0]

  type Cov = m: Mat | IsMat(m, 6, 6) ghost witness seq(6, _ => Zero(6))

  datatype Filter = Filter(q: Quat, bias: Vec3, cov: Cov, magRef: MagRef)

  predicate UnitRef(r: MagRef) {
    r.Ref? ==> r.x * r.x + r.z * r.z == 1.0
  }

  /** What every reachable state keeps. */
  ghost predicate Inv(s: Filter) {
    && IsUnit(s.q)
    && Symmetric(s.cov, 6) && Psd(s.cov, 6)
    && UnitRef(s.magRef)
  }

  function Abs(x: real): real {
    if x < 0.0 then -x else x
  }

  function Init(): Filter {
    Filter(Quat(1.0, 0.0, 0.0, 0.0), Zero(3), InitCov(ATT_VAR, BIAS_VAR), Unset)
  }

  function InitCov(att: real, bias: real): Cov {
    AddDiag(seq(6, _ => Zero(6)), 6, [att, att, att, bias, bias, bias])
  }

  function Skew(v: Vec3): Mat
  {
    [[0.0, -v[2], v[1]], [v[2], 0.0, -v[0]], [-v[1], v[0], 0.0]]
  }

  /** F: the identity, minus [w]x dt at the top left, with -dt I at the top right. */
  function Transition(w: Vec3, dt: real): Mat
  {
    seq(6, i requires 0 <= i < 6 => seq(6, j requires 0 <= j < 6 => TransitionEntry(w, dt, i, j)))
  }

  function TransitionEntry(w: Vec3, dt: real, i: nat, j: nat): real
    requires i < 6 && j < 6
  {
    var one := if i == j then 1.0 else 0.0;
    if i < 3 && j < 3 then one - Skew(w)[i][j] * dt
    else if j == i + 3 then -dt
    else one
  }

  function ProcessNoise(dt: real): Vec {
    var g, b := GYRO_NOISE * GYRO_NOISE * dt * dt, GYRO_BIAS_NOISE * GYRO_BIAS_NOISE * dt;
    [g, g, g, b, b, b]
  }

  function NextCov(cov: Cov, w: Vec3, dt: real): Cov {
    PredictCov(Transition(w, dt), cov, ProcessNoise(dt))
  }

  function Predict(m: Libm, s: Filter, gyro: Vec3, dt: real): Filter
  {
    var w := Sub(gyro, s.bias);
    Filter(Normalize(m, Integrate(s.q, w, dt)), s.bias, NextCov(s.cov, w, dt), s.magRef)
  }

  /** H = [ [g]x | 0 ] for a predicted direction g. */
  function Jacobian(g: Vec3): Mat
  {
    [[0.0, -g[2], g[1], 0.0, 0.0, 0.0],
     [g[2], 0.0, -g[0], 0.0, 0.0, 0.0],
     [-g[1], g[0], 0.0, 0.0, 0.0, 0.0]]
  }

  function Turn(m: Libm, q: Quat, d: Vec3): Quat {
    Normalize(m, Product(q, SmallAngle(m, d)))
  }

  /** Folds the error estimate dx and the new covariance into the state. */
  function Fold(m: Libm, s: Filter, dx: Vec, cov: Cov): Filter
    requires |dx| == 6
  {
    Filter(Turn(m, s.q, dx[..3]), Add(s.bias, dx[3..]), cov, s.magRef)
  }

  /** The correction by innovation y, once the determinant is known not to vanish. */
  function Corrected(m: Libm, s: Filter, h: Mat, y: Vec3, r: real): Filter
    requires IsMat(h, 3, 6) && Det(Innovation(s.cov, h, r)) != 0.0
  {
    Fold(m, s, MulVec(Gain(s.cov, h, r), 6, 3, y), CorrectCov(s.cov, h, r))
  }

  /** The measurement update both sensors share, its determinant guard included. */
  function Kalman(m: Libm, s: Filter, h: Mat, y: Vec3, r: real): Filter
    requires IsMat(h, 3, 6)
  {
    if Abs(Det(Innovation(s.cov, h, r))) < 0.0000000001 then s else Corrected(m, s, h, y, r)
  }

  function Norm(m: Libm, v: Vec3): real
  {
    m.sqrt(v[0] * v[0] + v[1] * v[1] + v[2] * v[2])
  }

  predicate AccelAccepted(norm: real) {
    norm >= 0.000001 && 0.8 <= norm / GRAVITY <= 1.2
  }

  function Accel(m: Libm, s: Filter, accel: Vec3): Filter
  {
    var norm := Norm(m, accel);
    if !AccelAccepted(norm) then s else
    var g := Dcm(s.q)[2];
    Kalman(m, s, Jacobian(g), Sub(Scale(1.0 / norm, accel), g), ACCEL_NOISE * ACCEL_NOISE)
  }

  function Hypot(m: Libm, x: real, y: real): real {
    m.sqrt(x * x + y * y)
  }

  function Capture(m: Libm, s: Filter, u: Vec3): Filter
  {
    var ned := Rotated(s.q, u);
    if s.magRef.Unset?
    then s.(magRef := Ref(Hypot(m, ned[0], ned[1]), ned[2]))
    else s
  }

  function Mag(m: Libm, s: Filter, mag: Vec3): Filter
  {
    var norm := Norm(m, mag);
    if norm < 0.000001 then s else
    var u := Scale(1.0 / norm, mag);
    var t := Capture(m, s, u);
    var pred := VecMul([t.magRef.x, 0.0, t.magRef.z], Dcm(t.q), 3, 3);
    Kalman(m, t, Jacobian(pred), Sub(u, pred), MAG_NOISE * MAG_NOISE)
  }

  /** The three state changes; every public call is a sequence of them. */
  datatype Step = PredictBy(gyro: Vec3, dt: real) | AccelBy(accel: Vec3) | MagBy(mag: Vec3)

  function Apply(m: Libm, s: Filter, e: Step): Filter {
    match e
    case PredictBy(gyro, dt) => Predict(m, s, gyro, dt)
    case AccelBy(accel) => Accel(m, s, accel)
    case MagBy(mag) => Mag(m, s, mag)
  }

  function Run(m: Libm, s: Filter, steps: seq<Step>): Filter
    decreases |steps|
  {
    if steps == [] then s else Apply(m, Run(m, s, steps[..|steps| - 1]), steps[|steps| - 1])
  }

  /** The steps of ahrs_update_imu. */
  function ImuSteps(gyro: Vec3, accel: Vec3, dt: real): seq<Step> {
    if dt <= 0.0 || dt > 0.1 then [] else [PredictBy(gyro, dt), AccelBy(accel)]
  }

  /** The steps of ahrs_update. */
  function FullSteps(gyro: Vec3, accel: Vec3, mag: Vec3, dt: real): seq<Step> {
    if dt <= 0.0 || dt > 0.1 then [] else [PredictBy(gyro, dt), AccelBy(accel), MagBy(mag)]
  }

  lemma RunTwo(m: Libm, s: Filter, a: Step, b: Step)
    ensures Run(m, s, [a, b]) == Apply(m, Apply(m, s, a), b)
  {
    assert [a, b][..1] == [a];
    assert [a][..0] == [];
    assert Run(m, s, [a]) == Apply(m, Run(m, s, []), a);
  }

  lemma RunThree(m: Libm, s: Filter, a: Step, b: Step, c: Step)
    ensures Run(m, s, [a, b, c]) == Apply(m, Apply(m, Apply(m, s, a), b), c)
  {
    assert [a, b, c][..2] == [a, b];
    RunTwo(m, s, a, b);
  }

  // ----- the invariant

  lemma ZeroPsd(n: nat)
    ensures Symmetric(seq(n, _ => Zero(n)), n) && Psd(seq(n, _ => Zero(n)), n)
  {
    var z: Mat := seq(n, _ => Zero(n));
    forall x: Vec | |x| == n
      ensures Form(z, n, x, x) >= 0.0
    {
      forall i | 0 <= i < n
        ensures MulVec(z, n, n, x)[i] == 0.0
      {
        DotZero(z[i], x, n);
      }
      DotZero(MulVec(z, n, n, x), x, n);
      DotComm(MulVec(z, n, n, x), x);
    }
  }

  lemma InitCovInv(a: real, b: real)
    ensures Symmetric(InitCov(Square(a), Square(b)), 6) && Psd(InitCov(Square(a), Square(b)), 6)
  {
    ZeroPsd(6);
    assert Square(a) >= 0.0 && Square(b) >= 0.0;
    var (x, y) := (Square(a), Square(b));
    AddDiagPsd(seq(6, _ => Zero(6)), 6, [x, x, x, y, y, y]);
  }

  lemma InitInv()
    ensures Inv(Init())
  {
    InitCovInv(10.0 * DEG_TO_RAD, 1.0 * DEG_TO_RAD);
  }

  lemma NoiseNonNegative(dt: real)
    requires dt > 0.0
    ensures forall i :: 0 <= i < 6 ==> ProcessNoise(dt)[i] >= 0.0
  {
    ScaleUp(dt, GYRO_NOISE * GYRO_NOISE * dt, 0.0);
  }

  lemma NextCovPsd(cov: Cov, w: Vec3, dt: real)
    requires Symmetric(cov, 6) && Psd(cov, 6) && dt > 0.0
    ensures Symmetric(NextCov(cov, w, dt), 6) && Psd(NextCov(cov, w, dt), 6)
  {
    NoiseNonNegative(dt);
    PredictKeepsPsd(Transition(w, dt), cov, ProcessNoise(dt));
  }

  lemma PredictUnit(m: Libm, s: Filter, gyro: Vec3, dt: real)
    requires Sound(m) && IsUnit(s.q)
    ensures IsUnit(Predict(m, s, gyro, dt).q)
  {
    IntegrateUnit(m, s.q, Sub(gyro, s.bias), dt);
  }

  lemma PredictInv(m: Libm, s: Filter, gyro: Vec3, dt: real)
    requires Sound(m) && Inv(s) && dt > 0.0
    ensures Inv(Predict(m, s, gyro, dt))
  {
    PredictUnit(m, s, gyro, dt);
    NextCovPsd(s.cov, Sub(gyro, s.bias), dt);
  }

  /** From a state that satisfies the invariant the determinant guard never fires: the
      determinant is at least r^3, far above 1e-10. */
  lemma GuardNeverFires(s: Filter, h: Mat, r: real)
    requires Inv(s) && IsMat(h, 3, 6) && r >= 0.09
    ensures Det(Innovation(s.cov, h, r)) >= 0.000729
  {
    CorrectKeepsPsd(s.cov, h, r);
    CubeAtLeast(r);
  }

  lemma CubeAtLeast(r: real)
    requires r >= 0.09
    ensures r * (r * r) >= 0.000729
  {
    ScaleUp(r, r, 0.09);
    ScaleUp(r, r * r, 0.0081);
  }

  lemma FoldInv(m: Libm, s: Filter, dx: Vec, cov: Cov)
    requires Sound(m) && Inv(s) && |dx| == 6 && Symmetric(cov, 6) && Psd(cov, 6)
    ensures Inv(Fold(m, s, dx, cov))
  {
    CorrectionUnit(m, s.q, dx[..3]);
  }

  lemma CorrectedInv(m: Libm, s: Filter, h: Mat, y: Vec3, r: real)
    requires Sound(m) && Inv(s) && IsMat(h, 3, 6) && r >= 0.09
    ensures Det(Innovation(s.cov, h, r)) != 0.0
    ensures Inv(Corrected(m, s, h, y, r))
  {
    CorrectSafe(s.cov, h, r);
    FoldInv(m, s, MulVec(Gain(s.cov, h, r), 6, 3, y), CorrectCov(s.cov, h, r));
  }

  /** The shared update keeps the invariant, and its determinant guard is dead code. */
  lemma KalmanInv(m: Libm, s: Filter, h: Mat, y: Vec3, r: real)
    requires Sound(m) && Inv(s) && IsMat(h, 3, 6) && r >= 0.09
    ensures Det(Innovation(s.cov, h, r)) >= 0.000729
    ensures Kalman(m, s, h, y, r) == Corrected(m, s, h, y, r)
    ensures Inv(Kalman(m, s, h, y, r))
  {
    GuardNeverFires(s, h, r);
    CorrectedInv(m, s, h, y, r);
  }

  lemma AccelInv(m: Libm, s: Filter, accel: Vec3)
    requires Sound(m) && Inv(s)
    ensures Inv(Accel(m, s, accel))
  {
    var norm := Norm(m, accel);
    if AccelAccepted(norm) {
      var g := Dcm(s.q)[2];
      KalmanInv(m, s, Jacobian(g), Sub(Scale(1.0 / norm, accel), g), ACCEL_NOISE * ACCEL_NOISE);
    }
  }

  lemma ScaledSquares(a: real, x: real, y: real, z: real)
    ensures Lin3(a * x, a * y, a * z, a * x, a * y, a * z) == (a * a) * (x * x + y * y + z * z)
  {
  }

  lemma UnitVector(m: Libm, v: Vec3)
    requires Sound(m) && Norm(m, v) >= 0.000001
    ensures var u := Scale(1.0 / Norm(m, v), v); Dot(u, u) == 1.0
  {
    var n := v[0] * v[0] + v[1] * v[1] + v[2] * v[2];
    assert v[0] * v[0] >= 0.0 && v[1] * v[1] >= 0.0 && v[2] * v[2] >= 0.0;
    var a := 1.0 / Norm(m, v);
    var u := Scale(a, v);
    Dot3(u, u);
    ScaledSquares(a, v[0], v[1], v[2]);
    Reciprocal(Norm(m, v), a, n);
  }

  lemma Reciprocal(norm: real, a: real, n: real)
    requires norm * norm == n && norm * a == 1.0
    ensures (a * a) * n == 1.0
  {
    assert (a * a) * (norm * norm) == (norm * a) * (norm * a);
  }

  /** The captured magnetic reference is a unit vector, because the rotation keeps length. */
  lemma CaptureInv(m: Libm, s: Filter, u: Vec3)
    requires Sound(m) && Inv(s) && Dot(u, u) == 1.0
    ensures Inv(Capture(m, s, u)) && Capture(m, s, u).magRef.Ref?
  {
    var ned := Rotated(s.q, u);
    RotationKeepsLength(s.q, u);
    Dot3(ned, ned);
    var flat := ned[0] * ned[0] + ned[1] * ned[1];
    assert ned[0] * ned[0] >= 0.0 && ned[1] * ned[1] >= 0.0;
    assert m.sqrt(flat) * m.sqrt(flat) == flat;
  }

  lemma MagInv(m: Libm, s: Filter, mag: Vec3)
    requires Sound(m) && Inv(s)
    ensures Inv(Mag(m, s, mag))
  {
    var norm := Norm(m, mag);
    if norm >= 0.000001 {
      var u := Scale(1.0 / norm, mag);
      UnitVector(m, mag);
      CaptureInv(m, s, u);
      var t := Capture(m, s, u);
      var pred := VecMul([t.magRef.x, 0.0, t.magRef.z], Dcm(t.q), 3, 3);
      KalmanInv(m, t, Jacobian(pred), Sub(u, pred), MAG_NOISE * MAG_NOISE);
    }
  }

  predicate StepOk(e: Step) {
    e.PredictBy? ==> e.dt > 0.0
  }

  lemma StepInv(m: Libm, s: Filter, e: Step)
    requires Sound(m) && Inv(s) && StepOk(e)
    ensures Inv(Apply(m, s, e))
  {
    match e
    case PredictBy(gyro, dt) => PredictInv(m, s, gyro, dt);
    case AccelBy(accel) => AccelInv(m, s, accel);
    case MagBy(mag) => MagInv(m, s, mag);
  }

  lemma {:induction false} RunInv(m: Libm, s: Filter, steps: seq<Step>)
    requires Sound(m) && Inv(s) && forall e :: e in steps ==> StepOk(e)
    ensures Inv(Run(m, s, steps))
    decreases |steps|
  {
    if steps != [] {
      var before := steps[..|steps| - 1];
      RunInv(m, s, before);
      StepInv(m, Run(m, s, before), steps[|steps| - 1]);
    }
  }

  /** After any sequence of predictions, accelerometer and magnetometer updates, early exits
      included, the covariance is symmetric positive semidefinite, the attitude is a unit
      quaternion and the magnetic reference, once set, is a unit vector. */
  lemma ReachableInv(m: Libm, steps: seq<Step>)
    requires Sound(m) && forall e :: e in steps ==> StepOk(e)
    ensures Inv(Run(m, Init(), steps))
  {
    InitInv();
    RunInv(m, Init(), steps);
  }
}
