/** Quaternion kinematics over the reals, with the three libm functions the filter calls as
    parameters of which only sqrt(x)^2 = x and sin^2 + cos^2 = 1 are known. */
module Quaternion {
  import opened LinearAlgebra

  datatype Quat = Quat(w: real, x: real, y: real, z: real)

  datatype Libm = Libm(sqrt: real -> real, sin: real -> real, cos: real -> real)

  ghost predicate Sound(m: Libm) {
    && (forall x: real :: x >= 0.0 ==> m.sqrt(x) >= 0.0 && m.sqrt(x) * m.sqrt(x) == x)
    && (forall x: real :: m.sin(x) * m.sin(x) + m.cos(x) * m.cos(x) == 1.0)
  }

  function SumSq(w: real, x: real, y: real, z: real): real {
    w * w + x * x + y * y + z * z
  }

  function NormSq(q: Quat): real {
    SumSq(q.w, q.x, q.y, q.z)
  }

  predicate IsUnit(q: Quat) {
    NormSq(q) == 1.0
  }

  function ScaleQuat(a: real, q: Quat): Quat {
    Quat(q.w * a, q.x * a, q.y * a, q.z * a)
  }

  function Normalize(m: Libm, q: Quat): Quat {
    var norm := m.sqrt(NormSq(q));
    if norm > 0.00000001 then ScaleQuat(1.0 / norm, q) else q
  }

  function Hamilton(a: real, b: real, c: real, d: real, e: real, f: real, g: real, h: real): Quat {
    Quat(a * e - b * f - c * g - d * h,
         a * f + b * e + c * h - d * g,
         a * g - b * h + c * e + d * f,
         a * h + b * g - c * f + d * e)
  }

  /** The quaternion product p * q. */
  function Product(p: Quat, q: Quat): Quat {
    Hamilton(p.w, p.x, p.y, p.z, q.w, q.x, q.y, q.z)
  }

  /** The rotation by the small angle vector d. */
  function SmallAngle(m: Libm, d: Vec): Quat
    requires |d| == 3
  {
    var angle := m.sqrt(d[0] * d[0] + d[1] * d[1] + d[2] * d[2]);
    if angle < 0.00000001 then
      Quat(1.0, 0.0, 0.0, 0.0)
    else
      var s := m.sin(0.5 * angle) / angle;
      Quat(m.cos(0.5 * angle), d[0] * s, d[1] * s, d[2] * s)
  }

  function Euler(a: real, b: real, c: real, d: real, x: real, y: real, z: real, dt: real): Quat {
    Quat(a + 0.5 * (-b * x - c * y - d * z) * dt,
         b + 0.5 * (a * x + c * z - d * y) * dt,
         c + 0.5 * (a * y - b * z + d * x) * dt,
         d + 0.5 * (a * z + b * y - c * x) * dt)
  }

  /** One Euler step q + 0.5 * Omega(w) * q * dt. */
  function Integrate(q: Quat, w: Vec, dt: real): Quat
    requires |w| == 3
  {
    Euler(q.w, q.x, q.y, q.z, w[0], w[1], w[2], dt)
  }

  function DcmOf(a: real, b: real, c: real, d: real): Mat {
    [[a * a + b * b - c * c - d * d, 2.0 * (b * c - a * d), 2.0 * (b * d + a * c)],
     [2.0 * (b * c + a * d), a * a - b * b + c * c - d * d, 2.0 * (c * d - a * b)],
     [2.0 * (b * d - a * c), 2.0 * (c * d + a * b), a * a - b * b - c * c + d * d]]
  }

  /** The rotation matrix of q, row by row. */
  function Dcm(q: Quat): Mat {
    DcmOf(q.w, q.x, q.y, q.z)
  }

  // ----- norms

  /** The quaternion product multiplies norms. */
  lemma ProductNorm(p: Quat, q: Quat)
    ensures NormSq(Product(p, q)) == NormSq(p) * NormSq(q)
  {
    FourSquares(p.w, p.x, p.y, p.z, q.w, q.x, q.y, q.z);
  }

  lemma FourSquares(a: real, b: real, c: real, d: real, e: real, f: real, g: real, h: real)
    ensures SumSq(a * e - b * f - c * g - d * h, a * f + b * e + c * h - d * g,
                  a * g - b * h + c * e + d * f, a * h + b * g - c * f + d * e)
         == SumSq(a, b, c, d) * SumSq(e, f, g, h)
  {
  }

  lemma ScaleNorm(a: real, q: Quat)
    ensures NormSq(ScaleQuat(a, q)) == a * a * NormSq(q)
  {
  }

  /** The Euler step is the product with (1, w dt / 2). */
  lemma EulerIsProduct(a: real, b: real, c: real, d: real, x: real, y: real, z: real, dt: real)
    ensures Euler(a, b, c, d, x, y, z, dt)
         == Hamilton(a, b, c, d, 1.0, x * (0.5 * dt), y * (0.5 * dt), z * (0.5 * dt))
  {
  }

  lemma StepNorm(x: real, y: real, z: real, dt: real)
    ensures SumSq(1.0, x * (0.5 * dt), y * (0.5 * dt), z * (0.5 * dt))
         == 1.0 + 0.25 * ((x * x + y * y + z * z) * (dt * dt))
  {
  }

  /** Integration never shrinks: |q + dq|^2 = |q|^2 (1 + |w|^2 dt^2 / 4). */
  lemma IntegrateNorm(q: Quat, w: Vec, dt: real)
    requires |w| == 3
    ensures NormSq(Integrate(q, w, dt))
         == NormSq(q) * (1.0 + 0.25 * ((w[0] * w[0] + w[1] * w[1] + w[2] * w[2]) * (dt * dt)))
  {
    var u := Quat(1.0, w[0] * (0.5 * dt), w[1] * (0.5 * dt), w[2] * (0.5 * dt));
    EulerIsProduct(q.w, q.x, q.y, q.z, w[0], w[1], w[2], dt);
    ProductNorm(q, u);
    StepNorm(w[0], w[1], w[2], dt);
  }

  /** A predicted unit quaternion is unit again. */
  lemma IntegrateUnit(m: Libm, q: Quat, w: Vec, dt: real)
    requires Sound(m) && IsUnit(q) && |w| == 3
    ensures m.sqrt(NormSq(Integrate(q, w, dt))) > 0.00000001
    ensures IsUnit(Normalize(m, Integrate(q, w, dt)))
  {
    IntegrateNorm(q, w, dt);
    var n := w[0] * w[0] + w[1] * w[1] + w[2] * w[2];
    assert w[0] * w[0] >= 0.0 && w[1] * w[1] >= 0.0 && w[2] * w[2] >= 0.0;
    assert dt * dt >= 0.0;
    assert n * (dt * dt) >= 0.0;
    NormalizeUnit(m, Integrate(q, w, dt));
  }

  /** A corrected unit quaternion is unit again, for every correction vector. */
  lemma CorrectionUnit(m: Libm, q: Quat, d: Vec)
    requires Sound(m) && IsUnit(q) && |d| == 3
    ensures m.sqrt(NormSq(Product(q, SmallAngle(m, d)))) > 0.00000001
    ensures IsUnit(Normalize(m, Product(q, SmallAngle(m, d))))
  {
    SmallAngleUnit(m, d);
    ProductNorm(q, SmallAngle(m, d));
    NormalizeUnit(m, Product(q, SmallAngle(m, d)));
  }

  lemma RootAtLeastOne(s: real, x: real)
    requires s >= 0.0 && s * s == x && x >= 1.0
    ensures s >= 1.0
  {
    if 0.0 < s < 1.0 {
      ScaleUp(s, 1.0, s);
    }
  }

  /** From norm at least one the scaling branch runs, and the result is a unit quaternion. */
  lemma NormalizeUnit(m: Libm, q: Quat)
    requires Sound(m) && NormSq(q) >= 1.0
    ensures m.sqrt(NormSq(q)) > 0.00000001
    ensures IsUnit(Normalize(m, q))
  {
    var norm := m.sqrt(NormSq(q));
    RootAtLeastOne(m.sqrt(NormSq(q)), NormSq(q));
    var inv := 1.0 / norm;
    ScaleNorm(inv, q);
    assert norm * inv == 1.0;
    assert inv * inv * (norm * norm) == (norm * inv) * (norm * inv);
  }

  /** The small-angle quaternion is unit on both branches. */
  lemma SmallAngleUnit(m: Libm, d: Vec)
    requires Sound(m) && |d| == 3
    ensures IsUnit(SmallAngle(m, d))
  {
    var n := d[0] * d[0] + d[1] * d[1] + d[2] * d[2];
    var angle := m.sqrt(n);
    assert d[0] * d[0] >= 0.0 && d[1] * d[1] >= 0.0 && d[2] * d[2] >= 0.0;
    if angle >= 0.00000001 {
      var si := m.sin(0.5 * angle);
      var s := si / angle;
      var x, y, z := d[0], d[1], d[2];
      assert s * angle == si;
      assert (x * s) * (x * s) + (y * s) * (y * s) + (z * s) * (z * s) == (x * x + y * y + z * z) * (s * s);
      assert (angle * angle) * (s * s) == (s * angle) * (s * angle);
      var c := m.cos(0.5 * angle);
      assert si * si + c * c == 1.0;
    }
  }

  // ----- the rotation matrix of a unit quaternion preserves length

  function Conjugate(q: Quat): Quat {
    Quat(q.w, -q.x, -q.y, -q.z)
  }

  function Rotated(q: Quat, v: Vec): Vec
    requires |v| == 3
  {
    MulVec(Dcm(q), 3, 3, v)
  }

  /** The product with the conjugate of (a, b, c, d). */
  function TimesConjugate(p: real, q: real, r: real, s: real, a: real, b: real, c: real, d: real): Quat {
    Quat(p * a + q * b + r * c + s * d,
         -p * b + q * a - r * d + s * c,
         -p * c + q * d + r * a - s * b,
         -p * d - q * c + r * b + s * a)
  }

  lemma SandwichTerms(a: real, b: real, c: real, d: real, x: real, y: real, z: real)
    ensures TimesConjugate(-b * x - c * y - d * z, a * x + c * z - d * y, a * y - b * z + d * x,
                           a * z + b * y - c * x, a, b, c, d)
         == Quat(0.0,
              Lin3(a * a + b * b - c * c - d * d, 2.0 * (b * c - a * d), 2.0 * (b * d + a * c), x, y, z),
              Lin3(2.0 * (b * c + a * d), a * a - b * b + c * c - d * d, 2.0 * (c * d - a * b), x, y, z),
              Lin3(2.0 * (b * d - a * c), 2.0 * (c * d + a * b), a * a - b * b - c * c + d * d, x, y, z))
  {
  }

  lemma PureProduct(a: real, b: real, c: real, d: real, x: real, y: real, z: real)
    ensures Hamilton(a, b, c, d, 0.0, x, y, z)
         == Quat(-b * x - c * y - d * z, a * x + c * z - d * y, a * y - b * z + d * x, a * z + b * y - c * x)
  {
  }

  lemma ConjugateProduct(p: real, q: real, r: real, s: real, a: real, b: real, c: real, d: real)
    ensures Hamilton(p, q, r, s, a, -b, -c, -d) == TimesConjugate(p, q, r, s, a, b, c, d)
  {
  }

  lemma SandwichQuat(a: real, b: real, c: real, d: real, x: real, y: real, z: real)
    ensures var h, m := Hamilton(a, b, c, d, 0.0, x, y, z), DcmOf(a, b, c, d);
            Hamilton(h.w, h.x, h.y, h.z, a, -b, -c, -d) == Quat(0.0,
              Lin3(m[0][0], m[0][1], m[0][2], x, y, z),
              Lin3(m[1][0], m[1][1], m[1][2], x, y, z),
              Lin3(m[2][0], m[2][1], m[2][2], x, y, z))
  {
    var h := Hamilton(a, b, c, d, 0.0, x, y, z);
    PureProduct(a, b, c, d, x, y, z);
    ConjugateProduct(h.w, h.x, h.y, h.z, a, b, c, d);
    SandwichTerms(a, b, c, d, x, y, z);
  }

  /** The rotation matrix is the sandwich q v q*, so a unit quaternion rotates without stretching. */
  lemma RotationKeepsLength(q: Quat, v: Vec)
    requires IsUnit(q) && |v| == 3
    ensures Dot(Rotated(q, v), Rotated(q, v)) == Dot(v, v)
  {
    var r, m := Rotated(q, v), Dcm(q);
    Dot3(m[0], v);
    Dot3(m[1], v);
    Dot3(m[2], v);
    Dot3(r, r);
    Dot3(v, v);
    var pure, turned := Quat(0.0, v[0], v[1], v[2]), Quat(0.0, r[0], r[1], r[2]);
    var half := Product(q, pure);
    SandwichQuat(q.w, q.x, q.y, q.z, v[0], v[1], v[2]);
    assert Product(half, Conjugate(q)) == turned;
    ProductNorm(q, pure);
    ProductNorm(half, Conjugate(q));
    assert NormSq(Conjugate(q)) == NormSq(q);
    assert NormSq(turned) == Dot(r, r);
    assert NormSq(pure) == Dot(v, v);
  }
}
