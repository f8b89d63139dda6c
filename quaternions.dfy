/** Quaternions a + bi + cj + dk over the reals (Quaternion.java).

    A `Quaternion` is an immutable 4-tuple; every operation returns a fresh
    value. The operations that throw in Java (`inverse`, `getUnit`,
    `getAngle`, `getAxis`) return a `Result` whose failure names the kind of
    error instead.
 */
module Quaternions {
  import opened JavaMath
  import Vectors

  datatype Quaternion = Quaternion(a: real, b: real, c: real, d: real)

  /** Why an operation has no result: the zero quaternion cannot be inverted
      or normalised, and a quaternion whose scalar part lies outside [-1, 1]
      encodes no rotation angle. */
  datatype Error = DegenerateOperand | UndefinedRotation

  datatype Result<T> = Ok(value: T) | Failure(error: Error)

  const Zero: Quaternion := Quaternion(0.0, 0.0, 0.0, 0.0)

  /** The unit of the Hamilton product. */
  const One: Quaternion := Quaternion(1.0, 0.0, 0.0, 0.0)

  /** The imaginary units. */
  const I: Quaternion := Quaternion(0.0, 1.0, 0.0, 0.0)
  const J: Quaternion := Quaternion(0.0, 0.0, 1.0, 0.0)
  const K: Quaternion := Quaternion(0.0, 0.0, 0.0, 1.0)

  // Construction and accessors

  /** The quaternion of a rotation by `angle` about `axis`: the cosine of
      the half angle, and the axis scaled by the sine of the half angle. */
  function FromAngleAxis(lib: Lib, angle: real, axis: Vectors.Vector): (q: Quaternion)
    ensures ScalarPart(q) == lib.cos(angle / 2.0)
    ensures VectorPart(q) == Vectors.Scale(axis, lib.sin(angle / 2.0))
  {
    var halfSin := lib.sin(angle / 2.0);
    Quaternion(lib.cos(angle / 2.0), axis.x * halfSin, axis.y * halfSin, axis.z * halfSin)
  }

  function ScalarPart(q: Quaternion): real {
    q.a
  }

  function VectorPart(q: Quaternion): Vectors.Vector {
    Vectors.Vector(q.b, q.c, q.d)
  }

  /** A quaternion is determined by its scalar part and its vector part. */
  lemma PartsDetermine(p: Quaternion, q: Quaternion)
    ensures p == q <==> ScalarPart(p) == ScalarPart(q) && VectorPart(p) == VectorPart(q)
  {
  }

  // Angle and axis

  /** The rotation angle, `(2 * acos(a)) % (2 * PI)`. Java's `acos` yields
      NaN exactly when |a| > 1, and then the angle is undefined. */
  function GetAngle(lib: Lib, q: Quaternion): (r: Result<real>)
    ensures r.Failure? <==> q.a < -1.0 || 1.0 < q.a
    ensures r.Failure? ==> r.error == UndefinedRotation
  {
    if q.a < -1.0 || 1.0 < q.a then
      Failure(UndefinedRotation)
    else
      Ok(Rem(2.0 * lib.acos(q.a), 2.0 * PI))
  }

  /** The rotation axis: the vector part divided by the sine of half the
      angle, or the zero vector when that sine is zero. Fails exactly when
      `GetAngle` does. */
  function GetAxis(lib: Lib, q: Quaternion): (r: Result<Vectors.Vector>)
    ensures r.Failure? <==> GetAngle(lib, q).Failure?
    ensures r.Failure? ==> r.error == UndefinedRotation
    ensures r.Ok? && lib.sin(GetAngle(lib, q).value / 2.0) == 0.0 ==> r.value == Vectors.Zero
    ensures r.Ok? && lib.sin(GetAngle(lib, q).value / 2.0) != 0.0 ==>
      Vectors.Scale(r.value, lib.sin(GetAngle(lib, q).value / 2.0)) == VectorPart(q)
  {
    match GetAngle(lib, q)
    case Failure(e) => Failure(e)
    case Ok(angle) =>
      var halfSin := lib.sin(angle / 2.0);
      if halfSin == 0.0 then
        Ok(Vectors.Vector(0.0, 0.0, 0.0))
      else
        Ok(Vectors.Vector(q.b / halfSin, q.c / halfSin, q.d / halfSin))
  }

  // Linear operations

  /** Multiplication by a number (`times(double)`). */
  function Scale(q: Quaternion, k: real): Quaternion {
    Quaternion(k * q.a, k * q.b, k * q.c, k * q.d)
  }

  function Conjugate(q: Quaternion): Quaternion {
    Quaternion(q.a, -q.b, -q.c, -q.d)
  }

  function Plus(p: Quaternion, q: Quaternion): Quaternion {
    Quaternion(p.a + q.a, p.b + q.b, p.c + q.c, p.d + q.d)
  }

  function Minus(p: Quaternion, q: Quaternion): (r: Quaternion)
    ensures Plus(r, q) == p
  {
    Quaternion(p.a - q.a, p.b - q.b, p.c - q.c, p.d - q.d)
  }

  /** The Hamilton product (`times(Quaternion)`). */
  function Mul(p: Quaternion, q: Quaternion): Quaternion {
    Quaternion(
      p.a * q.a - p.b * q.b - p.c * q.c - p.d * q.d,
      p.a * q.b + p.b * q.a + p.c * q.d - p.d * q.c,
      p.a * q.c - p.b * q.d + p.c * q.a + p.d * q.b,
      p.a * q.d + p.b * q.c - p.c * q.b + p.d * q.a)
  }

  // Norm, inverse and unit

  /** The sum of the squared coefficients, the radicand of `norm`. */
  function NormSq(q: Quaternion): real {
    q.a * q.a + q.b * q.b + q.c * q.c + q.d * q.d
  }

  function Norm(lib: Lib, q: Quaternion): real {
    lib.sqrt(NormSq(q))
  }

  /** The conjugate divided by the squared norm; the zero quaternion has none. */
  function Inverse(lib: Lib, q: Quaternion): (r: Result<Quaternion>)
    ensures r.Failure? <==> Norm(lib, q) == 0.0
    ensures r.Failure? ==> r.error == DegenerateOperand
  {
    var norm := Norm(lib, q);
    if norm == 0.0 then
      Failure(DegenerateOperand)
    else
      Ok(Scale(Conjugate(q), 1.0 / (norm * norm)))
  }

  /** The quaternion divided by its norm; the zero quaternion has none. */
  function GetUnit(lib: Lib, q: Quaternion): (r: Result<Quaternion>)
    ensures r.Failure? <==> Norm(lib, q) == 0.0
    ensures r.Failure? ==> r.error == DegenerateOperand
  {
    var norm := Norm(lib, q);
    if norm == 0.0 then
      Failure(DegenerateOperand)
    else
      Ok(Scale(q, 1.0 / norm))
  }

  // Laws of the linear operations

  lemma ConjugateInvolutive(q: Quaternion)
    ensures Conjugate(Conjugate(q)) == q
    ensures Conjugate(Zero) == Zero
  {
  }

  /** Adding the conjugate doubles the scalar part and cancels the vector
      part; subtracting it doubles the negated vector part. */
  lemma ConjugateSumDifference(q: Quaternion)
    ensures Plus(Conjugate(q), q) == Quaternion(2.0 * q.a, 0.0, 0.0, 0.0)
    ensures Minus(Conjugate(q), q) == Quaternion(0.0, -2.0 * q.b, -2.0 * q.c, -2.0 * q.d)
  {
  }

  lemma PlusMinusZero(q: Quaternion)
    ensures Plus(q, Zero) == q && Plus(Zero, q) == q
    ensures Minus(q, Zero) == q
    ensures Minus(q, q) == Zero
  {
  }

  lemma PlusCommutative(p: Quaternion, q: Quaternion)
    ensures Plus(p, q) == Plus(q, p)
  {
  }

  lemma ScaleLaws(q: Quaternion, k: real)
    ensures Scale(q, 0.0) == Zero
    ensures Scale(q, 1.0) == q
    ensures Plus(q, q) == Scale(q, 2.0)
    ensures Scale(Zero, k) == Zero
  {
  }

  // Laws of the Hamilton product

  /** `One` is a two-sided identity of the Hamilton product. */
  lemma MulOne(q: Quaternion)
    ensures Mul(One, q) == q && Mul(q, One) == q
  {
  }

  lemma MulZero(q: Quaternion)
    ensures Mul(Zero, q) == Zero && Mul(q, Zero) == Zero
  {
  }

  /** A quaternion times its conjugate, in either order, is the real
      quaternion of its squared norm. */
  lemma MulConjugate(q: Quaternion)
    ensures Mul(q, Conjugate(q)) == Quaternion(NormSq(q), 0.0, 0.0, 0.0)
    ensures Mul(Conjugate(q), q) == Quaternion(NormSq(q), 0.0, 0.0, 0.0)
  {
  }

  /** A real factor can be taken out of either operand. */
  lemma MulScale(p: Quaternion, q: Quaternion, k: real)
    ensures Mul(p, Scale(q, k)) == Scale(Mul(p, q), k)
    ensures Mul(Scale(p, k), q) == Scale(Mul(p, q), k)
  {
    MulScaleRightA(p, q, k);
    MulScaleRightB(p, q, k);
    MulScaleRightC(p, q, k);
    MulScaleRightD(p, q, k);
    MulScaleLeftA(p, q, k);
    MulScaleLeftB(p, q, k);
    MulScaleLeftC(p, q, k);
    MulScaleLeftD(p, q, k);
  }

  // `MulScale` and `ConjugateMul` one component at a time, so that each
  // proof sees the products of a single component only.

  lemma MulScaleRightA(p: Quaternion, q: Quaternion, k: real)
    ensures Mul(p, Scale(q, k)).a == k * Mul(p, q).a
  {
    var s := Scale(q, k);
    ScaledRightA(k, p.a, p.b, p.c, p.d, q.a, q.b, q.c, q.d, s.a, s.b, s.c, s.d, Mul(p, q).a);
  }

  lemma ScaledRightA(k: real, pa: real, pb: real, pc: real, pd: real,
                      qa: real, qb: real, qc: real, qd: real,
                      sa: real, sb: real, sc: real, sd: real, m: real)
    requires sa == k * qa && sb == k * qb && sc == k * qc && sd == k * qd
    requires m == pa * qa - pb * qb - pc * qc - pd * qd
    ensures pa * sa - pb * sb - pc * sc - pd * sd == k * m
  {
  }
  lemma MulScaleLeftA(p: Quaternion, q: Quaternion, k: real)
    ensures Mul(Scale(p, k), q).a == k * Mul(p, q).a
  {
    var s := Scale(p, k);
    ScaledLeftA(k, p.a, p.b, p.c, p.d, s.a, s.b, s.c, s.d, q.a, q.b, q.c, q.d, Mul(p, q).a);
  }

  lemma ScaledLeftA(k: real, pa: real, pb: real, pc: real, pd: real,
                     sa: real, sb: real, sc: real, sd: real,
                     qa: real, qb: real, qc: real, qd: real, m: real)
    requires sa == k * pa && sb == k * pb && sc == k * pc && sd == k * pd
    requires m == pa * qa - pb * qb - pc * qc - pd * qd
    ensures sa * qa - sb * qb - sc * qc - sd * qd == k * m
  {
  }

  lemma MulScaleRightB(p: Quaternion, q: Quaternion, k: real)
    ensures Mul(p, Scale(q, k)).b == k * Mul(p, q).b
  {
    var s := Scale(q, k);
    ScaledRightB(k, p.a, p.b, p.c, p.d, q.a, q.b, q.c, q.d, s.a, s.b, s.c, s.d, Mul(p, q).b);
  }

  lemma ScaledRightB(k: real, pa: real, pb: real, pc: real, pd: real,
                      qa: real, qb: real, qc: real, qd: real,
                      sa: real, sb: real, sc: real, sd: real, m: real)
    requires sa == k * qa && sb == k * qb && sc == k * qc && sd == k * qd
    requires m == pa * qb + pb * qa + pc * qd - pd * qc
    ensures pa * sb + pb * sa + pc * sd - pd * sc == k * m
  {
  }
  lemma MulScaleLeftB(p: Quaternion, q: Quaternion, k: real)
    ensures Mul(Scale(p, k), q).b == k * Mul(p, q).b
  {
    var s := Scale(p, k);
    ScaledLeftB(k, p.a, p.b, p.c, p.d, s.a, s.b, s.c, s.d, q.a, q.b, q.c, q.d, Mul(p, q).b);
  }

  lemma ScaledLeftB(k: real, pa: real, pb: real, pc: real, pd: real,
                     sa: real, sb: real, sc: real, sd: real,
                     qa: real, qb: real, qc: real, qd: real, m: real)
    requires sa == k * pa && sb == k * pb && sc == k * pc && sd == k * pd
    requires m == pa * qb + pb * qa + pc * qd - pd * qc
    ensures sa * qb + sb * qa + sc * qd - sd * qc == k * m
  {
  }

  lemma MulScaleRightC(p: Quaternion, q: Quaternion, k: real)
    ensures Mul(p, Scale(q, k)).c == k * Mul(p, q).c
  {
    var s := Scale(q, k);
    ScaledRightC(k, p.a, p.b, p.c, p.d, q.a, q.b, q.c, q.d, s.a, s.b, s.c, s.d, Mul(p, q).c);
  }

  lemma ScaledRightC(k: real, pa: real, pb: real, pc: real, pd: real,
                      qa: real, qb: real, qc: real, qd: real,
                      sa: real, sb: real, sc: real, sd: real, m: real)
    requires sa == k * qa && sb == k * qb && sc == k * qc && sd == k * qd
    requires m == pa * qc - pb * qd + pc * qa + pd * qb
    ensures pa * sc - pb * sd + pc * sa + pd * sb == k * m
  {
  }
  lemma MulScaleLeftC(p: Quaternion, q: Quaternion, k: real)
    ensures Mul(Scale(p, k), q).c == k * Mul(p, q).c
  {
    var s := Scale(p, k);
    ScaledLeftC(k, p.a, p.b, p.c, p.d, s.a, s.b, s.c, s.d, q.a, q.b, q.c, q.d, Mul(p, q).c);
  }

  lemma ScaledLeftC(k: real, pa: real, pb: real, pc: real, pd: real,
                     sa: real, sb: real, sc: real, sd: real,
                     qa: real, qb: real, qc: real, qd: real, m: real)
    requires sa == k * pa && sb == k * pb && sc == k * pc && sd == k * pd
    requires m == pa * qc - pb * qd + pc * qa + pd * qb
    ensures sa * qc - sb * qd + sc * qa + sd * qb == k * m
  {
  }

  lemma MulScaleRightD(p: Quaternion, q: Quaternion, k: real)
    ensures Mul(p, Scale(q, k)).d == k * Mul(p, q).d
  {
    var s := Scale(q, k);
    ScaledRightD(k, p.a, p.b, p.c, p.d, q.a, q.b, q.c, q.d, s.a, s.b, s.c, s.d, Mul(p, q).d);
  }

  lemma ScaledRightD(k: real, pa: real, pb: real, pc: real, pd: real,
                      qa: real, qb: real, qc: real, qd: real,
                      sa: real, sb: real, sc: real, sd: real, m: real)
    requires sa == k * qa && sb == k * qb && sc == k * qc && sd == k * qd
    requires m == pa * qd + pb * qc - pc * qb + pd * qa
    ensures pa * sd + pb * sc - pc * sb + pd * sa == k * m
  {
  }
  lemma MulScaleLeftD(p: Quaternion, q: Quaternion, k: real)
    ensures Mul(Scale(p, k), q).d == k * Mul(p, q).d
  {
    var s := Scale(p, k);
    ScaledLeftD(k, p.a, p.b, p.c, p.d, s.a, s.b, s.c, s.d, q.a, q.b, q.c, q.d, Mul(p, q).d);
  }

  lemma ScaledLeftD(k: real, pa: real, pb: real, pc: real, pd: real,
                     sa: real, sb: real, sc: real, sd: real,
                     qa: real, qb: real, qc: real, qd: real, m: real)
    requires sa == k * pa && sb == k * pb && sc == k * pc && sd == k * pd
    requires m == pa * qd + pb * qc - pc * qb + pd * qa
    ensures sa * qd + sb * qc - sc * qb + sd * qa == k * m
  {
  }

  /** Conjugation reverses the order of a product. */
  lemma ConjugateMul(p: Quaternion, q: Quaternion)
    ensures Conjugate(Mul(p, q)) == Mul(Conjugate(q), Conjugate(p))
  {
    ConjugateMulA(p, q);
    ConjugateMulB(p, q);
    ConjugateMulC(p, q);
    ConjugateMulD(p, q);
  }

  lemma ConjugateMulA(p: Quaternion, q: Quaternion)
    ensures Conjugate(Mul(p, q)).a == Mul(Conjugate(q), Conjugate(p)).a
  {
  }

  lemma ConjugateMulB(p: Quaternion, q: Quaternion)
    ensures Conjugate(Mul(p, q)).b == Mul(Conjugate(q), Conjugate(p)).b
  {
  }

  lemma ConjugateMulC(p: Quaternion, q: Quaternion)
    ensures Conjugate(Mul(p, q)).c == Mul(Conjugate(q), Conjugate(p)).c
  {
  }

  lemma ConjugateMulD(p: Quaternion, q: Quaternion)
    ensures Conjugate(Mul(p, q)).d == Mul(Conjugate(q), Conjugate(p)).d
  {
  }

  /** The product is not commutative: for the units i and j, ij = k but
      ji = -k. */
  lemma MulNotCommutative()
    ensures Mul(I, J) == K
    ensures Mul(J, I) == Scale(K, -1.0)
  {
    assert Mul(I, J) == Quaternion(0.0 - 0.0 - 0.0 - 0.0, 0.0 + 0.0 + 0.0 - 0.0, 0.0 - 0.0 + 0.0 + 0.0, 0.0 + 1.0 - 0.0 + 0.0);
    assert Mul(J, I) == Quaternion(0.0 - 0.0 - 0.0 - 0.0, 0.0 + 0.0 + 0.0 - 0.0, 0.0 - 0.0 + 0.0 + 0.0, 0.0 + 0.0 - 1.0 + 0.0);
  }

  // Norm, inverse and unit

  /** The squared norm is non-negative and zero only for the zero quaternion. */
  lemma NormSqZero(q: Quaternion)
    ensures 0.0 <= NormSq(q)
    ensures NormSq(q) == 0.0 <==> q == Zero
  {
    SquareNonNegative(q.a, q.a * q.a);
    SquareNonNegative(q.b, q.b * q.b);
    SquareNonNegative(q.c, q.c * q.c);
    SquareNonNegative(q.d, q.d * q.d);
    if q.a != 0.0 { SquarePositive(q.a, q.a * q.a); }
    if q.b != 0.0 { SquarePositive(q.b, q.b * q.b); }
    if q.c != 0.0 { SquarePositive(q.c, q.c * q.c); }
    if q.d != 0.0 { SquarePositive(q.d, q.d * q.d); }
  }

  /** The norm is the non-negative square root of the squared norm and is
      zero exactly for the zero quaternion. */
  lemma NormSpec(lib: Lib, q: Quaternion)
    requires SqrtLawful(lib)
    ensures Norm(lib, q) == lib.sqrt(NormSq(q))
    ensures 0.0 <= Norm(lib, q) && Norm(lib, q) * Norm(lib, q) == NormSq(q)
    ensures Norm(lib, q) == 0.0 <==> q == Zero
  {
    NormSqZero(q);
    SqrtZeroIff(lib, NormSq(q));
  }

  /** The inverse fails exactly for the zero quaternion; otherwise it is the
      conjugate divided by the squared norm. */
  lemma InverseSpec(lib: Lib, q: Quaternion)
    requires SqrtLawful(lib)
    ensures Inverse(lib, q).Failure? <==> q == Zero
    ensures q != Zero ==> NormSq(q) != 0.0 && Inverse(lib, q) == Ok(Scale(Conjugate(q), 1.0 / NormSq(q)))
  {
    NormSpec(lib, q);
    NormSqZero(q);
    if q != Zero {
      var n := Norm(lib, q);
      Reciprocal(n * n, NormSq(q));
      assert n != 0.0;
      assert Inverse(lib, q).Ok?;
      assert Inverse(lib, q).value == Scale(Conjugate(q), 1.0 / (n * n));
      assert 1.0 / (n * n) == 1.0 / NormSq(q);
    }
  }

  /** The inverse of a non-zero quaternion is a two-sided inverse for the
      Hamilton product. */
  lemma InverseIsInverse(lib: Lib, q: Quaternion)
    requires SqrtLawful(lib)
    requires q != Zero
    ensures Inverse(lib, q).Ok?
    ensures Mul(q, Inverse(lib, q).value) == One
    ensures Mul(Inverse(lib, q).value, q) == One
  {
    InverseSpec(lib, q);
    var s := NormSq(q);
    var k := 1.0 / s;
    MulScale(q, Conjugate(q), k);
    MulScale(Conjugate(q), q, k);
    MulConjugate(q);
    ReciprocalProduct(s, k);
    assert Scale(Quaternion(s, 0.0, 0.0, 0.0), k) == One;
  }

  lemma Reciprocal(x: real, y: real)
    requires x != 0.0 && x == y
    ensures 1.0 / x == 1.0 / y
  {
  }

  lemma ReciprocalProduct(s: real, k: real)
    requires s != 0.0 && k == 1.0 / s
    ensures k * s == 1.0
  {
  }

  /** The unit quaternion fails exactly for the zero quaternion; otherwise it
      is the quaternion divided by its norm, and its own norm is 1. */
  lemma GetUnitSpec(lib: Lib, q: Quaternion)
    requires SqrtLawful(lib)
    ensures GetUnit(lib, q).Failure? <==> q == Zero
    ensures q != Zero ==>
      && GetUnit(lib, q) == Ok(Scale(q, 1.0 / Norm(lib, q)))
      && Norm(lib, GetUnit(lib, q).value) == 1.0
  {
    NormSpec(lib, q);
    if q != Zero {
      var n := Norm(lib, q);
      var u := Scale(q, 1.0 / n);
      NormSqScale(q, 1.0 / n);
      ReciprocalSquare(n, NormSq(q), NormSq(u));
      NormSpec(lib, u);
      SqrtOne(lib);
    }
  }

  lemma ReciprocalSquare(n: real, s: real, t: real)
    requires n != 0.0 && n * n == s && t == (1.0 / n * (1.0 / n)) * s
    ensures t == 1.0
  {
  }

  /** Scaling by `k` multiplies the squared norm by `k * k`. */
  lemma NormSqScale(q: Quaternion, k: real)
    ensures NormSq(Scale(q, k)) == (k * k) * NormSq(q)
  {
  }

  // Angle and axis

  /** When defined, the angle lies in [0, 2 * PI): it is twice the arccosine
      of the scalar part, except that the full turn 2 * PI is reduced to 0. */
  lemma GetAngleRange(lib: Lib, q: Quaternion)
    requires AcosLawful(lib)
    ensures GetAngle(lib, q).Ok? ==>
      && 0.0 <= GetAngle(lib, q).value < 2.0 * PI
      && GetAngle(lib, q).value == (if lib.acos(q.a) < PI then 2.0 * lib.acos(q.a) else 0.0)
  {
    if GetAngle(lib, q).Ok? {
      RemInRange(2.0 * lib.acos(q.a), 2.0 * PI);
    }
  }

  /** A quaternion built from a unit axis has norm 1, and its angle and axis
      are defined. */
  lemma FromAngleAxisUnit(lib: Lib, angle: real, axis: Vectors.Vector)
    requires SqrtLawful(lib) && TrigLawful(lib)
    requires Vectors.Dot(axis, axis) == 1.0
    ensures NormSq(FromAngleAxis(lib, angle, axis)) == 1.0
    ensures Norm(lib, FromAngleAxis(lib, angle, axis)) == 1.0
    ensures GetAngle(lib, FromAngleAxis(lib, angle, axis)).Ok?
    ensures GetAxis(lib, FromAngleAxis(lib, angle, axis)).Ok?
    ensures GetUnit(lib, FromAngleAxis(lib, angle, axis)) == Ok(FromAngleAxis(lib, angle, axis))
  {
    var q := FromAngleAxis(lib, angle, axis);
    var s, c := lib.sin(angle / 2.0), lib.cos(angle / 2.0);
    assert s * s + c * c == 1.0;
    Vectors.DotScaleSelf(axis, s);
    assert NormSq(q) == c * c + Vectors.Dot(VectorPart(q), VectorPart(q));
    SqrtOne(lib);
    SinCosBounded(lib, angle / 2.0);
    ScaleLaws(q, 1.0);
  }

  /** Reversing the axis conjugates the quaternion. */
  lemma FromAngleAxisNeg(lib: Lib, angle: real, axis: Vectors.Vector)
    ensures FromAngleAxis(lib, angle, Vectors.Neg(axis)) == Conjugate(FromAngleAxis(lib, angle, axis))
  {
  }

  /** A rotation by angle 0 about any axis is the identity quaternion, whose
      angle is 0 and whose axis is the zero vector. */
  lemma ZeroRotation(lib: Lib, axis: Vectors.Vector)
    requires TrigLawful(lib) && lib.acos(1.0) == 0.0
    ensures FromAngleAxis(lib, 0.0, axis) == One
    ensures GetAngle(lib, One) == Ok(0.0)
    ensures GetAxis(lib, One) == Ok(Vectors.Zero)
  {
    assert 0.0 / 2.0 == 0.0;
    RemInRange(0.0, 2.0 * PI);
  }

  // Examples from the repository's tests

  /** (1.337, 2.28, 18.98, 20.2) has no angle and no axis. */
  lemma NoRotationExample(lib: Lib)
    ensures GetAngle(lib, Quaternion(1.337, 2.28, 18.98, 20.2)) == Failure(UndefinedRotation)
    ensures GetAxis(lib, Quaternion(1.337, 2.28, 18.98, 20.2)) == Failure(UndefinedRotation)
  {
  }

  /** Scaling (1.337, 2.28, 18.98, 20.2) by 29.78 and by -2. */
  lemma ScaleExample()
    ensures Scale(Quaternion(1.337, 2.28, 18.98, 20.2), 29.78) == Quaternion(39.81586, 67.8984, 565.2244, 601.556)
    ensures Scale(Quaternion(1.337, 2.28, 18.98, 20.2), -2.0) == Quaternion(-2.674, -4.56, -37.96, -40.4)
  {
  }

  /** The zero quaternion has neither an inverse nor a unit. */
  lemma ZeroHasNoInverse(lib: Lib)
    requires SqrtLawful(lib)
    ensures Inverse(lib, Zero) == Failure(DegenerateOperand)
    ensures GetUnit(lib, Zero) == Failure(DegenerateOperand)
  {
    NormSpec(lib, Zero);
  }

  // Equality

  /** `equals` as written: after the first coefficient it compares `b`, `c`
      and `d` with the receiver's own, so only `a` decides. */
  function JavaEquals(p: Quaternion, q: Quaternion): (r: bool)
    ensures r <==> p.a == q.a
  {
    p.a == q.a && p.b == p.b && p.c == p.c && p.d == p.d
  }

  /** The zero quaternion and i, different quaternions that `equals` as
      written declares equal. */
  lemma JavaEqualsCounterexample()
    ensures JavaEquals(Zero, Quaternion(0.0, 1.0, 0.0, 0.0))
    ensures Zero != Quaternion(0.0, 1.0, 0.0, 0.0)
  {
  }

  /** Coefficient-wise comparison, the equality `equals` is meant to be: it
      holds exactly for equal quaternions. */
  function Equals(p: Quaternion, q: Quaternion): (r: bool)
    ensures r <==> p == q
  {
    p.a == q.a && p.b == q.b && p.c == q.c && p.d == q.d
  }
}
