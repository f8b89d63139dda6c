/** Three-dimensional vectors over the reals (Vector.java).

    A `Vector` is an immutable triple; every operation returns a fresh value.
    The getters `getX`, `getY`, `getZ` are the datatype's fields `x`, `y`, `z`.
 */
module Vectors {
  import opened JavaMath

  datatype Vector = Vector(x: real, y: real, z: real)

  /** The zero vector. */
  const Zero: Vector := Vector(0.0, 0.0, 0.0)

  /** Euclidean length: the square root of the sum of the squared components. */
  function Length(lib: Lib, v: Vector): real {
    lib.sqrt(Dot(v, v))
  }

  /** Component-wise sum. */
  function Plus(v: Vector, w: Vector): Vector {
    Vector(v.x + w.x, v.y + w.y, v.z + w.z)
  }

  /** The opposite vector (`unaryMinus`). */
  function Neg(v: Vector): (r: Vector)
    ensures Plus(v, r) == Zero
  {
    Vector(-v.x, -v.y, -v.z)
  }

  /** Difference, defined as the sum with the opposite of `w`. */
  function Minus(v: Vector, w: Vector): (r: Vector)
    ensures r == Vector(v.x - w.x, v.y - w.y, v.z - w.z)
    ensures Plus(r, w) == v
  {
    Plus(v, Neg(w))
  }

  /** Scalar (dot) product. */
  function Dot(v: Vector, w: Vector): real {
    v.x * w.x + v.y * w.y + v.z * w.z
  }

  /** Right-handed cross product. */
  function Cross(v: Vector, w: Vector): Vector {
    Vector(v.y * w.z - v.z * w.y, v.z * w.x - v.x * w.z, v.x * w.y - v.y * w.x)
  }

  /** Multiplication by a number (`times(double)`). */
  function Scale(v: Vector, k: real): Vector {
    Vector(k * v.x, k * v.y, k * v.z)
  }

  // Sum, opposite and difference

  lemma NegInvolutive(v: Vector)
    ensures Neg(Neg(v)) == v
    ensures Neg(Zero) == Zero
  {
  }

  lemma PlusZero(v: Vector)
    ensures Plus(v, Zero) == v && Plus(Zero, v) == v
  {
  }

  lemma PlusCommutative(v: Vector, w: Vector)
    ensures Plus(v, w) == Plus(w, v)
  {
  }

  lemma PlusAssociative(u: Vector, v: Vector, w: Vector)
    ensures Plus(Plus(u, v), w) == Plus(u, Plus(v, w))
  {
  }

  lemma PlusMinusCancel(v: Vector, w: Vector)
    ensures Minus(Plus(v, w), w) == v
  {
  }

  lemma MinusZero(v: Vector)
    ensures Minus(v, Zero) == v
    ensures Minus(Zero, v) == Neg(v)
    ensures Minus(v, v) == Zero
  {
  }

  // Dot product

  lemma DotSymmetric(v: Vector, w: Vector)
    ensures Dot(v, w) == Dot(w, v)
  {
  }

  lemma DotZero(v: Vector)
    ensures Dot(v, Zero) == 0.0 && Dot(Zero, v) == 0.0
  {
  }

  /** The dot product of a vector with itself is non-negative, and zero
      only for the zero vector. */
  lemma DotSelf(v: Vector)
    ensures 0.0 <= Dot(v, v)
    ensures Dot(v, v) == 0.0 <==> v == Zero
  {
    SquareNonNegative(v.x, v.x * v.x);
    SquareNonNegative(v.y, v.y * v.y);
    SquareNonNegative(v.z, v.z * v.z);
    if v.x != 0.0 { SquarePositive(v.x, v.x * v.x); }
    if v.y != 0.0 { SquarePositive(v.y, v.y * v.y); }
    if v.z != 0.0 { SquarePositive(v.z, v.z * v.z); }
  }

  lemma DotScale(v: Vector, w: Vector, k: real)
    ensures Dot(Scale(v, k), w) == k * Dot(v, w)
    ensures Dot(v, Scale(w, k)) == k * Dot(v, w)
  {
  }

  lemma DotPlus(u: Vector, v: Vector, w: Vector)
    ensures Dot(Plus(u, v), w) == Dot(u, w) + Dot(v, w)
  {
  }

  // Cross product

  lemma CrossAnticommutative(v: Vector, w: Vector)
    ensures Cross(v, w) == Neg(Cross(w, v))
  {
  }

  /** The cross product is orthogonal to both operands. */
  lemma CrossOrthogonal(v: Vector, w: Vector)
    ensures Dot(Cross(v, w), v) == 0.0 && Dot(Cross(v, w), w) == 0.0
  {
  }

  lemma CrossZero(v: Vector)
    ensures Cross(Zero, v) == Zero && Cross(v, Zero) == Zero
    ensures Cross(v, v) == Zero
  {
  }

  lemma CrossScale(v: Vector, w: Vector, k: real)
    ensures Cross(Scale(v, k), w) == Scale(Cross(v, w), k)
    ensures Cross(v, Scale(w, k)) == Scale(Cross(v, w), k)
  {
    var c := Cross(Scale(v, k), w);
    assert c.x == k * (v.y * w.z) - k * (v.z * w.y);
    assert c.y == k * (v.z * w.x) - k * (v.x * w.z);
    assert c.z == k * (v.x * w.y) - k * (v.y * w.x);
  }

  /** Parallel vectors have a zero cross product. */
  lemma CrossParallel(v: Vector, k: real)
    ensures Cross(v, Scale(v, k)) == Zero
  {
    CrossScale(v, v, k);
    CrossZero(v);
  }

  // Scaling

  lemma ScaleZero(v: Vector, k: real)
    ensures Scale(v, 0.0) == Zero
    ensures Scale(Zero, k) == Zero
  {
  }

  lemma ScaleOne(v: Vector)
    ensures Scale(v, 1.0) == v
    ensures Scale(v, -1.0) == Neg(v)
  {
  }

  lemma ScaleCompose(v: Vector, k: real, m: real)
    ensures Scale(Scale(v, k), m) == Scale(v, m * k)
  {
  }

  lemma ScalePlus(v: Vector, w: Vector, k: real)
    ensures Scale(Plus(v, w), k) == Plus(Scale(v, k), Scale(w, k))
  {
  }

  // Length

  /** The length is the square root of the dot product of a vector with
      itself: it is non-negative, squares to that dot product, and is zero
      exactly for the zero vector. */
  lemma LengthSpec(lib: Lib, v: Vector)
    requires SqrtLawful(lib)
    ensures Length(lib, v) == lib.sqrt(Dot(v, v))
    ensures 0.0 <= Length(lib, v)
    ensures Length(lib, v) * Length(lib, v) == Dot(v, v)
    ensures Length(lib, v) == 0.0 <==> v == Zero
  {
    DotSelf(v);
    SqrtZeroIff(lib, Dot(v, v));
  }

  lemma LengthNeg(lib: Lib, v: Vector)
    ensures Length(lib, Neg(v)) == Length(lib, v)
  {
    assert Dot(Neg(v), Neg(v)) == Dot(v, v);
  }

  /** Scaling by `k` scales the length by the magnitude of `k`. */
  lemma LengthScale(lib: Lib, v: Vector, k: real)
    requires SqrtLawful(lib)
    ensures Length(lib, Scale(v, k)) == (if k < 0.0 then -k else k) * Length(lib, v)
  {
    var m := if k < 0.0 then -k else k;
    var d := Dot(v, v);
    var l := Length(lib, v);
    LengthSpec(lib, v);
    DotScaleSelf(v, k);
    ScaledRoot(k, m, l, d);
    SqrtUnique(lib, Dot(Scale(v, k), Scale(v, k)), m * l);
    LengthSpec(lib, Scale(v, k));
  }

  lemma DotScaleSelf(v: Vector, k: real)
    ensures Dot(Scale(v, k), Scale(v, k)) == (k * k) * Dot(v, v)
  {
    DotScale(v, Scale(v, k), k);
    DotScale(v, v, k);
  }

  /** If `l` is the root of `d`, then `|k| * l` is the root of `k * k * d`. */
  lemma ScaledRoot(k: real, m: real, l: real, d: real)
    requires m == (if k < 0.0 then -k else k)
    requires 0.0 <= l && l * l == d
    ensures 0.0 <= m * l && (m * l) * (m * l) == (k * k) * d
  {
    MulNonNegative(m, l, m * l);
    assert m * m == k * k;
    assert (m * l) * (m * l) == (m * m) * (l * l);
  }

  // Examples from the repository's tests

  lemma CrossExample()
    ensures Cross(Vector(3.0, 2.0, -2.0), Vector(1.5, -2.5, 3.5)) == Vector(2.0, -13.5, -10.5)
    ensures Cross(Vector(1.5, -2.5, 3.5), Vector(3.0, 2.0, -2.0)) == Neg(Vector(2.0, -13.5, -10.5))
  {
  }

  lemma DotExample()
    ensures Dot(Vector(1.0, -1.0, 0.0), Vector(3.0, 2.0, -2.0)) == 1.0
    ensures Dot(Vector(1.5, -2.5, 3.5), Vector(3.0, 2.0, -2.0)) == -7.5
  {
  }

  // The test vectors a = (1, -1, 0), b = (3, 2, -2) and c = (1.5, -2.5, 3.5).

  lemma PlusExample()
    ensures Plus(Vector(1.0, -1.0, 0.0), Vector(3.0, 2.0, -2.0)) == Vector(4.0, 1.0, -2.0)
    ensures Plus(Vector(1.0, -1.0, 0.0), Plus(Vector(3.0, 2.0, -2.0), Vector(1.5, -2.5, 3.5))) == Vector(5.5, -1.5, 1.5)
  {
  }

  /** b - a, and a - (b - c) in two steps: first b - c, then a minus that. */
  lemma MinusExample()
    ensures Minus(Vector(3.0, 2.0, -2.0), Vector(1.0, -1.0, 0.0)) == Vector(2.0, 3.0, -2.0)
    ensures Minus(Vector(3.0, 2.0, -2.0), Vector(1.5, -2.5, 3.5)) == Vector(1.5, 4.5, -5.5)
    ensures Minus(Vector(1.0, -1.0, 0.0), Vector(1.5, 4.5, -5.5)) == Vector(-0.5, -5.5, 5.5)
  {
  }

  lemma NegExample()
    ensures Neg(Vector(1.5, -2.5, 3.5)) == Vector(-1.5, 2.5, -3.5)
  {
  }

  lemma ScaleExample()
    ensures Scale(Vector(1.5, -2.5, 3.5), 2.0) == Vector(3.0, -5.0, 7.0)
    ensures Scale(Vector(1.0, -1.0, 0.0), 0.0) == Zero
    ensures Scale(Zero, 123456.0) == Zero
  {
  }

  // Equality

  /** `equals` as written: after the first component it compares `y` and
      `z` with the receiver's own `y` and `z`, so only `x` decides. */
  function JavaEquals(v: Vector, w: Vector): (r: bool)
    ensures r <==> v.x == w.x
  {
    v.x == w.x && v.y == v.y && v.z == v.z
  }

  /** Two different vectors that `equals` as written declares equal: the
      vector the repository's test expects for a - (b - c), whose last
      component has the wrong sign, compared with the true value of
      a - (b - c) for the test vectors. */
  lemma JavaEqualsCounterexample()
    ensures Minus(Vector(1.0, -1.0, 0.0), Minus(Vector(3.0, 2.0, -2.0), Vector(1.5, -2.5, 3.5))) == Vector(-0.5, -5.5, 5.5)
    ensures JavaEquals(Vector(-0.5, -5.5, -5.5), Vector(-0.5, -5.5, 5.5))
    ensures !Equals(Vector(-0.5, -5.5, -5.5), Vector(-0.5, -5.5, 5.5))
  {
    MinusExample();
  }

  /** Component-wise comparison, the equality `equals` is meant to be: it
      holds exactly for equal vectors. */
  function Equals(v: Vector, w: Vector): (r: bool)
    ensures r <==> v == w
  {
    v.x == w.x && v.y == w.y && v.z == w.z
  }
}
