/** The numeric primitives the library takes from java.lang.Math, over `real`.

    `sqrt`, `sin`, `cos` and `acos` are foreign numeric routines. They are not
    defined here: every operation that calls one receives them as a `Lib`
    value, and the facts about them that the proofs rely on are collected in
    `SqrtLawful`, `TrigLawful` and `AcosLawful`. `PI` is the decimal value of the Java constant, and `Rem` is
    Java's `%` on floating-point operands (the remainder of a truncating
    division, which takes the sign of the dividend).
 */
module JavaMath {

  /** java.lang.Math.PI */
  const PI: real := 3.141592653589793

  /** The foreign routines of java.lang.Math that the library calls. */
  datatype Lib = Lib(
    sqrt: real -> real,
    sin: real -> real,
    cos: real -> real,
    acos: real -> real)

  /** The square root is the non-negative root of a non-negative argument. */
  ghost predicate SqrtLawful(lib: Lib) {
    forall t :: 0.0 <= t ==> 0.0 <= lib.sqrt(t) && lib.sqrt(t) * lib.sqrt(t) == t
  }

  /** Sine and cosine satisfy the Pythagorean identity and take their values
      at 0. */
  ghost predicate TrigLawful(lib: Lib) {
    && (forall t :: lib.sin(t) * lib.sin(t) + lib.cos(t) * lib.cos(t) == 1.0)
    && lib.sin(0.0) == 0.0
    && lib.cos(0.0) == 1.0
  }

  /** Arccosine maps [-1, 1] into [0, PI] and 1 to 0. The bound is stated
      against the decimal `PI`, as `Math.acos(-1.0) == Math.PI` in Java. */
  ghost predicate AcosLawful(lib: Lib) {
    && (forall t :: -1.0 <= t <= 1.0 ==> 0.0 <= lib.acos(t) <= PI)
    && lib.acos(1.0) == 0.0
  }

  /** A non-negative argument has a zero square root exactly when it is zero. */
  lemma SqrtZeroIff(lib: Lib, t: real)
    requires SqrtLawful(lib)
    requires 0.0 <= t
    ensures lib.sqrt(t) == 0.0 <==> t == 0.0
  {
    var s := lib.sqrt(t);
    assert 0.0 <= s && s * s == t;
    if s != 0.0 {
      MulPositive(s, s, t);
    }
  }

  /** A non-negative number whose square is `t` is the square root of `t`. */
  lemma SqrtUnique(lib: Lib, t: real, r: real)
    requires SqrtLawful(lib)
    requires 0.0 <= r && r * r == t
    ensures lib.sqrt(t) == r
  {
    SquareNonNegative(r, t);
    var s := lib.sqrt(t);
    assert 0.0 <= s && s * s == t;
    if s < r {
      MulPositive(r - s, r + s, r * r - s * s);
    } else if r < s {
      MulPositive(s - r, r + s, s * s - r * r);
    }
  }

  /** The only non-negative square root of 1 is 1. */
  lemma SqrtOne(lib: Lib)
    requires SqrtLawful(lib)
    ensures lib.sqrt(1.0) == 1.0
  {
    var s := lib.sqrt(1.0);
    assert 0.0 <= s && s * s == 1.0;
    if s < 1.0 {
      MulNonNegative(s, 1.0 - s, s - s * s);
    } else if s > 1.0 {
      MulPositive(s, s - 1.0, s * s - s);
    }
  }

  /** Sine and cosine stay within [-1, 1]. */
  lemma SinCosBounded(lib: Lib, t: real)
    requires TrigLawful(lib)
    ensures -1.0 <= lib.sin(t) <= 1.0 && -1.0 <= lib.cos(t) <= 1.0
  {
    var s, c := lib.sin(t), lib.cos(t);
    assert s * s + c * c == 1.0;
    SquareBound(s, c);
    SquareBound(c, s);
  }

  /** Each of two numbers whose squares add up to 1 lies in [-1, 1]. */
  lemma SquareBound(s: real, c: real)
    requires s * s + c * c == 1.0
    ensures -1.0 <= s <= 1.0
  {
    SquareNonNegative(c, c * c);
    if s > 1.0 {
      MulPositive(s, s - 1.0, s * s - s);
    } else if s < -1.0 {
      MulPositive(-s, -s - 1.0, s * s + s);
    }
  }

  /** A square is never negative. */
  lemma SquareNonNegative(s: real, r: real)
    requires s * s == r
    ensures 0.0 <= r
  {
    if s < 0.0 {
      MulPositive(-s, -s, r);
    } else {
      MulNonNegative(s, s, r);
    }
  }

  /** A non-zero number has a positive square. */
  lemma SquarePositive(s: real, r: real)
    requires s != 0.0 && s * s == r
    ensures 0.0 < r
  {
    if s < 0.0 {
      MulPositive(-s, -s, r);
    } else {
      MulPositive(s, s, r);
    }
  }

  /** The product of two positive numbers is positive. */
  lemma MulPositive(p: real, q: real, r: real)
    requires 0.0 < p && 0.0 < q && p * q == r
    ensures 0.0 < r
  {
  }

  /** The product of two non-negative numbers is non-negative. */
  lemma MulNonNegative(p: real, q: real, r: real)
    requires 0.0 <= p && 0.0 <= q && p * q == r
    ensures 0.0 <= r
  {
  }

  /** The integer part of `t`, rounded toward zero. */
  function Trunc(t: real): (n: int)
    ensures 0.0 <= t ==> 0.0 <= n as real <= t < n as real + 1.0
    ensures t <= 0.0 ==> n as real - 1.0 < t <= n as real <= 0.0
  {
    if 0.0 <= t then t.Floor else -((-t).Floor)
  }

  /** Java's `x % y` on doubles, for a positive divisor `y`: the remainder
      left by the truncating division of `x` by `y`. It has the sign of `x`,
      is smaller than `y` in magnitude, and differs from `x` by a whole
      multiple of `y`. */
  function Rem(x: real, y: real): (r: real)
    requires 0.0 < y
    ensures 0.0 <= x ==> 0.0 <= r < y
    ensures x <= 0.0 ==> -y < r <= 0.0
    ensures ((x - r) / y).Floor as real == (x - r) / y
  {
    var n := Trunc(x / y);
    RemBounds(x, y, x / y, n as real, x - y * n as real);
    x - y * n as real
  }

  /** The sign and size of `x - y * k` where `k` is `x / y` truncated. */
  lemma RemBounds(x: real, y: real, t: real, k: real, r: real)
    requires 0.0 < y && t == x / y && r == x - y * k
    requires 0.0 <= t ==> 0.0 <= k <= t < k + 1.0
    requires t <= 0.0 ==> k - 1.0 < t <= k <= 0.0
    ensures 0.0 <= x ==> 0.0 <= r < y
    ensures x <= 0.0 ==> -y < r <= 0.0
    ensures (x - r) / y == k
  {
    assert x == y * t;
    var d := t - k;
    assert r == y * d;
    if 0.0 <= x {
      if t < 0.0 {
        MulPositive(y, -t, -x);
      }
      MulNonNegative(y, d, r);
      MulPositive(y, 1.0 - d, y - r);
    } else {
      if 0.0 < t {
        MulPositive(y, t, x);
      }
      MulNonNegative(y, -d, -r);
      MulPositive(y, 1.0 + d, y + r);
    }
    assert x - r == y * k;
  }

  /** A value already in [0, y) is its own remainder, and y leaves none. */
  lemma RemInRange(x: real, y: real)
    requires 0.0 < y && 0.0 <= x <= y
    ensures Rem(x, y) == if x < y then x else 0.0
  {
    if x < y {
      QuotientBelowOne(x, y);
      assert Trunc(x / y) == 0;
    } else {
      QuotientSelf(y);
      assert Trunc(x / y) == 1;
    }
  }

  /** Dividing a number in [0, y) by `y` gives a number in [0, 1). */
  lemma QuotientBelowOne(x: real, y: real)
    requires 0.0 < y && 0.0 <= x < y
    ensures 0.0 <= x / y < 1.0
  {
    var t := x / y;
    assert x == y * t;
    if t < 0.0 {
      MulPositive(y, -t, -x);
    } else if 1.0 <= t {
      MulNonNegative(y, t - 1.0, x - y);
    }
  }

  lemma QuotientSelf(y: real)
    requires 0.0 < y
    ensures y / y == 1.0
  {
  }
}
