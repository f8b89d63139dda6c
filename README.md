# Quaternions and vectors over the reals

A Dafny model of a small Java library with two immutable value types:

- `Vector`: a three-dimensional vector with these operations:
  - sum, opposite (`unaryMinus`) and difference
  - dot and cross product
  - multiplication by a number
  - length
- `Quaternion`: a quaternion `a + bi + cj + dk` with these operations:
  - construction from four coefficients, or from a rotation angle and axis
  - conjugate, sum, difference and multiplication by a number
  - the Hamilton product and the norm
  - the guarded inverse and unit quaternion
  - the rotation angle and axis it encodes
  - its scalar and vector parts

Every Java method builds a fresh value from one expression, so each type is a
`datatype` and each method is a `function`. The module `Vectors`
(`vectors.dfy`) models `Vector.java` and `Quaternions` (`quaternions.dfy`)
models `Quaternion.java`. Arithmetic is over `real`, so the algebraic
identities hold exactly.

The four methods that throw `IllegalStateException` in Java return a
`Result`. Its failure says why:
- `DegenerateOperand`: `inverse` or `getUnit` of the zero quaternion.
- `UndefinedRotation`: `getAngle` or `getAxis` of a quaternion whose scalar
  part lies outside [-1, 1].

The module `JavaMath` (`java_math.dfy`) holds what the library takes from
`java.lang.Math`:
- `PI` as its decimal value.
- `Rem`, Java's floating-point `%`: the remainder of a division truncated
  toward zero.
- `Lib`, a value carrying the functions `sqrt`, `sin`, `cos` and `acos`. Every
  operation that calls one of them takes it as a parameter.

Three predicates list the facts about those four functions that the proofs
use:
- `SqrtLawful`: `sqrt` gives the non-negative root of a non-negative argument.
- `TrigLawful`: `sin² + cos² = 1`, `sin 0 = 0` and `cos 0 = 1`.
- `AcosLawful`: `acos` maps [-1, 1] into [0, PI] and sends 1 to 0.

Each lemma requires only the predicates whose facts it uses. The operations
require none of them.

Two points of the code that a reader might not expect:
- Both `equals` methods compare only the first component (see Findings). The
  properties below use Dafny's equality of values, which is component-wise.
- `getAngle` reduces its result modulo 2π (`2 * acos(a) % (2 * PI)`), and so
  does `GetAngle`.

## Model

| member | source | states |
|---|---|---|
| `JavaMath.Rem` | src/main/java/Quaternion.java:35 | Java's `%` for a positive divisor: the remainder has the sign of the dividend, is smaller than the divisor in magnitude, and differs from the dividend by a whole multiple of the divisor |
| `JavaMath.RemInRange` | src/main/java/Quaternion.java:35 | a dividend already in [0, y) is its own remainder, and y itself leaves remainder 0 |
| `Vectors.Length` | src/main/java/Vector.java:12-14 | no contract of its own; its laws are in LengthSpec, LengthNeg and LengthScale |
| `Vectors.Plus` | src/main/java/Vector.java:32-34 | no contract of its own; its laws are in PlusZero, PlusCommutative, PlusAssociative, PlusMinusCancel, Neg and Minus |
| `Vectors.Neg` | src/main/java/Vector.java:37-39 | adding the opposite vector gives the zero vector |
| `Vectors.Minus` | src/main/java/Vector.java:41-44 | `v.plus(w.unaryMinus())` is the component-wise difference, and adding `w` back gives `v` |
| `Vectors.NegInvolutive` | src/main/java/Vector.java:37-39 | negating twice gives the vector back, and the zero vector is its own opposite |
| `Vectors.PlusZero` | src/main/java/Vector.java:32-34 | the zero vector is a two-sided identity of the sum |
| `Vectors.PlusCommutative` | src/main/java/Vector.java:32-34 | the sum is commutative |
| `Vectors.PlusAssociative` | src/main/java/Vector.java:32-34 | the sum is associative |
| `Vectors.PlusMinusCancel` | src/main/java/Vector.java:32-44 | `v.plus(w).minus(w) == v` |
| `Vectors.MinusZero` | src/main/java/Vector.java:41-44 | `v - 0 == v`, `0 - v` is the opposite of `v`, and `v - v` is the zero vector |
| `Vectors.Dot` | src/main/java/Vector.java:47-49 | no contract of its own; its laws are in DotSymmetric, DotZero, DotSelf, DotScale, DotPlus and CrossOrthogonal |
| `Vectors.Cross` | src/main/java/Vector.java:52-54 | no contract of its own; its laws are in CrossAnticommutative, CrossOrthogonal, CrossZero, CrossScale and CrossParallel |
| `Vectors.Scale` | src/main/java/Vector.java:57-59 | no contract of its own; its laws are in ScaleZero, ScaleOne, ScaleCompose, ScalePlus, DotScale, CrossScale and LengthScale |
| `Vectors.DotSymmetric` | src/main/java/Vector.java:47-49 | the dot product is symmetric |
| `Vectors.DotZero` | src/main/java/Vector.java:47-49 | the dot product with the zero vector, on either side, is 0 |
| `Vectors.DotSelf` | src/main/java/Vector.java:47-49 | `v · v` is non-negative and is 0 exactly for the zero vector |
| `Vectors.DotScale` | src/main/java/Vector.java:47-59 | a factor on either operand of the dot product comes out as a factor of the result |
| `Vectors.DotPlus` | src/main/java/Vector.java:32-49 | the dot product distributes over the sum |
| `Vectors.CrossAnticommutative` | src/main/java/Vector.java:52-54 | `w × v` is the opposite of `v × w` |
| `Vectors.CrossOrthogonal` | src/main/java/Vector.java:47-54 | `v × w` is orthogonal to both `v` and `w` |
| `Vectors.CrossZero` | src/main/java/Vector.java:52-54 | a cross product with the zero vector, and `v × v`, is the zero vector |
| `Vectors.CrossScale` | src/main/java/Vector.java:52-59 | a factor on either operand of the cross product comes out as a factor of the result |
| `Vectors.CrossParallel` | src/main/java/Vector.java:52-59 | the cross product of `v` with a multiple of `v` is the zero vector |
| `Vectors.ScaleZero` | src/main/java/Vector.java:57-59 | `times(0)` gives the zero vector, and the zero vector times anything is the zero vector |
| `Vectors.ScaleOne` | src/main/java/Vector.java:57-59 | `times(1)` gives the vector back and `times(-1)` its opposite |
| `Vectors.ScaleCompose` | src/main/java/Vector.java:57-59 | scaling by `k` then by `m` is scaling by `m * k` |
| `Vectors.ScalePlus` | src/main/java/Vector.java:57-59 | scaling distributes over the sum |
| `Vectors.DotScaleSelf` | src/main/java/Vector.java:47-59 | `kv · kv` is `k²` times `v · v` |
| `Vectors.LengthSpec` | src/main/java/Vector.java:12-14 | the length is the square root of `v · v`: it is non-negative, squares to `v · v`, and is 0 exactly for the zero vector |
| `Vectors.LengthNeg` | src/main/java/Vector.java:12-39 | the opposite vector has the same length |
| `Vectors.LengthScale` | src/main/java/Vector.java:12-59 | scaling by `k` multiplies the length by the magnitude of `k` |
| `Vectors.CrossExample` | src/test/java/VectorTests.java:50-52 | `b × c` is (2, -13.5, -10.5) and `c × b` its opposite |
| `Vectors.DotExample` | src/test/java/VectorTests.java:44-45 | `a · b` is 1 and `c · b` is -7.5 |
| `Vectors.PlusExample` | src/test/java/VectorTests.java:23-24 | `a + b` and `a + (b + c)` have the values the tests expect |
| `Vectors.MinusExample` | src/test/java/VectorTests.java:30-31 | `b - a` is (2, 3, -2), and `a - (b - c)` is (-0.5, -5.5, 5.5) |
| `Vectors.NegExample` | src/test/java/VectorTests.java:37 | the opposite of `c` is (-1.5, 2.5, -3.5) |
| `Vectors.ScaleExample` | src/test/java/VectorTests.java:58-60 | `c.times(2)` is (3, -5, 7), and `a.times(0)` and `zero.times(123456)` are the zero vector |
| `Vectors.JavaEquals` | src/main/java/Vector.java:62-70 | `equals` as written holds exactly when the `x` components agree |
| `Vectors.JavaEqualsCounterexample` | src/test/java/VectorTests.java:31 | `a - (b - c)` is (-0.5, -5.5, 5.5), and `equals` as written, called on the test's expected (-0.5, -5.5, -5.5) with that value, returns true although the two differ |
| `Vectors.Equals` | src/main/java/Vector.java:62-70 | the corrected comparison holds exactly for equal vectors |
| `Quaternions.FromAngleAxis` | src/main/java/Quaternion.java:23-29 | the scalar part is the cosine of the half angle and the vector part is the axis scaled by the sine of the half angle |
| `Quaternions.ScalarPart` | src/main/java/Quaternion.java:113-115 | no contract of its own; PartsDetermine and FromAngleAxis state its laws |
| `Quaternions.VectorPart` | src/main/java/Quaternion.java:120-122 | no contract of its own; PartsDetermine, FromAngleAxis and GetAxis state its laws |
| `Quaternions.PartsDetermine` | src/main/java/Quaternion.java:113-122 | two quaternions are equal exactly when their scalar parts and vector parts are equal |
| `Quaternions.GetAngle` | src/main/java/Quaternion.java:34-40 | fails, with `UndefinedRotation`, exactly when the scalar part lies outside [-1, 1] |
| `Quaternions.GetAngleRange` | src/main/java/Quaternion.java:34-40 | a defined angle lies in [0, 2π): it is twice the arccosine of the scalar part, except that a full turn becomes 0 |
| `Quaternions.GetAxis` | src/main/java/Quaternion.java:45-51 | fails exactly when `GetAngle` fails; otherwise it is the zero vector when the sine of the half angle is 0, and else the vector whose multiple by that sine is the vector part |
| `Quaternions.Scale` | src/main/java/Quaternion.java:56-58 | no contract of its own; its laws are in ScaleLaws, MulScale, NormSqScale and ScaleExample |
| `Quaternions.Conjugate` | src/main/java/Quaternion.java:63-65 | no contract of its own; its laws are in ConjugateInvolutive, ConjugateSumDifference, MulConjugate, ConjugateMul and FromAngleAxisNeg |
| `Quaternions.Plus` | src/main/java/Quaternion.java:70-72 | no contract of its own; its laws are in PlusMinusZero, PlusCommutative, ScaleLaws and Minus |
| `Quaternions.Minus` | src/main/java/Quaternion.java:77-79 | adding `q` back to `p - q` gives `p` |
| `Quaternions.Inverse` | src/main/java/Quaternion.java:95-101 | fails, with `DegenerateOperand`, exactly when the norm is 0 |
| `Quaternions.GetUnit` | src/main/java/Quaternion.java:127-133 | fails, with `DegenerateOperand`, exactly when the norm is 0 |
| `Quaternions.ConjugateInvolutive` | src/main/java/Quaternion.java:63-65 | conjugating twice gives the quaternion back, and zero is its own conjugate |
| `Quaternions.ConjugateSumDifference` | src/main/java/Quaternion.java:63-79 | `q̄ + q` is (2a, 0, 0, 0) and `q̄ - q` is (0, -2b, -2c, -2d) |
| `Quaternions.PlusMinusZero` | src/main/java/Quaternion.java:70-79 | adding or subtracting zero gives the quaternion back, and `q - q` is zero |
| `Quaternions.PlusCommutative` | src/main/java/Quaternion.java:70-72 | the sum is commutative |
| `Quaternions.ScaleLaws` | src/main/java/Quaternion.java:56-58 | `times(0)` is zero, `times(1)` is the quaternion itself, `q + q` is `q.times(2)`, and zero times anything is zero |
| `Quaternions.Mul` | src/main/java/Quaternion.java:84-90 | no contract of its own; its laws are in MulOne, MulZero, MulConjugate, MulScale, ConjugateMul, MulNotCommutative and InverseIsInverse |
| `Quaternions.MulOne` | src/main/java/Quaternion.java:84-90 | (1, 0, 0, 0) is a two-sided identity of the Hamilton product |
| `Quaternions.MulZero` | src/main/java/Quaternion.java:84-90 | a product with zero, on either side, is zero |
| `Quaternions.MulConjugate` | src/main/java/Quaternion.java:84-90 | `q q̄` and `q̄ q` are both (a² + b² + c² + d², 0, 0, 0) |
| `Quaternions.MulScale` | src/main/java/Quaternion.java:56-90 | a real factor on either operand of the Hamilton product comes out as a factor of the result |
| `Quaternions.ConjugateMul` | src/main/java/Quaternion.java:63-90 | the conjugate of `p q` is `q̄ p̄` |
| `Quaternions.MulNotCommutative` | src/main/java/Quaternion.java:84-90 | the product is not commutative: for the units `I`, `J`, `K`, `I J = K` but `J I = -K` |
| `Quaternions.Norm` | src/main/java/Quaternion.java:106-108 | no contract of its own; its laws are in NormSpec, InverseSpec and GetUnitSpec |
| `Quaternions.NormSqZero` | src/main/java/Quaternion.java:106-108 | the radicand of the norm is non-negative and is 0 exactly for the zero quaternion |
| `Quaternions.NormSpec` | src/main/java/Quaternion.java:106-108 | the norm is non-negative, squares to a² + b² + c² + d², and is 0 exactly for the zero quaternion |
| `Quaternions.NormSqScale` | src/main/java/Quaternion.java:56-108 | scaling by `k` multiplies the squared norm by `k²` |
| `Quaternions.InverseSpec` | src/main/java/Quaternion.java:95-101 | the inverse fails exactly for the zero quaternion, and is otherwise the conjugate divided by a² + b² + c² + d² |
| `Quaternions.InverseIsInverse` | src/main/java/Quaternion.java:95-101 | for a non-zero `q`, `q q⁻¹` and `q⁻¹ q` are both (1, 0, 0, 0) |
| `Quaternions.GetUnitSpec` | src/main/java/Quaternion.java:127-133 | the unit quaternion fails exactly for the zero quaternion; otherwise it is `q` divided by its norm, and its own norm is 1 |
| `Quaternions.FromAngleAxisUnit` | src/main/java/Quaternion.java:23-29 | a quaternion built from a unit axis has norm 1, has a defined angle and axis, and is its own unit quaternion |
| `Quaternions.FromAngleAxisNeg` | src/main/java/Quaternion.java:23-29 | reversing the axis gives the conjugate quaternion |
| `Quaternions.ZeroRotation` | src/test/java/QuaternionTests.java:54-62 | a rotation by angle 0 about any axis is (1, 0, 0, 0), whose angle is 0 and whose axis is the zero vector |
| `Quaternions.NoRotationExample` | src/test/java/QuaternionTests.java:57-65 | (1.337, 2.28, 18.98, 20.2) has neither an angle nor an axis |
| `Quaternions.ScaleExample` | src/test/java/QuaternionTests.java:72-73 | `nonzero.times(29.78)` and `nonzero.times(-2)` have the values the tests expect |
| `Quaternions.ZeroHasNoInverse` | src/main/java/Quaternion.java:95-133 | the zero quaternion has neither an inverse nor a unit quaternion |
| `Quaternions.JavaEquals` | src/main/java/Quaternion.java:136-144 | `equals` as written holds exactly when the `a` coefficients agree |
| `Quaternions.JavaEqualsCounterexample` | src/main/java/Quaternion.java:141 | `equals` as written declares zero and `i` equal, although they differ |
| `Quaternions.Equals` | src/main/java/Quaternion.java:136-144 | the corrected comparison holds exactly for equal quaternions |

## Left out

- Floating point. The model computes over `real`, so it has no rounding, overflow, infinities or NaN operands. The repository's tests compare results with a tolerance of 1e-5 only because of rounding.
- `sqrt`, `sin`, `cos` and `acos`. These come from `java.lang.Math`, which is not part of this model. They are a `Lib` parameter, and the proofs use only the facts in `SqrtLawful`, `TrigLawful` and `AcosLawful`.
- `AcosLawful` idealises `Math.acos(-1.0) == Math.PI`: it bounds `acos` by the decimal `PI`, which lies about 2.4e-16 below π, so the mathematical arccos does not meet it at -1. `Quaternions.GetAngleRange`, which reduces a full turn to 0, rests on that clause. The norm, inverse, unit, length and zero-rotation lemmas do not.
- `JavaMath.Rem`: models Java's `%` only for a positive divisor. The library's one use divides by `2 * PI`.
- `Quaternions.GetAngle`: the Java code checks whether the result is NaN. The model tests the equivalent domain condition instead: `acos` of a finite value is NaN exactly when the value lies outside [-1, 1].
- Round trips between a quaternion and its angle and axis, such as `Quaternion(angle, axis).getAngle() == angle`. They depend on trigonometric identities beyond `TrigLawful` and `AcosLawful`.
- The test values that need trigonometry are not modelled: `test1` against `test2` and the axis (1.23, -4.567, 2.5).
- Associativity of the Hamilton product is not proved. Nothing in the library relies on it.
- `equals`: the reference-identity shortcut and the `instanceof` test are left out. Both arguments always have the model's type, and identical objects have equal components.
- `toString` and `hashCode`. Their results depend on Java's number formatting and hashing.
- The constructors `Vector(x, y, z)` and `Quaternion(a, b, c, d)` and the getters `getX`, `getY` and `getZ` have no members of their own. They are the datatype constructors and the fields `x`, `y` and `z`.

## Findings

| source | as written | input that shows it | evidently intended | confidence | as-written member | corrected member |
|---|---|---|---|---|---|---|
| src/main/java/Vector.java:67 | `x == other.x && y == this.y && z == this.z`: `y` and `z` are compared with themselves, so only `x` decides | (-0.5, -5.5, -5.5).equals((-0.5, -5.5, 5.5)) is true. The test at src/test/java/VectorTests.java:31 expects the first for `a.minus(b.minus(c))`, whose value is the second, and passes only because of this | compare `y` with `other.y` and `z` with `other.z` | high (not executed) | `Vectors.JavaEquals`, `Vectors.JavaEqualsCounterexample` | `Vectors.Equals` |
| src/main/java/Quaternion.java:141 | `a == other.a && b == this.b && c == this.c && d == this.d`: `b`, `c` and `d` are compared with themselves, so only `a` decides | (0, 0, 0, 0) and (0, 1, 0, 0) compare equal | compare `b`, `c` and `d` with those of `other` | high (not executed) | `Quaternions.JavaEquals`, `Quaternions.JavaEqualsCounterexample` | `Quaternions.Equals` |
