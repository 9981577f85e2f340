/**
 * `Vector3`: an immutable triple of numbers and its algebra. Every operation
 * builds a new value; nothing is updated in place, so "the operands are not
 * mutated" holds by construction. The class's instance forms
 * (`a.addition(b)`, `a.subtract(b)`, `a.dot(b)`, ...) are the two-argument
 * forms with the receiver as first argument, and `distance` is `distanceTo`.
 */
module Vectors {
  import opened JsMath

  datatype Vector3 = Vector3(x: real, y: real, z: real)

  /** The right operand of `add`, `mul` and `div`: a number or a vector. */
  datatype Operand = Scalar(s: real) | Vec(v: Vector3)

  const Zero: Vector3 := Vector3(0.0, 0.0, 0.0)

  /** The vector with all three components equal to `s`. */
  function Splat(s: real): Vector3
  {
    Vector3(s, s, s)
  }

  /** The operand as a vector: a number stands for itself in every component. */
  function AsVector(w: Operand): Vector3
  {
    match w
    case Scalar(s) => Splat(s)
    case Vec(v) => v
  }

  /** `add(v1, v2)`: componentwise sum; a number is added to each component. */
  function Add(v1: Vector3, w: Operand): (r: Vector3)
    ensures Sub(r, AsVector(w)) == v1
  {
    match w
    case Scalar(s) => Vector3(v1.x + s, v1.y + s, v1.z + s)
    case Vec(v2) => Vector3(v1.x + v2.x, v1.y + v2.y, v1.z + v2.z)
  }

  /** `sub(v1, v2)`: componentwise difference. */
  function Sub(v1: Vector3, v2: Vector3): (r: Vector3)
    ensures r == Zero <==> v1 == v2
  {
    Vector3(v1.x - v2.x, v1.y - v2.y, v1.z - v2.z)
  }

  /** `mul(v1, v2)`: componentwise product; a number scales each component. */
  function Mul(v1: Vector3, w: Operand): (r: Vector3)
    ensures AsVector(w) == Splat(1.0) ==> r == v1
    ensures AsVector(w) == Zero ==> r == Zero
  {
    match w
    case Scalar(s) => Vector3(v1.x * s, v1.y * s, v1.z * s)
    case Vec(v2) => Vector3(v1.x * v2.x, v1.y * v2.y, v1.z * v2.z)
  }

  /** No component of the divisor is zero. */
  predicate NonZeroDivisor(w: Operand)
  {
    var d := AsVector(w);
    d.x != 0.0 && d.y != 0.0 && d.z != 0.0
  }

  /** `div(v1, v2)`: componentwise quotient; multiplying back by the divisor restores `v1`. */
  function Div(v1: Vector3, w: Operand): (r: Vector3)
    requires NonZeroDivisor(w)
    ensures Mul(r, w) == v1
  {
    match w
    case Scalar(s) => Vector3(v1.x / s, v1.y / s, v1.z / s)
    case Vec(v2) => Vector3(v1.x / v2.x, v1.y / v2.y, v1.z / v2.z)
  }

  /** `productDot(v1, v2)`. */
  function Dot(v1: Vector3, v2: Vector3): (r: real)
    ensures v1 == Zero || v2 == Zero ==> r == 0.0
  {
    v1.x * v2.x + v1.y * v2.y + v1.z * v2.z
  }

  /** `productCross(v1, v2)`: orthogonal to both operands. */
  function Cross(v1: Vector3, v2: Vector3): (r: Vector3)
    ensures Dot(v1, r) == 0.0 && Dot(v2, r) == 0.0
  {
    var r := Vector3(v1.y * v2.z - v1.z * v2.y, v1.z * v2.x - v1.x * v2.z, v1.x * v2.y - v1.y * v2.x);
    assert Dot(v1, r) == 0.0 by {
      assert v1.x * (v1.y * v2.z - v1.z * v2.y) == v1.x * v1.y * v2.z - v1.x * v1.z * v2.y;
      assert v1.y * (v1.z * v2.x - v1.x * v2.z) == v1.y * v1.z * v2.x - v1.x * v1.y * v2.z;
      assert v1.z * (v1.x * v2.y - v1.y * v2.x) == v1.x * v1.z * v2.y - v1.y * v1.z * v2.x;
    }
    assert Dot(v2, r) == 0.0 by {
      assert v2.x * (v1.y * v2.z - v1.z * v2.y) == v1.y * v2.x * v2.z - v1.z * v2.x * v2.y;
      assert v2.y * (v1.z * v2.x - v1.x * v2.z) == v1.z * v2.x * v2.y - v1.x * v2.y * v2.z;
      assert v2.z * (v1.x * v2.y - v1.y * v2.x) == v1.x * v2.y * v2.z - v1.y * v2.x * v2.z;
    }
    r
  }

  /** The radicand of `Length`: the sum of the squared components, never negative. */
  function LengthSquared(v: Vector3): (r: real)
    ensures r >= 0.0
    ensures v == Zero ==> r == 0.0
  {
    v.x * v.x + v.y * v.y + v.z * v.z
  }

  /** The `Length` getter: where `sqrt` is a root, a non-negative number whose square is the squared length. */
  function Length(m: Math, v: Vector3): (r: real)
    ensures RootOf(m, LengthSquared(v)) ==> r >= 0.0 && r * r == LengthSquared(v)
  {
    m.sqrt(LengthSquared(v))
  }

  /**
   * `normalizeVector` (and the `normalize` getter): the zero vector when the
   * length is exactly 0, otherwise the vector divided by its length.
   */
  function Normalize(m: Math, v: Vector3): (r: Vector3)
    ensures Length(m, v) == 0.0 ==> r == Zero
    ensures Length(m, v) != 0.0 ==> Mul(r, Scalar(Length(m, v))) == v
  {
    var len := Length(m, v);
    if len == 0.0 then Zero else Div(v, Scalar(len))
  }

  /** The zero vector normalizes to itself, whatever `sqrt` gives for 0. */
  lemma NormalizeZero(m: Math)
    ensures Normalize(m, Zero) == Zero
  {
    var len := Length(m, Zero);
    if len != 0.0 {
      assert 0.0 / len == 0.0;
      assert Div(Zero, Scalar(len)) == Vector3(0.0 / len, 0.0 / len, 0.0 / len);
    }
  }

  /** Where `sqrt` is a root, normalizing a vector of non-zero length gives a unit vector. */
  lemma NormalizeIsUnit(m: Math, v: Vector3)
    requires RootOf(m, LengthSquared(v)) && Length(m, v) != 0.0
    ensures LengthSquared(Normalize(m, v)) == 1.0
  {
    var len := Length(m, v);
    var r := Normalize(m, v);
    assert r.x * len == v.x && r.y * len == v.y && r.z * len == v.z;
    assert len * len != 0.0;
    calc {
      LengthSquared(r) * (len * len);
      (r.x * len) * (r.x * len) + (r.y * len) * (r.y * len) + (r.z * len) * (r.z * len);
      LengthSquared(v);
      len * len;
    }
  }

  /** The components of `Cross`, spelled out. */
  lemma CrossComponents(v1: Vector3, v2: Vector3)
    ensures Cross(v1, v2) == Vector3(v1.y * v2.z - v1.z * v2.y, v1.z * v2.x - v1.x * v2.z, v1.x * v2.y - v1.y * v2.x)
  {
  }

  /** The orientation of `Cross`: x cross y is z, as in a right-handed frame. */
  lemma CrossIsRightHanded()
    ensures Cross(Vector3(1.0, 0.0, 0.0), Vector3(0.0, 1.0, 0.0)) == Vector3(0.0, 0.0, 1.0)
    ensures Cross(Vector3(0.0, 1.0, 0.0), Vector3(1.0, 0.0, 0.0)) == Vector3(0.0, 0.0, -1.0)
  {
    CrossComponents(Vector3(1.0, 0.0, 0.0), Vector3(0.0, 1.0, 0.0));
    CrossComponents(Vector3(0.0, 1.0, 0.0), Vector3(1.0, 0.0, 0.0));
  }

  /** `clone`: a new vector with the same components. */
  function Clone(v: Vector3): (r: Vector3)
    ensures r.x == v.x && r.y == v.y && r.z == v.z
  {
    Vector3(v.x, v.y, v.z)
  }

  /** `distanceSquared`: never negative, and zero from a point to itself. */
  function DistanceSquared(a: Vector3, b: Vector3): (r: real)
    ensures r >= 0.0
    ensures a == b ==> r == 0.0
  {
    var dx := a.x - b.x;
    var dy := a.y - b.y;
    var dz := a.z - b.z;
    dx * dx + dy * dy + dz * dz
  }

  /**
   * `distanceTo` (and its alias `distance`): the square root of the squared
   * distance; zero from a point to itself when `sqrt(0)` is 0.
   */
  function DistanceTo(m: Math, a: Vector3, b: Vector3): (r: real)
    ensures RootOf(m, DistanceSquared(a, b)) ==> r >= 0.0 && r * r == DistanceSquared(a, b)
    ensures a == b && m.sqrt(0.0) == 0.0 ==> r == 0.0
  {
    m.sqrt(DistanceSquared(a, b))
  }

  /** `toRadians`: every component scaled by pi/180. */
  function ToRadians(v: Vector3): (r: Vector3)
    ensures r == Mul(v, Scalar(PI / 180.0))
  {
    Vector3((v.x * PI) / 180.0, (v.y * PI) / 180.0, (v.z * PI) / 180.0)
  }

  /** A number operand acts as the vector with that number in every component. */
  lemma ScalarBroadcasts(v: Vector3, s: real)
    ensures Add(v, Scalar(s)) == Add(v, Vec(Splat(s)))
    ensures Mul(v, Scalar(s)) == Mul(v, Vec(Splat(s)))
    ensures s != 0.0 ==> Div(v, Scalar(s)) == Div(v, Vec(Splat(s)))
  {
  }

  /** `a.addition(b).subtract(b)` is `a` again. */
  lemma AddSubtractRoundTrip(a: Vector3, b: Vector3)
    ensures Sub(Add(a, Vec(b)), b) == a
  {
  }

  /** The subtraction undoes the addition in the other order too. */
  lemma SubtractAddRoundTrip(a: Vector3, b: Vector3)
    ensures Add(Sub(a, b), Vec(b)) == a
  {
  }

  /** The product of a vector with itself is its squared length. */
  lemma DotSelf(v: Vector3)
    ensures Dot(v, v) == LengthSquared(v)
  {
  }

  lemma DotSymmetric(a: Vector3, b: Vector3)
    ensures Dot(a, b) == Dot(b, a)
  {
  }

  /** Swapping the operands of the cross product negates it. */
  lemma CrossAntisymmetric(a: Vector3, b: Vector3)
    ensures Cross(a, b) == Mul(Cross(b, a), Scalar(-1.0))
  {
  }

  lemma DistanceSymmetric(m: Math, a: Vector3, b: Vector3)
    ensures DistanceSquared(a, b) == DistanceSquared(b, a)
    ensures DistanceTo(m, a, b) == DistanceTo(m, b, a)
  {
  }

  /** The distance between two points is the length of their difference. */
  lemma DistanceIsLengthOfDifference(m: Math, a: Vector3, b: Vector3)
    ensures DistanceTo(m, a, b) == Length(m, Sub(a, b))
  {
    assert DistanceSquared(a, b) == LengthSquared(Sub(a, b));
  }
}
