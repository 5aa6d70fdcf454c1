/**
 Three-component vectors over the reals and the handful of vector operations
 the viewer uses (`set`, `copy`, `subVectors`, `add`, `multiplyScalar`,
 `normalize`, `lerpVectors`). Floating point is replaced by exact reals;
 `Math.cos`, `Math.sin` and `Math.sqrt` are supplied by the host as a `HostMath`
 value so that nothing about them is assumed beyond what a lemma requires.
 */
module Geometry {

  datatype Vec3 = Vec3(x: real, y: real, z: real)

  const Origin: Vec3 := Vec3(0.0, 0.0, 0.0)

  /** The host's transcendental functions (IEEE details are not modelled). */
  datatype HostMath = HostMath(cos: real -> real, sin: real -> real, sqrt: real -> real)

  /** `sqrt` behaves as a square root at `d`. */
  predicate SqrtSoundAt(m: HostMath, d: real)
  {
    m.sqrt(d) >= 0.0 && m.sqrt(d) * m.sqrt(d) == d
  }

  /** `cos` and `sin` satisfy the Pythagorean identity at angle `a`. */
  predicate TrigSoundAt(m: HostMath, a: real)
  {
    m.cos(a) * m.cos(a) + m.sin(a) * m.sin(a) == 1.0
  }

  function Plus(a: Vec3, b: Vec3): Vec3
  {
    Vec3(a.x + b.x, a.y + b.y, a.z + b.z)
  }

  function Minus(a: Vec3, b: Vec3): Vec3
  {
    Vec3(a.x - b.x, a.y - b.y, a.z - b.z)
  }

  function Scale(a: Vec3, s: real): Vec3
  {
    Vec3(a.x * s, a.y * s, a.z * s)
  }

  /** Squared Euclidean length. */
  function LengthSquared(a: Vec3): (r: real)
    ensures r >= 0.0
  {
    SquareNonNegative(a.x);
    SquareNonNegative(a.y);
    SquareNonNegative(a.z);
    a.x * a.x + a.y * a.y + a.z * a.z
  }

  lemma SquareNonNegative(v: real)
    ensures v * v >= 0.0
  {
    if v < 0.0 {
      assert v * v == (-v) * (-v);
    }
  }

  /**
   `Vector3.normalize`: divide by the length, where a zero length divides by 1
   instead (three.js writes `divideScalar(this.length() || 1)`), so the zero
   vector stays zero.
   */
  function Normalize(a: Vec3, m: HostMath): (r: Vec3)
    ensures m.sqrt(LengthSquared(a)) == 0.0 ==> r == a
  {
    var len := m.sqrt(LengthSquared(a));
    var divisor := if len == 0.0 then 1.0 else len;
    Vec3(a.x / divisor, a.y / divisor, a.z / divisor)
  }

  /**
   `Vector3.lerpVectors(a, b, t)`: each component becomes `a + (b - a) * t`.
   At `t = 0` it is the start and at `t = 1` the end; in between it lies on the
   segment.
   */
  function Lerp(a: Vec3, b: Vec3, t: real): (r: Vec3)
    ensures t == 0.0 ==> r == a
    ensures t == 1.0 ==> r == b
    ensures Minus(r, a) == Scale(Minus(b, a), t)
  {
    Vec3(a.x + (b.x - a.x) * t, a.y + (b.y - a.y) * t, a.z + (b.z - a.z) * t)
  }
}
