/** The adapter from the host's `[x, y, z]` number arrays to `Vector3`. */
module Transformer {
  import opened Vectors

  /**
   * `TransformNumberArrayInVector3`: the first three elements, in order, as
   * x, y and z.
   */
  function TransformNumberArrayInVector3(a: seq<real>): (r: Vector3)
    requires |a| >= 3
    ensures ToArray(r) == a[..3]
  {
    Vector3(a[0], a[1], a[2])
  }

  /** A vector as the host's number array. */
  function ToArray(v: Vector3): (r: seq<real>)
    ensures |r| == 3
  {
    [v.x, v.y, v.z]
  }

  /** Transforming `[v.x, v.y, v.z]` gives back `v`. */
  lemma TransformToArrayRoundTrip(v: Vector3)
    ensures TransformNumberArrayInVector3(ToArray(v)) == v
  {
  }

  /** Elements after index 2 do not affect the result. */
  lemma TransformIgnoresTail(a: seq<real>, b: seq<real>)
    requires |a| >= 3 && |b| >= 3 && a[..3] == b[..3]
    ensures TransformNumberArrayInVector3(a) == TransformNumberArrayInVector3(b)
  {
    assert a[0] == a[..3][0] && a[1] == a[..3][1] && a[2] == a[..3][2];
    assert b[0] == b[..3][0] && b[1] == b[..3][1] && b[2] == b[..3][2];
  }
}
