/** Plane points, 2-vectors and the transcendental functions the engine uses.
    `exp` and `sqrt` cannot be computed in Dafny, so every operation that needs
    them receives them as a `Transcendentals` value whose ghost predicates state
    the few properties the proofs rely on. */
module Geometry {

  /** A position in the room footprint, in metres. */
  datatype Point = Point(x: real, y: real)

  /** A horizontal velocity vector (m/s): the two components of the last axis
      of the engine's (ny, nx, 2) field arrays. */
  datatype Vec = Vec(u: real, v: real)
  {
    function Add(w: Vec): Vec
    {
      Vec(u + w.u, v + w.v)
    }

    /** Squared Euclidean length. */
    function Norm2(): (r: real)
      ensures r >= 0.0
    {
      u * u + v * v
    }
  }

  const Zero: Vec := Vec(0.0, 0.0)

  /** `c` is parallel to the offset `(dx, dy)` and does not point against it. */
  predicate Along(c: Vec, dx: real, dy: real)
  {
    c.u * dy == c.v * dx && c.u * dx + c.v * dy >= 0.0
  }

  function Sq(a: real): (r: real)
    ensures r >= 0.0
  {
    a * a
  }

  /** exp and sqrt as supplied by the numerical library. */
  datatype Transcendentals = Transcendentals(exp: real -> real, sqrt: real -> real)
  {
    /** exp is positive, and at most 1 on non-positive arguments. */
    ghost predicate ExpOk()
    {
      forall z :: 0.0 < exp(z) && (z <= 0.0 ==> exp(z) <= 1.0)
    }

    /** sqrt is the non-negative square root on non-negative arguments. */
    ghost predicate SqrtOk()
    {
      forall z :: 0.0 <= z ==> 0.0 <= sqrt(z) && sqrt(z) * sqrt(z) == z
    }

    ghost predicate Valid()
    {
      ExpOk() && SqrtOk()
    }
  }
}
