/**
 * The vendor SDK's value shapes, as the binding sees them. Pointers that the
 * SDK may return as null (palm, ball, normal, velocity) are Options.
 * Components declared `double` by the SDK are exact reals.
 */
module Leap {
  import opened Wrappers
  import opened BoundedInts

  datatype Vector = Vector(x: real, y: real, z: real)

  datatype Ray = Ray(position: Vector, direction: Vector)

  datatype Ball = Ball(position: Vector, radius: real)

  datatype Finger = Finger(
    id: Int32,
    tip: Ray,
    velocity: Option<Vector>,
    width: real,
    length: real,
    isTool: bool)

  datatype Hand = Hand(
    id: Int32,
    fingers: seq<Finger>,
    palm: Option<Ray>,
    velocity: Option<Vector>,
    normal: Option<Vector>,
    ball: Option<Ball>)

  /** One tracking snapshot; `hands` in the order the SDK lists them. */
  datatype Frame = Frame(id: Int64, timestamp: Int64, hands: seq<Hand>)

  /** A default-constructed (invalid) frame. */
  const InvalidFrame: Frame := Frame(0, 0, [])

  /** An affine transform: three basis vectors and a translation. */
  datatype Matrix = Matrix(xBasis: Vector, yBasis: Vector, zBasis: Vector, origin: Vector)

  /** A default-constructed matrix: the identity transform. */
  const IdentityMatrix: Matrix :=
    Matrix(Vector(1.0, 0.0, 0.0), Vector(0.0, 1.0, 0.0), Vector(0.0, 0.0, 1.0), Vector(0.0, 0.0, 0.0))
}
