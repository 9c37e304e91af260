/**
 * Value types shared by the whole model: points, vectors, the opaque
 * identities the geometry kernel hands out, sketch elements, and the
 * outcome of one call into the kernel.
 *
 * Doubles are modelled as reals; floating-point rounding is not modelled.
 */
module Geometry {

  datatype Option<+T> = None | Some(value: T)

  /** Opaque identity of a solid produced by the kernel (a `ShapePtr`). */
  type ShapeId = nat
  /** Opaque identities of the intermediate kernel objects used by extrusion. */
  type WireId = nat
  type FaceId = nat
  type EdgeId = nat

  datatype Point3 = Point3(x: real, y: real, z: real)
  datatype Vec3 = Vec3(dx: real, dy: real, dz: real)

  /** A point in the 2-D coordinate frame of a sketch plane. */
  datatype Point2 = Point2(x: real, y: real)

  const Origin: Point3 := Point3(0.0, 0.0, 0.0)

  /**
   * What one kernel builder call gives back: a finished, non-null result;
   * a builder that reports it is not done (or produced a null handle); or an
   * exception. Inside the factories and the extrusion this is a kernel
   * `Standard_Failure`, which their own handlers catch. For the boolean,
   * fillet/chamfer and transform operations it is an exception that the
   * window's `std::exception` handler catches.
   */
  datatype Built<+T> = Done(value: T) | NotDone | Raised

  /** A sketch line segment between two sketch-plane points. */
  datatype SketchLine = SketchLine(start: Point2, end: Point2)

  /**
   * An element of a sketch. Only lines are drawn by the tools in this
   * version; every other element type is represented by `OtherElement`.
   */
  datatype SketchElement = LineElement(line: SketchLine) | OtherElement(kind: nat)

  function Min(a: real, b: real): real { if a < b then a else b }
  function Max(a: real, b: real): real { if a < b then b else a }

  function Abs(a: real): real { if a < 0.0 then -a else a }

  /** The squared Euclidean distance between two sketch points. */
  function DistanceSquared(p: Point2, q: Point2): real
  {
    (q.x - p.x) * (q.x - p.x) + (q.y - p.y) * (q.y - p.y)
  }
}
