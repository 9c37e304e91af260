/**
 * The parameter guards of the primitive factory (`ShapeFactory`). Each
 * factory either produces a shape, returns null, or throws; which of the
 * three happens is decided by the guards below before the kernel builder
 * is consulted. The kernel builder is a function-valued parameter: a result
 * that is the same for every builder is a result obtained without calling it.
 */
module ShapeFactory {
  import opened Geometry

  /** Why a factory failed. */
  datatype Reason = NonPositiveDimension | NonPositiveRadius | MajorNotAboveMinor | KernelFailure

  /** The C++ exception a factory throws: `std::invalid_argument` or `std::runtime_error`. */
  datatype Error = InvalidArgument(reason: Reason) | RuntimeError(reason: Reason)

  /** A factory's outcome: a shape, a null pointer, or a thrown exception. */
  datatype Result = Shape(id: ShapeId) | Null | Thrown(error: Error)

  predicate PositiveBox(width: real, height: real, depth: real)
  {
    width > 0.0 && height > 0.0 && depth > 0.0
  }

  /** The radii a torus accepts: both positive and the major one strictly larger. */
  predicate ValidTorusRadii(majorRadius: real, minorRadius: real)
  {
    majorRadius > 0.0 && minorRadius > 0.0 && majorRadius > minorRadius
  }

  /**
   * `CreateBox(corner1, corner2)`: no validation at all; every kernel
   * failure, reported or thrown, becomes null.
   */
  function CreateBoxFromCorners(corner1: Point3, corner2: Point3,
                                makeBox: (Point3, Point3) -> Built<ShapeId>): (r: Result)
    ensures !r.Thrown?
    ensures r.Shape? <==> makeBox(corner1, corner2).Done?
    ensures r.Shape? ==> r.id == makeBox(corner1, corner2).value
  {
    match makeBox(corner1, corner2)
    case Done(s) => Shape(s)
    case NotDone => Null
    case Raised => Null
  }

  /**
   * `CreateBox(width, height, depth)`: a non-positive dimension throws
   * `invalid_argument` before the kernel is called. A kernel failure is
   * rethrown as `runtime_error` (the builder's `Shape()` raises when it is
   * not done), so this overload never returns null.
   */
  function CreateBox(width: real, height: real, depth: real,
                     makeBox: (real, real, real) -> Built<ShapeId>): (r: Result)
    ensures !r.Null?
    ensures !PositiveBox(width, height, depth) ==> r == Thrown(InvalidArgument(NonPositiveDimension))
    ensures r.Shape? <==> PositiveBox(width, height, depth) && makeBox(width, height, depth).Done?
    ensures r.Thrown? && PositiveBox(width, height, depth) ==> r.error == RuntimeError(KernelFailure)
    ensures r.Shape? ==> r.id == makeBox(width, height, depth).value
  {
    if width <= 0.0 || height <= 0.0 || depth <= 0.0 then
      Thrown(InvalidArgument(NonPositiveDimension))
    else
      match makeBox(width, height, depth)
      case Done(s) => Shape(s)
      case NotDone => Thrown(RuntimeError(KernelFailure))
      case Raised => Thrown(RuntimeError(KernelFailure))
  }

  /**
   * `CreateCylinder(center, radius, height)`: a non-positive radius or
   * height gives null without an exception; so does any kernel failure.
   */
  function CreateCylinder(center: Point3, radius: real, height: real,
                          makeCylinder: (Point3, real, real) -> Built<ShapeId>): (r: Result)
    ensures !r.Thrown?
    ensures radius <= 0.0 || height <= 0.0 ==> r == Null
    ensures r.Shape? <==> radius > 0.0 && height > 0.0 && makeCylinder(center, radius, height).Done?
    ensures r.Shape? ==> r.id == makeCylinder(center, radius, height).value
  {
    if radius <= 0.0 || height <= 0.0 then Null
    else
      match makeCylinder(center, radius, height)
      case Done(s) => Shape(s)
      case NotDone => Null
      case Raised => Null
  }

  /** `CreateCylinder(radius, height)`: the centred overload at the origin. */
  function CreateCylinderAtOrigin(radius: real, height: real,
                                  makeCylinder: (Point3, real, real) -> Built<ShapeId>): (r: Result)
    ensures !r.Thrown?
    ensures r.Shape? <==> radius > 0.0 && height > 0.0 && makeCylinder(Origin, radius, height).Done?
    ensures r.Shape? ==> r.id == makeCylinder(Origin, radius, height).value
  {
    CreateCylinder(Origin, radius, height, makeCylinder)
  }

  /**
   * `CreateSphere(center, radius)`: a non-positive radius gives null
   * without an exception; so does any kernel failure.
   */
  function CreateSphere(center: Point3, radius: real,
                        makeSphere: (Point3, real) -> Built<ShapeId>): (r: Result)
    ensures !r.Thrown?
    ensures radius <= 0.0 ==> r == Null
    ensures r.Shape? <==> radius > 0.0 && makeSphere(center, radius).Done?
    ensures r.Shape? ==> r.id == makeSphere(center, radius).value
  {
    if radius <= 0.0 then Null
    else
      match makeSphere(center, radius)
      case Done(s) => Shape(s)
      case NotDone => Null
      case Raised => Null
  }

  /** `CreateSphere(radius)`: the centred overload at the origin. */
  function CreateSphereAtOrigin(radius: real, makeSphere: (Point3, real) -> Built<ShapeId>): (r: Result)
    ensures !r.Thrown?
    ensures r.Shape? <==> radius > 0.0 && makeSphere(Origin, radius).Done?
    ensures r.Shape? ==> r.id == makeSphere(Origin, radius).value
  {
    CreateSphere(Origin, radius, makeSphere)
  }

  /**
   * `CreateTorus(center, majorRadius, minorRadius)`: the positivity check
   * runs first, then major > minor; both throw `invalid_argument`, which the
   * function's own handler rewraps as `runtime_error`, as it does a kernel
   * failure. It never returns null.
   */
  function CreateTorus(center: Point3, majorRadius: real, minorRadius: real,
                       makeTorus: (Point3, real, real) -> Built<ShapeId>): (r: Result)
    ensures !r.Null?
    ensures r.Thrown? ==> r.error.RuntimeError?
    ensures majorRadius <= 0.0 || minorRadius <= 0.0 ==> r == Thrown(RuntimeError(NonPositiveRadius))
    ensures majorRadius > 0.0 && minorRadius > 0.0 && majorRadius <= minorRadius
            ==> r == Thrown(RuntimeError(MajorNotAboveMinor))
    ensures r.Shape? <==> ValidTorusRadii(majorRadius, minorRadius) && makeTorus(center, majorRadius, minorRadius).Done?
    ensures r.Shape? ==> r.id == makeTorus(center, majorRadius, minorRadius).value
  {
    if majorRadius <= 0.0 || minorRadius <= 0.0 then
      Thrown(RuntimeError(NonPositiveRadius))
    else if majorRadius <= minorRadius then
      Thrown(RuntimeError(MajorNotAboveMinor))
    else
      match makeTorus(center, majorRadius, minorRadius)
      case Done(s) => Shape(s)
      case NotDone => Thrown(RuntimeError(KernelFailure))
      case Raised => Thrown(RuntimeError(KernelFailure))
  }

  /** Invalid box dimensions are rejected without consulting the kernel. */
  lemma BoxGuardIgnoresKernel(width: real, height: real, depth: real,
                              k1: (real, real, real) -> Built<ShapeId>,
                              k2: (real, real, real) -> Built<ShapeId>)
    requires !PositiveBox(width, height, depth)
    ensures CreateBox(width, height, depth, k1) == CreateBox(width, height, depth, k2)
  {
  }

  /** Invalid torus radii are rejected without consulting the kernel. */
  lemma TorusGuardIgnoresKernel(center: Point3, majorRadius: real, minorRadius: real,
                                k1: (Point3, real, real) -> Built<ShapeId>,
                                k2: (Point3, real, real) -> Built<ShapeId>)
    requires !ValidTorusRadii(majorRadius, minorRadius)
    ensures CreateTorus(center, majorRadius, minorRadius, k1) == CreateTorus(center, majorRadius, minorRadius, k2)
  {
  }

  /** Rejected cylinder and sphere parameters never reach the kernel either. */
  lemma NullGuardsIgnoreKernel(center: Point3, radius: real, height: real,
                               c1: (Point3, real, real) -> Built<ShapeId>,
                               c2: (Point3, real, real) -> Built<ShapeId>,
                               s1: (Point3, real) -> Built<ShapeId>,
                               s2: (Point3, real) -> Built<ShapeId>)
    ensures radius <= 0.0 || height <= 0.0 ==>
              CreateCylinder(center, radius, height, c1) == CreateCylinder(center, radius, height, c2)
    ensures radius <= 0.0 ==> CreateSphere(center, radius, s1) == CreateSphere(center, radius, s2)
  {
  }
}
