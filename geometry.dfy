/**
 * The shape value hierarchy of the geometry library: three immutable shapes
 * (circle, triangle, square), each built by a validating constructor that
 * either yields a shape or reports an invalid argument, each able to report
 * its area; the triangle can also say whether it is right-angled.
 *
 * The abstract base class with one virtual `CalculateArea` becomes a closed
 * datatype whose `Area` dispatches by pattern matching. A `double` is a
 * `real`; rounding is not modelled.
 */
module Geometry {

  /** The value of `Math.PI`, written as the decimal literal of that double. */
  const PI: real := 3.141592653589793

  /** Absolute tolerance of the right-angle test. */
  const RightAngleTolerance: real := 0.0001

  /** The four argument errors the constructors can raise, one per message. */
  datatype ArgumentError =
    | RadiusNotPositive       // circle: radius <= 0
    | SidesNotPositive        // triangle: some side <= 0
    | NoSuchTriangle          // triangle: triangle inequality violated
    | SquareSideNotPositive   // square: side <= 0

  datatype Result<+T> = Success(value: T) | Failure(error: ArgumentError)

  datatype Shape =
    | Circle(radius: real)
    | Triangle(sideA: real, sideB: real, sideC: real)
    | Square(side: real)
  {
    /** The invariant every constructed shape satisfies. */
    predicate Valid() {
      match this
      case Circle(r) => r > 0.0
      case Triangle(a, b, c) => a > 0.0 && b > 0.0 && c > 0.0 && IsValidTriangle(a, b, c)
      case Square(s) => s > 0.0
    }

    /**
     * Area of the shape. `sqrt` stands for the library square root that
     * Heron's formula calls; the circle and square do not use it.
     */
    function Area(sqrt: real -> real): real {
      match this
      case Circle(r) => PI * r * r
      case Triangle(a, b, c) => sqrt(HeronRadicand(a, b, c))
      case Square(s) => s * s
    }

    /**
     * Right-angle test of a triangle: twice the square of the longest side
     * is compared with the sum of all three squares.
     */
    predicate IsRightTriangle()
      requires Triangle?
    {
      var maxSide := Max(Max(sideA, sideB), sideC);
      var sumSquares := sideA * sideA + sideB * sideB + sideC * sideC;
      Abs(2.0 * maxSide * maxSide - sumSquares) < RightAngleTolerance
    }
  }

  function Max(x: real, y: real): real {
    if x >= y then x else y
  }

  function Abs(x: real): real {
    if x < 0.0 then -x else x
  }

  /** The strict triangle inequality, in all three orderings. */
  predicate IsValidTriangle(a: real, b: real, c: real) {
    a + b > c && a + c > b && b + c > a
  }

  /** The value under the root in Heron's formula, `s(s-a)(s-b)(s-c)`. */
  function HeronRadicand(a: real, b: real, c: real): real {
    var s := (a + b + c) / 2.0;
    s * (s - a) * (s - b) * (s - c)
  }

  /** Circle constructor: rejects a radius that is not positive. */
  function NewCircle(radius: real): (r: Result<Shape>)
    ensures r.Failure? <==> radius <= 0.0
    ensures r.Failure? ==> r.error == RadiusNotPositive
    ensures r.Success? ==> r.value.Valid() && r.value.Circle? && r.value.radius == radius
  {
    if radius <= 0.0 then Failure(RadiusNotPositive) else Success(Circle(radius))
  }

  /**
   * Triangle constructor: first rejects a side that is not positive, then
   * rejects sides that violate the triangle inequality.
   */
  function NewTriangle(a: real, b: real, c: real): (r: Result<Shape>)
    // the positivity check comes first: a non-positive side never reports the inequality
    ensures (a <= 0.0 || b <= 0.0 || c <= 0.0) ==> r == Failure(SidesNotPositive)
    ensures a > 0.0 && b > 0.0 && c > 0.0 && !IsValidTriangle(a, b, c) ==> r == Failure(NoSuchTriangle)
    // the inequality alone decides success: it already forces every side positive
    ensures r.Success? <==> IsValidTriangle(a, b, c)
    ensures r.Success? ==> r.value.Valid() && r.value == Triangle(a, b, c)
  {
    if a <= 0.0 || b <= 0.0 || c <= 0.0 then Failure(SidesNotPositive)
    else if !IsValidTriangle(a, b, c) then Failure(NoSuchTriangle)
    else Success(Triangle(a, b, c))
  }

  /** Square constructor: rejects a side that is not positive. */
  function NewSquare(side: real): (r: Result<Shape>)
    ensures r.Failure? <==> side <= 0.0
    ensures r.Failure? ==> r.error == SquareSideNotPositive
    ensures r.Success? ==> r.value.Valid() && r.value.Square? && r.value.side == side
  {
    if side <= 0.0 then Failure(SquareSideNotPositive) else Success(Square(side))
  }

  /** Calls the constructor of the shape's own kind with its measurements. */
  function Construct(s: Shape): Result<Shape> {
    match s
    case Circle(r) => NewCircle(r)
    case Triangle(a, b, c) => NewTriangle(a, b, c)
    case Square(x) => NewSquare(x)
  }
}
