/**
 * What the shape constructors, the area operation and the right-angle test
 * promise, stated over the model in module Geometry.
 */
module GeometryProperties {
  import opened Geometry

  /**
   * What is assumed of the library square root: for a non-negative
   * argument it returns the non-negative number whose square is that
   * argument.
   */
  ghost predicate IsSquareRoot(sqrt: real -> real) {
    forall x: real :: 0.0 <= x ==> 0.0 <= sqrt(x) && sqrt(x) * sqrt(x) == x
  }

  /**
   * The usual Pythagorean difference: the square of a longest side minus
   * the squares of the other two.
   */
  function HypotenuseGap(a: real, b: real, c: real): real {
    if c >= a && c >= b then c * c - (a * a + b * b)
    else if b >= a then b * b - (a * a + c * c)
    else a * a - (b * b + c * c)
  }

  // ---------------------------------------------------------------------
  // Construction

  /**
   * The constructors accept exactly the valid shapes, and hand back the
   * very shape whose measurements they were given.
   */
  lemma ConstructAcceptsExactlyValid(s: Shape)
    ensures Construct(s).Success? <==> s.Valid()
    ensures Construct(s).Success? ==> Construct(s).value == s
  {
  }

  /** The triangle inequality alone already forces every side positive. */
  lemma InequalityForcesPositiveSides(a: real, b: real, c: real)
    requires IsValidTriangle(a, b, c)
    ensures a > 0.0 && b > 0.0 && c > 0.0
  {
  }

  /**
   * The three orderings of the triangle inequality say together that the
   * longest side is shorter than the other two together.
   */
  lemma InequalityIffLongestSideShort(a: real, b: real, c: real)
    ensures IsValidTriangle(a, b, c) <==> 2.0 * Max(Max(a, b), c) < a + b + c
  {
  }

  // ---------------------------------------------------------------------
  // Heron's formula

  /**
   * For every triangle the constructor accepts, the semi-perimeter exceeds
   * each side, so every factor of Heron's radicand and the radicand itself
   * are strictly positive: the root is never taken of a negative number.
   */
  lemma {:induction false} HeronRadicandPositive(a: real, b: real, c: real)
    requires NewTriangle(a, b, c).Success?
    ensures var s := (a + b + c) / 2.0; s > 0.0 && s - a > 0.0 && s - b > 0.0 && s - c > 0.0
    ensures HeronRadicand(a, b, c) > 0.0
  {
    var s := (a + b + c) / 2.0;
    var p := s * (s - a);
    var q := p * (s - b);
    assert p > 0.0 by { MulPositive(s, s - a); }
    assert q > 0.0 by { MulPositive(p, s - b); }
    MulPositive(q, s - c);
  }

  lemma MulPositive(x: real, y: real)
    requires x > 0.0 && y > 0.0
    ensures x * y > 0.0
  {
  }

  /**
   * Heron's radicand, times 16, is the product of the perimeter with the
   * three amounts by which one side pair exceeds the third side, and equals
   * the symmetric polynomial of the squared sides.
   */
  lemma HeronRadicandFactored(a: real, b: real, c: real)
    ensures 16.0 * HeronRadicand(a, b, c) == (a + b + c) * (b + c - a) * (a + c - b) * (a + b - c)
    ensures 16.0 * HeronRadicand(a, b, c)
         == 2.0 * (a * a * b * b + b * b * c * c + c * c * a * a) - (a * a * a * a + b * b * b * b + c * c * c * c)
  {
  }

  // ---------------------------------------------------------------------
  // Area

  /** Every constructed shape has a strictly positive area. */
  lemma AreaPositive(shape: Shape, sqrt: real -> real)
    requires shape.Valid() && IsSquareRoot(sqrt)
    ensures shape.Area(sqrt) > 0.0
  {
    match shape
    case Circle(r) =>
      calc {
        shape.Area(sqrt);
      ==
        PI * r * r;
      >  { PositiveProduct3(PI, r, r); }
        0.0;
      }
    case Triangle(a, b, c) =>
      TriangleAreaSquared(a, b, c, sqrt);
    case Square(x) =>
      calc {
        shape.Area(sqrt);
      ==
        x * x;
      >  { MulPositive(x, x); }
        0.0;
      }
  }

  lemma PositiveProduct3(x: real, y: real, z: real)
    requires x > 0.0 && y > 0.0 && z > 0.0
    ensures x * y * z > 0.0
  {
    MulPositive(x, y);
    MulPositive(x * y, z);
  }

  /**
   * The triangle's area is the positive number whose square is Heron's
   * radicand.
   */
  lemma TriangleAreaSquared(a: real, b: real, c: real, sqrt: real -> real)
    requires NewTriangle(a, b, c).Success? && IsSquareRoot(sqrt)
    ensures var area := Triangle(a, b, c).Area(sqrt); area > 0.0 && area * area == HeronRadicand(a, b, c)
  {
    var x := HeronRadicand(a, b, c);
    HeronRadicandPositive(a, b, c);
    assert 0.0 <= sqrt(x) && sqrt(x) * sqrt(x) == x;
  }

  /** Two non-negative numbers with the same square are equal. */
  lemma SquareInjective(y: real, z: real)
    requires 0.0 <= y && 0.0 <= z && y * y == z * z
    ensures y == z
  {
    assert (y - z) * (y + z) == 0.0;
    if y + z == 0.0 {
    } else {
      assert y - z == 0.0;
    }
  }

  // ---------------------------------------------------------------------
  // Right-angle test

  /**
   * Comparing twice the longest square with the sum of all three squares
   * is the Pythagorean comparison of the longest square with the other
   * two: the two differences are equal.
   */
  lemma SymmetricGapIsPythagoreanGap(a: real, b: real, c: real)
    ensures var m := Max(Max(a, b), c);
            2.0 * m * m - (a * a + b * b + c * c) == HypotenuseGap(a, b, c)
  {
  }

  /** The right-angle test holds exactly when the Pythagorean gap is within tolerance. */
  lemma RightTestIffPythagorean(a: real, b: real, c: real)
    ensures Triangle(a, b, c).IsRightTriangle() <==> Abs(HypotenuseGap(a, b, c)) < RightAngleTolerance
  {
    SymmetricGapIsPythagoreanGap(a, b, c);
  }

  /**
   * Positive sides in exact Pythagorean relation build a triangle, it
   * passes the right-angle test, and its Heron radicand is the square of
   * half the product of the legs.
   */
  lemma ExactRightTriangle(a: real, b: real, c: real)
    requires a > 0.0 && b > 0.0 && c > 0.0 && c * c == a * a + b * b
    ensures NewTriangle(a, b, c) == Success(Triangle(a, b, c))
    ensures Triangle(a, b, c).IsRightTriangle()
    ensures HeronRadicand(a, b, c) == (a * b / 2.0) * (a * b / 2.0)
  {
    // the hypotenuse is longer than either leg and shorter than both together
    MulPositive(a, b);
    MulPositive(a, a);
    MulPositive(b, b);
    assert c * c < (a + b) * (a + b);
    LessBySquares(c, a + b);
    LessBySquares(a, c);
    LessBySquares(b, c);
    assert HypotenuseGap(a, b, c) == 0.0;
    RightTestIffPythagorean(a, b, c);
    HeronRadicandFactored(a, b, c);
  }

  /** Between non-negative numbers, a smaller square means a smaller number. */
  lemma LessBySquares(y: real, z: real)
    requires 0.0 <= y && 0.0 <= z && y * y < z * z
    ensures y < z
  {
  }

  /** A right triangle's area is half the product of its legs. */
  lemma RightTriangleArea(a: real, b: real, c: real, sqrt: real -> real)
    requires a > 0.0 && b > 0.0 && c > 0.0 && c * c == a * a + b * b
    requires IsSquareRoot(sqrt)
    ensures Triangle(a, b, c).Area(sqrt) == a * b / 2.0
  {
    ExactRightTriangle(a, b, c);
    TriangleAreaSquared(a, b, c, sqrt);
    MulPositive(a, b);
    SquareInjective(Triangle(a, b, c).Area(sqrt), a * b / 2.0);
  }

  // ---------------------------------------------------------------------
  // The documented cases

  /** A circle of radius 5 has area 25 PI, shown as 78.54; radii 0 and -3 are rejected. */
  lemma CircleCases(sqrt: real -> real)
    ensures NewCircle(5.0) == Success(Circle(5.0))
    ensures Circle(5.0).Area(sqrt) == PI * 25.0
    ensures 78.535 <= Circle(5.0).Area(sqrt) < 78.545
    ensures NewCircle(0.0) == Failure(RadiusNotPositive)
    ensures NewCircle(-3.0) == Failure(RadiusNotPositive)
  {
  }

  /**
   * The 3-4-5 triangle is built, has area 6 and is right-angled; 3-4-6 is
   * not right-angled; 1-2-5 violates the triangle inequality.
   */
  lemma TriangleCases(sqrt: real -> real)
    requires IsSquareRoot(sqrt)
    ensures NewTriangle(3.0, 4.0, 5.0) == Success(Triangle(3.0, 4.0, 5.0))
    ensures HeronRadicand(3.0, 4.0, 5.0) == 36.0
    ensures Triangle(3.0, 4.0, 5.0).Area(sqrt) == 6.0
    ensures Triangle(3.0, 4.0, 5.0).IsRightTriangle()
    ensures NewTriangle(3.0, 4.0, 6.0) == Success(Triangle(3.0, 4.0, 6.0))
    ensures !Triangle(3.0, 4.0, 6.0).IsRightTriangle()
    ensures NewTriangle(1.0, 2.0, 5.0) == Failure(NoSuchTriangle)
  {
    RightTriangleArea(3.0, 4.0, 5.0, sqrt);
  }

  /** Squares of side 4 and 5 have areas 16 and 25; sides 0 and -5 are rejected. */
  lemma SquareCases(sqrt: real -> real)
    ensures NewSquare(4.0) == Success(Square(4.0)) && Square(4.0).Area(sqrt) == 16.0
    ensures NewSquare(5.0) == Success(Square(5.0)) && Square(5.0).Area(sqrt) == 25.0
    ensures NewSquare(0.0) == Failure(SquareSideNotPositive)
    ensures NewSquare(-5.0) == Failure(SquareSideNotPositive)
  {
  }
}
