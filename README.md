# Geometry shapes

A model of the shape value hierarchy of the geometry library. The library has
three immutable shapes:

- a circle, given by its radius;
- a triangle, given by its three sides;
- a square, given by its side.

Each shape is built by a validating constructor. The constructor either yields
the shape or raises an invalid-argument error. Every shape can report its area
(`CalculateArea`), and the triangle can also report whether it is right-angled
(`IsRightTriangle`).

The model lives in two modules:

- `Geometry` (`geometry.dfy`). The abstract base class and its three
  subclasses become one closed datatype `Shape`, with one variant per
  subclass. Each throwing constructor becomes a function that returns a
  `Result`: either `Success(shape)` or `Failure(error)`. There is one error
  variant for each message the library can raise. `Valid()` is the invariant
  that constructed shapes keep. `Area` dispatches over the variant, as the
  virtual `CalculateArea` does. `IsRightTriangle` is defined only on the
  triangle variant.
- `GeometryProperties` (`geometry_properties.dfy`). The lemmas: what the
  constructors accept, the algebra of Heron's radicand, the positivity of
  every area, the equivalence of the right-angle test with the Pythagorean
  comparison, and the cases the unit tests and the demo program check.

A `double` is modelled as a `real`. `Math.PI` is the constant `PI`, written as
the decimal literal 3.141592653589793. `Math.Pow(x, 2)` is written `x * x`.
`Math.Sqrt` is a library call with no visible body, so `Area` takes the
square root as a parameter `sqrt`. Lemmas that need its meaning require
`IsSquareRoot(sqrt)`: for a non-negative argument, `sqrt` returns the
non-negative number whose square is that argument. Shapes are datatype
values, so `Area` and `IsRightTriangle` cannot change a shape's measurements.
They are fixed when the shape is built, as the source's `readonly` fields and
its never-reassigned `_radius` make them.

One consequence of the model: the three orderings of the triangle inequality
already force every side to be positive. So the triangle constructor's first
check, that every side is positive, never changes whether construction
succeeds. It only decides which error is reported.

## Model

| member | source | states |
|---|---|---|
| `Geometry.NewCircle` | GeometryLibrary/GeometryLibrary.cs:21-29 | Fails, with the radius error, exactly when the radius is at most 0. Otherwise it yields a valid circle whose radius is the argument. |
| `Geometry.NewTriangle` | GeometryLibrary/GeometryLibrary.cs:48-70 | A side at most 0 always gives the "sides not positive" error, never the inequality error. With all sides positive, a failed strict triangle inequality gives the "no such triangle" error. It succeeds exactly when the inequality holds in all three orderings, and then yields a valid triangle with the given sides. |
| `Geometry.NewSquare` | GeometryLibrary/GeometryLibrary.cs:105-113 | Fails, with the square-side error, exactly when the side is at most 0. Otherwise it yields a valid square with that side. |
| `GeometryProperties.ConstructAcceptsExactlyValid` | GeometryLibrary/GeometryLibrary.cs:16-113 | The constructor of a shape's kind, given that shape's measurements, succeeds exactly when the shape satisfies the invariant. When it succeeds it returns that same shape. |
| `GeometryProperties.InequalityForcesPositiveSides` | GeometryLibrary/GeometryLibrary.cs:50-70 | Sides that satisfy the strict triangle inequality in all three orderings are all positive. |
| `GeometryProperties.InequalityIffLongestSideShort` | GeometryLibrary/GeometryLibrary.cs:67-70 | The three orderings of the triangle inequality hold exactly when twice the longest side is less than the perimeter. |
| `GeometryProperties.HeronRadicandPositive` | GeometryLibrary/GeometryLibrary.cs:76-81 | For every accepted triangle, the semi-perimeter s is positive and exceeds each side. So the radicand s(s-a)(s-b)(s-c) is strictly positive. |
| `GeometryProperties.HeronRadicandFactored` | GeometryLibrary/GeometryLibrary.cs:79-80 | 16 times the radicand equals (a+b+c)(b+c-a)(a+c-b)(a+b-c). It also equals 2(a²b²+b²c²+c²a²) - (a⁴+b⁴+c⁴). |
| `GeometryProperties.AreaPositive` | GeometryLibrary/GeometryLibrary.cs:13-122 | Every valid shape has a strictly positive area: PI·r·r for a circle, the Heron root for a triangle, side·side for a square. |
| `GeometryProperties.TriangleAreaSquared` | GeometryLibrary/GeometryLibrary.cs:76-81 | The area of an accepted triangle is positive, and its square is Heron's radicand. |
| `GeometryProperties.SymmetricGapIsPythagoreanGap` | GeometryLibrary/GeometryLibrary.cs:90-94 | With m the longest side, 2m² minus the sum of the three squares equals m² minus the squares of the other two sides. |
| `GeometryProperties.RightTestIffPythagorean` | GeometryLibrary/GeometryLibrary.cs:87-95 | The right-angle test holds exactly when the Pythagorean difference of the longest side is below 0.0001 in absolute value. |
| `GeometryProperties.ExactRightTriangle` | GeometryLibrary/GeometryLibrary.cs:48-95 | Positive sides with c² = a² + b² are accepted by the constructor and pass the right-angle test. Their Heron radicand is (ab/2)². |
| `GeometryProperties.RightTriangleArea` | GeometryLibrary/GeometryLibrary.cs:76-81 | The area of a right triangle is half the product of its legs. |
| `GeometryProperties.CircleCases` | UTest/UnitTest.cs:60-81 | Radius 5 is accepted, with area 25·PI, which lies in [78.535, 78.545) and so shows as 78.54. Radii 0 and -3 are rejected with the radius error. |
| `GeometryProperties.TriangleCases` | UTest/UnitTest.cs:8-56 | (3, 4, 5) is accepted, has radicand 36 and area 6, and is right-angled. (3, 4, 6) is accepted and is not right-angled. (1, 2, 5) is rejected with the "no such triangle" error. |
| `GeometryProperties.SquareCases` | UTest/UnitTest.cs:86-114 | Sides 4 and 5 are accepted, with areas 16 and 25. Sides 0 and -5 are rejected with the square-side error. |

## Left out

- IEEE-754 `double` arithmetic: rounding, overflow, NaN and infinities. All measurements are exact reals, so the area and tolerance results are exact.
- `Math.Sqrt` is not defined. The triangle's area takes the square root as a parameter, and its properties assume only that the parameter behaves as a square root.
- `Math.PI` is the decimal 3.141592653589793, not the binary double it rounds to. The tolerance 0.0001 is likewise the exact decimal.
- `Math.Pow(x, 2)` is modelled as `x * x`.
- The exception message texts are not modelled. Each message is one variant of `ArgumentError`.
- The `IShape` interface (GeometryLibrary/GeometryLibrary.cs:1, 8): its file is not part of this model. `Shape.Area` stands in for its one method.
- The demo program (MindboxTest/Program.cs): console output, two-decimal formatting and error reporting. Its three shapes and their areas are covered by the `CircleCases`, `TriangleCases` and `SquareCases` lemmas.
