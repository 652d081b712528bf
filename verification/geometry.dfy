/**
 The plane the perceptron works in: colours, points, and a line in implicit
 form a*x + b*y + c = 0. Coordinates and coefficients are mathematical reals.
 */
module Geometry {

  /** The three colours of the program: two point classes and "no area". */
  datatype Color = Red | Blue | NoColor

  /** A line a*x + b*y + c = 0. All coefficients may be zero (a degenerate line). */
  datatype Line = Line(a: real, b: real, c: real)

  /** The coefficients a Line gets when none are given: x + y = 0. */
  const DefaultLine: Line := Line(1.0, 1.0, 0.0)

  /** A coordinate pair tagged with the colour it was drawn from. */
  datatype Point = Point(x: real, y: real, color: Color)

  /** The signed value of the line at a point. */
  function Value(line: Line, p: Point): real
  {
    (line.a * p.x) + (line.b * p.y) + line.c
  }

  /** The line with (s*x, s*y, s) added to its coefficients: the perceptron nudge towards or away from p. */
  function Shift(line: Line, p: Point, s: real): Line
  {
    Line(line.a + s * p.x, line.b + s * p.y, line.c + s)
  }

  /** The squared length of (x, y, 1): the factor by which a nudge moves the value at its own point. */
  function Weight(p: Point): (w: real)
    ensures w >= 1.0
  {
    p.x * p.x + p.y * p.y + 1.0
  }

  /** The value is an affine function of the point: its constant term is c, its slopes are a and b, and the colour plays no part. */
  lemma ValueIsAffine(line: Line, p: Point, q: Point)
    ensures Value(line, Point(0.0, 0.0, p.color)) == line.c
    ensures Value(line, p) - Value(line, q) == line.a * (p.x - q.x) + line.b * (p.y - q.y)
    ensures Value(line, p) == Value(line, p.(color := q.color))
  {
  }

  /** A line with a == b == 0 gives every point the same value c. */
  lemma DegenerateLineIsConstant(line: Line, p: Point)
    requires line.a == 0.0 && line.b == 0.0
    ensures Value(line, p) == line.c
  {
  }

  /** Shifting by s along q changes the value at p by s times the dot product of (q.x, q.y, 1) and (p.x, p.y, 1). */
  lemma ValueOfShift(line: Line, q: Point, s: real, p: Point)
    ensures Value(Shift(line, q, s), p) == Value(line, p) + s * (q.x * p.x + q.y * p.y + 1.0)
  {
  }

  /** A nudge along p moves the value at p itself by exactly s * Weight(p). */
  lemma ShiftMovesOwnValue(line: Line, p: Point, s: real)
    ensures Value(Shift(line, p, s), p) == Value(line, p) + s * Weight(p)
  {
    ValueOfShift(line, p, s, p);
  }

  /** The default line is x + y = 0: its value at a point is the sum of the coordinates. */
  lemma DefaultLineValue(p: Point)
    ensures Value(DefaultLine, p) == p.x + p.y
  {
  }
}
