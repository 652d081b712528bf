/**
 The perceptron of perceptron.py: a line, the red and the blue point lists,
 the half-plane test, the sampling of one point from injected draws, the
 single training update, and the count of misclassified points.
 */
module Perceptrons {
  import opened Geometry

  /** A raw (x, y) pair as stored in the red and blue lists. */
  type Coord = (real, real)

  /** The perceptron's state; training changes only `line`. */
  datatype Perceptron = Perceptron(
    line: Line,
    redPoints: seq<Coord>,
    bluePoints: seq<Coord>,
    epochs: int,
    learningRate: real)

  /** One injected outcome of the two random choices: a colour, then an index into that colour's list. */
  datatype Draw = Draw(color: Color, index: int)

  /** What sampling yields: a point, or the failure of choosing from an empty list. */
  datatype Sampled = Picked(point: Point) | EmptyChoice

  function AsPoint(q: Coord, color: Color): Point
  {
    Point(q.0, q.1, color)
  }

  /** The area a point lies in: Red where the value is positive, Blue where negative, NoColor on the line. */
  function Location(line: Line, p: Point): (r: Color)
    ensures r == Red <==> Value(line, p) > 0.0
    ensures r == Blue <==> Value(line, p) < 0.0
    ensures r == NoColor <==> Value(line, p) == 0.0
  {
    var v := Value(line, p);
    var above := if v > 0.0 then Red else NoColor;
    if v < 0.0 then Blue else above
  }

  /** The half-plane test: does p lie in `area`? */
  predicate InArea(line: Line, p: Point, area: Color)
    ensures area == Red ==> (InArea(line, p, area) <==> Value(line, p) > 0.0)
    ensures area == Blue ==> (InArea(line, p, area) <==> Value(line, p) < 0.0)
    ensures area == NoColor ==> (InArea(line, p, area) <==> Value(line, p) == 0.0)
  {
    Location(line, p) == area
  }

  /** Every point lies in exactly one of the red area, the blue area and the line itself. */
  lemma AreasPartitionPlane(line: Line, p: Point)
    ensures InArea(line, p, Red) || InArea(line, p, Blue) || InArea(line, p, NoColor)
    ensures !(InArea(line, p, Red) && InArea(line, p, Blue))
    ensures Value(line, p) == 0.0 ==> !InArea(line, p, Red) && !InArea(line, p, Blue)
  {
  }

  /** The list a colour is sampled from. */
  function PointsOf(pc: Perceptron, color: Color): seq<Coord>
    requires color == Red || color == Blue
  {
    if color == Red then pc.redPoints else pc.bluePoints
  }

  /** A draw the random choices could have produced: colour Red or Blue, and an index inside a non-empty list. */
  predicate Drawable(pc: Perceptron, d: Draw)
  {
    && (d.color == Red || d.color == Blue)
    && (|PointsOf(pc, d.color)| > 0 ==> 0 <= d.index < |PointsOf(pc, d.color)|)
  }

  /** Picks a point of the drawn colour; choosing from an empty list fails. */
  function Sample(pc: Perceptron, d: Draw): (r: Sampled)
    requires Drawable(pc, d)
    ensures r == EmptyChoice <==> |PointsOf(pc, d.color)| == 0
    ensures r.Picked? ==> r.point.color == d.color && (r.point.x, r.point.y) == PointsOf(pc, d.color)[d.index]
  {
    var pts := if d.color == Red then pc.redPoints else pc.bluePoints;
    if |pts| == 0 then EmptyChoice else Picked(AsPoint(pts[d.index], d.color))
  }

  /** A sampled point is one of the stored points of its colour. */
  lemma SampledPointIsListed(pc: Perceptron, d: Draw)
    requires Drawable(pc, d) && Sample(pc, d).Picked?
    ensures (Sample(pc, d).point.x, Sample(pc, d).point.y) in PointsOf(pc, d.color)
  {
  }

  /** Sampling reads only the point lists, never the line. */
  lemma SampleIgnoresLine(pc: Perceptron, line: Line, d: Draw)
    requires Drawable(pc, d)
    ensures Drawable(pc.(line := line), d)
    ensures Sample(pc.(line := line), d) == Sample(pc, d)
  {
  }

  /** One training update for the sampled point p with learning rate eta. */
  function Step(line: Line, p: Point, eta: real): (r: Line)
    ensures p.color == Blue && Value(line, p) > 0.0 ==>
              r == Line(line.a - eta * p.x, line.b - eta * p.y, line.c - eta)
    ensures p.color == Red && Value(line, p) < 0.0 ==>
              r == Line(line.a + eta * p.x, line.b + eta * p.y, line.c + eta)
    ensures !(p.color == Blue && Value(line, p) > 0.0) && !(p.color == Red && Value(line, p) < 0.0) ==>
              r == line
  {
    if p.color == Blue && InArea(line, p, Red) then Shift(line, p, -eta)
    else if p.color == Red && InArea(line, p, Blue) then Shift(line, p, eta)
    else line
  }

  /** The update as `train` in perceptron.py writes it: two independent `if`s, the second testing the line the first may already have changed. */
  function SequentialStep(line: Line, p: Point, eta: real): Line
  {
    var afterBlue := if p.color == Blue && InArea(line, p, Red) then Shift(line, p, -eta) else line;
    if p.color == Red && InArea(afterBlue, p, Blue) then Shift(afterBlue, p, eta) else afterBlue
  }

  /** At most one of the two updates fires, because a point has one colour, so the second test always sees the original line. */
  lemma StepIsSequentialStep(line: Line, p: Point, eta: real)
    ensures Step(line, p, eta) == SequentialStep(line, p, eta)
  {
  }

  /** A misclassified point is pushed towards its own side: its value moves by eta * Weight(p) in the right direction. */
  lemma StepCorrectsSampledPoint(line: Line, p: Point, eta: real)
    ensures p.color == Blue && Value(line, p) > 0.0 ==>
              Value(Step(line, p, eta), p) == Value(line, p) - eta * Weight(p)
    ensures p.color == Red && Value(line, p) < 0.0 ==>
              Value(Step(line, p, eta), p) == Value(line, p) + eta * Weight(p)
  {
  }

  /** With a positive rate, one step on a misclassified point makes its value strictly more correct. */
  lemma StepImprovesSampledPoint(line: Line, p: Point, eta: real)
    requires eta > 0.0
    ensures p.color == Blue && Value(line, p) > 0.0 ==> Value(Step(line, p, eta), p) < Value(line, p)
    ensures p.color == Red && Value(line, p) < 0.0 ==> Value(Step(line, p, eta), p) > Value(line, p)
  {
    StepCorrectsSampledPoint(line, p, eta);
  }

  /** How many points of `pts`, coloured `color`, lie in `area`, counting from the front as the loops of `incorrect_point_count` do. */
  function CountInArea(line: Line, pts: seq<Coord>, color: Color, area: Color): (n: nat)
    ensures n <= |pts|
    decreases |pts|
  {
    if |pts| == 0 then 0
    else
      CountInArea(line, pts[..|pts| - 1], color, area)
      + (if InArea(line, AsPoint(pts[|pts| - 1], color), area) then 1 else 0)
  }

  /** The indices of the points of `pts` in `area`: the reference meaning of CountInArea. */
  function IndicesInArea(line: Line, pts: seq<Coord>, color: Color, area: Color): set<int>
  {
    set k | 0 <= k < |pts| && InArea(line, AsPoint(pts[k], color), area)
  }

  lemma {:induction false} CountInAreaIsCardinality(line: Line, pts: seq<Coord>, color: Color, area: Color)
    ensures CountInArea(line, pts, color, area) == |IndicesInArea(line, pts, color, area)|
    decreases |pts|
  {
    if |pts| > 0 {
      var n := |pts| - 1;
      var init := pts[..n];
      CountInAreaIsCardinality(line, init, color, area);
      var before := IndicesInArea(line, init, color, area);
      var after := IndicesInArea(line, pts, color, area);
      if InArea(line, AsPoint(pts[n], color), area) {
        assert after == before + {n};
        assert n !in before;
      } else {
        assert after == before;
      }
    }
  }

  /** The number of misclassified points: red points in the blue area plus blue points in the red area. */
  function IncorrectCount(pc: Perceptron): (n: nat)
    ensures n <= TotalCount(pc)
  {
    CountInArea(pc.line, pc.redPoints, Red, Blue) + CountInArea(pc.line, pc.bluePoints, Blue, Red)
  }

  /** All points, red and blue: the denominator of a progress report. */
  function TotalCount(pc: Perceptron): nat
  {
    |pc.redPoints| + |pc.bluePoints|
  }

  /** The red points with a negative value. */
  function RedErrors(pc: Perceptron): set<int>
  {
    set k | 0 <= k < |pc.redPoints| && Value(pc.line, AsPoint(pc.redPoints[k], Red)) < 0.0
  }

  /** The blue points with a positive value. */
  function BlueErrors(pc: Perceptron): set<int>
  {
    set k | 0 <= k < |pc.bluePoints| && Value(pc.line, AsPoint(pc.bluePoints[k], Blue)) > 0.0
  }

  /** The error count is the number of red points below the line plus the number of blue points above it, and at most the number of points. */
  lemma IncorrectCountMeaning(pc: Perceptron)
    ensures IncorrectCount(pc) == |RedErrors(pc)| + |BlueErrors(pc)|
    ensures 0 <= IncorrectCount(pc) <= TotalCount(pc)
  {
    CountInAreaIsCardinality(pc.line, pc.redPoints, Red, Blue);
    CountInAreaIsCardinality(pc.line, pc.bluePoints, Blue, Red);
    assert IndicesInArea(pc.line, pc.redPoints, Red, Blue) == RedErrors(pc);
    assert IndicesInArea(pc.line, pc.bluePoints, Blue, Red) == BlueErrors(pc);
  }

  /** The error count depends on the line and the point lists only: epochs and learning rate play no part. */
  lemma IncorrectCountReadsLineAndPoints(pc: Perceptron, epochs: int, rate: real)
    ensures IncorrectCount(pc.(epochs := epochs, learningRate := rate)) == IncorrectCount(pc)
  {
  }

  /** The counting loops of `incorrect_point_count`: red points first, then blue points. */
  method IncorrectPointCount(pc: Perceptron) returns (incorrect: nat)
    ensures incorrect == |RedErrors(pc)| + |BlueErrors(pc)|
    ensures incorrect <= TotalCount(pc)
  {
    incorrect := 0;
    var i := 0;
    while i < |pc.redPoints|
      invariant 0 <= i <= |pc.redPoints|
      invariant incorrect == CountInArea(pc.line, pc.redPoints[..i], Red, Blue)
    {
      assert pc.redPoints[..i + 1][..i] == pc.redPoints[..i];
      if InArea(pc.line, AsPoint(pc.redPoints[i], Red), Blue) {
        incorrect := incorrect + 1;
      }
      i := i + 1;
    }
    assert pc.redPoints[..i] == pc.redPoints;
    var j := 0;
    while j < |pc.bluePoints|
      invariant 0 <= j <= |pc.bluePoints|
      invariant incorrect == CountInArea(pc.line, pc.redPoints, Red, Blue)
                             + CountInArea(pc.line, pc.bluePoints[..j], Blue, Red)
    {
      assert pc.bluePoints[..j + 1][..j] == pc.bluePoints[..j];
      if InArea(pc.line, AsPoint(pc.bluePoints[j], Blue), Red) {
        incorrect := incorrect + 1;
      }
      j := j + 1;
    }
    assert pc.bluePoints[..j] == pc.bluePoints;
    IncorrectCountMeaning(pc);
  }
}
