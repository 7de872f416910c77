/** The stand-alone B-spline editor: a fixed cubic (order 4) curve over an
    editable control polygon. */
module BSplineDemo {
  import opened Geometry
  import opened CoxDeBoor
  import opened Calculator

  class BSplineInterpolation {
    var points: seq<Point>
    /** The order is set once and never changed. */
    const k: nat := 4

    /** The polygon is never emptied. */
    ghost predicate Valid()
      reads this
    {
      |points| >= 1
    }

    /** `__init__`: eight points 100 pixels apart, alternating between heights
        300 and 100, and order 4. */
    constructor ()
      ensures Valid() && k == 4
      ensures |points| == 8 && SortedByX(points)
      ensures forall i :: 0 <= i < 8 ==> points[i].x == 100.0 * ((i + 1) as real)
      ensures forall i :: 0 <= i < 8 ==> points[i].y == (if i % 2 == 0 then 300.0 else 100.0)
    {
      points := seq(8, i requires 0 <= i < 8 => Point(100.0 + (i as real) * 100.0, if i % 2 == 0 then 300.0 else 100.0));
    }

    /** `compute_bspline(num_points)` (100 when not given): `num_points` samples of the order-4
        curve of the current polygon over `[knots[3], knots[n]]`, with no
        guard on the polygon size. */
    method ComputeBSpline(numPoints: nat) returns (curve: seq<Point>)
      ensures curve == SampledCurve(points, 4, numPoints)
      ensures |curve| == numPoints
    {
      var n := |points|;
      var knots := UniformKnots(n + k);
      var tValues := Linspace(knots[k - 1], knots[n], numPoints);
      curve := SampleAt(points, k, knots, tValues);
    }

    /** `find_point(x, y)`: the first control point within distance 10 of
        `(x, y)`, if any. */
    method FindPoint(x: real, y: real) returns (r: Option<Point>)
      ensures r.Some? ==> exists i :: (0 <= i < |points| && points[i] == r.value
        && Near(points[i], x, y) && forall j :: 0 <= j < i ==> !Near(points[j], x, y))
      ensures r.None? <==> forall j :: 0 <= j < |points| ==> !Near(points[j], x, y)
    {
      var index := Geometry.FindPoint(points, x, y);
      if index.None? {
        return None;
      }
      return Some(points[index.value]);
    }

    /** `add_point(x, y)`: append the point and sort the polygon by x, stably. */
    method AddPoint(x: real, y: real)
      requires Valid()
      modifies this
      ensures Valid()
      ensures points == SortByX(old(points) + [Point(x, y)])
      ensures |points| == |old(points)| + 1
      ensures multiset(points) == multiset(old(points)) + multiset{Point(x, y)}
      ensures SortedByX(points)
      ensures SortedByX(old(points)) ==> points == InsertByX(old(points), Point(x, y))
    {
      var extended := points + [Point(x, y)];
      SortByXCorrect(extended);
      if SortedByX(points) {
        SortByXOfSorted(points);
        assert extended[..|extended| - 1] == points;
      }
      points := SortByX(extended);
    }
  }
}
