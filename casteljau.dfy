/** The de Casteljau editor: a Bézier curve evaluated by repeated linear
    interpolation between neighbouring points, keeping every intermediate
    level. */
module Casteljau {
  import opened Geometry

  /** `(1 - t)·p + t·q`, coordinate by coordinate. */
  function Lerp(p: Point, q: Point, t: real): Point
  {
    Point((1.0 - t) * p.x + t * q.x, (1.0 - t) * p.y + t * q.y)
  }

  /** One level: every pair of neighbours replaced by its interpolant. */
  function Level(ps: seq<Point>, t: real): (r: seq<Point>)
    requires |ps| >= 1
    ensures |r| == |ps| - 1
  {
    seq(|ps| - 1, i requires 0 <= i < |ps| - 1 => Lerp(ps[i], ps[i + 1], t))
  }

  /** The points after r levels. */
  function Iterate(ps: seq<Point>, t: real, r: nat): (level: seq<Point>)
    requires r < |ps|
    ensures |level| == |ps| - r
    decreases r
  {
    if r == 0 then ps else Level(Iterate(ps, t, r - 1), t)
  }

  /** The curve point: the single point left after `|ps| - 1` levels. */
  function CurvePoint(ps: seq<Point>, t: real): Point
    requires |ps| >= 1
  {
    Iterate(ps, t, |ps| - 1)[0]
  }

  /** The intermediate levels 1 to `|ps| - 1`: one fewer level than there are
      points, and level `j + 1` holds `|ps| - 1 - j` points. */
  function Steps(ps: seq<Point>, t: real): (steps: seq<seq<Point>>)
    requires |ps| >= 1
    ensures |steps| == |ps| - 1
    ensures forall j :: 0 <= j < |steps| ==> |steps[j]| == |ps| - 1 - j
  {
    seq(|ps| - 1, j requires 0 <= j < |ps| - 1 => Iterate(ps, t, j + 1))
  }

  /** The first r levels, in the order the loop of `de_casteljau` records
      them. */
  function StepsUpTo(ps: seq<Point>, t: real, r: nat): seq<seq<Point>>
    requires r < |ps|
  {
    if r == 0 then [] else StepsUpTo(ps, t, r - 1) + [Iterate(ps, t, r)]
  }

  /** Recording levels one at a time gives a prefix of `Steps`. */
  lemma {:induction false} StepsUpToAll(ps: seq<Point>, t: real, r: nat)
    requires r < |ps|
    ensures StepsUpTo(ps, t, r) == Steps(ps, t)[..r]
    decreases r
  {
    if r > 0 {
      StepsUpToAll(ps, t, r - 1);
      assert Steps(ps, t)[..r] == Steps(ps, t)[..r - 1] + [Steps(ps, t)[r - 1]];
    }
  }

  /** At t = 0 every level keeps the leading points unchanged. */
  lemma {:induction false} IterateAtZero(ps: seq<Point>, r: nat)
    requires r < |ps|
    ensures Iterate(ps, 0.0, r) == ps[..|ps| - r]
    decreases r
  {
    if r > 0 {
      IterateAtZero(ps, r - 1);
    }
  }

  /** At t = 1 every level keeps the trailing points unchanged. */
  lemma {:induction false} IterateAtOne(ps: seq<Point>, r: nat)
    requires r < |ps|
    ensures Iterate(ps, 1.0, r) == ps[r..]
    decreases r
  {
    if r > 0 {
      IterateAtOne(ps, r - 1);
    }
  }

  /** The curve starts at the first control point and ends at the last. */
  lemma {:induction false} CurveEndpoints(ps: seq<Point>)
    requires |ps| >= 1
    ensures CurvePoint(ps, 0.0) == ps[0]
    ensures CurvePoint(ps, 1.0) == ps[|ps| - 1]
  {
    IterateAtZero(ps, |ps| - 1);
    IterateAtOne(ps, |ps| - 1);
  }

  /** For t in [0, 1] an interpolant lies between its two ends. */
  lemma {:induction false} LerpBetween(a: real, b: real, t: real, lo: real, hi: real)
    requires lo <= a <= hi && lo <= b <= hi && 0.0 <= t <= 1.0
    ensures lo <= (1.0 - t) * a + t * b <= hi
  {
    MulNonneg(1.0 - t, a - lo);
    MulNonneg(t, b - lo);
    MulNonneg(1.0 - t, hi - a);
    MulNonneg(t, hi - b);
  }

  /** For t in [0, 1] the interpolant of two points in a box is in the box. */
  lemma {:induction false} LerpInBox(p: Point, q: Point, t: real, xlo: real, xhi: real, ylo: real, yhi: real)
    requires 0.0 <= t <= 1.0
    requires xlo <= p.x <= xhi && ylo <= p.y <= yhi
    requires xlo <= q.x <= xhi && ylo <= q.y <= yhi
    ensures var r := Lerp(p, q, t); xlo <= r.x <= xhi && ylo <= r.y <= yhi
  {
    LerpBetween(p.x, q.x, t, xlo, xhi);
    LerpBetween(p.y, q.y, t, ylo, yhi);
  }

  /** For t in [0, 1] every level stays inside any box holding the control
      points. */
  lemma {:induction false} IterateInBox(ps: seq<Point>, t: real, r: nat, xlo: real, xhi: real, ylo: real, yhi: real)
    requires r < |ps| && 0.0 <= t <= 1.0
    requires InBox(ps, xlo, xhi, ylo, yhi)
    ensures InBox(Iterate(ps, t, r), xlo, xhi, ylo, yhi)
    decreases r
  {
    if r > 0 {
      var prev := Iterate(ps, t, r - 1);
      IterateInBox(ps, t, r - 1, xlo, xhi, ylo, yhi);
      var next := Level(prev, t);
      forall i | 0 <= i < |next|
        ensures xlo <= next[i].x <= xhi && ylo <= next[i].y <= yhi
      {
        LerpInBox(prev[i], prev[i + 1], t, xlo, xhi, ylo, yhi);
      }
      assert Iterate(ps, t, r) == next;
    }
  }

  /** For t in [0, 1] each coordinate of the curve point lies between the
      smallest and the largest value of that coordinate over the control
      points. */
  lemma {:induction false} CurvePointInBox(ps: seq<Point>, t: real, xlo: real, xhi: real, ylo: real, yhi: real)
    requires |ps| >= 1 && 0.0 <= t <= 1.0
    requires InBox(ps, xlo, xhi, ylo, yhi)
    ensures xlo <= CurvePoint(ps, t).x <= xhi && ylo <= CurvePoint(ps, t).y <= yhi
  {
    IterateInBox(ps, t, |ps| - 1, xlo, xhi, ylo, yhi);
  }

  /** One coordinate of two interpolation levels over three values: the
      first level gives u and v, the second their interpolant. */
  lemma {:induction false} QuadraticCoordinate(a: real, b: real, c: real, t: real, u: real, v: real)
    requires u == (1.0 - t) * a + t * b && v == (1.0 - t) * b + t * c
    ensures (1.0 - t) * u + t * v == (1.0 - t) * (1.0 - t) * a + 2.0 * (1.0 - t) * t * b + t * t * c
  {
    var s := 1.0 - t;
    assert s * u == s * s * a + s * t * b;
    assert t * v == s * t * b + t * t * c;
  }

  /** Three control points take two levels. */
  lemma {:induction false} TwoLevels(p0: Point, p1: Point, p2: Point, t: real)
    ensures CurvePoint([p0, p1, p2], t) == Lerp(Lerp(p0, p1, t), Lerp(p1, p2, t), t)
  {
    var ps := [p0, p1, p2];
    var l1 := Level(ps, t);
    assert l1 == [Lerp(p0, p1, t), Lerp(p1, p2, t)];
    assert Iterate(ps, t, 2) == Level(l1, t);
  }

  /** Two interpolation levels over three points, in Bernstein form. */
  lemma {:induction false} QuadraticLerp(p0: Point, p1: Point, p2: Point, t: real)
    ensures var s := 1.0 - t;
      Lerp(Lerp(p0, p1, t), Lerp(p1, p2, t), t) ==
        Point(s * s * p0.x + 2.0 * s * t * p1.x + t * t * p2.x,
              s * s * p0.y + 2.0 * s * t * p1.y + t * t * p2.y)
  {
    var a, b := Lerp(p0, p1, t), Lerp(p1, p2, t);
    QuadraticCoordinate(p0.x, p1.x, p2.x, t, a.x, b.x);
    QuadraticCoordinate(p0.y, p1.y, p2.y, t, a.y, b.y);
  }

  /** Three control points give the quadratic Bézier curve in Bernstein form. */
  lemma {:induction false} QuadraticBernsteinForm(p0: Point, p1: Point, p2: Point, t: real)
    ensures var s := 1.0 - t;
      CurvePoint([p0, p1, p2], t) ==
        Point(s * s * p0.x + 2.0 * s * t * p1.x + t * t * p2.x,
              s * s * p0.y + 2.0 * s * t * p1.y + t * t * p2.y)
  {
    TwoLevels(p0, p1, p2, t);
    QuadraticLerp(p0, p1, p2, t);
  }

  /** One pass of the inner loop: `a[i] := (1 - t)·a[i] + t·a[i + 1]` for
      i = 0 … m - 1, keeping a copy of each new point. The first m entries
      become the next level of the first m + 1; the rest stay as they were. */
  method LevelInPlace(a: array<Point>, m: nat, t: real) returns (newPoints: seq<Point>)
    requires m < a.Length
    modifies a
    ensures a[..m] == Level(old(a[..m + 1]), t)
    ensures a[m..] == old(a[m..])
    ensures newPoints == a[..m]
  {
    ghost var prev := a[..m + 1];
    newPoints := [];
    for i := 0 to m
      invariant a[..i] == Level(prev, t)[..i]
      invariant a[i..] == old(a[i..])
      invariant newPoints == a[..i]
    {
      assert a[i] == a[i..][0] == prev[i];
      assert a[i + 1] == a[i..][1] == prev[i + 1];
      a[i] := Lerp(a[i], a[i + 1], t);
      newPoints := newPoints + [a[i]];
    }
  }

  /** The body of `de_casteljau(t)`: copy the points into a fresh array,
      overwrite its first `n - r` entries at level r with the interpolants of
      their neighbours, record a copy of each level, and return the single
      point left at the front. */
  method EvaluateOnCopy(ps: seq<Point>, t: real) returns (point: Point, steps: seq<seq<Point>>)
    requires |ps| >= 1
    ensures point == CurvePoint(ps, t)
    ensures steps == Steps(ps, t)
  {
    var n := |ps|;
    var a := new Point[n](i requires 0 <= i < n => ps[i]);
    assert a[..n] == ps;
    steps := [];
    for r := 1 to n
      invariant a.Length == n
      invariant a[..n - r + 1] == Iterate(ps, t, r - 1)
      invariant steps == StepsUpTo(ps, t, r - 1)
    {
      ghost var before := a[..n - r + 1];
      var newPoints := LevelInPlace(a, n - r, t);
      assert newPoints == Level(before, t);
      steps := steps + [newPoints];
    }
    StepsUpToAll(ps, t, n - 1);
    assert a[0] == a[..1][0];
    point := a[0];
  }

  class DeCasteljau {
    var points: seq<Point>

    /** The editor never removes a point. */
    ghost predicate Valid()
      reads this
    {
      |points| >= 1
    }

    /** `__init__`: the three control points of a symmetric arch. */
    constructor ()
      ensures Valid()
      ensures points == [Point(100.0, 300.0), Point(300.0, 100.0), Point(500.0, 300.0)]
    {
      points := [Point(100.0, 300.0), Point(300.0, 100.0), Point(500.0, 300.0)];
    }

    /** `de_casteljau(t)`: the curve point and every intermediate level,
        computed on a copy; the control points themselves are not touched. */
    method Evaluate(t: real) returns (point: Point, steps: seq<seq<Point>>)
      requires Valid()
      ensures point == CurvePoint(points, t)
      ensures steps == Steps(points, t)
      ensures |points| == 1 ==> point == points[0] && steps == []
    {
      point, steps := EvaluateOnCopy(points, t);
    }

    /** `find_point(x, y)`: the first control point within distance 10 of
        `(x, y)`, if any. */
    method FindPoint(x: real, y: real) returns (r: Option<Point>)
      ensures r.Some? ==> exists i :: (0 <= i < |points| && points[i] == r.value
        && Near(points[i], x, y) && forall j :: 0 <= j < i ==> !Near(points[j], x, y))
      ensures r.None? <==> forall j :: 0 <= j < |points| ==> !Near(points[j], x, y)
    {
      var index := Geometry.FindPoint(points, x, y);
      if index.None? {
        return None;
      }
      return Some(points[index.value]);
    }
  }
}
