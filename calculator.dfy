/** `BSplineCalculator.compute_bspline`: the guarded curve sampler, built on the
    basis recursion of module CoxDeBoor. */
module Calculator {
  import opened Geometry
  import opened CoxDeBoor

  /** One curve point: `Σ_i basis(i, k, t) · points[i]`, coordinate by coordinate. */
  function CurvePoint(points: seq<Point>, k: nat, t: real, knots: seq<real>): Point
    requires 1 <= k && |points| + k <= |knots|
  {
    Combine(Weights(|points|, k, t, knots), points)
  }

  /** The curve evaluated at every parameter of `ts`, in order. */
  function CurveAt(points: seq<Point>, k: nat, knots: seq<real>, ts: seq<real>): (curve: seq<Point>)
    requires 1 <= k && |points| + k <= |knots|
    ensures |curve| == |ts|
  {
    seq(|ts|, j requires 0 <= j < |ts| => CurvePoint(points, k, ts[j], knots))
  }

  /** `knots[k - 1]` and `knots[n]` of the uniform knot vector with `n + k` entries. */
  function DomainStart(n: nat, k: nat): real
    requires 1 <= k
  {
    UniformKnots(n + k)[k - 1]
  }

  function DomainEnd(n: nat, k: nat): real
    requires 1 <= k
  {
    UniformKnots(n + k)[n]
  }

  /** The sample parameters: `num` values spread evenly over `[knots[k - 1], knots[n]]`. */
  function SampleParams(n: nat, k: nat, num: nat): (ts: seq<real>)
    requires 1 <= k
    ensures |ts| == num
  {
    Linspace(DomainStart(n, k), DomainEnd(n, k), num)
  }

  /** The curve of `points` at order k, sampled `num` times over its domain. */
  function SampledCurve(points: seq<Point>, k: nat, num: nat): (curve: seq<Point>)
    requires 1 <= k
    ensures |curve| == num
  {
    CurveAt(points, k, UniformKnots(|points| + k), SampleParams(|points|, k, num))
  }

  /** With at least as many control points as the order, the domain
      `[knots[k - 1], knots[n]]` is a proper interval: the empty-domain guard
      never fires. */
  lemma {:induction false} DomainNonEmpty(n: nat, k: nat)
    requires 1 <= k <= n
    ensures DomainStart(n, k) < DomainEnd(n, k)
  {
    UniformKnotsShape(n + k);
  }

  /** Every sample parameter lies in the domain. */
  lemma {:induction false} SampleParamsInDomain(n: nat, k: nat, num: nat, j: nat)
    requires 1 <= k <= n && j < num
    ensures DomainStart(n, k) <= SampleParams(n, k, num)[j] <= DomainEnd(n, k)
  {
    DomainNonEmpty(n, k);
    LinspaceBounds(DomainStart(n, k), DomainEnd(n, k), num, j);
  }

  /** The shared body of every `compute_bspline`: knots `linspace(0, 1, n + k)`,
      `num` parameters from `knots[k - 1]` to `knots[n]`, the curve at each. */
  method SampleOverDomain(points: seq<Point>, k: nat, num: nat) returns (curve: seq<Point>)
    requires 1 <= k
    ensures curve == SampledCurve(points, k, num)
  {
    var n := |points|;
    var knots := UniformKnots(n + k);
    var tValues := Linspace(knots[k - 1], knots[n], num);
    assert tValues == SampleParams(n, k, num);
    curve := SampleAt(points, k, knots, tValues);
  }

  /** The per-parameter accumulation loop shared by every sampler of the
      program: for each `t` in turn, one curve point. */
  method SampleAt(points: seq<Point>, k: nat, knots: seq<real>, ts: seq<real>) returns (curve: seq<Point>)
    requires 1 <= k && |points| + k <= |knots|
    ensures curve == CurveAt(points, k, knots, ts)
  {
    curve := [];
    var j := 0;
    while j < |ts|
      invariant 0 <= j <= |ts|
      invariant curve == CurveAt(points, k, knots, ts[..j])
    {
      var p := PointAt(points, k, ts[j], knots);
      curve := curve + [p];
      assert ts[..j + 1][..j] == ts[..j];
      j := j + 1;
    }
    assert ts[..j] == ts;
  }

  /** The inner loop for one parameter: `x += basis * points[i]['x']` and
      likewise for y, over every control point. */
  method PointAt(points: seq<Point>, k: nat, t: real, knots: seq<real>) returns (p: Point)
    requires 1 <= k && |points| + k <= |knots|
    ensures p == CurvePoint(points, k, t, knots)
  {
    var n := |points|;
    var x, y := 0.0, 0.0;
    var i := 0;
    while i < n
      invariant 0 <= i <= n
      invariant x == Dot(Weights(n, k, t, knots)[..i], Xs(points)[..i])
      invariant y == Dot(Weights(n, k, t, knots)[..i], Ys(points)[..i])
    {
      x, y := AddBasisTerm(points, k, t, knots, i, x, y);
      i := i + 1;
    }
    assert Weights(n, k, t, knots)[..n] == Weights(n, k, t, knots);
    assert Xs(points)[..n] == Xs(points) && Ys(points)[..n] == Ys(points);
    p := Point(x, y);
  }

  /** One step of `PointAt`: control point i adds its basis-weighted
      coordinates to both sums. */
  method AddBasisTerm(points: seq<Point>, k: nat, t: real, knots: seq<real>, i: nat, x: real, y: real)
    returns (x': real, y': real)
    requires 1 <= k && |points| + k <= |knots| && i < |points|
    requires x == Dot(Weights(|points|, k, t, knots)[..i], Xs(points)[..i])
    requires y == Dot(Weights(|points|, k, t, knots)[..i], Ys(points)[..i])
    ensures x' == Dot(Weights(|points|, k, t, knots)[..i + 1], Xs(points)[..i + 1])
    ensures y' == Dot(Weights(|points|, k, t, knots)[..i + 1], Ys(points)[..i + 1])
  {
    var basis := Basis(i, k, t, knots);
    CombineStep(points, Weights(|points|, k, t, knots), i, basis, x, y);
    x' := x + basis * points[i].x;
    y' := y + basis * points[i].y;
  }

  /** `compute_bspline(points, k, num_points)`: `[]` when there are fewer
      points than the order, otherwise `num_points` samples of the curve over
      its domain. */
  method ComputeBSpline(points: seq<Point>, k: nat, numPoints: nat) returns (curve: seq<Point>)
    requires 1 <= k
    ensures |points| < k ==> curve == []
    ensures |points| >= k ==> |curve| == numPoints
    ensures |points| >= k ==> curve == SampledCurve(points, k, numPoints)
  {
    var n := |points|;
    if n < k {
      return [];
    }
    var knots := UniformKnots(n + k);
    var startT := knots[k - 1];
    var endT := knots[n];
    DomainNonEmpty(n, k);
    if startT >= endT {
      assert false;
    }
    var tValues := Linspace(startT, endT, numPoints);
    curve := SampleAt(points, k, knots, tValues);
  }

  /** A constant control polygon gives a constant curve, for every order from 2
      on: the sampled points all equal the common control point. */
  lemma {:induction false} ConstantPolygonConstantCurve(points: seq<Point>, k: nat, num: nat, c: Point)
    requires 2 <= k <= |points|
    requires forall i :: 0 <= i < |points| ==> points[i] == c
    ensures forall j :: 0 <= j < num ==> SampledCurve(points, k, num)[j] == c
  {
    var n := |points|;
    var ts := SampleParams(n, k, num);
    forall j | 0 <= j < num
      ensures SampledCurve(points, k, num)[j] == c
    {
      SampleParamsInDomain(n, k, num, j);
      PartitionOfUnity(n, k, ts[j]);
      CombineConstant(Weights(n, k, ts[j], UniformKnots(n + k)), points, c);
    }
  }

  /** Order 1 drops its last sample to the origin: the final parameter is the
      last knot, where every half-open indicator is 0. */
  lemma {:induction false} OrderOneLastSampleIsOrigin(points: seq<Point>, num: nat)
    requires 1 <= |points| && 2 <= num
    ensures SampledCurve(points, 1, num)[num - 1] == Point(0.0, 0.0)
  {
    var n := |points|;
    var knots := UniformKnots(n + 1);
    UniformKnotsShape(n + 1);
    var t := SampleParams(n, 1, num)[num - 1];
    assert t == knots[n];
    var ws := Weights(n, 1, t, knots);
    forall i | 0 <= i < n ensures ws[i] == 0.0 {
      BasisSupport(i, 1, t, knots);
    }
    DotZeroWeights(ws, Xs(points));
    DotZeroWeights(ws, Ys(points));
  }
}
