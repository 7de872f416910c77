/** `BSplineApproximator`: re-evaluating a control polygon at another order,
    and a least-squares refit of a sampled curve with a given pseudo-inverse. */
module Approximator {
  import opened Geometry
  import opened CoxDeBoor
  import opened Calculator
  import opened MatrixUtils
  import opened Statistics

  /** The error report shared by both approximators: the loop
      `for p1, p2 in zip(a, b): errors.append(...)`, then `np.max` and the
      mean of the (squared) errors. */
  method ErrorReport(a: seq<Point>, b: seq<Point>) returns (errors: seq<real>, maxError: real, meanSqError: real)
    requires |a| == |b| > 0
    ensures errors == SqErrors(a, b)
    ensures maxError == MaxOf(errors) && meanSqError == Mean(errors)
    ensures forall j :: 0 <= j < |errors| ==> 0.0 <= errors[j] <= maxError
    ensures 0.0 <= meanSqError <= maxError
    ensures a == b ==> maxError == 0.0 && meanSqError == 0.0
  {
    errors := [];
    for j := 0 to |a|
      invariant errors == SqErrors(a[..j], b[..j])
    {
      errors := errors + [SqDist(a[j], b[j])];
    }
    assert a[..|a|] == a && b[..|b|] == b;
    maxError, meanSqError := MaxOf(errors), Mean(errors);
    MeanBetweenZeroAndMax(errors);
    if a == b {
      AllZeroStatistics(errors);
    }
  }

  /** The orders or the polygon size that make `compute_approximation_by_order`
      give up at once. */
  predicate OrdersRejected(n: nat, originalK: int, approxK: int)
  {
    n < originalK || n < approxK || originalK < 2 || approxK < 2
  }

  /** `compute_approximation_by_order`: the same control polygon evaluated at
      order `originalK` and at order `approxK`, both on the sample parameters
      of the original order's domain, with the error between them. */
  method ComputeApproximationByOrder(originalPoints: seq<Point>, originalK: int, approxK: int, numEvalPoints: nat)
    returns (approx: seq<Point>, maxError: real, meanSqError: real, errors: seq<real>)
    ensures approx == [] <==> OrdersRejected(|originalPoints|, originalK, approxK) || numEvalPoints == 0
    ensures approx == [] ==> maxError == 0.0 && meanSqError == 0.0 && errors == []
    ensures !OrdersRejected(|originalPoints|, originalK, approxK) && numEvalPoints > 0 ==>
      var n, ko, ka := |originalPoints|, originalK as nat, approxK as nat;
      var ts := SampleParams(n, ko, numEvalPoints);
      && approx == CurveAt(originalPoints, ka, UniformKnots(n + ka), ts)
      && errors == SqErrors(SampledCurve(originalPoints, ko, numEvalPoints), approx)
      && maxError == MaxOf(errors) && meanSqError == Mean(errors)
    ensures |approx| == |errors|
    ensures forall j :: 0 <= j < |errors| ==> 0.0 <= errors[j] <= maxError
    ensures 0.0 <= meanSqError <= maxError
    ensures originalK == approxK ==> maxError == 0.0 && meanSqError == 0.0
  {
    var n := |originalPoints|;
    if n < originalK || n < approxK || originalK < 2 || approxK < 2 {
      return [], 0.0, 0.0, [];
    }
    var ko, ka := originalK as nat, approxK as nat;
    var knotsOrig := UniformKnots(n + ko);
    var startT, endT := knotsOrig[ko - 1], knotsOrig[n];
    DomainNonEmpty(n, ko);
    if startT >= endT {
      assert false;
    }
    var tValues := Linspace(startT, endT, numEvalPoints);
    assert tValues == SampleParams(n, ko, numEvalPoints);
    var originalCurve := SampleAt(originalPoints, ko, UniformKnots(n + ko), tValues);
    assert originalCurve == SampledCurve(originalPoints, ko, numEvalPoints);
    var approxCurve := SampleAt(originalPoints, ka, UniformKnots(n + ka), tValues);
    if ko == ka {
      assert approxCurve == originalCurve;
    }
    approx, maxError, meanSqError, errors := CompareCurves(originalCurve, approxCurve);
  }

  /** The end of `compute_approximation_by_order`: give up when either curve
      is empty or their lengths differ, otherwise report the errors between
      them. */
  method CompareCurves(originalCurve: seq<Point>, approxCurve: seq<Point>)
    returns (approx: seq<Point>, maxError: real, meanSqError: real, errors: seq<real>)
    ensures approx == [] <==> originalCurve == [] || approxCurve == [] || |originalCurve| != |approxCurve|
    ensures approx == [] ==> maxError == 0.0 && meanSqError == 0.0 && errors == []
    ensures approx != [] ==>
      && approx == approxCurve && errors == SqErrors(originalCurve, approxCurve)
      && maxError == MaxOf(errors) && meanSqError == Mean(errors)
    ensures |approx| == |errors|
    ensures forall j :: 0 <= j < |errors| ==> 0.0 <= errors[j] <= maxError
    ensures 0.0 <= meanSqError <= maxError
    ensures originalCurve == approxCurve ==> maxError == 0.0 && meanSqError == 0.0
  {
    if |originalCurve| == 0 || |approxCurve| == 0 || |originalCurve| != |approxCurve| {
      return [], 0.0, 0.0, [];
    }
    approx := approxCurve;
    errors, maxError, meanSqError := ErrorReport(originalCurve, approxCurve);
  }

  // ---------------------------------------------------------------------------
  // Least squares

  /** The design matrix: row i holds the `c` basis functions of order k at `ts[i]`. */
  function DesignMatrix(ts: seq<real>, c: nat, k: nat, knots: seq<real>): (b: Matrix)
    requires 1 <= k && c + k <= |knots|
    ensures IsMatrix(b, |ts|, c)
  {
    seq(|ts|, i requires 0 <= i < |ts| => Weights(c, k, ts[i], knots))
  }

  /** The points `{'x': xs[i], 'y': ys[i]}`. */
  function FromCoords(xs: seq<real>, ys: seq<real>): (ps: seq<Point>)
    requires |xs| == |ys|
    ensures Xs(ps) == xs && Ys(ps) == ys
  {
    seq(|xs|, i requires 0 <= i < |xs| => Point(xs[i], ys[i]))
  }

  /** The fitted control points: `pinv @ x_target` and `pinv @ y_target`. */
  function FitControl(p: Matrix, target: seq<Point>): (ctrl: seq<Point>)
    requires forall i :: 0 <= i < |p| ==> |p[i]| == |target|
    ensures |ctrl| == |p|
  {
    FromCoords(MatVec(p, Xs(target)), MatVec(p, Ys(target)))
  }

  /** Each coordinate of a sampled curve is the design matrix times that
      coordinate of the control points. */
  lemma {:induction false} CurveIsDesignTimesControl(points: seq<Point>, k: nat, knots: seq<real>, ts: seq<real>)
    requires 1 <= k && |points| + k <= |knots|
    ensures Xs(CurveAt(points, k, knots, ts)) == MatVec(DesignMatrix(ts, |points|, k, knots), Xs(points))
    ensures Ys(CurveAt(points, k, knots, ts)) == MatVec(DesignMatrix(ts, |points|, k, knots), Ys(points))
  {
  }

  /** Fitting with a left inverse of the design matrix samples that lie on a
      curve of the fitted family returns that curve's control points. */
  lemma {:induction false} FitReproducesPolygon(points: seq<Point>, k: nat, knots: seq<real>, ts: seq<real>, p: Matrix)
    requires 1 <= k && |points| + k <= |knots| && |ts| > 0 && |points| > 0
    requires LeftInverse(p, DesignMatrix(ts, |points|, k, knots))
    ensures FitControl(p, CurveAt(points, k, knots, ts)) == points
  {
    var b := DesignMatrix(ts, |points|, k, knots);
    CurveIsDesignTimesControl(points, k, knots, ts);
    LeftInverseRecovers(p, b, Xs(points));
    LeftInverseRecovers(p, b, Ys(points));
    var fit := FitControl(p, CurveAt(points, k, knots, ts));
    assert Xs(fit) == Xs(points) && Ys(fit) == Ys(points);
    forall i | 0 <= i < |points| ensures fit[i] == points[i] {
      assert fit[i].x == Xs(fit)[i] && fit[i].y == Ys(fit)[i];
    }
  }

  /** The design matrix of a fit with m control points of order k on the
      uniform knots. */
  function FitDesign(ts: seq<real>, m: nat, k: nat): (b: Matrix)
    requires 1 <= k
    ensures IsMatrix(b, |ts|, m)
  {
    DesignMatrix(ts, m, k, UniformKnots(m + k))
  }

  /** Refitting at the order the samples were drawn with, on the same
      parameters, with a left inverse of B: the control points come back
      unchanged and the re-evaluated curve has no error. */
  lemma {:induction false} IdentityFit(points: seq<Point>, k: nat, ts: seq<real>, p: Matrix)
    requires 1 <= k && |ts| > 0 && |points| > 0
    requires IsMatrix(p, |points|, |ts|)
    ensures var b := FitDesign(ts, |points|, k);
      var target := CurveAt(points, k, UniformKnots(|points| + k), ts);
      LeftInverse(p, b) ==>
        && FitControl(p, target) == points
        && MaxOf(FitErrors(target, points, k, ts)) == 0.0
        && Mean(FitErrors(target, points, k, ts)) == 0.0
  {
    var b := FitDesign(ts, |points|, k);
    var target := CurveAt(points, k, UniformKnots(|points| + k), ts);
    if LeftInverse(p, b) {
      FitReproducesPolygon(points, k, UniformKnots(|points| + k), ts, p);
      FitErrorsOfCurve(target, points, k, ts, target);
      AllZeroStatistics(SqErrors(target, target));
    }
  }

  /** The error of a fit: the samples against the fitted control points of
      order k re-evaluated at the same parameters. */
  function FitErrors(target: seq<Point>, ctrl: seq<Point>, k: nat, ts: seq<real>): (e: seq<real>)
    requires 1 <= k && |target| == |ts|
    ensures |e| == |ts|
  {
    SqErrors(target, CurveAt(ctrl, k, UniformKnots(|ctrl| + k), ts))
  }

  lemma {:induction false} FitErrorsOfCurve(target: seq<Point>, ctrl: seq<Point>, k: nat, ts: seq<real>, curve: seq<Point>)
    requires 1 <= k && |target| == |ts|
    requires curve == CurveAt(ctrl, k, UniformKnots(|ctrl| + k), ts)
    ensures SqErrors(target, curve) == FitErrors(target, ctrl, k, ts)
  {
  }

  /** `num_target_ctrl_points`, defaulting to the size of the original polygon. */
  function TargetCount(numTargetCtrlPoints: Option<int>, n: nat): int
  {
    if numTargetCtrlPoints.None? then n else numTargetCtrlPoints.value
  }

  predicate FitRejected(n: nat, m: int, originalK: int, targetK: int)
  {
    n < originalK || m < targetK || originalK < 2 || targetK < 2
  }

  /** What `np.linalg.pinv` is relied on for: a `cols × rows` result. */
  ghost predicate PinvShape(pinv: Matrix -> Matrix)
  {
    forall b {:trigger pinv(b)} :: Rectangular(b) && |b| > 0 ==> IsMatrix(pinv(b), Cols(b), |b|)
  }

  /** Filling `B[i, j]` with the basis functions at every sample parameter. */
  method BuildDesignMatrix(ts: seq<real>, c: nat, k: nat, knots: seq<real>) returns (b: Matrix)
    requires 1 <= k && c + k <= |knots|
    ensures b == DesignMatrix(ts, c, k, knots)
  {
    b := seq(|ts|, i => seq(c, j => 0.0));
    for i := 0 to |ts|
      invariant IsMatrix(b, |ts|, c)
      invariant forall r :: 0 <= r < i ==> b[r] == Weights(c, k, ts[r], knots)
    {
      for j := 0 to c
        invariant IsMatrix(b, |ts|, c)
        invariant forall r :: 0 <= r < i ==> b[r] == Weights(c, k, ts[r], knots)
        invariant forall l :: 0 <= l < j ==> b[i][l] == Basis(l, k, ts[i], knots)
      {
        b := b[i := b[i][j := Basis(j, k, ts[i], knots)]];
      }
      assert b[i] == Weights(c, k, ts[i], knots);
    }
  }

  /** The fitting half of `least_squares_approximation`: fill B, apply
      `pinv(B)` to both coordinates of the samples, re-evaluate the fitted
      control points on the same parameters and report the error. */
  method FitToSamples(target: seq<Point>, ts: seq<real>, m: nat, k: nat, pinv: Matrix -> Matrix)
    returns (ctrl: seq<Point>, maxError: real, meanSqError: real)
    requires PinvShape(pinv) && |target| == |ts| > 0 && 1 <= k
    ensures var p := pinv(FitDesign(ts, m, k));
      && IsMatrix(p, m, |ts|)
      && ctrl == FitControl(p, target)
      && maxError == MaxOf(FitErrors(target, ctrl, k, ts))
      && meanSqError == Mean(FitErrors(target, ctrl, k, ts))
    ensures |ctrl| == m
    ensures 0.0 <= meanSqError <= maxError
  {
    var b := BuildDesignMatrix(ts, m, k, UniformKnots(m + k));
    assert b == FitDesign(ts, m, k);
    var p := pinv(b);
    var ctrlX, ctrlY := MatVec(p, Xs(target)), MatVec(p, Ys(target));
    ctrl := FromCoords(ctrlX, ctrlY);
    assert |ctrl| == m;
    var approxCurve := SampleAt(ctrl, k, UniformKnots(|ctrl| + k), ts);
    if |approxCurve| == 0 || |approxCurve| != |target| {
      assert false;
    }
    var errors;
    errors, maxError, meanSqError := ErrorReport(target, approxCurve);
    FitErrorsOfCurve(target, ctrl, k, ts, approxCurve);
  }

  /** `least_squares_approximation(original_points, original_k, target_k,
      num_target_ctrl_points, num_sample_points)`, with `np.linalg.pinv` passed
      in as `pinv`. The reference curve is sampled on the original order's
      domain and m control points of order `targetK` are fitted to it on the
      same parameters. */
  method LeastSquaresApproximation(originalPoints: seq<Point>, originalK: int, targetK: int,
                                   numTargetCtrlPoints: Option<int>, numSamplePoints: nat,
                                   pinv: Matrix -> Matrix)
    returns (ctrl: seq<Point>, maxError: real, meanSqError: real)
    requires PinvShape(pinv)
    ensures ctrl == [] <==>
      FitRejected(|originalPoints|, TargetCount(numTargetCtrlPoints, |originalPoints|), originalK, targetK)
      || numSamplePoints == 0
    ensures ctrl == [] ==> maxError == 0.0 && meanSqError == 0.0
    ensures 0.0 <= meanSqError <= maxError
    ensures ctrl != [] ==>
      var n, m := |originalPoints|, TargetCount(numTargetCtrlPoints, |originalPoints|);
      && 2 <= originalK <= n && 2 <= targetK <= m
      && var ts := SampleParams(n, originalK as nat, numSamplePoints);
         var target := SampledCurve(originalPoints, originalK as nat, numSamplePoints);
         var p := pinv(FitDesign(ts, m as nat, targetK as nat));
         && IsMatrix(p, m as nat, numSamplePoints)
         && ctrl == FitControl(p, target)
         && maxError == MaxOf(FitErrors(target, ctrl, targetK as nat, ts))
         && meanSqError == Mean(FitErrors(target, ctrl, targetK as nat, ts))
    ensures ctrl != [] && originalK == targetK && TargetCount(numTargetCtrlPoints, |originalPoints|) == |originalPoints| ==>
      var n, k := |originalPoints|, originalK as nat;
      var b := FitDesign(SampleParams(n, k, numSamplePoints), n, k);
      LeftInverse(pinv(b), b) ==> ctrl == originalPoints && maxError == 0.0 && meanSqError == 0.0
  {
    var nOrig := |originalPoints|;
    var numTarget := TargetCount(numTargetCtrlPoints, nOrig);
    if nOrig < originalK || numTarget < targetK || originalK < 2 || targetK < 2 {
      return [], 0.0, 0.0;
    }
    var ko, kt, m := originalK as nat, targetK as nat, numTarget as nat;
    var knotsOrig := UniformKnots(nOrig + ko);
    var startT, endT := knotsOrig[ko - 1], knotsOrig[nOrig];
    DomainNonEmpty(nOrig, ko);
    if startT >= endT {
      assert false;
    }
    var tValues := Linspace(startT, endT, numSamplePoints);
    assert tValues == SampleParams(nOrig, ko, numSamplePoints);
    var original := SampleAt(originalPoints, ko, UniformKnots(nOrig + ko), tValues);
    assert original == SampledCurve(originalPoints, ko, numSamplePoints);
    if |original| == 0 {
      return [], 0.0, 0.0;
    }
    ctrl, maxError, meanSqError := FitToSamples(original, tValues, m, kt, pinv);
    ghost var p := pinv(FitDesign(tValues, m, kt));
    assert ctrl != [];
    if ko == kt && m == nOrig {
      IdentityFit(originalPoints, ko, tValues, p);
    }
  }
}
