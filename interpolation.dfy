/** `BSplineInterpolation`: the interactive editor's state — the control
    polygon, the curve order k, the approximation order and the two order
    sliders — and the curve, lower-order and least-squares computations it
    runs on that state. */
module Interpolation {
  import opened Geometry
  import opened CoxDeBoor
  import opened Calculator
  import opened MatrixUtils
  import opened Statistics
  import opened Approximator

  /** Both slider tracks start at x = 20 and are 200 pixels wide. */
  const SliderLeft: int := 20
  const SliderWidth: int := 200
  /** A handle is a 10 × 20 rectangle; the k handle's top edge is at y = 535,
      the approximation handle's at y = 565. */
  const HandleWidth: int := 10
  const HandleHeight: int := 20
  const KHandleTop: int := 535
  const ApproxHandleTop: int := 565
  /** The default sample count of `compute_bspline`. */
  const DefaultSamples: nat := 200

  /** The starting polygon: eight points 100 pixels apart, alternating
      between heights 300 and 100. */
  function InitialPolygon(): (ps: seq<Point>)
    ensures |ps| == 8 && SortedByX(ps)
    ensures forall i :: 0 <= i < 7 ==> ps[i + 1].x - ps[i].x == 100.0 && ps[i].y != ps[i + 1].y
  {
    seq(8, i requires 0 <= i < 8 => Point(100.0 + (i as real) * 100.0, if i % 2 == 0 then 300.0 else 100.0))
  }

  // ---------------------------------------------------------------------------
  // Sliders

  /** `update_slider_positions`: the handle sits at
      `left + int((order - 1) / 9 · width)`. */
  function HandleX(order: int): (x: int)
    requires 1 <= order <= 10
    ensures SliderLeft <= x <= SliderLeft + SliderWidth
  {
    SliderLeft + (order - 1) * SliderWidth / 9
  }

  /** The pointer's x clamped to the track, `max(left, min(x, right))`. */
  function Clamp(px: int): (x: int)
    ensures SliderLeft <= x <= SliderLeft + SliderWidth
    ensures SliderLeft <= px <= SliderLeft + SliderWidth ==> x == px
  {
    if px < SliderLeft then SliderLeft
    else if px > SliderLeft + SliderWidth then SliderLeft + SliderWidth
    else px
  }

  /** The order a drag to `px` selects: `max(2, min(10, int(ratio · 9 + 1)))`
      with `ratio = (x - left) / width` on the clamped x. The ratio is
      non-negative, so `int` truncation is the integer quotient. */
  function SliderOrder(px: int): (order: int)
    ensures 2 <= order <= 10
  {
    var raw := (Clamp(px) - SliderLeft) * 9 / SliderWidth + 1;
    if raw < 2 then 2 else if raw > 10 then 10 else raw
  }

  /** Dragging further right never lowers the order. */
  lemma {:induction false} SliderOrderMonotone(a: int, b: int)
    requires a <= b
    ensures SliderOrder(a) <= SliderOrder(b)
  {
    var xa, xb := Clamp(a) - SliderLeft, Clamp(b) - SliderLeft;
    assert xa <= xb;
    assert xa * 9 <= xb * 9;
    DivMonotone(xa * 9, xb * 9);
  }

  lemma {:induction false} DivMonotone(a: int, b: int)
    requires 0 <= a <= b
    ensures a / SliderWidth <= b / SliderWidth
  {
  }

  /** The largest order, 10, is selected exactly at the right end of the track. */
  lemma {:induction false} SliderOrderTop(px: int)
    ensures SliderOrder(px) == 10 <==> px >= SliderLeft + SliderWidth
  {
    var x := Clamp(px) - SliderLeft;
    if px < SliderLeft + SliderWidth {
      assert x <= 199;
      assert x * 9 <= 1791;
      DivMonotone(x * 9, 1791);
    }
  }

  /** The smallest order, 2, covers the whole left part of the track up to
      x = 64: the raw value 1 at the far left is lifted to 2. */
  lemma {:induction false} SliderOrderBottom(px: int)
    ensures SliderOrder(px) == 2 <==> px <= 64
  {
    var x := Clamp(px) - SliderLeft;
    if px <= 64 {
      assert x <= 44;
      DivMonotone(x * 9, 396);
    } else {
      assert x >= 45;
      DivMonotone(405, x * 9);
    }
  }

  /** Reading a handle's position back through the drag formula gives the
      order it was placed for only at the ends: for orders 3 to 9 the
      truncation in `update_slider_positions` puts the handle where a drag
      selects one order less. */
  lemma {:induction false} HandlePositionReadBack(order: int)
    requires 2 <= order <= 10
    ensures SliderOrder(HandleX(order)) == (if order == 2 || order == 10 then order else order - 1)
  {
  }

  /** `pygame.Rect(left, top, 10, 20).collidepoint(px, py)`: right and bottom
      edges excluded. */
  predicate OnHandle(left: int, top: int, px: int, py: int)
  {
    left <= px < left + HandleWidth && top <= py < top + HandleHeight
  }

  /** The two handles lie on different rows, so no press lands on both. */
  lemma {:induction false} HandlesDisjoint(kLeft: int, approxLeft: int, px: int, py: int)
    ensures !(OnHandle(kLeft, KHandleTop, px, py) && OnHandle(approxLeft, ApproxHandleTop, px, py))
  {
  }

  /** The events `handle_sliders` looks at, with the pointer position they carry. */
  datatype SliderEvent =
    | MouseDown(px: int, py: int)
    | MouseUp
    | MouseMotion(px: int, py: int)
    | OtherEvent

  // ---------------------------------------------------------------------------
  // Sampling without a guard

  /** Without the `n < k` guard the sampling interval `[knots[k - 1], knots[n]]`
      runs forwards exactly when there are at least k control points,
      collapses to a point when there are k - 1, and runs backwards when there
      are fewer. */
  lemma {:induction false} DomainOrientation(n: nat, k: nat)
    requires 1 <= k
    ensures DomainStart(n, k) < DomainEnd(n, k) <==> k <= n
    ensures DomainStart(n, k) == DomainEnd(n, k) <==> n + 1 == k
  {
    if n + k >= 2 {
      UniformKnotsShape(n + k);
      var knots := UniformKnots(n + k);
      if k - 1 < n {
        assert knots[k - 1] < knots[n];
      } else if n < k - 1 {
        assert knots[n] < knots[k - 1];
      }
    }
  }

  /** Fitting the default samples of a curve at its own order, with a left
      inverse of the design matrix, gives back its control polygon. */
  lemma {:induction false} RefitAtSameOrder(ps: seq<Point>, k: nat, p: Matrix)
    requires 1 <= k && |ps| >= 1
    requires LeftInverse(p, FitDesign(SampleParams(|ps|, k, DefaultSamples), |ps|, k))
    ensures FitControl(p, SampledCurve(ps, k, DefaultSamples)) == ps
  {
    var ts := SampleParams(|ps|, k, DefaultSamples);
    IdentityFit(ps, k, ts, p);
  }

  /** The end of `least_squares_approximation()` once the pseudo-inverse p
      exists: `p @ x_target` and `p @ y_target` are the new polygon, which is
      re-evaluated at order ko and compared with the target samples. */
  method RefitAndReport(ps: seq<Point>, ko: nat, ka: nat, p: Matrix, original: seq<Point>)
    returns (ctrl: seq<Point>, maxError: real, meanSqError: real)
    requires 1 <= ko && 1 <= ka && |ps| >= 1 && original == SampledCurve(ps, ko, DefaultSamples)
    requires LeftInverse(p, FitDesign(SampleParams(|ps|, ka, DefaultSamples), |ps|, ka))
    ensures ctrl == FitControl(p, original) && |ctrl| == |ps|
    ensures var errors := SqErrors(original, SampledCurve(ctrl, ko, DefaultSamples));
      maxError == MaxOf(errors) && meanSqError == Mean(errors)
    ensures 0.0 <= meanSqError <= maxError
    ensures ko == ka ==> ctrl == ps && maxError == 0.0 && meanSqError == 0.0
  {
    ctrl := FromCoords(MatVec(p, Xs(original)), MatVec(p, Ys(original)));
    assert ctrl == FitControl(p, original);
    var approxCurve := SampleOverDomain(ctrl, ko, DefaultSamples);
    if ko == ka {
      RefitAtSameOrder(ps, ko, p);
      assert ctrl == ps;
      assert approxCurve == original;
    }
    var errors;
    errors, maxError, meanSqError := ErrorReport(original, approxCurve);
  }

  /** The design matrix of `least_squares_approximation()`: the `n` basis
      functions of order ka at `num` parameters spread over the domain of
      order ka. */
  method ApproximationDesign(n: nat, ka: nat, num: nat) returns (b: Matrix)
    requires 1 <= ka
    ensures b == FitDesign(SampleParams(n, ka, num), n, ka)
  {
    var knots := UniformKnots(n + ka);
    var tValues := Linspace(knots[ka - 1], knots[n], num);
    assert tValues == SampleParams(n, ka, num);
    b := BuildDesignMatrix(tValues, n, ka, knots);
  }

  /** The body of `least_squares_approximation()` for the polygon ps, the
      curve order ko and the approximation order ka. */
  method LeastSquaresRefit(ps: seq<Point>, ko: nat, ka: nat)
    returns (ctrl: seq<Point>, maxError: Option<real>, meanSqError: Option<real>)
    requires |ps| >= 1 && 2 <= ko && 2 <= ka
    ensures var n := |ps|;
      var b := FitDesign(SampleParams(n, ka, DefaultSamples), n, ka);
      var target := SampledCurve(ps, ko, DefaultSamples);
      && (NormalEquationsInverse(b).None? ==>
            ctrl == ps && maxError.None? && meanSqError.None?)
      && (NormalEquationsInverse(b).Some? ==>
            var errors := SqErrors(target, SampledCurve(ctrl, ko, DefaultSamples));
            && ctrl == FitControl(NormalEquationsInverse(b).value, target)
            && maxError == Some(MaxOf(errors)) && meanSqError == Some(Mean(errors)))
    ensures |ctrl| == |ps|
    ensures maxError.Some? <==> meanSqError.Some?
    ensures maxError.Some? ==> 0.0 <= meanSqError.value <= maxError.value
    ensures ko == ka && maxError.Some? ==>
      ctrl == ps && maxError == Some(0.0) && meanSqError == Some(0.0)
  {
    var original := SampleOverDomain(ps, ko, DefaultSamples);
    var b := ApproximationDesign(|ps|, ka, |original|);
    var pinv := PseudoInverse(b);
    if pinv.None? {
      return ps, None, None;
    }
    var mx, mean;
    ctrl, mx, mean := RefitAndReport(ps, ko, ka, pinv.value, original);
    maxError, meanSqError := Some(mx), Some(mean);
  }

  // ---------------------------------------------------------------------------
  // The editor

  class BSplineInterpolation {
    var points: seq<Point>
    var k: nat
    var approximationK: nat
    var kHandleX: int
    var approxHandleX: int
    var draggingK: bool
    var draggingApprox: bool

    /** The polygon is never emptied, both orders stay in the slider range
        2–10 and both handles stay on their tracks. */
    ghost predicate Valid()
      reads this
    {
      && |points| >= 1
      && 2 <= k <= 10 && 2 <= approximationK <= 10
      && SliderLeft <= kHandleX <= SliderLeft + SliderWidth
      && SliderLeft <= approxHandleX <= SliderLeft + SliderWidth
    }

    /** `__init__`: the eight-point polygon, k = 4, approximation order 3,
        no drag in progress, handles placed by `update_slider_positions`. */
    constructor ()
      ensures Valid()
      ensures points == InitialPolygon() && k == 4 && approximationK == 3
      ensures kHandleX == HandleX(4) == 86 && approxHandleX == HandleX(3) == 64
      ensures !draggingK && !draggingApprox
    {
      points := InitialPolygon();
      k := 4;
      approximationK := 3;
      kHandleX := SliderLeft;
      approxHandleX := SliderLeft;
      draggingK := false;
      draggingApprox := false;
      new;
      UpdateSliderPositions();
    }

    /** `update_slider_positions`: move both handles to the positions of the
        current orders. */
    method UpdateSliderPositions()
      requires 1 <= k <= 10 && 1 <= approximationK <= 10
      modifies this
      ensures points == old(points) && k == old(k) && approximationK == old(approximationK)
      ensures kHandleX == HandleX(k) && approxHandleX == HandleX(approximationK)
      ensures draggingK == old(draggingK) && draggingApprox == old(draggingApprox)
    {
      kHandleX := HandleX(k);
      approxHandleX := HandleX(approximationK);
    }

    /** `compute_bspline(points, num_points)` at the editor's order k, with no
        guard: `num_points` samples over `[knots[k - 1], knots[n]]`, whichever
        way that interval runs (see `DomainOrientation`). */
    method ComputeBSpline(ps: seq<Point>, numPoints: nat) returns (curve: seq<Point>)
      requires Valid()
      ensures curve == SampledCurve(ps, k, numPoints)
      ensures |curve| == numPoints
    {
      curve := SampleOverDomain(ps, k, numPoints);
    }

    /** `compute_lower_order_approximation()`: the polygon sampled 200 times
        at order k and 200 times at the approximation order, each over its own
        domain, and the pointwise error between the two. */
    method ComputeLowerOrderApproximation() returns (approx: seq<Point>, maxError: real, meanSqError: real)
      requires Valid()
      ensures approx == SampledCurve(points, approximationK, DefaultSamples)
      ensures var errors := SqErrors(SampledCurve(points, k, DefaultSamples), approx);
        maxError == MaxOf(errors) && meanSqError == Mean(errors)
      ensures 0.0 <= meanSqError <= maxError
      ensures k == approximationK ==> maxError == 0.0 && meanSqError == 0.0
    {
      var ps, ko, ka := points, k, approximationK;
      var originalCurve := ComputeBSpline(ps, DefaultSamples);
      approx := SampleOverDomain(ps, ka, DefaultSamples);
      if ko == ka {
        assert approx == originalCurve;
      }
      var errors;
      errors, maxError, meanSqError := ErrorReport(originalCurve, approx);
      assert errors == SqErrors(SampledCurve(ps, ko, DefaultSamples), approx);
    }

    /** `least_squares_approximation()`: sample the curve 200 times at order
        k, fill B with the approximation-order basis on the approximation
        domain, and apply `(BᵀB)⁻¹Bᵀ` to both coordinates. The new polygon
        is re-evaluated at order k for the error report. When the inversion
        meets a zero pivot the old polygon comes back with no error. */
    method LeastSquaresApproximation() returns (ctrl: seq<Point>, maxError: Option<real>, meanSqError: Option<real>)
      requires Valid()
      ensures var n := |points|;
        var b := FitDesign(SampleParams(n, approximationK, DefaultSamples), n, approximationK);
        var target := SampledCurve(points, k, DefaultSamples);
        && (NormalEquationsInverse(b).None? ==>
              ctrl == points && maxError.None? && meanSqError.None?)
        && (NormalEquationsInverse(b).Some? ==>
              var errors := SqErrors(target, SampledCurve(ctrl, k, DefaultSamples));
              && ctrl == FitControl(NormalEquationsInverse(b).value, target)
              && maxError == Some(MaxOf(errors)) && meanSqError == Some(Mean(errors)))
      ensures |ctrl| == |points|
      ensures maxError.Some? <==> meanSqError.Some?
      ensures maxError.Some? ==> 0.0 <= meanSqError.value <= maxError.value
      ensures k == approximationK && maxError.Some? ==>
        ctrl == points && maxError == Some(0.0) && meanSqError == Some(0.0)
    {
      ctrl, maxError, meanSqError := LeastSquaresRefit(points, k, approximationK);
    }

    /** `find_point(x, y)`: the first control point within distance 10 of
        `(x, y)`, if any. */
    method FindPoint(x: real, y: real) returns (r: Option<Point>)
      ensures r.Some? ==> exists i :: (0 <= i < |points| && points[i] == r.value
        && Near(points[i], x, y) && forall j :: 0 <= j < i ==> !Near(points[j], x, y))
      ensures r.None? <==> forall j :: 0 <= j < |points| ==> !Near(points[j], x, y)
    {
      var index := Geometry.FindPoint(points, x, y);
      if index.None? {
        return None;
      }
      return Some(points[index.value]);
    }

    /** `add_point(x, y)`: append the point and sort the polygon by x, stably. */
    method AddPoint(x: real, y: real)
      requires Valid()
      modifies this
      ensures Valid()
      ensures points == SortByX(old(points) + [Point(x, y)])
      ensures |points| == |old(points)| + 1
      ensures multiset(points) == multiset(old(points)) + multiset{Point(x, y)}
      ensures SortedByX(points)
      ensures SortedByX(old(points)) ==> points == InsertByX(old(points), Point(x, y))
      ensures k == old(k) && approximationK == old(approximationK)
      ensures kHandleX == old(kHandleX) && approxHandleX == old(approxHandleX)
      ensures draggingK == old(draggingK) && draggingApprox == old(draggingApprox)
    {
      var extended := points + [Point(x, y)];
      SortByXCorrect(extended);
      if SortedByX(points) {
        SortByXOfSorted(points);
        assert extended[..|extended| - 1] == points;
      }
      points := SortByX(extended);
    }

    /** `handle_sliders(event)`: a press on a handle starts dragging it (the k
        handle first), a release stops both drags, and a motion moves every
        handle being dragged to the clamped pointer x and sets its order from
        that position. */
    method HandleSliders(event: SliderEvent)
      requires Valid()
      modifies this
      ensures Valid()
      ensures points == old(points)
      ensures event.MouseDown? ==>
        && k == old(k) && approximationK == old(approximationK)
        && kHandleX == old(kHandleX) && approxHandleX == old(approxHandleX)
        && draggingK == (old(draggingK) || OnHandle(old(kHandleX), KHandleTop, event.px, event.py))
        && draggingApprox == (old(draggingApprox) ||
             (!OnHandle(old(kHandleX), KHandleTop, event.px, event.py)
              && OnHandle(old(approxHandleX), ApproxHandleTop, event.px, event.py)))
      ensures event.MouseUp? ==>
        && !draggingK && !draggingApprox
        && k == old(k) && approximationK == old(approximationK)
        && kHandleX == old(kHandleX) && approxHandleX == old(approxHandleX)
      ensures event.MouseMotion? ==>
        && draggingK == old(draggingK) && draggingApprox == old(draggingApprox)
        && k == (if old(draggingK) then SliderOrder(event.px) else old(k))
        && kHandleX == (if old(draggingK) then Clamp(event.px) else old(kHandleX))
        && approximationK == (if old(draggingApprox) then SliderOrder(event.px) else old(approximationK))
        && approxHandleX == (if old(draggingApprox) then Clamp(event.px) else old(approxHandleX))
      ensures event.OtherEvent? ==>
        && k == old(k) && approximationK == old(approximationK)
        && kHandleX == old(kHandleX) && approxHandleX == old(approxHandleX)
        && draggingK == old(draggingK) && draggingApprox == old(draggingApprox)
    {
      match event
      case MouseDown(px, py) =>
        if OnHandle(kHandleX, KHandleTop, px, py) {
          draggingK := true;
        } else if OnHandle(approxHandleX, ApproxHandleTop, px, py) {
          draggingApprox := true;
        }
      case MouseUp =>
        draggingK := false;
        draggingApprox := false;
      case MouseMotion(px, py) =>
        if draggingK {
          kHandleX := Clamp(px);
          k := SliderOrder(px);
        }
        if draggingApprox {
          approxHandleX := Clamp(px);
          approximationK := SliderOrder(px);
        }
      case OtherEvent =>
    }
  }
}
