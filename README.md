# Verified model of the `geometric` curve editors

This project models the numerical core of a small curve-editing program in Dafny and proves properties of that model. The program draws a B-spline through an editable control polygon. It also approximates the curve by one of a different order, or fits a new polygon to it by least squares. Four smaller editors sit beside it: a stand-alone B-spline demo, a de Casteljau Bézier evaluator, Lagrange interpolation and a rational Bézier curve. All arithmetic is exact `real` arithmetic.

Modules, one per part of the program:

- `Geometry` (geometry.dfy) holds the shared vocabulary: points and `np.linspace`. It defines the left-fold `Dot`/`Sum` that every accumulation loop computes, the `find_point` search, and the stable sort by x used by `add_point`.
- `CoxDeBoor` (basis.dfy) holds `basis_function`. The program writes the same recursion three times: feleves_feladat/core/bspline_calculator.py:5-15, feleves_feladat/core/bspline.py:34-42 and bspline.py:15-23. The copies differ only in layout: parentheses around the order-1 test, a `self` parameter, and the receiver of the recursive calls. The module also has the uniform knot vector and the proofs of support, non-negativity and the partition of unity.
- `Calculator` (calculator.dfy) holds `BSplineCalculator.compute_bspline` with its guards and sampling loops.
- `MatrixUtils` (matrix.dfy) holds `transpose` and `matmul`, the in-place Gauss–Jordan `invert_matrix` without pivoting, and `pseudo_inverse`.
- `Statistics` (statistics.dfy) holds the error lists with their maximum and mean.
- `Approximator` (approximator.dfy) holds `BSplineApproximator`: order-by-order approximation and the least-squares fit.
- `Interpolation` (interpolation.dfy) holds the editor class of feleves_feladat/core/bspline.py: its fields, slider handling, sampling, both approximations, `find_point` and `add_point`.
- `BSplineDemo` (demo_bspline.dfy) holds the stand-alone cubic editor of bspline.py.
- `Casteljau` (casteljau.dfy) holds de_casteljau.py. It works level by level on a copied array updated in place.
- `Lagrange` (lagrange.dfy) holds lagrange.py: interpolation on the uniform nodes `i/(n-1)`.
- `RationalBezier` (rational_bezier.dfy) holds rac_bezier.py: Bernstein polynomials, the weighted denominator and the curve point.

Where the program mutates state, the model is imperative:

- The editor classes have fields and methods with `modifies` clauses.
- The matrix inversion, the sampling loops and the error loops are methods with loop invariants.
- The de Casteljau copy is an `array<Point>` overwritten in place.
- Each method is proved against a specification function (`SampledCurve`, `Inverse`, `Iterate`, `Interpolate`, `CurvePointAsWritten`, …), and the properties are proved as lemmas about those functions.

Where the documented design and the code disagree, the model follows the code:

- A documented scenario says four control points at order 4 collapse the sampled domain to one parameter. In the code the domain is `[knots[k-1], knots[n]] = [3/7, 4/7]`, which is non-empty. It is non-empty for every `k <= n` (`Calculator.DomainNonEmpty`).
- The documented design clamps both orders to at most `len(points)`. `handle_sliders` clamps them only to `[2, 10]`, and the editor's `compute_bspline` has no `n < k` guard. With `k > n + 1` the sampled domain runs backwards, and with `k = n + 1` it is a single point (`Interpolation.DomainOrientation`).
- The documented design expects the partition of unity to possibly fail at the upper end of the domain. On the uniform knots it holds on the whole closed domain for every order `k >= 2` (`CoxDeBoor.PartitionOfUnity`). Only order 1, which the sliders never produce, loses the end point (`CoxDeBoor.OrderOneLosesEndpoint`).

## Model

| member | source | states |
|---|---|---|
| Geometry.Linspace | feleves_feladat/core/bspline_calculator.py:23 | `np.linspace(start, stop, num)` has `num` values, starts at `start` and, for two or more values, ends at `stop` |
| Geometry.LinspaceBounds | feleves_feladat/core/bspline_calculator.py:30 | for `start <= stop` every sample parameter lies in `[start, stop]` and the parameters never decrease |
| Geometry.SqDist | feleves_feladat/core/bspline_approximator.py:46 | the (squared) point distance is never negative and is 0 between equal points |
| Geometry.CombineConstant | feleves_feladat/core/bspline_calculator.py:33-39 | weights summing to 1 applied to a polygon whose points all equal c give c |
| Geometry.DotSubScaled | feleves_feladat/core/matrix_utils.py:27-30 | the row update `row -= factor * pivot` commutes with a dot product, the step that keeps `I·A = M` |
| Geometry.DotDivRow | feleves_feladat/core/matrix_utils.py:22-24 | dividing a row by the pivot divides its dot product with any column by the pivot |
| Geometry.FindPoint | feleves_feladat/core/bspline.py:122-126 | the index returned is that of the first point closer than 10, and `None` is returned exactly when no point is that close |
| Geometry.InsertByX | feleves_feladat/core/bspline.py:129-130 | inserting keeps every old point and adds the new one once (multiset equality, length plus one) |
| Geometry.InsertByXElements | feleves_feladat/core/bspline.py:129-130 | an inserted list holds nothing but the old points and the new one |
| Geometry.InsertByXSorted | feleves_feladat/core/bspline.py:129-130 | inserting into a list sorted by x leaves it sorted by x |
| Geometry.SortByXCorrect | feleves_feladat/core/bspline.py:130 | the sort by x is a permutation of its input and is sorted by x |
| Geometry.SortByXPermutation | feleves_feladat/core/bspline.py:130 | the sort by x returns the same points with the same multiplicities |
| Geometry.SortByXSorted | feleves_feladat/core/bspline.py:130 | the sort by x returns a list sorted by x |
| Geometry.SortByXOfSorted | feleves_feladat/core/bspline.py:130 | sorting a list already sorted by x leaves it unchanged (stability) |
| CoxDeBoor.UniformKnots | feleves_feladat/core/bspline_calculator.py:23 | the knot vector of an n-point order-k curve has n + k entries |
| CoxDeBoor.UniformKnotsShape | feleves_feladat/core/bspline_calculator.py:23 | the uniform knots are `j/(m-1)`, start at 0, end at 1 and strictly increase |
| CoxDeBoor.UniformKnotsValue | feleves_feladat/core/bspline_calculator.py:23 | knot j of `np.linspace(0, 1, m)` is `j/(m-1)` |
| CoxDeBoor.Basis | feleves_feladat/core/bspline_calculator.py:5-15 | `basis_function(i, k, t, knots)`: the half-open indicator of `[knots[i], knots[i+1])` at order 1, otherwise the sum of the two ramp terms over order k - 1, a term with a zero denominator counting as 0 |
| CoxDeBoor.IndicatorOrderOne | feleves_feladat/core/bspline_calculator.py:6-7 | the order-1 basis is 0 or 1, and 1 exactly on the half-open span `knots[i] <= t < knots[i+1]` |
| CoxDeBoor.EmptySpanDropsNothing | feleves_feladat/core/bspline_calculator.py:9-13 | a term with a zero denominator is 0, and on non-decreasing knots the basis it would have scaled is 0 as well |
| CoxDeBoor.BasisSupport | feleves_feladat/core/bspline_calculator.py:5-15 | on non-decreasing knots `basis(i,k,t)` is 0 outside `[knots[i], knots[i+k])` |
| CoxDeBoor.BasisNonNegative | feleves_feladat/core/bspline_calculator.py:9-15 | on non-decreasing knots every basis value of every order is at least 0 |
| CoxDeBoor.BasisVanishesAtLastKnot | feleves_feladat/core/bspline_calculator.py:5-15 | at the last knot every basis function is 0 |
| CoxDeBoor.Term1Vanishes | feleves_feladat/core/bspline_calculator.py:9-10 | term 1 is 0 whenever the lower-order basis it scales is 0 |
| CoxDeBoor.Term2Vanishes | feleves_feladat/core/bspline_calculator.py:12-13 | term 2 is 0 whenever the lower-order basis it scales is 0 |
| CoxDeBoor.Term2AtLeftEnd | feleves_feladat/core/bspline_calculator.py:12-13 | at `t = knots[i+1]` with a non-empty span, term 2 is exactly the lower-order basis |
| CoxDeBoor.TermsPair | feleves_feladat/core/bspline_calculator.py:9-15 | term 2 of span i plus term 1 of span i+1 is `basis(i+1, k-1)`: the ramps sum to one |
| CoxDeBoor.WeightsPrefix | feleves_feladat/core/bspline_calculator.py:35-38 | the sum of the first c basis values is that of the first c-1 plus basis c-1 |
| CoxDeBoor.Telescope | feleves_feladat/core/bspline_calculator.py:9-15 | the order-k basis sum telescopes to the order-(k-1) sum plus the two boundary terms |
| CoxDeBoor.SumVanishesBelow | feleves_feladat/core/bspline_calculator.py:5-15 | past the support of the last basis function the basis sum is 0 |
| CoxDeBoor.IndicatorsSumToOne | feleves_feladat/core/bspline_calculator.py:6-7 | inside the knot range exactly one order-1 indicator is on |
| CoxDeBoor.PartitionOfUnityHalfOpen | feleves_feladat/core/bspline_calculator.py:5-15 | on `[knots[k-1], knots[c])` the c basis values sum to 1 |
| CoxDeBoor.PartitionOfUnityAtEnd | feleves_feladat/core/bspline_calculator.py:5-15 | for k >= 2 the basis values also sum to 1 at the right end `knots[c]` |
| CoxDeBoor.PartitionOfUnity | feleves_feladat/core/bspline_calculator.py:33-39 | on the uniform knots, for 2 <= k <= n, the basis values sum to 1 on the whole closed sampled domain |
| CoxDeBoor.OrderOneLosesEndpoint | feleves_feladat/core/bspline_calculator.py:6-7 | at order 1 the basis sum at the end of the domain is 0, because the half-open test excludes the last knot |
| Calculator.CurvePoint | feleves_feladat/core/bspline_calculator.py:34-39 | the curve point at t: `Σ_i basis(i, k, t)·points[i]`, x and y with the same weights |
| Calculator.SampledCurve | feleves_feladat/core/bspline_calculator.py:23-39 | `num` curve points at the parameters `linspace(knots[k-1], knots[n], num)` on the uniform knots; exactly `num` of them |
| Calculator.DomainNonEmpty | feleves_feladat/core/bspline_calculator.py:23-28 | for `1 <= k <= n` the domain start is below its end, so the empty-domain guard never fires |
| Calculator.SampleParamsInDomain | feleves_feladat/core/bspline_calculator.py:30 | every sample parameter lies in the curve's domain |
| Calculator.SampleAt | feleves_feladat/core/bspline_calculator.py:32-39 | the nested accumulation loops compute, for each t in order, `Σ_i basis(i,k,t)·points[i]` per coordinate |
| Calculator.PointAt | feleves_feladat/core/bspline_calculator.py:34-39 | the inner loop gives the curve point `Σ_i basis(i,k,t)·points[i]` at one t |
| Calculator.AddBasisTerm | feleves_feladat/core/bspline_calculator.py:36-38 | adding `basis·points[i]` extends both running weighted sums by the entry for point i |
| Calculator.SampleOverDomain | feleves_feladat/core/bspline_calculator.py:23-39 | sampling `num` parameters over `[knots[k-1], knots[n]]` gives the sampled curve of order k |
| Calculator.ComputeBSpline | feleves_feladat/core/bspline_calculator.py:17-41 | `[]` when `n < k`; otherwise exactly `num_points` points, the curve sampled on its domain |
| Calculator.ConstantPolygonConstantCurve | feleves_feladat/core/bspline_calculator.py:33-39 | a polygon of equal points gives a curve of that point at every sample (partition of unity) |
| Calculator.OrderOneLastSampleIsOrigin | feleves_feladat/core/bspline_calculator.py:6-7 | at order 1 the last sample falls outside every half-open span and comes out as the origin |
| Statistics.Mean | feleves_feladat/core/bspline_approximator.py:51 | `np.mean`: the sum of a non-empty list divided by its length |
| Statistics.SqErrors | feleves_feladat/core/bspline_approximator.py:44-47 | one error per sample pair, each at least 0, and 0 where the points agree |
| Statistics.SqErrorsSelf | feleves_feladat/core/bspline_approximator.py:44-47 | a curve compared with itself has every error 0 |
| Statistics.MaxOf | feleves_feladat/core/bspline_approximator.py:50 | `np.max` bounds every error and equals one of them |
| Statistics.SumBounds | feleves_feladat/core/bspline_approximator.py:51 | a sum of values in `[lo, hi]` lies in `[|s|·lo, |s|·hi]` |
| Statistics.SumZero | feleves_feladat/core/bspline_approximator.py:51 | a zero sum of non-negative values has every value 0 |
| Statistics.MeanBetweenZeroAndMax | feleves_feladat/core/bspline_approximator.py:49-51 | the mean squared error lies between 0 and the maximum error (RMS never exceeds max) |
| Statistics.MeanWithin | feleves_feladat/core/bspline_approximator.py:51 | the mean of values in `[0, m]` lies in `[0, m]` |
| Statistics.MeanZeroIffAllZero | feleves_feladat/core/bspline_approximator.py:51 | the mean of non-negative errors is 0 exactly when every error is 0 |
| Statistics.AllZeroStatistics | feleves_feladat/core/bspline_approximator.py:49-51 | all-zero errors give maximum 0 and mean 0 |
| MatrixUtils.Transpose | feleves_feladat/core/matrix_utils.py:4-6 | an r×c matrix transposes to c×r with entry `[j][i] = mat[i][j]` |
| MatrixUtils.TransposeTwice | feleves_feladat/core/matrix_utils.py:4-6 | transposing twice gives back the matrix |
| MatrixUtils.MatMul | feleves_feladat/core/matrix_utils.py:8-10 | the product has `len(A)` rows, `len(B[0])` columns and entry `Σ_t A[i][t]·B[t][j]` |
| MatrixUtils.MatVec | feleves_feladat/core/bspline.py:106-108 | `pinv @ target` has one entry per row, the row's dot product with the target |
| MatrixUtils.DotUnitRow | feleves_feladat/core/matrix_utils.py:15 | a row of the identity picks out one entry of a vector |
| MatrixUtils.IdentityTimes | feleves_feladat/core/matrix_utils.py:15 | the identity times A is A, so `I·A = M` holds before the first step |
| MatrixUtils.IdentityTimesVector | feleves_feladat/core/matrix_utils.py:15 | the identity times a vector is that vector |
| MatrixUtils.RowTimesSnoc | feleves_feladat/core/matrix_utils.py:10 | a row times B splits off the last row of B |
| MatrixUtils.RowTimesSingle | feleves_feladat/core/matrix_utils.py:10 | a one-entry row times a one-row B scales that row |
| MatrixUtils.DotRowTimes | feleves_feladat/core/matrix_utils.py:10 | `(a·B)·v = a·(B·v)` |
| MatrixUtils.MatMulAssociative | feleves_feladat/core/matrix_utils.py:8-10 | matrix products associate: `(A·B)·C = A·(B·C)` |
| MatrixUtils.MatVecAssociative | feleves_feladat/core/bspline.py:106-108 | `P·(B·v) = (P·B)·v` |
| MatrixUtils.PivotStep | feleves_feladat/core/matrix_utils.py:22-30 | one pass of the outer loop: row i of M and I divided by the pivot, every other row k minus `M[k][i]` times the new row i; both results square |
| MatrixUtils.GaussJordan | feleves_feladat/core/matrix_utils.py:18-31 | the remaining steps either return a square inverse or stop at a zero pivot at or after the current step |
| MatrixUtils.Inverse | feleves_feladat/core/matrix_utils.py:13-31 | `invert_matrix` returns a square matrix or raises at a step before n |
| MatrixUtils.PivotStepEntry | feleves_feladat/core/matrix_utils.py:22-30 | after a pivot step, each entry of M is still the matching row of I times a column of the input |
| MatrixUtils.PivotStepTracks | feleves_feladat/core/matrix_utils.py:22-30 | the same row operations on M and I keep `I·matrix = M` |
| MatrixUtils.PivotStepUnitColumns | feleves_feladat/core/matrix_utils.py:18-31 | after step i, columns 0..i of M are unit columns and stay so |
| MatrixUtils.AllUnitColumns | feleves_feladat/core/matrix_utils.py:18-31 | when all n columns are unit columns, M is the identity |
| MatrixUtils.GaussJordanLeftInverse | feleves_feladat/core/matrix_utils.py:18-31 | from any state satisfying the invariant, a successful run returns I with `I·matrix = identity` |
| MatrixUtils.InverseIsLeftInverse | feleves_feladat/core/matrix_utils.py:13-31 | whenever `invert_matrix` succeeds its result is a left inverse of its argument |
| MatrixUtils.SingularRaises | feleves_feladat/core/matrix_utils.py:19-21 | `[[1,2],[2,4]]` raises at step 1 |
| MatrixUtils.ZeroLeadingPivotRaises | feleves_feladat/core/matrix_utils.py:19-21 | the invertible `[[0,1],[1,0]]` raises at step 0, since rows are never swapped |
| MatrixUtils.NormalizePivotRow | feleves_feladat/core/matrix_utils.py:22-24 | the loop divides the pivot rows of M and I entry by entry by the pivot |
| MatrixUtils.EliminateRow | feleves_feladat/core/matrix_utils.py:25-30 | the loop subtracts `factor ·` the pivot rows from row k of M and of I |
| MatrixUtils.InvertMatrix | feleves_feladat/core/matrix_utils.py:13-31 | the in-place elimination on a copy returns the inverse or the failing pivot step, and a returned inverse times the input is the identity |
| MatrixUtils.EliminateColumn | feleves_feladat/core/matrix_utils.py:22-30 | one pass of the outer loop, done in place on copies of the rows, is exactly the pivot step on M and I |
| MatrixUtils.Gram | feleves_feladat/core/matrix_utils.py:35-36 | `BᵀB` is square with one row per column of B |
| MatrixUtils.NormalEquationsInverse | feleves_feladat/core/matrix_utils.py:33-42 | `None` exactly when inverting `BᵀB` raises; otherwise a cols×rows matrix |
| MatrixUtils.NormalEquationsInverseIsLeftInverse | feleves_feladat/core/matrix_utils.py:33-42 | a returned `(BᵀB)⁻¹Bᵀ` times B is the identity |
| MatrixUtils.PseudoInverse | feleves_feladat/core/matrix_utils.py:33-42 | `pseudo_inverse` returns `None` exactly on a zero pivot, and otherwise a left inverse of B |
| MatrixUtils.LeftInverseRecovers | feleves_feladat/core/bspline.py:106-110 | applying a left inverse of B to `B·c` gives back c |
| Approximator.ErrorReport | feleves_feladat/core/bspline_approximator.py:44-51 | the error loop gives one squared distance per sample, the max bounds them all, `0 <= mean <= max`, and identical curves give 0 and 0 |
| Approximator.ComputeApproximationByOrder | feleves_feladat/core/bspline_approximator.py:8-53 | sentinel `([], 0, 0, [])` exactly for the rejected orders or zero samples; otherwise both curves on the original domain's parameters, one error per sample, `0 <= mean <= max`, and all zero when the orders agree |
| Approximator.CompareCurves | feleves_feladat/core/bspline_approximator.py:41-53 | the sentinel exactly when either curve is empty or their lengths differ; otherwise the approximation with its errors, the max bounding them, `0 <= mean <= max`, and 0 and 0 for identical curves |
| Approximator.DesignMatrix | feleves_feladat/core/bspline_approximator.py:89-94 | B has one row per sample and one column per control point |
| Approximator.FromCoords | feleves_feladat/core/bspline_approximator.py:99 | the points built from `ctrl_x`, `ctrl_y` have exactly those coordinates |
| Approximator.FitControl | feleves_feladat/core/bspline_approximator.py:96-99 | the fit yields one control point per row of the pseudo-inverse |
| Approximator.CurveIsDesignTimesControl | feleves_feladat/core/bspline_approximator.py:101-109 | each coordinate of the sampled curve is the design matrix times that coordinate of the polygon |
| Approximator.FitReproducesPolygon | feleves_feladat/core/bspline_approximator.py:96-109 | a left inverse of B applied to a curve sampled from a polygon gives back that polygon |
| Approximator.IdentityFit | feleves_feladat/core/bspline_approximator.py:96-123 | same order, same count and a left inverse: the fit returns the polygon and both errors are 0 |
| Approximator.BuildDesignMatrix | feleves_feladat/core/bspline_approximator.py:91-94 | the nested loop fills `B[i, j] = basis(j, k, t_i)` |
| Approximator.FitToSamples | feleves_feladat/core/bspline_approximator.py:96-123 | the fit applies `pinv(B)` to both coordinates, returns m control points and `0 <= mean <= max` |
| Approximator.LeastSquaresApproximation | feleves_feladat/core/bspline_approximator.py:55-123 | the target count defaults to n; the result is `([], 0, 0)` exactly on the rejected orders or zero samples; otherwise the fitted polygon with its errors on the shared parameters, and, at the same order with a target count equal to n (defaulted or given) and a left inverse from `pinv`, the fit returns the polygon with zero error |
| Interpolation.InitialPolygon | feleves_feladat/core/bspline.py:7 | eight points sorted by x, 100 apart, alternating in height |
| Interpolation.HandleX | feleves_feladat/core/bspline.py:27-32 | the handle of an order in 1..10 sits on the slider track |
| Interpolation.Clamp | feleves_feladat/core/bspline.py:145 | the pointer x is clamped onto the track and unchanged when already on it |
| Interpolation.SliderOrder | feleves_feladat/core/bspline.py:145-148 | any pointer position gives an order in `[2, 10]` |
| Interpolation.SliderOrderMonotone | feleves_feladat/core/bspline.py:145-148 | moving the pointer right never lowers the order |
| Interpolation.SliderOrderTop | feleves_feladat/core/bspline.py:145-148 | the order is 10 exactly at or past the right end of the track |
| Interpolation.SliderOrderBottom | feleves_feladat/core/bspline.py:145-148 | the order is 2 exactly at or left of pixel 64 |
| Interpolation.HandlePositionReadBack | feleves_feladat/core/bspline.py:145-148 | reading back the position where the handle was placed for order k gives k - 1 for 3 <= k <= 9, because placement and read-back both truncate |
| Interpolation.HandlesDisjoint | feleves_feladat/core/bspline.py:134-137 | no click lies on both handles, so a press starts at most one drag |
| Interpolation.DomainOrientation | feleves_feladat/core/bspline.py:46-47 | without a guard the domain is increasing exactly when `k <= n` and a single point exactly when `k = n + 1` |
| Interpolation.RefitAtSameOrder | feleves_feladat/core/bspline.py:89-111 | refitting 200 samples at the same order with a left inverse returns the polygon |
| Interpolation.ApproximationDesign | feleves_feladat/core/bspline.py:90-97 | B is the basis of order `approximation_k` at `len(original_curve)` parameters spread over that order's domain |
| Interpolation.RefitAndReport | feleves_feladat/core/bspline.py:106-120 | the new polygon is the pseudo-inverse applied to the target; the errors against its re-evaluated curve have `0 <= mean <= max`; at the same order it is the old polygon with errors 0 |
| Interpolation.LeastSquaresRefit | feleves_feladat/core/bspline.py:88-120 | the old polygon with no errors exactly when the pseudo-inverse fails; otherwise the fitted polygon with its errors, `0 <= mean <= max`, and 0 and 0 when both orders agree |
| Interpolation.BSplineInterpolation.constructor | feleves_feladat/core/bspline.py:6-25 | initial polygon, orders 4 and 3, handles at pixels 86 and 64, no drag |
| Interpolation.BSplineInterpolation.UpdateSliderPositions | feleves_feladat/core/bspline.py:27-32 | both handles move to the positions of their orders and nothing else changes |
| Interpolation.BSplineInterpolation.ComputeBSpline | feleves_feladat/core/bspline.py:44-59 | exactly `num_points` points at order `self.k`, with no size guard |
| Interpolation.BSplineInterpolation.ComputeLowerOrderApproximation | feleves_feladat/core/bspline.py:61-86 | the polygon sampled at `approximation_k` on its own domain, errors against the order-k curve, `0 <= mean <= max`, and 0 when the orders agree |
| Interpolation.BSplineInterpolation.LeastSquaresApproximation | feleves_feladat/core/bspline.py:88-120 | the old polygon with no errors exactly when the pseudo-inverse fails; otherwise the fitted polygon with its errors; at the same order, the polygon back with zero error |
| Interpolation.BSplineInterpolation.FindPoint | feleves_feladat/core/bspline.py:122-126 | the first point closer than 10, or `None` exactly when there is none |
| Interpolation.BSplineInterpolation.AddPoint | feleves_feladat/core/bspline.py:128-130 | the polygon becomes the stable sort by x of old plus new: one longer, the same points plus the new one, sorted; the other fields do not change |
| Interpolation.BSplineInterpolation.HandleSliders | feleves_feladat/core/bspline.py:132-154 | a press starts at most one drag, a release clears both, a motion sets each dragged order from the clamped pointer (always in `[2, 10]`), and the polygon never changes |
| BSplineDemo.BSplineInterpolation.constructor | bspline.py:8-13 | eight points sorted by x, 100 apart, alternating in height, order 4 |
| BSplineDemo.BSplineInterpolation.ComputeBSpline | bspline.py:25-40 | exactly `num_points` points of the order-4 curve of the current polygon |
| BSplineDemo.BSplineInterpolation.FindPoint | bspline.py:42-46 | the first point closer than 10, or `None` exactly when there is none |
| BSplineDemo.BSplineInterpolation.AddPoint | bspline.py:48-50 | one point longer, the old points plus the new one, sorted by x |
| Casteljau.Lerp | de_casteljau.py:25 | `(1 - t)·p + t·q`, coordinate by coordinate |
| Casteljau.Level | de_casteljau.py:23-26 | one level: each pair of neighbours replaced by its interpolant, one point fewer |
| Casteljau.CurvePoint | de_casteljau.py:22-28 | the point left at the front after n - 1 levels |
| Casteljau.Iterate | de_casteljau.py:22-27 | after r levels, n - r points remain |
| Casteljau.Steps | de_casteljau.py:22-27 | n - 1 intermediate levels, level r holding n - r points |
| Casteljau.IterateAtZero | de_casteljau.py:25 | at t = 0 each level keeps the leading points |
| Casteljau.IterateAtOne | de_casteljau.py:25 | at t = 1 each level keeps the trailing points |
| Casteljau.CurveEndpoints | de_casteljau.py:25-28 | the curve is the first control point at t = 0 and the last at t = 1 |
| Casteljau.LerpBetween | de_casteljau.py:25 | for t in [0, 1] an interpolant lies between its ends |
| Casteljau.IterateInBox | de_casteljau.py:22-27 | for t in [0, 1] every level stays in any box holding the control points |
| Casteljau.CurvePointInBox | de_casteljau.py:25-28 | for t in [0, 1] the result lies within the coordinate ranges of the control points |
| Casteljau.QuadraticBernsteinForm | de_casteljau.py:16-28 | three control points give `(1-t)²p0 + 2(1-t)t·p1 + t²p2` |
| Casteljau.TwoLevels | de_casteljau.py:22-28 | three control points take exactly two levels of interpolation |
| Casteljau.QuadraticLerp | de_casteljau.py:25 | two interpolation levels over three points are the quadratic Bernstein combination |
| Casteljau.LerpInBox | de_casteljau.py:25 | for t in [0, 1] the interpolant of two points in a box stays in the box |
| Casteljau.StepsUpToAll | de_casteljau.py:22-27 | the levels recorded in the first r passes are the first r levels |
| Casteljau.LevelInPlace | de_casteljau.py:23-27 | the inner loop overwrites the first m entries with the next level, leaves the rest, and records that level |
| Casteljau.DeCasteljau.constructor | de_casteljau.py:7-14 | the three initial control points |
| Casteljau.EvaluateOnCopy | de_casteljau.py:18-28 | the in-place loops on a copied array return the curve point and record every level |
| Casteljau.DeCasteljau.Evaluate | de_casteljau.py:16-28 | the point left at the front is the curve point, the recorded levels are all n - 1 levels, and one control point gives itself and no levels |
| Casteljau.DeCasteljau.FindPoint | de_casteljau.py:30-34 | the first point closer than 10, or `None` exactly when there is none |
| Lagrange.Term | lagrange.py:19-22 | `term` after the inner loop has run over j < m: the product, left to right, of the factors `(t - j/(n-1)) / (i/(n-1) - j/(n-1))` for j ≠ i |
| Lagrange.Interpolate | lagrange.py:15-25 | the interpolating polynomial at t: `Σ_i term_i·points[i]` per coordinate |
| Lagrange.NodesDistinct | lagrange.py:20-22 | for n >= 2 distinct nodes differ, so no factor divides by zero |
| Lagrange.TermAtNode | lagrange.py:19-22 | at node k, term i is 1 for i = k and 0 once factor k is multiplied in |
| Lagrange.WeightsAtNode | lagrange.py:18-22 | at node k the basis values are the unit vector e_k |
| Lagrange.InterpolatesNodes | lagrange.py:15-25 | for n >= 2, the curve at `k/(n-1)` is control point k exactly |
| Lagrange.SinglePointConstant | lagrange.py:18-25 | with one point the product is empty and the curve is that point for every t |
| Lagrange.DotMix | lagrange.py:23-24 | the weighted sum is linear in the coordinates |
| Lagrange.DotScale | lagrange.py:23-24 | scaling every coordinate scales the weighted sum |
| Lagrange.DotAdd | lagrange.py:23-24 | the weighted sum of added coordinates is the sum of the weighted sums |
| Lagrange.CombineMixX | lagrange.py:23-24 | x of the combination of `a·P + b·Q` is `a·x(P) + b·x(Q)` |
| Lagrange.CombineMixY | lagrange.py:23-24 | y of the combination of `a·P + b·Q` is `a·y(P) + b·y(Q)` |
| Lagrange.InterpolateLinear | lagrange.py:23-24 | x and y share the weight `term`, so the curve of `a·P + b·Q` is `a·curve(P) + b·curve(Q)` |
| Lagrange.MixSplits | lagrange.py:23-24 | the coordinates of a mixed polygon are the mixed coordinates |
| Lagrange.DrawGrid | lagrange.py:38 | 101 parameters from 0 to 1, strictly increasing |
| Lagrange.BasisTerm | lagrange.py:19-22 | the inner loop computes the i-th Lagrange basis value |
| Lagrange.AddTerm | lagrange.py:19-24 | one pass of the outer loop extends both running weighted sums by the entry for point i |
| Lagrange.InterpolateLoop | lagrange.py:15-25 | the nested loops compute `Σ_i term_i·points[i]` per coordinate, the interpolating polynomial at t |
| Lagrange.LagrangeInterpolation.constructor | lagrange.py:6-13 | the four initial control points |
| Lagrange.LagrangeInterpolation.LagrangeAt | lagrange.py:15-25 | the nested loops compute the interpolating polynomial at t |
| Lagrange.LagrangeInterpolation.FindPoint | lagrange.py:27-31 | the first point closer than 10, or `None` exactly when there is none |
| RationalBezier.Bernstein | rac_bezier.py:9-10 | `bernstein(n, k, x) = comb(n, k)·x^k·(1 - x)^(n - k)` |
| RationalBezier.BinomialAbove | rac_bezier.py:10 | `comb(n, k) = 0` for k > n |
| RationalBezier.BinomialDiagonal | rac_bezier.py:10 | `comb(n, n) = 1` |
| RationalBezier.PowNonneg | rac_bezier.py:10 | a power of a non-negative number is non-negative |
| RationalBezier.PowPositive | rac_bezier.py:10 | a power of a positive number is positive |
| RationalBezier.PowOne | rac_bezier.py:10 | every power of 1 is 1 |
| RationalBezier.BernsteinNonneg | rac_bezier.py:9-10 | `bernstein(n, k, x) >= 0` on [0, 1] |
| RationalBezier.BernsteinAtZero | rac_bezier.py:9-10 | at x = 0 the Bernstein value is 1 for k = 0 and 0 otherwise |
| RationalBezier.BernsteinAtOne | rac_bezier.py:9-10 | at x = 1 the Bernstein value is 1 for k = n and 0 otherwise |
| RationalBezier.BernsteinFirstPositive | rac_bezier.py:9-10 | for x < 1 the first Bernstein value is positive |
| RationalBezier.SumPositive | rac_bezier.py:26-27 | non-negative summands with one positive give a positive sum |
| RationalBezier.SumNonNegative | rac_bezier.py:26-27 | non-negative summands give a non-negative sum |
| RationalBezier.SumDivided | rac_bezier.py:37-38 | dividing every summand by d divides the sum by d |
| RationalBezier.NormalizedSumsToOne | rac_bezier.py:37-38 | the weights `w_i·b_i/denominator` sum to 1 |
| RationalBezier.DotAtLeast | rac_bezier.py:36-38 | a non-negatively weighted sum of values at least lo is at least the weight total times lo |
| RationalBezier.DotAtMost | rac_bezier.py:36-38 | a non-negatively weighted sum of values at most hi is at most the weight total times hi |
| RationalBezier.ConvexCombination | rac_bezier.py:31-41 | with non-negative weights and a positive denominator, the point exists and lies in every box holding the control points |
| RationalBezier.CurvePointAsWritten | rac_bezier.py:31-41 | the program's point: degree `len(points)`, summands j < n, divided by their sum; `None` where that sum is 0 (the `ZeroDivisionError`) |
| RationalBezier.CorrectedCurvePoint | rac_bezier.py:31-41 | the same combination at degree `len(points) - 1`, the rational Bézier curve the program evidently intends |
| RationalBezier.DenominatorPositive | rac_bezier.py:23-29 | positive weights and `0 <= t < 1` give a positive denominator |
| RationalBezier.CorrectedDenominatorPositive | rac_bezier.py:23-29 | at degree n - 1, positive weights give a positive denominator on all of [0, 1] |
| RationalBezier.DenominatorVanishesAtOne | rac_bezier.py:23-29 | as written (degree n, j < n) the denominator is 0 at t = 1 for any weights |
| RationalBezier.AsWrittenPoleAtOne | rac_bezier.py:31-41 | `bezier(1)` divides by zero for every polygon and weights |
| RationalBezier.SingleTermPicksPoint | rac_bezier.py:36-41 | when only summand k is non-zero, the curve point is control point k |
| RationalBezier.SumOfSingle | rac_bezier.py:26-27 | a sum with one non-zero entry is that entry |
| RationalBezier.StartsAtFirstPoint | rac_bezier.py:31-41 | at t = 0 with `weights[0] != 0` the curve is control point 0 |
| RationalBezier.CorrectedEndsAtLastPoint | rac_bezier.py:31-41 | at degree n - 1 with a non-zero last weight, the curve at t = 1 is the last control point |
| RationalBezier.CorrectedInBox | rac_bezier.py:31-41 | at degree n - 1 with positive weights, the curve is defined on all of [0, 1] and stays in the box of its control points |
| RationalBezier.DrawParams | rac_bezier.py:54 | `draw` uses exactly 100 parameters, starting at 0 and all in [0, 1) |
| RationalBezier.DrawAvoidsPole | rac_bezier.py:54 | with positive weights every parameter `draw` uses gives a defined point inside the control points' box |
| RationalBezier.DenominatorLoop | rac_bezier.py:23-29 | the loop sums `weights[j]·bernstein(n, j, t)` for j < n, which is 0 at t = 1 |
| RationalBezier.BezierLoop | rac_bezier.py:31-41 | the loop gives the program's curve point, `None` where it divides by zero |
| RationalBezier.BezierCurve.constructor | rac_bezier.py:13-21 | the four initial points and weights 1, 2, 2, 1 |
| RationalBezier.BezierCurve.Denominator | rac_bezier.py:23-29 | `denominator(t)` is the weighted Bernstein sum of degree `len(points)`, 0 at t = 1 |
| RationalBezier.BezierCurve.Bezier | rac_bezier.py:31-41 | `bezier(t)` is the program's curve point, `None` on a zero denominator |
| RationalBezier.BezierCurve.FindPoint | rac_bezier.py:43-47 | the first point closer than 10, or `None` exactly when there is none |

## Left out

- Rendering and interaction: every `draw` and `run` method, the pygame event loops and window setup, `sys.exit`, and feleves_feladat/ui/app.py. Drawing is not computation on the curves.
- The point drag `selected_point['x'], selected_point['y'] = event.pos`. It mutates a control point through an alias held by the event loop, and the model holds points as values. The `selected_point` and `show_*` fields go with it.
- de_casteljau.py's `t_value` field and its use at lines 44-46. It only feeds drawing.
- Floating point: the model computes in exact reals, so rounding, `int()` casts of pixels and numpy array semantics are not modelled.
- Square roots: a distance `d` is modelled by `d²`. So `find_point` tests `d² < 100`, each error is a squared distance, the maximum error is the maximum squared distance, and the RMS error is modelled by the mean of the squared errors (RMS²). Both functions are monotone, so the orderings proved carry over.
- Approximator.LeastSquaresApproximation: `np.linalg.pinv` is a foreign call. It is a function parameter required only to return a matrix of the right shape. The identity case is proved under the added hypothesis that it returns a left inverse of B. The Moore–Penrose minimality conditions are not modelled.
- Approximator.FitToSamples: the same `pinv` parameter, with the same shape-only requirement.
- Interpolation.BSplineInterpolation.ComputeLowerOrderApproximation: only the default `num_points = 200` is modelled. The `num_points` argument only sets the approximation's sample count, and no caller passes it.
- MatrixUtils.PseudoInverse: the `print` of the error message on the failure path is not modelled. The failure itself is modelled, as `None`.
- Calculator.ComputeBSpline: the order is a `nat` with `1 <= k` and every sample count is a `nat` (`numPoints` here and in `Calculator.SampleOverDomain`, `Interpolation.BSplineInterpolation.ComputeBSpline` and `BSplineDemo.BSplineInterpolation.ComputeBSpline`, `numEvalPoints` in `Approximator.ComputeApproximationByOrder`, `numSamplePoints` in `Approximator.LeastSquaresApproximation`). So the `IndexError` at `knots[n]` for k = 0, the `ValueError` of `np.linspace` for `n + k < 0`, and its `ValueError` for a negative sample count are not modelled. No caller passes such values.
- The unused `scipy.interpolate` import in bspline.py.
- The exponential cost of the naive basis recursion. It is a cost, not a behaviour.
- RationalBezier.BezierCurve: `Valid` asks for a weight for every control point. The program never adds points to this editor, so its four points always have four weights, and the `IndexError` a shorter weight list would raise is not modelled.
- Interpolation.BSplineInterpolation: the two `pygame.Rect` handles are reduced to their x positions, with fixed tops and sizes. Only `collidepoint` and the `x` updates are modelled.

## Findings

| source | as written | input that shows it | evidently intended | confidence | as-written member | corrected member |
|---|---|---|---|---|---|---|
| rac_bezier.py:23-41 | `denominator` and `bezier` use `n = len(points)` as the Bernstein degree but sum only `j < n`. The degree-n term is missing, and every kept term carries the factor `(1 - t)^(n - j)` with `n - j >= 1`. | `t = 1` with any points and weights, e.g. the initial four points and weights 1, 2, 2, 1: the denominator is 0 and `bezier(1)` divides by zero. This is why `draw` skips `t = 100` at line 54. | degree `len(points) - 1`: a rational Bézier curve defined on all of [0, 1] that starts at the first and ends at the last control point | high; not executed | RationalBezier.AsWrittenPoleAtOne | RationalBezier.CorrectedEndsAtLastPoint |

The editor class `RationalBezier.BezierCurve` keeps the program's degree, because it models what the program draws. `RationalBezier.DrawAvoidsPole` shows that every parameter `draw` uses stays clear of the pole. The corrected curve `RationalBezier.CorrectedCurvePoint` is proved to be defined on the whole interval and to stay in the control points' box (`RationalBezier.CorrectedInBox`, `RationalBezier.CorrectedDenominatorPositive`).
