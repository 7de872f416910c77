/** `MatrixUtils`: list-of-lists transpose and product, Gauss–Jordan inversion
    without row exchanges, and the normal-equations pseudo-inverse
    `(BᵀB)⁻¹Bᵀ` that the least-squares fit relies on. */
module MatrixUtils {
  import opened Geometry

  /** A list of rows. */
  type Matrix = seq<seq<real>>

  /** Number of columns, read off the first row as `zip(*m)` does. */
  function Cols(m: Matrix): nat
  {
    if |m| == 0 then 0 else |m[0]|
  }

  ghost predicate IsMatrix(m: Matrix, r: nat, c: nat)
  {
    |m| == r && forall i :: 0 <= i < r ==> |m[i]| == c
  }

  /** Every row as long as the first. */
  ghost predicate Rectangular(m: Matrix)
  {
    IsMatrix(m, |m|, Cols(m))
  }

  /** Column `j`: the tuple `zip(*m)` yields for it. */
  function Col(m: Matrix, j: nat): (col: seq<real>)
    requires Rectangular(m) && j < Cols(m)
    ensures |col| == |m|
  {
    seq(|m|, t requires 0 <= t < |m| => m[t][j])
  }

  /** `list(map(list, zip(*mat)))`: rows become columns; no rows give no columns. */
  function Transpose(m: Matrix): (t: Matrix)
    requires Rectangular(m)
    ensures IsMatrix(t, Cols(m), |m|)
    ensures forall i, j :: 0 <= i < |m| && 0 <= j < Cols(m) ==> t[j][i] == m[i][j]
  {
    if |m| == 0 then [] else seq(Cols(m), j requires 0 <= j < Cols(m) => Col(m, j))
  }

  /** Transposing twice gives the matrix back, as long as its rows are not
      empty (`zip` of empty rows loses their number). */
  lemma {:induction false} TransposeTwice(m: Matrix)
    requires Rectangular(m) && Cols(m) > 0
    ensures Transpose(Transpose(m)) == m
  {
    var t := Transpose(m);
    assert Cols(t) == |m|;
    var tt := Transpose(t);
    assert |tt| == |m|;
    forall i | 0 <= i < |m| ensures tt[i] == m[i] {
      assert |tt[i]| == |m[i]|;
      forall j | 0 <= j < |m[i]| ensures tt[i][j] == m[i][j] {
        assert tt[i][j] == t[j][i];
      }
    }
  }

  /** `[[sum(a * b for a, b in zip(row, col)) for col in zip(*B)] for row in A]`,
      for a row length of A equal to the row count of B. */
  function MatMul(a: Matrix, b: Matrix): (p: Matrix)
    requires Rectangular(b) && forall i :: 0 <= i < |a| ==> |a[i]| == |b|
    ensures IsMatrix(p, |a|, Cols(b))
    ensures forall i, j :: 0 <= i < |a| && 0 <= j < Cols(b) ==> p[i][j] == Dot(a[i], Col(b, j))
  {
    var bt := Transpose(b);
    assert forall j :: 0 <= j < |bt| ==> bt[j] == Col(b, j);
    seq(|a|, i requires 0 <= i < |a| => seq(|bt|, j requires 0 <= j < |bt| => Dot(a[i], bt[j])))
  }

  /** `pinv @ x` for a list of rows and a vector. */
  function MatVec(m: Matrix, v: seq<real>): (w: seq<real>)
    requires forall i :: 0 <= i < |m| ==> |m[i]| == |v|
    ensures |w| == |m| && forall i :: 0 <= i < |m| ==> w[i] == Dot(m[i], v)
  {
    seq(|m|, i requires 0 <= i < |m| => Dot(m[i], v))
  }

  /** Unit row `e_r` of length n: `float(i == j)`. */
  function UnitRow(n: nat, r: nat): (e: seq<real>)
    ensures |e| == n
  {
    seq(n, c requires 0 <= c < n => if c == r then 1.0 else 0.0)
  }

  function Identity(n: nat): (id: Matrix)
    ensures IsMatrix(id, n, n)
  {
    seq(n, r requires 0 <= r < n => UnitRow(n, r))
  }

  // ---------------------------------------------------------------------------
  // Algebra of the product

  /** A unit row picks one entry. */
  lemma {:induction false} DotUnitRow(n: nat, r: nat, v: seq<real>)
    requires r < n && |v| == n
    ensures Dot(UnitRow(n, r), v) == v[r]
    decreases n
  {
    var e := UnitRow(n, r);
    if r == n - 1 {
      var front := e[..n - 1];
      assert forall c :: 0 <= c < n - 1 ==> front[c] == 0.0;
      DotZeroWeights(front, v[..n - 1]);
    } else {
      assert e[..n - 1] == UnitRow(n - 1, r);
      DotUnitRow(n - 1, r, v[..n - 1]);
    }
  }

  lemma {:induction false} IdentityTimes(a: Matrix)
    requires Rectangular(a)
    ensures MatMul(Identity(|a|), a) == a
  {
    var p := MatMul(Identity(|a|), a);
    forall i | 0 <= i < |a| ensures p[i] == a[i] {
      forall j | 0 <= j < Cols(a) ensures p[i][j] == a[i][j] {
        DotUnitRow(|a|, i, Col(a, j));
      }
    }
  }

  lemma {:induction false} IdentityTimesVector(v: seq<real>)
    ensures MatVec(Identity(|v|), v) == v
  {
    forall i | 0 <= i < |v| ensures MatVec(Identity(|v|), v)[i] == v[i] {
      DotUnitRow(|v|, i, v);
    }
  }

  /** The row `a · b` of a product, a vector against the columns of b. */
  function RowTimes(a: seq<real>, b: Matrix): (r: seq<real>)
    requires Rectangular(b) && |a| == |b|
    ensures |r| == Cols(b)
  {
    seq(Cols(b), l requires 0 <= l < Cols(b) => Dot(a, Col(b, l)))
  }

  /** Adding row q to b adds one scaled row to `a · b`. */
  lemma {:induction false} RowTimesSnoc(a: seq<real>, b: Matrix, q: nat)
    requires Rectangular(b) && |a| == |b| == q + 1 && q > 0
    ensures Rectangular(b[..q]) && Cols(b[..q]) == Cols(b)
    ensures RowTimes(a, b) == SubScaled(RowTimes(a[..q], b[..q]), -a[q], b[q])
  {
    var b' := b[..q];
    assert Cols(b') == Cols(b);
    var u := RowTimes(a[..q], b');
    var w := RowTimes(a, b);
    var s := SubScaled(u, -a[q], b[q]);
    forall l | 0 <= l < Cols(b) ensures w[l] == s[l] {
      assert Col(b, l)[..q] == Col(b', l);
    }
  }

  /** With a single row, `a · b` is that row scaled. */
  lemma {:induction false} RowTimesSingle(a: seq<real>, b: Matrix)
    requires Rectangular(b) && |a| == |b| == 1
    ensures RowTimes(a, b) == SubScaled(UnitRow(Cols(b), Cols(b)), -a[0], b[0])
  {
    var w := RowTimes(a, b);
    var s := SubScaled(UnitRow(Cols(b), Cols(b)), -a[0], b[0]);
    forall l | 0 <= l < Cols(b) ensures w[l] == s[l] {
      var col := Col(b, l);
      assert col[..0] == [] && col[0] == b[0][l];
      assert w[l] == Dot(a, col) == 0.0 + a[0] * b[0][l];
    }
  }

  /** Exchanging the order of a double sum: `(a·B)·v = a·(B·v)`. */
  lemma {:induction false} DotRowTimes(a: seq<real>, b: Matrix, v: seq<real>)
    requires Rectangular(b) && |a| == |b| && |v| == Cols(b)
    requires |b| > 0
    ensures Dot(RowTimes(a, b), v) == Dot(a, MatVec(b, v))
    decreases |a|
  {
    var q := |a| - 1;
    var bv := MatVec(b, v);
    assert bv[q] == Dot(b[q], v);
    assert bv[..q] == MatVec(b[..q], v);
    if q == 0 {
      var zero := UnitRow(Cols(b), Cols(b));
      RowTimesSingle(a, b);
      DotZeroWeights(zero, v);
      ExchangeStep(RowTimes(a, b), zero, b[q], v, a, bv, MatVec(b[..q], v), q);
    } else {
      DotRowTimes(a[..q], b[..q], v);
      RowTimesSnoc(a, b, q);
      ExchangeStep(RowTimes(a, b), RowTimes(a[..q], b[..q]), b[q], v, a, bv, MatVec(b[..q], v), q);
    }
  }

  /** The step of `DotRowTimes` on plain vectors: if `rt = rt0 + a[q]·r` and
      `bv` extends `bvFront` by `r·v`, the two dot products grow alike. */
  lemma {:induction false} ExchangeStep(rt: seq<real>, rt0: seq<real>, r: seq<real>, v: seq<real>,
                                         a: seq<real>, bv: seq<real>, bvFront: seq<real>, q: nat)
    requires |a| == |bv| == q + 1 && |rt0| == |r| == |v| && rt == SubScaled(rt0, -a[q], r)
    requires bv[..q] == bvFront && bv[q] == Dot(r, v)
    requires Dot(rt0, v) == Dot(a[..q], bvFront)
    ensures Dot(rt, v) == Dot(a, bv)
  {
    DotSubScaled(rt0, -a[q], r, v);
    DotLast(a, bv, q);
  }

  /** The matrix product is associative (inner dimensions non-zero). */
  lemma {:induction false} MatMulAssociative(a: Matrix, b: Matrix, c: Matrix)
    requires Rectangular(b) && Rectangular(c) && |b| > 0 && |c| > 0
    requires forall i :: 0 <= i < |a| ==> |a[i]| == |b|
    requires Cols(b) == |c|
    ensures MatMul(MatMul(a, b), c) == MatMul(a, MatMul(b, c))
  {
    var ab, bc := MatMul(a, b), MatMul(b, c);
    assert Cols(bc) == Cols(c);
    forall i | 0 <= i < |a| ensures MatMul(ab, c)[i] == MatMul(a, bc)[i] {
      forall j | 0 <= j < Cols(c) ensures MatMul(ab, c)[i][j] == MatMul(a, bc)[i][j] {
        assert ab[i] == RowTimes(a[i], b);
        assert Col(bc, j) == MatVec(b, Col(c, j));
        DotRowTimes(a[i], b, Col(c, j));
      }
    }
  }

  /** `P · (B · v) = (P · B) · v`. */
  lemma {:induction false} MatVecAssociative(p: Matrix, b: Matrix, v: seq<real>)
    requires Rectangular(b) && |b| > 0 && Cols(b) == |v|
    requires forall i :: 0 <= i < |p| ==> |p[i]| == |b|
    ensures MatVec(p, MatVec(b, v)) == MatVec(MatMul(p, b), v)
  {
    forall i | 0 <= i < |p| ensures MatVec(p, MatVec(b, v))[i] == MatVec(MatMul(p, b), v)[i] {
      assert MatMul(p, b)[i] == RowTimes(p[i], b);
      DotRowTimes(p[i], b, v);
    }
  }

  // ---------------------------------------------------------------------------
  // Gauss–Jordan elimination without row exchanges

  /** The outcome of `invert_matrix`: the inverse, or the `ValueError` raised
      at the first column whose pivot is zero. */
  datatype Inversion = Inverted(inverse: Matrix) | ZeroPivot(step: nat)

  ghost predicate IsSquare(m: Matrix, n: nat)
  {
    IsMatrix(m, n, n)
  }

  /** One pass of the outer loop at column i: the pivot row of both matrices
      is divided by the pivot, then every other row k loses `m[k][i]` times the
      new pivot row. */
  function PivotStep(m: Matrix, inv: Matrix, i: nat): (r: (Matrix, Matrix))
    requires IsSquare(m, |m|) && IsSquare(inv, |m|) && i < |m| && m[i][i] != 0.0
    ensures IsSquare(r.0, |m|) && IsSquare(r.1, |m|)
  {
    var n, d := |m|, m[i][i];
    var mi, ii := DivRow(m[i], d), DivRow(inv[i], d);
    (seq(n, k requires 0 <= k < n => if k == i then mi else SubScaled(m[k], m[k][i], mi)),
     seq(n, k requires 0 <= k < n => if k == i then ii else SubScaled(inv[k], m[k][i], ii)))
  }

  /** The outer loop from column i on, over the working pair (m, inv). */
  function GaussJordan(m: Matrix, inv: Matrix, i: nat): (r: Inversion)
    requires IsSquare(m, |m|) && IsSquare(inv, |m|) && i <= |m|
    ensures r.Inverted? ==> IsSquare(r.inverse, |m|)
    ensures r.ZeroPivot? ==> i <= r.step < |m|
    decreases |m| - i
  {
    if i == |m| then Inverted(inv)
    else if m[i][i] == 0.0 then ZeroPivot(i)
    else
      var next := PivotStep(m, inv, i);
      GaussJordan(next.0, next.1, i + 1)
  }

  /** `invert_matrix(matrix)`: elimination starting from the identity. */
  function Inverse(a: Matrix): (r: Inversion)
    requires IsSquare(a, |a|)
    ensures r.Inverted? ==> IsSquare(r.inverse, |a|)
    ensures r.ZeroPivot? ==> r.step < |a|
  {
    GaussJordan(a, Identity(|a|), 0)
  }

  /** The working pair keeps `inv · a == m`. */
  ghost predicate Tracks(a: Matrix, m: Matrix, inv: Matrix)
  {
    IsSquare(a, |a|) && IsSquare(m, |a|) && IsSquare(inv, |a|) && MatMul(inv, a) == m
  }

  /** Columns before i are already unit columns. */
  ghost predicate UnitColumns(m: Matrix, i: nat)
  {
    IsSquare(m, |m|) && i <= |m| &&
    forall r, c :: 0 <= r < |m| && 0 <= c < i ==> m[r][c] == if r == c then 1.0 else 0.0
  }

  /** One entry of `inv' · a` after a pivot step. */
  lemma {:induction false} PivotStepEntry(a: Matrix, m: Matrix, inv: Matrix, i: nat, k: nat, j: nat)
    requires Tracks(a, m, inv) && i < |a| && m[i][i] != 0.0 && k < |a| && j < |a|
    ensures Dot(PivotStep(m, inv, i).1[k], Col(a, j)) == PivotStep(m, inv, i).0[k][j]
  {
    var d := m[i][i];
    var col := Col(a, j);
    var next := PivotStep(m, inv, i);
    assert Dot(inv[i], col) == m[i][j];
    if k == i {
      assert next.1[k] == DivRow(inv[i], d) && next.0[k] == DivRow(m[i], d);
      PivotRowEntry(m[i], inv[i], col, d, j);
    } else {
      assert next.1[k] == SubScaled(inv[k], m[k][i], DivRow(inv[i], d));
      assert next.0[k] == SubScaled(m[k], m[k][i], DivRow(m[i], d));
      assert Dot(inv[k], col) == m[k][j];
      OtherRowEntry(m[k], inv[k], m[i], inv[i], col, d, m[k][i], j);
    }
  }

  /** Row i after the pivot step, on plain vectors: `invRow · col == mRow[j]`
      survives division by the pivot. */
  lemma {:induction false} PivotRowEntry(mRow: seq<real>, invRow: seq<real>, col: seq<real>, d: real, j: nat)
    requires |invRow| == |col| && j < |mRow| && d != 0.0 && Dot(invRow, col) == mRow[j]
    ensures Dot(DivRow(invRow, d), col) == DivRow(mRow, d)[j]
  {
    DotDivRow(invRow, d, col);
  }

  /** Any other row after the pivot step, on plain vectors: subtracting f
      times the divided pivot row keeps `invRow · col == mRow[j]`. */
  lemma {:induction false} OtherRowEntry(mRow: seq<real>, invRow: seq<real>, mPivot: seq<real>, invPivot: seq<real>,
                                         col: seq<real>, d: real, f: real, j: nat)
    requires |invRow| == |invPivot| == |col| && |mRow| == |mPivot| && j < |mRow| && d != 0.0
    requires Dot(invRow, col) == mRow[j] && Dot(invPivot, col) == mPivot[j]
    ensures Dot(SubScaled(invRow, f, DivRow(invPivot, d)), col) == SubScaled(mRow, f, DivRow(mPivot, d))[j]
  {
    DotDivRow(invPivot, d, col);
    DotSubScaled(invRow, f, DivRow(invPivot, d), col);
  }

  lemma {:induction false} PivotStepTracks(a: Matrix, m: Matrix, inv: Matrix, i: nat)
    requires Tracks(a, m, inv) && i < |a| && m[i][i] != 0.0
    ensures Tracks(a, PivotStep(m, inv, i).0, PivotStep(m, inv, i).1)
  {
    var next := PivotStep(m, inv, i);
    var p := MatMul(next.1, a);
    forall k | 0 <= k < |a| ensures p[k] == next.0[k] {
      forall j | 0 <= j < |a| ensures p[k][j] == next.0[k][j] {
        PivotStepEntry(a, m, inv, i, k, j);
      }
    }
  }

  lemma {:induction false} PivotStepUnitColumns(m: Matrix, inv: Matrix, i: nat)
    requires UnitColumns(m, i) && IsSquare(inv, |m|) && i < |m| && m[i][i] != 0.0
    ensures UnitColumns(PivotStep(m, inv, i).0, i + 1)
  {
    var d := m[i][i];
    var m' := PivotStep(m, inv, i).0;
    forall r, c | 0 <= r < |m| && 0 <= c < i + 1 ensures m'[r][c] == if r == c then 1.0 else 0.0 {
      assert DivRow(m[i], d)[c] == m[i][c] / d;
      if c == i {
        assert m[i][c] == d;
        DivSelf(d);
      } else {
        assert m[i][c] == 0.0;
        assert DivRow(m[i], d)[c] == 0.0;
      }
    }
  }

  lemma {:induction false} DivSelf(d: real)
    requires d != 0.0
    ensures d / d == 1.0
  {
  }

  /** With every column a unit column, the matrix is the identity. */
  lemma {:induction false} AllUnitColumns(m: Matrix)
    requires UnitColumns(m, |m|)
    ensures m == Identity(|m|)
  {
    forall r | 0 <= r < |m| ensures m[r] == Identity(|m|)[r] {
    }
  }

  lemma {:induction false} GaussJordanLeftInverse(a: Matrix, m: Matrix, inv: Matrix, i: nat)
    requires Tracks(a, m, inv) && UnitColumns(m, i)
    ensures GaussJordan(m, inv, i).Inverted? ==> MatMul(GaussJordan(m, inv, i).inverse, a) == Identity(|a|)
    decreases |a| - i
  {
    if i == |a| {
      assert GaussJordan(m, inv, i) == Inverted(inv);
      AllUnitColumns(m);
    } else if m[i][i] != 0.0 {
      var next := PivotStep(m, inv, i);
      assert GaussJordan(m, inv, i) == GaussJordan(next.0, next.1, i + 1);
      PivotStepTracks(a, m, inv, i);
      PivotStepUnitColumns(m, inv, i);
      GaussJordanLeftInverse(a, next.0, next.1, i + 1);
    }
  }

  /** Whatever `invert_matrix` returns is a left inverse of its argument. */
  lemma {:induction false} InverseIsLeftInverse(a: Matrix)
    requires IsSquare(a, |a|)
    ensures Inverse(a).Inverted? ==> MatMul(Inverse(a).inverse, a) == Identity(|a|)
  {
    IdentityTimes(a);
    GaussJordanLeftInverse(a, a, Identity(|a|), 0);
  }

  /** A singular matrix: the second pivot vanishes after the first pass. */
  lemma {:induction false} SingularRaises()
    ensures Inverse([[1.0, 2.0], [2.0, 4.0]]) == ZeroPivot(1)
  {
    var a := [[1.0, 2.0], [2.0, 4.0]];
    var next := PivotStep(a, Identity(2), 0);
    assert next.0[1] == SubScaled(a[1], 2.0, DivRow(a[0], 1.0));
    assert next.0[1][1] == 0.0;
  }

  /** No row exchanges: an invertible matrix with a zero leading entry is
      still rejected at column 0. */
  lemma {:induction false} ZeroLeadingPivotRaises()
    ensures Inverse([[0.0, 1.0], [1.0, 0.0]]) == ZeroPivot(0)
  {
  }

  /** `for j in range(size): M[i][j] /= diag; I[i][j] /= diag`. */
  method NormalizePivotRow(mRow: seq<real>, iRow: seq<real>, diag: real) returns (m': seq<real>, i': seq<real>)
    requires |mRow| == |iRow| && diag != 0.0
    ensures m' == DivRow(mRow, diag) && i' == DivRow(iRow, diag)
  {
    m', i' := mRow, iRow;
    for j := 0 to |mRow|
      invariant |m'| == |mRow| && |i'| == |iRow|
      invariant forall c :: 0 <= c < j ==> m'[c] == mRow[c] / diag && i'[c] == iRow[c] / diag
      invariant forall c :: j <= c < |mRow| ==> m'[c] == mRow[c] && i'[c] == iRow[c]
    {
      m' := m'[j := m'[j] / diag];
      i' := i'[j := i'[j] / diag];
    }
  }

  /** `for j in range(size): M[k][j] -= factor * M[i][j]; I[k][j] -= factor * I[i][j]`. */
  method EliminateRow(mRow: seq<real>, iRow: seq<real>, factor: real, mPivot: seq<real>, iPivot: seq<real>)
    returns (m': seq<real>, i': seq<real>)
    requires |mRow| == |iRow| == |mPivot| == |iPivot|
    ensures m' == SubScaled(mRow, factor, mPivot) && i' == SubScaled(iRow, factor, iPivot)
  {
    m', i' := mRow, iRow;
    for j := 0 to |mRow|
      invariant |m'| == |mRow| && |i'| == |iRow|
      invariant forall c :: 0 <= c < j ==> m'[c] == mRow[c] - factor * mPivot[c] && i'[c] == iRow[c] - factor * iPivot[c]
      invariant forall c :: j <= c < |mRow| ==> m'[c] == mRow[c] && i'[c] == iRow[c]
    {
      m' := m'[j := m'[j] - factor * mPivot[j]];
      i' := i'[j := i'[j] - factor * iPivot[j]];
    }
    assert forall c :: 0 <= c < |mRow| ==> SubScaled(mRow, factor, mPivot)[c] == m'[c];
    assert forall c :: 0 <= c < |iRow| ==> SubScaled(iRow, factor, iPivot)[c] == i'[c];
  }

  /** One pass of the outer loop of `invert_matrix`: divide row i by its
      pivot, then subtract multiples of it from every other row, in both the
      working matrix and the growing inverse. */
  method EliminateColumn(m: Matrix, inv: Matrix, i: nat) returns (m': Matrix, inv': Matrix)
    requires IsSquare(m, |m|) && IsSquare(inv, |m|) && i < |m| && m[i][i] != 0.0
    ensures (m', inv') == PivotStep(m, inv, i)
  {
    var size := |m|;
    ghost var next := PivotStep(m, inv, i);
    var mi, ii := NormalizePivotRow(m[i], inv[i], m[i][i]);
    m', inv' := m[i := mi], inv[i := ii];
    for k := 0 to size
      invariant IsSquare(m', size) && IsSquare(inv', size)
      invariant m'[i] == next.0[i] && inv'[i] == next.1[i]
      invariant forall r :: 0 <= r < k ==> m'[r] == next.0[r] && inv'[r] == next.1[r]
      invariant forall r :: k <= r < size && r != i ==> m'[r] == m[r] && inv'[r] == inv[r]
    {
      if k != i {
        var factor := m'[k][i];
        var mk, ik := EliminateRow(m'[k], inv'[k], factor, m'[i], inv'[i]);
        m', inv' := m'[k := mk], inv'[k := ik];
      }
    }
    assert m' == next.0 && inv' == next.1;
  }

  /** `invert_matrix`: works on a copy of its argument and the identity. */
  method InvertMatrix(matrix: Matrix) returns (r: Inversion)
    requires IsSquare(matrix, |matrix|)
    ensures r == Inverse(matrix)
    ensures r.Inverted? ==> MatMul(r.inverse, matrix) == Identity(|matrix|)
  {
    InverseIsLeftInverse(matrix);
    var size := |matrix|;
    var inv := Identity(size);
    var m := matrix;
    for i := 0 to size
      invariant IsSquare(m, size) && IsSquare(inv, size)
      invariant GaussJordan(m, inv, i) == Inverse(matrix)
    {
      var diag := m[i][i];
      if diag == 0.0 {
        return ZeroPivot(i);
      }
      ghost var next := PivotStep(m, inv, i);
      assert GaussJordan(m, inv, i) == GaussJordan(next.0, next.1, i + 1);
      m, inv := EliminateColumn(m, inv, i);
    }
    return Inverted(inv);
  }

  // ---------------------------------------------------------------------------
  // Pseudo-inverse through the normal equations

  /** `BᵀB`. */
  function Gram(b: Matrix): (g: Matrix)
    requires Rectangular(b)
    ensures IsSquare(g, Cols(b))
  {
    MatMul(Transpose(b), b)
  }

  /** p is a `cols × rows` matrix with `p · b` the identity. */
  ghost predicate LeftInverse(p: Matrix, b: Matrix)
  {
    Rectangular(b) && IsMatrix(p, Cols(b), |b|) && MatMul(p, b) == Identity(Cols(b))
  }

  /** `(BᵀB)⁻¹Bᵀ`, or `None` when the Gauss–Jordan inversion of `BᵀB` meets
      a zero pivot. */
  function NormalEquationsInverse(b: Matrix): (r: Option<Matrix>)
    requires Rectangular(b)
    ensures r.None? <==> Inverse(Gram(b)).ZeroPivot?
    ensures r.Some? ==> IsMatrix(r.value, Cols(b), |b|)
  {
    var inv := Inverse(Gram(b));
    if inv.ZeroPivot? then None
    else
      var p := MatMul(inv.inverse, Transpose(b));
      assert Cols(b) > 0 ==> Cols(Transpose(b)) == |b|;
      Some(p)
  }

  /** Whenever it exists, the normal-equations pseudo-inverse is a left
      inverse of B. */
  lemma {:induction false} NormalEquationsInverseIsLeftInverse(b: Matrix)
    requires Rectangular(b)
    ensures NormalEquationsInverse(b).Some? ==> LeftInverse(NormalEquationsInverse(b).value, b)
  {
    var inv := Inverse(Gram(b));
    InverseIsLeftInverse(Gram(b));
    if inv.Inverted? && |b| > 0 && Cols(b) > 0 {
      MatMulAssociative(inv.inverse, Transpose(b), b);
    }
  }

  /** `pseudo_inverse(B)`, with the inversion done by `InvertMatrix`; `None`
      where the program prints the error and returns `None`. */
  method PseudoInverse(b: Matrix) returns (r: Option<Matrix>)
    requires Rectangular(b)
    ensures r == NormalEquationsInverse(b)
    ensures r.None? <==> Inverse(Gram(b)).ZeroPivot?
    ensures r.Some? ==> LeftInverse(r.value, b)
  {
    var bt := Transpose(b);
    var btb := MatMul(bt, b);
    var inv := InvertMatrix(btb);
    NormalEquationsInverseIsLeftInverse(b);
    if inv.ZeroPivot? {
      return None;
    }
    return Some(MatMul(inv.inverse, bt));
  }

  /** A left inverse recovers the coefficients of any vector in the range of
      B: fitting samples that lie exactly on a combination of the columns
      returns that combination. */
  lemma {:induction false} LeftInverseRecovers(p: Matrix, b: Matrix, c: seq<real>)
    requires LeftInverse(p, b) && |b| > 0 && Cols(b) == |c|
    ensures MatVec(p, MatVec(b, c)) == c
  {
    MatVecAssociative(p, b, c);
    IdentityTimesVector(c);
  }
}
