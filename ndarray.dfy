/** The numpy shape operations the decoders are built from: a 2-D integer
    array, `ravel` and `reshape` in C (row-major) and F (column-major) order,
    and `vstack`.  Each operation is defined the way numpy describes it, and
    the lemmas give the element-index formula it amounts to. */
module NdArray {

  /** A 2-D array of shape `(|rows|, cols)`.  The column count is kept
      explicitly so that an array with no rows still has a shape. */
  datatype Matrix = Matrix(cols: nat, rows: seq<seq<int>>)

  /** A waveform array as the algorithms accept it: one waveform, or a
      `(channel, sample)` matrix. */
  datatype Waveforms = OneD(samples: seq<int>) | TwoD(matrix: Matrix)

  /** Every row has `cols` elements: the shape is well formed. */
  predicate IsRect(m: Matrix)
  {
    forall i :: 0 <= i < |m.rows| ==> |m.rows[i]| == m.cols
  }

  /** `m.size`, the number of elements. */
  function Size(m: Matrix): nat
  {
    |m.rows| * m.cols
  }

  /** Row-major flattening: the rows, one after another. */
  function RavelC(m: Matrix): (flat: seq<int>)
    requires IsRect(m)
    ensures |flat| == Size(m)
    decreases |m.rows|
  {
    if m.rows == [] then []
    else
      assert |m.rows| * m.cols == m.cols + (|m.rows| - 1) * m.cols;
      m.rows[0] + RavelC(Matrix(m.cols, m.rows[1..]))
  }

  /** Row-major reshape: consecutive chunks of `ncols`
      elements become the rows. */
  function ReshapeC(flat: seq<int>, nrows: nat, ncols: nat): (m: Matrix)
    requires |flat| == nrows * ncols
    ensures IsRect(m) && |m.rows| == nrows && m.cols == ncols
    decreases nrows
  {
    if nrows == 0 then Matrix(ncols, [])
    else
      assert nrows * ncols == ncols + (nrows - 1) * ncols;
      Matrix(ncols, [flat[..ncols]] + ReshapeC(flat[ncols..], nrows - 1, ncols).rows)
  }

  /** `m.T` */
  function Transpose(m: Matrix): (t: Matrix)
    requires IsRect(m)
    ensures IsRect(t) && t.cols == |m.rows| && |t.rows| == m.cols
  {
    Matrix(|m.rows|, seq(m.cols, c requires 0 <= c < m.cols =>
                           seq(|m.rows|, r requires 0 <= r < |m.rows| => m.rows[r][c])))
  }

  /** Column-major flattening: the columns, one after another. */
  function RavelF(m: Matrix): (flat: seq<int>)
    requires IsRect(m)
    ensures |flat| == Size(m)
  {
    RavelC(Transpose(m))
  }

  /** Column-major reshape: consecutive chunks of
      `nrows` elements become the columns. */
  function ReshapeF(flat: seq<int>, nrows: nat, ncols: nat): (m: Matrix)
    requires |flat| == nrows * ncols
    ensures IsRect(m) && |m.rows| == nrows && m.cols == ncols
  {
    Transpose(ReshapeC(flat, ncols, nrows))
  }

  /** Vertical stacking of two arrays with the same number of columns. */
  function VStack(a: Matrix, b: Matrix): (m: Matrix)
    requires a.cols == b.cols
    ensures IsRect(a) && IsRect(b) ==> IsRect(m)
    ensures |m.rows| == |a.rows| + |b.rows| && m.cols == a.cols
    ensures m.rows[..|a.rows|] == a.rows && m.rows[|a.rows|..] == b.rows
  {
    Matrix(a.cols, a.rows + b.rows)
  }

  /** Element `(i, j)` of a C-order ravel sits at `i * cols + j`. */
  lemma {:induction false} RavelCIndex(m: Matrix, i: nat, j: nat)
    requires IsRect(m) && i < |m.rows| && j < m.cols
    ensures i * m.cols + j < Size(m)
    ensures RavelC(m)[i * m.cols + j] == m.rows[i][j]
    decreases |m.rows|
  {
    var rest := Matrix(m.cols, m.rows[1..]);
    LinearIndexBound(i, j, |m.rows|, m.cols);
    MulSucc(|m.rows|, m.cols);
    assert RavelC(m) == m.rows[0] + RavelC(rest);
    if i > 0 {
      MulSucc(i, m.cols);
      RavelCIndex(rest, i - 1, j);
    }
  }

  /** Row `r`, column `c` of a C-order reshape is element `r * ncols + c`. */
  lemma {:induction false} ReshapeCIndex(flat: seq<int>, nrows: nat, ncols: nat, r: nat, c: nat)
    requires |flat| == nrows * ncols && r < nrows && c < ncols
    ensures r * ncols + c < |flat|
    ensures ReshapeC(flat, nrows, ncols).rows[r][c] == flat[r * ncols + c]
    decreases nrows
  {
    LinearIndexBound(r, c, nrows, ncols);
    if r > 0 {
      var rest := flat[ncols..];
      MulSucc(nrows, ncols);
      MulSucc(r, ncols);
      ReshapeCIndex(rest, nrows - 1, ncols, r - 1, c);
      assert ReshapeC(flat, nrows, ncols).rows[r] == ReshapeC(rest, nrows - 1, ncols).rows[r - 1];
    }
  }

  lemma MulSucc(a: nat, k: nat)
    requires a > 0
    ensures a * k == k + (a - 1) * k
  {
  }

  /** Row `r`, column `c` of an F-order reshape is element `r + nrows * c`. */
  lemma ReshapeFIndex(flat: seq<int>, nrows: nat, ncols: nat, r: nat, c: nat)
    requires |flat| == nrows * ncols && r < nrows && c < ncols
    ensures r + nrows * c < |flat|
    ensures ReshapeF(flat, nrows, ncols).rows[r][c] == flat[r + nrows * c]
  {
    ReshapeCIndex(flat, ncols, nrows, c, r);
    assert c * nrows + r == r + nrows * c;
  }

  /** Element `(r, c)` of an F-order ravel sits at `r + |rows| * c`. */
  lemma RavelFIndex(m: Matrix, r: nat, c: nat)
    requires IsRect(m) && r < |m.rows| && c < m.cols
    ensures r + |m.rows| * c < Size(m)
    ensures RavelF(m)[r + |m.rows| * c] == m.rows[r][c]
  {
    var t := Transpose(m);
    RavelCIndex(t, c, r);
    assert c * t.cols + r == r + |m.rows| * c;
  }

  lemma LinearIndexBound(r: nat, c: nat, nrows: nat, ncols: nat)
    requires r < nrows && c < ncols
    ensures r * ncols + c < nrows * ncols
  {
    MulMono(r + 1, nrows, ncols);
  }

  lemma MulMono(a: nat, b: nat, k: nat)
    requires a <= b
    ensures a * k <= b * k
  {
  }
}
