/** The integer reconstruction helpers of `Algos`: `downsample_wf`, which
    keeps every `rebin`-th sample, and `get_roi`, whose 2-D branch sums
    each channel over a window.  Both follow Python's slice rules.  The 1-D
    branch of `get_roi` is modelled as written (it always raises) and as
    evidently intended. */
module Reco {
  import opened Wrappers
  import opened NdArray
  import opened BitFields

  /** `ValueError: slice step cannot be zero` */
  datatype SliceError = ZeroStep

  function Reverse(w: seq<int>): (r: seq<int>)
    ensures |r| == |w|
    ensures forall i :: 0 <= i < |w| ==> r[i] == w[|w| - 1 - i]
  {
    if w == [] then [] else Reverse(w[1..]) + [w[0]]
  }

  /** Every `k`-th sample from the first, for a positive step `k`. */
  function Stride(w: seq<int>, k: nat): seq<int>
    requires k > 0
    decreases |w|
  {
    if w == [] then []
    else if |w| <= k then [w[0]]
    else [w[0]] + Stride(w[k..], k)
  }

  /** A stride of `k` keeps `ceil(n / k)` samples. */
  lemma {:induction false} StrideLength(w: seq<int>, k: nat)
    requires k > 0
    ensures |Stride(w, k)| == (|w| + k - 1) / k
    decreases |w|
  {
    var n := |w|;
    if w == [] {
      DivModUnique(k - 1, k, 0, k - 1);
    } else if n <= k {
      DivModUnique(n + k - 1, k, 1, n - 1);
    } else {
      StrideLength(w[k..], k);
      var q, rr := (n - 1) / k, (n - 1) % k;
      assert n - 1 == q * k + rr;
      assert n + k - 1 == (q + 1) * k + rr by {
        assert (q + 1) * k == q * k + k;
      }
      DivModUnique(n + k - 1, k, q + 1, rr);
    }
  }

  /** Sample `i` of `w[::k]` is sample `i * k` of `w`. */
  lemma {:induction false} StrideAt(w: seq<int>, k: nat, i: nat)
    requires k > 0 && i < |Stride(w, k)|
    ensures i * k < |w| && Stride(w, k)[i] == w[i * k]
    decreases i
  {
    if i > 0 {
      StrideAt(w[k..], k, i - 1);
      assert (i - 1) * k + k == i * k;
    }
  }

  lemma StrideSpec(w: seq<int>, k: nat)
    requires k > 0
    ensures |Stride(w, k)| == (|w| + k - 1) / k
    ensures forall i :: 0 <= i < |Stride(w, k)| ==> i * k < |w| && Stride(w, k)[i] == w[i * k]
  {
    StrideLength(w, k);
    forall i | 0 <= i < |Stride(w, k)|
      ensures i * k < |w| && Stride(w, k)[i] == w[i * k]
    {
      StrideAt(w, k, i);
    }
  }

  /** `w[::rebin]`, with `rebin` already passed through `int()`; a zero
      step is the only error. */
  function Downsample(w: seq<int>, rebin: int): (r: Result<seq<int>, SliceError>)
    ensures r.Err? <==> rebin == 0
  {
    if rebin == 0 then Err(ZeroStep)
    else if rebin > 0 then Ok(Stride(w, rebin))
    else Ok(Stride(Reverse(w), -rebin))
  }

  /** A positive step keeps the samples at multiples of `rebin`, giving
      `ceil(n / rebin)` of them. */
  lemma DownsampleForward(w: seq<int>, rebin: int)
    requires rebin > 0
    ensures var r := Downsample(w, rebin).value;
            && |r| == (|w| + rebin - 1) / rebin
            && forall i :: 0 <= i < |r| ==> i * rebin < |w| && r[i] == w[i * rebin]
  {
    StrideSpec(w, rebin);
  }

  /** A negative step of size `k` walks back from the last sample: sample
      `i` is input sample `n - 1 - i * k`. */
  lemma DownsampleBackward(w: seq<int>, rebin: int)
    requires rebin < 0
    ensures var r := Downsample(w, rebin).value;
            var k := -rebin;
            && |r| == (|w| + k - 1) / k
            && forall i :: 0 <= i < |r| ==> i * k < |w| && r[i] == w[|w| - 1 - i * k]
  {
    StrideSpec(Reverse(w), -rebin);
  }

  /** `rebin = 1` is the identity. */
  lemma DownsampleByOne(w: seq<int>)
    ensures Downsample(w, 1) == Ok(w)
  {
    DownsampleForward(w, 1);
    var r := Downsample(w, 1).value;
    assert |r| == |w|;
    forall i | 0 <= i < |w|
      ensures r[i] == w[i]
    {
      assert i * 1 == i;
    }
    assert r == w;
  }

  /** Downsampling twice is downsampling once by the product of the steps. */
  lemma DownsampleTwice(w: seq<int>, a: nat, b: nat)
    requires a > 0 && b > 0
    ensures Downsample(Downsample(w, a).value, b) == Downsample(w, a * b)
  {
    MulAtLeast(a, b);
    var once := Downsample(w, a).value;
    var twice := Downsample(once, b).value;
    var direct := Downsample(w, a * b).value;
    StrideLength(w, a);
    StrideLength(once, b);
    StrideLength(w, a * b);
    CeilDivDiv(|w|, a, b);
    forall i | 0 <= i < |twice|
      ensures twice[i] == direct[i]
    {
      StrideAt(once, b, i);
      StrideAt(w, a, i * b);
      StrideAt(w, a * b, i);
      Associate(i, b, a);
    }
    assert twice == direct;
  }

  /** `ceil(ceil(n / a) / b) == ceil(n / (a * b))` */
  lemma CeilDivDiv(n: nat, a: nat, b: nat)
    requires a > 0 && b > 0
    ensures ((n + a - 1) / a + b - 1) / b == (n + a * b - 1) / (a * b)
  {
    MulAtLeast(a, b);
    if n == 0 {
      DivModUnique(a - 1, a, 0, a - 1);
      DivModUnique(b - 1, b, 0, b - 1);
      DivModUnique(a * b - 1, a * b, 0, a * b - 1);
    } else {
      DivAddMultiple(n - 1, a, 1);
      DivAddMultiple(n - 1, a, b);
      DivDiv(n + a * b - 1, a, b);
    }
  }

  lemma DivAddMultiple(x: nat, a: nat, m: nat)
    requires a > 0
    ensures (x + a * m) / a == x / a + m
  {
    var q, r := x / a, x % a;
    assert x + a * m == (q + m) * a + r by {
      assert (q + m) * a == q * a + a * m;
    }
    DivModUnique(x + a * m, a, q + m, r);
  }

  /** The number of samples `w[::rebin]` keeps of `n`. */
  function KeptCount(n: nat, rebin: int): nat
    requires rebin != 0
  {
    if rebin > 0 then (n + rebin - 1) / rebin else (n - rebin - 1) / -rebin
  }

  /** `wfs[:, ::rebin]` on a matrix, or `wfs[::rebin]` on one waveform: the
      error is raised for a zero step whatever the input, and otherwise the
      result has the input's dimension. */
  function DownsampleWf(wfs: Waveforms, rebin: int): (r: Result<Waveforms, SliceError>)
    ensures r.Err? <==> rebin == 0
    ensures r.Ok? ==> r.value.OneD? == wfs.OneD?
  {
    if rebin == 0 then Err(ZeroStep)
    else
      match wfs
      case OneD(samples) => Ok(OneD(Downsample(samples, rebin).value))
      case TwoD(m) =>
        var rows := seq(|m.rows|, i requires 0 <= i < |m.rows| => Downsample(m.rows[i], rebin).value);
        Ok(TwoD(Matrix(KeptCount(m.cols, rebin), rows)))
  }

  /** On a matrix every channel is downsampled alike, so the result is a
      well-formed array again, with as many columns as each downsampled
      channel has samples. */
  lemma DownsampleWfMatrix(m: Matrix, rebin: int)
    requires IsRect(m) && rebin != 0
    ensures var r := DownsampleWf(TwoD(m), rebin);
            && r.Ok? && r.value.TwoD? && IsRect(r.value.matrix)
            && |r.value.matrix.rows| == |m.rows|
            && r.value.matrix.cols == KeptCount(m.cols, rebin)
            && forall c :: 0 <= c < |m.rows| ==> r.value.matrix.rows[c] == Downsample(m.rows[c], rebin).value
  {
    var r := DownsampleWf(TwoD(m), rebin).value.matrix;
    forall c | 0 <= c < |m.rows|
      ensures |r.rows[c]| == r.cols
    {
      RowLength(m.rows[c], rebin);
    }
  }

  lemma RowLength(w: seq<int>, rebin: int)
    requires rebin != 0
    ensures |Downsample(w, rebin).value| == KeptCount(|w|, rebin)
  {
    if rebin > 0 {
      StrideLength(w, rebin);
    } else {
      StrideLength(Reverse(w), -rebin);
    }
  }

  // ---------------------------------------------------------------------
  // get_roi, 2-D branch.

  /** A bound of a Python slice `w[lo:hi]` on `n` samples: a negative bound
      counts from the end, and both are clipped to `[0, n]`. */
  function SliceBound(n: nat, x: int): (b: nat)
    ensures b <= n
  {
    if x < 0 then (if x + n < 0 then 0 else x + n)
    else if x > n then n
    else x
  }

  /** `w[lo:hi]`: empty when the normalised bounds cross. */
  function PySlice(w: seq<int>, lo: int, hi: int): seq<int>
  {
    var a := SliceBound(|w|, lo);
    var b := SliceBound(|w|, hi);
    if a < b then w[a..b] else []
  }

  function Sum(w: seq<int>): int
  {
    if w == [] then 0 else w[0] + Sum(w[1..])
  }

  lemma {:induction false} SumAppend(a: seq<int>, b: seq<int>)
    ensures Sum(a + b) == Sum(a) + Sum(b)
  {
    if a == [] {
      assert a + b == b;
    } else {
      assert (a + b)[1..] == a[1..] + b;
      SumAppend(a[1..], b);
    }
  }

  /** Samples all equal to `v` sum to `v` times their number. */
  lemma {:induction false} SumOfConstant(w: seq<int>, v: int)
    requires forall k :: 0 <= k < |w| ==> w[k] == v
    ensures Sum(w) == v * |w|
  {
    if w != [] {
      SumOfConstant(w[1..], v);
      assert v * |w| == v + v * (|w| - 1);
    }
  }

  /** The region of interest: a `(channels, 1)` array holding each
      channel's sum over the `gate` samples from `start` on. */
  function GetRoi(m: Matrix, gate: int, start: int): (r: Matrix)
    ensures IsRect(r) && r.cols == 1 && |r.rows| == |m.rows|
  {
    Matrix(1, seq(|m.rows|, c requires 0 <= c < |m.rows| => [Sum(PySlice(m.rows[c], start, start + gate))]))
  }

  /** The value of the window of channel `c`. */
  function RoiOf(m: Matrix, gate: int, start: int, c: nat): int
    requires c < |m.rows|
  {
    GetRoi(m, gate, start).rows[c][0]
  }

  /** `min(x, n)` */
  function Clip(n: nat, x: nat): (r: nat)
    ensures r <= n && r <= x && (r == n || r == x)
  {
    if x < n then x else n
  }

  /** With a non-negative start and gate the window is `[start, start +
      gate)` clipped to the channel's length. */
  lemma RoiWindow(m: Matrix, gate: int, start: int, c: nat)
    requires c < |m.rows| && start >= 0 && gate >= 0
    ensures var n := |m.rows[c]|;
            RoiOf(m, gate, start, c) == Sum(m.rows[c][Clip(n, start)..Clip(n, start + gate)])
  {
    var n := |m.rows[c]|;
    var lo := Clip(n, start);
    var hi := Clip(n, start + gate);
    if lo == hi {
      assert m.rows[c][lo..hi] == [];
    }
  }

  /** A window whose samples all equal `v` (a flat baseline, or zeros)
      sums to `v` times the number of its samples inside the channel. */
  lemma RoiOfConstant(m: Matrix, gate: int, start: int, c: nat, v: int)
    requires c < |m.rows| && start >= 0 && gate >= 0
    requires forall k :: start <= k < start + gate && k < |m.rows[c]| ==> m.rows[c][k] == v
    ensures var n := |m.rows[c]|;
            RoiOf(m, gate, start, c) == v * (Clip(n, start + gate) - Clip(n, start))
  {
    RoiWindow(m, gate, start, c);
    var n := |m.rows[c]|;
    var window := m.rows[c][Clip(n, start)..Clip(n, start + gate)];
    forall k | 0 <= k < |window|
      ensures window[k] == v
    {
      assert window[k] == m.rows[c][Clip(n, start) + k];
    }
    SumOfConstant(window, v);
  }

  /** Adjacent windows add up: the sum over `[start, start + g1 + g2)` is
      the sum over `[start, start + g1)` plus the sum over `[start + g1,
      start + g1 + g2)`. */
  lemma RoiSplit(m: Matrix, g1: int, g2: int, start: int, c: nat)
    requires c < |m.rows| && start >= 0 && g1 >= 0 && g2 >= 0
    ensures RoiOf(m, g1 + g2, start, c) == RoiOf(m, g1, start, c) + RoiOf(m, g2, start + g1, c)
  {
    RoiWindow(m, g1 + g2, start, c);
    RoiWindow(m, g1, start, c);
    RoiWindow(m, g2, start + g1, c);
    var n := |m.rows[c]|;
    assert start + (g1 + g2) == start + g1 + g2;
    SumSplit(m.rows[c], Clip(n, start), Clip(n, start + g1), Clip(n, start + g1 + g2));
  }

  lemma SumSplit(w: seq<int>, a: nat, b: nat, e: nat)
    requires a <= b <= e <= |w|
    ensures Sum(w[a..e]) == Sum(w[a..b]) + Sum(w[b..e])
  {
    assert w[a..e] == w[a..b] + w[b..e];
    SumAppend(w[a..b], w[b..e]);
  }

  /** A window from 0 that reaches past the end sums the whole channel. */
  lemma RoiWholeChannel(m: Matrix, gate: int, c: nat)
    requires c < |m.rows| && gate >= |m.rows[c]|
    ensures RoiOf(m, gate, 0, c) == Sum(m.rows[c])
  {
    RoiWindow(m, gate, 0, c);
    assert m.rows[c][0..|m.rows[c]|] == m.rows[c];
  }

  // ---------------------------------------------------------------------
  // get_roi, 1-D branch.

  /** numpy's `IndexError`: too many indices for the array. */
  datatype IndexError = TooManyIndices

  /** `wfs[:, lo:hi]`: the columns `lo:hi` of every channel.  A single
      waveform has one dimension only, so the two indices are refused. */
  function ColumnSlice(wfs: Waveforms, lo: int, hi: int): (r: Result<Matrix, IndexError>)
    ensures r.Ok? <==> wfs.TwoD?
    ensures r.Ok? ==> |r.value.rows| == |wfs.matrix.rows|
    ensures r.Ok? ==> forall c :: 0 <= c < |r.value.rows| ==> r.value.rows[c] == PySlice(wfs.matrix.rows[c], lo, hi)
  {
    match wfs
    case OneD(_) => Err(TooManyIndices)
    case TwoD(m) =>
      var a := SliceBound(m.cols, lo);
      var b := SliceBound(m.cols, hi);
      Ok(Matrix(if a < b then b - a else 0,
                seq(|m.rows|, c requires 0 <= c < |m.rows| => PySlice(m.rows[c], lo, hi))))
  }

  /** The 1-D branch of `get_roi` as written: it slices the single waveform
      with the channel index of the 2-D branch. */
  function GetRoiOneDAsWritten(w: seq<int>, gate: int, start: int): Result<Matrix, IndexError>
  {
    ColumnSlice(OneD(w), start, start + gate)
  }

  /** The branch as written never returns: every single waveform, even one
      with samples in the window, raises the indexing error. */
  lemma RoiOneDAsWrittenFails(w: seq<int>, gate: int, start: int)
    ensures GetRoiOneDAsWritten(w, gate, start) == Err(TooManyIndices)
  {
  }

  /** The 1-D branch as evidently intended: the window `w[start:start+gate]`
      of the single waveform. */
  function GetRoiOneD(w: seq<int>, gate: int, start: int): seq<int>
  {
    PySlice(w, start, start + gate)
  }

  /** The intended 1-D window is the window the 2-D branch sums when the
      waveform is the only channel: it is `[start, start + gate)` clipped to
      the waveform, and its sum is that channel's region of interest. */
  lemma RoiOneDWindow(w: seq<int>, gate: int, start: int)
    requires start >= 0 && gate >= 0
    ensures var n := |w|;
            GetRoiOneD(w, gate, start) == w[Clip(n, start)..Clip(n, start + gate)]
    ensures Sum(GetRoiOneD(w, gate, start)) == RoiOf(Matrix(|w|, [w]), gate, start, 0)
  {
    var n := |w|;
    if Clip(n, start) == Clip(n, start + gate) {
      assert w[Clip(n, start)..Clip(n, start + gate)] == [];
    }
    RoiWindow(Matrix(|w|, [w]), gate, start, 0);
  }
}
