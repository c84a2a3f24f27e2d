/** The two read-only helpers the filters share: the variance of the samples
    in a square window (used by the bilateral pass to pick its sampling
    stride) and the Sobel gradient magnitude (used by the bilateral pass to
    widen its colour sigma and by the sharpener to scale its kernel). Each is
    a specification function plus the method that loops the way the source
    does and is proved to compute it. */
module Neighbourhood {
  import opened Raster
  import opened JsNumbers
  import opened Stats

  predicate InImage(w: int, h: int, x: int, y: int)
  {
    0 <= x < w && 0 <= y < h
  }

  /** The sample of channel c at (px, py) when that pixel is in the image, else nothing. */
  function Cell(s: seq<int>, w: int, h: int, px: int, py: int, c: int): seq<int>
    requires Shaped(s, w, h) && 0 <= c < 4
  {
    if InImage(w, h, px, py) then [At(s, w, h, px, py, c)] else []
  }

  /** The in-image samples of row `dy` of the window of radius `r` around
      (x, y), for dx in [-r, dxEnd), in scan order. */
  function RowValues(s: seq<int>, w: int, h: int, x: int, y: int, c: int, r: int, dy: int, dxEnd: int): seq<int>
    requires Shaped(s, w, h) && 0 <= c < 4
    decreases dxEnd + r, 2
  {
    RowValuesAt(s, w, h, x, y, c, r, dy, dxEnd, 1)
  }

  /** The definition of RowValues, reached after `layer` unfoldings, so that
      the loop proofs do not unfold the row at every step; RowValuesStep
      states it. */
  function RowValuesAt(s: seq<int>, w: int, h: int, x: int, y: int, c: int, r: int, dy: int, dxEnd: int, layer: nat): seq<int>
    requires Shaped(s, w, h) && 0 <= c < 4
    decreases dxEnd + r, layer
  {
    if layer > 0 then RowValuesAt(s, w, h, x, y, c, r, dy, dxEnd, layer - 1)
    else if dxEnd <= -r then []
    else RowValues(s, w, h, x, y, c, r, dy, dxEnd - 1) + Cell(s, w, h, x + dxEnd - 1, y + dy, c)
  }

  /** The in-image samples of rows [-r, dyEnd) of the window, in scan order. */
  function WindowValues(s: seq<int>, w: int, h: int, x: int, y: int, c: int, r: int, dyEnd: int): seq<int>
    requires Shaped(s, w, h) && 0 <= c < 4
    decreases dyEnd + r
  {
    if dyEnd <= -r then []
    else WindowValues(s, w, h, x, y, c, r, dyEnd - 1) + RowValues(s, w, h, x, y, c, r, dyEnd - 1, r + 1)
  }

  /** The samples of channel c in the (2r+1) x (2r+1) window around (x, y) that lie in the image. */
  function LocalWindow(s: seq<int>, w: int, h: int, x: int, y: int, c: int, r: int): seq<int>
    requires Shaped(s, w, h) && 0 <= c < 4
  {
    WindowValues(s, w, h, x, y, c, r, r + 1)
  }

  /** One column more of a window row. */
  lemma {:induction false} RowValuesStep(s: seq<int>, w: int, h: int, x: int, y: int, c: int, r: int, dy: int, dx: int)
    requires Shaped(s, w, h) && 0 <= c < 4 && -r <= dx
    ensures RowValues(s, w, h, x, y, c, r, dy, -r) == []
    ensures RowValues(s, w, h, x, y, c, r, dy, dx + 1) == RowValues(s, w, h, x, y, c, r, dy, dx) + Cell(s, w, h, x + dx, y + dy, c)
  {
    assert RowValuesAt(s, w, h, x, y, c, r, dy, -r, 1) == RowValuesAt(s, w, h, x, y, c, r, dy, -r, 0);
    assert RowValuesAt(s, w, h, x, y, c, r, dy, dx + 1, 1) == RowValuesAt(s, w, h, x, y, c, r, dy, dx + 1, 0);
  }

  /** One row more of the window. */
  lemma {:induction false} WindowValuesStep(s: seq<int>, w: int, h: int, x: int, y: int, c: int, r: int, dy: int)
    requires Shaped(s, w, h) && 0 <= c < 4 && -r <= dy
    ensures WindowValues(s, w, h, x, y, c, r, dy + 1) == WindowValues(s, w, h, x, y, c, r, dy) + RowValues(s, w, h, x, y, c, r, dy, r + 1)
  {
  }

  /** The samples gathered so far in a row, after one more column. */
  lemma {:induction false} RowPrefixStep(s: seq<int>, w: int, h: int, x: int, y: int, c: int, r: int, dy: int, dx: int,
                      seen0: seq<int>, before: seq<int>, after: seq<int>)
    requires Shaped(s, w, h) && 0 <= c < 4 && -r <= dx
    requires before == seen0 + RowValues(s, w, h, x, y, c, r, dy, dx)
    requires after == before + Cell(s, w, h, x + dx, y + dy, c)
    ensures after == seen0 + RowValues(s, w, h, x, y, c, r, dy, dx + 1)
  {
    RowValuesStep(s, w, h, x, y, c, r, dy, dx);
  }

  lemma {:induction false} RowHasCenter(s: seq<int>, w: int, h: int, x: int, y: int, c: int, r: int, dy: int, dxEnd: int)
    requires Shaped(s, w, h) && 0 <= c < 4 && r >= 0 && 0 < dxEnd && InImage(w, h, x, y + dy)
    ensures |RowValues(s, w, h, x, y, c, r, dy, dxEnd)| >= 1
    decreases dxEnd
  {
    RowValuesStep(s, w, h, x, y, c, r, dy, dxEnd - 1);
    if dxEnd > 1 {
      RowHasCenter(s, w, h, x, y, c, r, dy, dxEnd - 1);
    }
  }

  lemma {:induction false} WindowHasCenter(s: seq<int>, w: int, h: int, x: int, y: int, c: int, r: int, dyEnd: int)
    requires Shaped(s, w, h) && 0 <= c < 4 && r >= 0 && 0 < dyEnd && InImage(w, h, x, y)
    ensures |WindowValues(s, w, h, x, y, c, r, dyEnd)| >= 1
    decreases dyEnd
  {
    if dyEnd > 1 {
      WindowHasCenter(s, w, h, x, y, c, r, dyEnd - 1);
    } else {
      RowHasCenter(s, w, h, x, y, c, r, 0, r + 1);
    }
  }

  /** A window row up to column dxEnd holds at most one sample per column,
      and exactly one when the window lies inside the image. */
  lemma {:induction false} RowCount(s: seq<int>, w: int, h: int, x: int, y: int, c: int, r: int, dy: int, dxEnd: int)
    requires Shaped(s, w, h) && 0 <= c < 4 && r >= 0 && -r <= dy <= r && -r <= dxEnd <= r + 1
    ensures |RowValues(s, w, h, x, y, c, r, dy, dxEnd)| <= dxEnd + r
    ensures Inset(w, h, x, y, r) ==> |RowValues(s, w, h, x, y, c, r, dy, dxEnd)| == dxEnd + r
    decreases dxEnd + r
  {
    RowValuesStep(s, w, h, x, y, c, r, dy, -r);
    if dxEnd > -r {
      RowValuesStep(s, w, h, x, y, c, r, dy, dxEnd - 1);
      RowCount(s, w, h, x, y, c, r, dy, dxEnd - 1);
      if Inset(w, h, x, y, r) {
        assert InImage(w, h, x + dxEnd - 1, y + dy);
      }
    }
  }

  /** The rows [-r, dyEnd) of the window hold at most 2r + 1 samples each,
      and exactly that many when the window lies inside the image. */
  lemma {:induction false} WindowCount(s: seq<int>, w: int, h: int, x: int, y: int, c: int, r: int, dyEnd: int)
    requires Shaped(s, w, h) && 0 <= c < 4 && r >= 0 && -r <= dyEnd <= r + 1
    ensures |WindowValues(s, w, h, x, y, c, r, dyEnd)| <= (dyEnd + r) * (2 * r + 1)
    ensures Inset(w, h, x, y, r) ==> |WindowValues(s, w, h, x, y, c, r, dyEnd)| == (dyEnd + r) * (2 * r + 1)
    decreases dyEnd + r
  {
    if dyEnd > -r {
      WindowValuesStep(s, w, h, x, y, c, r, dyEnd - 1);
      WindowCount(s, w, h, x, y, c, r, dyEnd - 1);
      RowCount(s, w, h, x, y, c, r, dyEnd - 1, r + 1);
      assert (dyEnd - 1 + r) * (2 * r + 1) + (2 * r + 1) == (dyEnd + r) * (2 * r + 1);
    }
  }

  /** The count `calculateLocalVariance` divides by is the number of window
      cells inside the image: never more than (2r+1)^2, and exactly that when
      the pixel is at least r away from every edge. */
  lemma {:induction false} LocalWindowCount(s: seq<int>, w: int, h: int, x: int, y: int, c: int, r: int)
    requires Shaped(s, w, h) && 0 <= c < 4 && r >= 0
    ensures |LocalWindow(s, w, h, x, y, c, r)| <= (2 * r + 1) * (2 * r + 1)
    ensures Inset(w, h, x, y, r) ==> |LocalWindow(s, w, h, x, y, c, r)| == (2 * r + 1) * (2 * r + 1)
  {
    WindowCount(s, w, h, x, y, c, r, r + 1);
  }

  /** `calculateLocalVariance`: the variance of the in-image samples of the
      window, computed in one pass as the source does; it is the textbook
      variance of those samples, so never negative, and the window always
      holds at least the centre sample, so the division is defined. */
  method CalculateLocalVariance(data: seq<int>, x: int, y: int, w: int, h: int, c: int, r: int)
    returns (variance: real)
    requires Shaped(data, w, h) && InImage(w, h, x, y) && 0 <= c < 4 && r >= 0
    ensures |LocalWindow(data, w, h, x, y, c, r)| > 0
    ensures variance == Variance(LocalWindow(data, w, h, x, y, c, r))
    ensures variance >= 0.0
  {
    var sum, sumSquared, count := 0, 0, 0;
    ghost var seen: seq<int> := [];
    TallyIs(sum, sumSquared, count, seen);
    var dy := -r;
    while dy <= r
      invariant -r <= dy <= r + 1
      invariant seen == WindowValues(data, w, h, x, y, c, r, dy)
      invariant Tally(sum, sumSquared, count, seen)
    {
      WindowValuesStep(data, w, h, x, y, c, r, dy);
      sum, sumSquared, count, seen := VarianceRow(data, x, y, w, h, c, r, dy, sum, sumSquared, count, seen);
      dy := dy + 1;
    }
    TallyIs(sum, sumSquared, count, seen);
    WindowHasCenter(data, w, h, x, y, c, r, r + 1);
    OnePassVariance(seen);
    variance := OnePass(sum, sumSquared, count);
  }

  /** The inner loop of `calculateLocalVariance` over row dy of the window. */
  method VarianceRow(data: seq<int>, x: int, y: int, w: int, h: int, c: int, r: int, dy: int,
                     sum0: int, sumSquared0: int, count0: int, ghost seen0: seq<int>)
    returns (sum: int, sumSquared: int, count: int, ghost seen: seq<int>)
    requires Shaped(data, w, h) && 0 <= c < 4 && r >= 0
    requires Tally(sum0, sumSquared0, count0, seen0)
    ensures seen == seen0 + RowValues(data, w, h, x, y, c, r, dy, r + 1)
    ensures Tally(sum, sumSquared, count, seen)
  {
    sum, sumSquared, count, seen := sum0, sumSquared0, count0, seen0;
    var dx := -r;
    RowValuesStep(data, w, h, x, y, c, r, dy, dx);
    while dx <= r
      invariant -r <= dx <= r + 1
      invariant seen == seen0 + RowValues(data, w, h, x, y, c, r, dy, dx)
      invariant Tally(sum, sumSquared, count, seen)
    {
      ghost var before := seen;
      sum, sumSquared, count, seen := VarianceCell(data, w, h, c, x + dx, y + dy, sum, sumSquared, count, seen);
      RowPrefixStep(data, w, h, x, y, c, r, dy, dx, seen0, before, seen);
      dx := dx + 1;
    }
  }

  /** The body of the inner loop: the sample at (px, py) is added to the
      sums when that pixel is in the image. */
  method VarianceCell(data: seq<int>, w: int, h: int, c: int, px: int, py: int,
                      sum0: int, sumSquared0: int, count0: int, ghost seen0: seq<int>)
    returns (sum: int, sumSquared: int, count: int, ghost seen: seq<int>)
    requires Shaped(data, w, h) && 0 <= c < 4
    requires Tally(sum0, sumSquared0, count0, seen0)
    ensures seen == seen0 + Cell(data, w, h, px, py, c)
    ensures Tally(sum, sumSquared, count, seen)
  {
    TallyIs(sum0, sumSquared0, count0, seen0);
    sum, sumSquared, count, seen := sum0, sumSquared0, count0, seen0;
    if py >= 0 && py < h && px >= 0 && px < w {
      IdxCoords(w, h, px, py, c);
      var value := data[Idx(w, px, py, c)];
      SumAppend(seen0, value);
      seen := seen0 + [value];
      sum := sum + value;
      sumSquared := sumSquared + value * value;
      count := count + 1;
    }
    TallyIs(sum, sumSquared, count, seen);
  }

  /** The running values of the variance loops: the sum, the sum of squares
      and the number of the samples `seen` so far. */
  predicate Tally(sum: int, sumSquared: int, count: int, seen: seq<int>)
  {
    TallyAt(sum, sumSquared, count, seen, 1)
  }

  /** The definition of Tally, reached after `layer` unfoldings, so that the
      loop proofs do not unfold the sums at every step; TallyIs states it. */
  predicate TallyAt(sum: int, sumSquared: int, count: int, seen: seq<int>, layer: nat)
    decreases layer
  {
    if layer > 0 then TallyAt(sum, sumSquared, count, seen, layer - 1)
    else sum == Sum(seen) && sumSquared == SumSq(seen) && count == |seen|
  }

  lemma {:induction false} TallyIs(sum: int, sumSquared: int, count: int, seen: seq<int>)
    ensures Tally(sum, sumSquared, count, seen) <==> sum == Sum(seen) && sumSquared == SumSq(seen) && count == |seen|
  {
    assert TallyAt(sum, sumSquared, count, seen, 1) == TallyAt(sum, sumSquared, count, seen, 0);
  }

  /** The Sobel kernels, indexed `[dy + 1][dx + 1]`. */
  const SobelX: seq<seq<int>> := [[-1, 0, 1], [-2, 0, 2], [-1, 0, 1]]
  const SobelY: seq<seq<int>> := [[-1, -2, -1], [0, 0, 0], [1, 2, 1]]

  predicate Kernel3(k: seq<seq<int>>)
  {
    |k| == 3 && forall i | 0 <= i < 3 :: |k[i]| == 3
  }

  /** The sum, over the first n cells of row j of the 3x3 neighbourhood of
      (x, y), of sample times kernel weight. */
  function RowConv(s: seq<int>, w: int, h: int, x: int, y: int, c: int, k: seq<seq<int>>, j: int, n: int): int
    requires Shaped(s, w, h) && 1 <= x < w - 1 && 1 <= y < h - 1 && 0 <= c < 4
    requires Kernel3(k) && 0 <= j < 3 && 0 <= n <= 3
  {
    if n == 0 then 0
    else RowConv(s, w, h, x, y, c, k, j, n - 1) + At(s, w, h, x + n - 2, y + j - 1, c) * k[j][n - 1]
  }

  /** The sum, over the first m rows of the 3x3 neighbourhood of (x, y), of
      sample times kernel weight: with m = 3, the correlation of the kernel
      with the neighbourhood. */
  function Conv3(s: seq<int>, w: int, h: int, x: int, y: int, c: int, k: seq<seq<int>>, m: int): int
    requires Shaped(s, w, h) && 1 <= x < w - 1 && 1 <= y < h - 1 && 0 <= c < 4
    requires Kernel3(k) && 0 <= m <= 3
  {
    if m == 0 then 0 else Conv3(s, w, h, x, y, c, k, m - 1) + RowConv(s, w, h, x, y, c, k, m - 1, 3)
  }

  /** `calculateEdgeStrength`: 0 within one pixel of the border, otherwise
      the Sobel gradient magnitude scaled by 1/255. */
  function EdgeStrength(s: seq<int>, w: int, h: int, x: int, y: int, c: int, m: MathLib): real
    requires Shaped(s, w, h) && 0 <= c < 4
  {
    EdgeStrengthAt(s, w, h, x, y, c, m, 1)
  }

  /** The definition of EdgeStrength, reached after `layer` unfoldings. The
      solver unfolds a recursive function once per occurrence, so the Sobel
      sums behind an edge strength stay out of every proof that does not
      call EdgeStrengthIs. */
  function EdgeStrengthAt(s: seq<int>, w: int, h: int, x: int, y: int, c: int, m: MathLib, layer: nat): real
    requires Shaped(s, w, h) && 0 <= c < 4
    decreases layer
  {
    if layer > 0 then EdgeStrengthAt(s, w, h, x, y, c, m, layer - 1)
    else if x <= 0 || x >= w - 1 || y <= 0 || y >= h - 1 then 0.0
    else
      var gx := Conv3(s, w, h, x, y, c, SobelX, 3);
      var gy := Conv3(s, w, h, x, y, c, SobelY, 3);
      m.sqrt((gx * gx + gy * gy) as real) / 255.0
  }

  lemma {:induction false} EdgeStrengthIs(s: seq<int>, w: int, h: int, x: int, y: int, c: int, m: MathLib)
    requires Shaped(s, w, h) && 0 <= c < 4
    ensures EdgeStrength(s, w, h, x, y, c, m)
         == if x <= 0 || x >= w - 1 || y <= 0 || y >= h - 1 then 0.0
            else
              var gx := Conv3(s, w, h, x, y, c, SobelX, 3);
              var gy := Conv3(s, w, h, x, y, c, SobelY, 3);
              m.sqrt((gx * gx + gy * gy) as real) / 255.0
  {
    assert EdgeStrengthAt(s, w, h, x, y, c, m, 1) == EdgeStrengthAt(s, w, h, x, y, c, m, 0);
  }

  /** The loop form of `calculateEdgeStrength`, accumulating gx and gy cell by cell. */
  method CalculateEdgeStrength(data: seq<int>, x: int, y: int, w: int, h: int, c: int, m: MathLib)
    returns (e: real)
    requires Shaped(data, w, h) && 0 <= c < 4
    ensures e == EdgeStrength(data, w, h, x, y, c, m)
  {
    EdgeStrengthIs(data, w, h, x, y, c, m);
    if x <= 0 || x >= w - 1 || y <= 0 || y >= h - 1 {
      return 0.0;
    }
    var gx, gy := 0, 0;
    var dy := -1;
    while dy <= 1
      invariant -1 <= dy <= 2
      invariant gx == Conv3(data, w, h, x, y, c, SobelX, dy + 1)
      invariant gy == Conv3(data, w, h, x, y, c, SobelY, dy + 1)
    {
      gx, gy := SobelRow(data, x, y, w, h, c, dy, gx, gy);
      dy := dy + 1;
    }
    e := m.sqrt((gx * gx + gy * gy) as real) / 255.0;
  }

  /** The inner loop of `calculateEdgeStrength` over row dy of the 3x3 neighbourhood. */
  method SobelRow(data: seq<int>, x: int, y: int, w: int, h: int, c: int, dy: int, gx0: int, gy0: int)
    returns (gx: int, gy: int)
    requires Shaped(data, w, h) && 1 <= x < w - 1 && 1 <= y < h - 1 && 0 <= c < 4 && -1 <= dy <= 1
    ensures gx == gx0 + RowConv(data, w, h, x, y, c, SobelX, dy + 1, 3)
    ensures gy == gy0 + RowConv(data, w, h, x, y, c, SobelY, dy + 1, 3)
  {
    gx, gy := gx0, gy0;
    var dx := -1;
    while dx <= 1
      invariant -1 <= dx <= 2
      invariant gx == gx0 + RowConv(data, w, h, x, y, c, SobelX, dy + 1, dx + 1)
      invariant gy == gy0 + RowConv(data, w, h, x, y, c, SobelY, dy + 1, dx + 1)
    {
      IdxCoords(w, h, x + dx, y + dy, c);
      var value := data[Idx(w, x + dx, y + dy, c)];
      gx := gx + value * SobelX[dy + 1][dx + 1];
      gy := gy + value * SobelY[dy + 1][dx + 1];
      dx := dx + 1;
    }
  }

  /** The 3x3 patch of channel c around (x, y) is a single value. */
  predicate FlatPatch(s: seq<int>, w: int, h: int, x: int, y: int, c: int)
    requires Shaped(s, w, h) && 1 <= x < w - 1 && 1 <= y < h - 1 && 0 <= c < 4
  {
    forall nx, ny | x - 1 <= nx <= x + 1 && y - 1 <= ny <= y + 1 :: At(s, w, h, nx, ny, c) == At(s, w, h, x, y, c)
  }

  /** Sum of the first n weights of row j of a kernel. */
  function RowWeight(k: seq<seq<int>>, j: int, n: int): int
    requires Kernel3(k) && 0 <= j < 3 && 0 <= n <= 3
  {
    if n == 0 then 0 else RowWeight(k, j, n - 1) + k[j][n - 1]
  }

  /** Sum of the weights of the first m rows of a kernel. */
  function KernelSum(k: seq<seq<int>>, m: int): int
    requires Kernel3(k) && 0 <= m <= 3
  {
    if m == 0 then 0 else KernelSum(k, m - 1) + RowWeight(k, m - 1, 3)
  }

  lemma {:induction false} RowConvFlat(s: seq<int>, w: int, h: int, x: int, y: int, c: int, k: seq<seq<int>>, j: int, n: int)
    requires Shaped(s, w, h) && 1 <= x < w - 1 && 1 <= y < h - 1 && 0 <= c < 4
    requires Kernel3(k) && 0 <= j < 3 && 0 <= n <= 3 && FlatPatch(s, w, h, x, y, c)
    ensures RowConv(s, w, h, x, y, c, k, j, n) == At(s, w, h, x, y, c) * RowWeight(k, j, n)
  {
    if n > 0 {
      RowConvFlat(s, w, h, x, y, c, k, j, n - 1);
      assert At(s, w, h, x + n - 2, y + j - 1, c) == At(s, w, h, x, y, c);
    }
  }

  lemma {:induction false} Conv3Flat(s: seq<int>, w: int, h: int, x: int, y: int, c: int, k: seq<seq<int>>, m: int)
    requires Shaped(s, w, h) && 1 <= x < w - 1 && 1 <= y < h - 1 && 0 <= c < 4
    requires Kernel3(k) && 0 <= m <= 3 && FlatPatch(s, w, h, x, y, c)
    ensures Conv3(s, w, h, x, y, c, k, m) == At(s, w, h, x, y, c) * KernelSum(k, m)
  {
    if m > 0 {
      Conv3Flat(s, w, h, x, y, c, k, m - 1);
      RowConvFlat(s, w, h, x, y, c, k, m - 1, 3);
    }
  }

  /** Both Sobel kernels sum to zero. */
  lemma {:induction false} SobelKernelsSumToZero()
    ensures KernelSum(SobelX, 3) == 0 && KernelSum(SobelY, 3) == 0
  {
    assert RowWeight(SobelX, 0, 3) == 0 && RowWeight(SobelY, 0, 3) == -4;
    assert RowWeight(SobelX, 1, 3) == 0 && RowWeight(SobelY, 1, 3) == 0;
    assert RowWeight(SobelX, 2, 3) == 0 && RowWeight(SobelY, 2, 3) == 4;
  }

  /** The edge strength is 0 on a constant 3x3 patch and within one pixel of
      the border, and never negative. */
  lemma {:induction false} EdgeStrengthFlat(s: seq<int>, w: int, h: int, x: int, y: int, c: int, m: MathLib)
    requires Shaped(s, w, h) && 0 <= c < 4 && Sound(m)
    requires 1 <= x < w - 1 && 1 <= y < h - 1 ==> FlatPatch(s, w, h, x, y, c)
    ensures EdgeStrength(s, w, h, x, y, c, m) == 0.0
  {
    EdgeStrengthIs(s, w, h, x, y, c, m);
    if 1 <= x < w - 1 && 1 <= y < h - 1 {
      SobelKernelsSumToZero();
      Conv3Flat(s, w, h, x, y, c, SobelX, 3);
      Conv3Flat(s, w, h, x, y, c, SobelY, 3);
    }
  }

  lemma {:induction false} EdgeStrengthNonNegative(s: seq<int>, w: int, h: int, x: int, y: int, c: int, m: MathLib)
    requires Shaped(s, w, h) && 0 <= c < 4 && Sound(m)
    ensures EdgeStrength(s, w, h, x, y, c, m) >= 0.0
  {
    EdgeStrengthIs(s, w, h, x, y, c, m);
    if 1 <= x < w - 1 && 1 <= y < h - 1 {
      var gx := Conv3(s, w, h, x, y, c, SobelX, 3);
      var gy := Conv3(s, w, h, x, y, c, SobelY, 3);
      assert gx * gx + gy * gy >= 0;
    }
  }

  /** In a flat field every 3x3 patch is constant. */
  lemma {:induction false} UniformFlatPatch(s: seq<int>, w: int, h: int, x: int, y: int, c: int)
    requires Shaped(s, w, h) && 1 <= x < w - 1 && 1 <= y < h - 1 && 0 <= c < 4 && Uniform(s)
    ensures FlatPatch(s, w, h, x, y, c)
  {
    forall nx, ny | x - 1 <= nx <= x + 1 && y - 1 <= ny <= y + 1
      ensures At(s, w, h, nx, ny, c) == At(s, w, h, x, y, c)
    {
      IdxCoords(w, h, nx, ny, c);
      IdxCoords(w, h, x, y, c);
    }
  }
}
