/** `applySelectiveMedianFilter`: an impulse-noise filter. A colour sample of
    an interior pixel whose value deviates from the mean of its eight
    neighbours by more than `20 + 30 i` is pulled towards the median of its
    3x3 neighbourhood, the more so the larger the deviation. All decisions
    read a snapshot taken before the pass; the writes go to the buffer. */
module SelectiveMedian {
  import opened Raster
  import opened JsNumbers
  import opened Stats
  import opened Neighbourhood

  /** The deviation above which a sample counts as noise. */
  function Threshold(d: real): real { 20.0 + d * 30.0 }

  /** The first n samples of row j of the 3x3 neighbourhood of (x, y), left to right. */
  function RowCells(s: seq<int>, w: int, h: int, x: int, y: int, c: int, j: int, n: int): (r: seq<int>)
    requires Shaped(s, w, h) && 1 <= x < w - 1 && 1 <= y < h - 1 && 0 <= c < 4
    requires 0 <= j < 3 && 0 <= n <= 3
    ensures |r| == n
  {
    if n == 0 then [] else RowCells(s, w, h, x, y, c, j, n - 1) + [At(s, w, h, x + n - 2, y + j - 1, c)]
  }

  /** The first m rows of the neighbourhood, in the order the filter pushes them. */
  function Cells(s: seq<int>, w: int, h: int, x: int, y: int, c: int, m: int): (r: seq<int>)
    requires Shaped(s, w, h) && 1 <= x < w - 1 && 1 <= y < h - 1 && 0 <= c < 4
    requires 0 <= m <= 3
    ensures |r| == 3 * m
  {
    if m == 0 then [] else Cells(s, w, h, x, y, c, m - 1) + RowCells(s, w, h, x, y, c, m - 1, 3)
  }

  /** Sum of the first n samples of row j, leaving out the centre pixel. */
  function RowNeighbourSum(s: seq<int>, w: int, h: int, x: int, y: int, c: int, j: int, n: int): int
    requires Shaped(s, w, h) && 1 <= x < w - 1 && 1 <= y < h - 1 && 0 <= c < 4
    requires 0 <= j < 3 && 0 <= n <= 3
  {
    if n == 0 then 0
    else RowNeighbourSum(s, w, h, x, y, c, j, n - 1) + (if j == 1 && n == 2 then 0 else At(s, w, h, x + n - 2, y + j - 1, c))
  }

  /** Sum of the eight neighbours in the first m rows. */
  function NeighbourSum(s: seq<int>, w: int, h: int, x: int, y: int, c: int, m: int): int
    requires Shaped(s, w, h) && 1 <= x < w - 1 && 1 <= y < h - 1 && 0 <= c < 4
    requires 0 <= m <= 3
  {
    if m == 0 then 0 else NeighbourSum(s, w, h, x, y, c, m - 1) + RowNeighbourSum(s, w, h, x, y, c, m - 1, 3)
  }

  /** Distance of the centre sample from the mean of its eight neighbours. */
  function Deviation(s: seq<int>, w: int, h: int, x: int, y: int, c: int): (r: real)
    requires Shaped(s, w, h) && 1 <= x < w - 1 && 1 <= y < h - 1 && 0 <= c < 4
    ensures r >= 0.0
  {
    AbsR(At(s, w, h, x, y, c) as real - NeighbourSum(s, w, h, x, y, c, 3) as real / 8.0)
  }

  /** The filter's noise test. */
  predicate Noisy(s: seq<int>, w: int, h: int, x: int, y: int, c: int, d: real)
    requires Shaped(s, w, h) && 1 <= x < w - 1 && 1 <= y < h - 1 && 0 <= c < 4
  {
    Deviation(s, w, h, x, y, c) > Threshold(d)
  }

  /** `values[Math.floor(values.length / 2)]` after the numeric sort. */
  function MedianOf(s: seq<int>, w: int, h: int, x: int, y: int, c: int): int
    requires Shaped(s, w, h) && 1 <= x < w - 1 && 1 <= y < h - 1 && 0 <= c < 4
  {
    Sort(Cells(s, w, h, x, y, c, 3))[4]
  }

  /** How far towards the median a noisy sample is pulled. */
  function BlendFactor(deviation: real, d: real): real
    requires Threshold(d) > 0.0
  {
    MinR(1.0, deviation / (Threshold(d) * 2.0)) * d
  }

  /** `u * (1 - b) + v * b`. */
  function Mix(u: int, v: int, b: real): real
  {
    u as real * (1.0 - b) + v as real * b
  }

  /** The byte stored for a noisy sample. */
  function Repaired(s: seq<int>, w: int, h: int, x: int, y: int, c: int, d: real): int
    requires Shaped(s, w, h) && 1 <= x < w - 1 && 1 <= y < h - 1 && 0 <= c < 4 && Threshold(d) > 0.0
  {
    RoundStore(Mix(At(s, w, h, x, y, c), MedianOf(s, w, h, x, y, c), BlendFactor(Deviation(s, w, h, x, y, c), d)))
  }

  /** The value sample c of interior pixel (x, y) ends up with. */
  function MedianAt(s: seq<int>, w: int, h: int, x: int, y: int, c: int, d: real): int
    requires Shaped(s, w, h) && 1 <= x < w - 1 && 1 <= y < h - 1 && 0 <= c < 4 && Threshold(d) > 0.0
  {
    if Noisy(s, w, h, x, y, c, d) then Repaired(s, w, h, x, y, c, d) else At(s, w, h, x, y, c)
  }

  /** The buffer after the filter. */
  function MedianPass(s: seq<int>, w: int, h: int, d: real): (r: seq<int>)
    requires Shaped(s, w, h) && Threshold(d) > 0.0
    ensures FramedBy(s, r, w, h, 1)
  {
    seq(|s|, k requires 0 <= k < |s| =>
      if Interior(w, h, 1, k) then
        CoordsOf(w, h, k);
        MedianAt(s, w, h, Col(w, k), Row(w, k), Chan(k), d)
      else s[k])
  }

  lemma {:induction false} MedianPassAt(s: seq<int>, w: int, h: int, d: real, x: int, y: int, c: int)
    requires Shaped(s, w, h) && Threshold(d) > 0.0 && 1 <= x < w - 1 && 1 <= y < h - 1 && 0 <= c < 3
    ensures 0 <= Idx(w, x, y, c) < |s|
    ensures MedianPass(s, w, h, d)[Idx(w, x, y, c)] == MedianAt(s, w, h, x, y, c, d)
  {
    IdxCoords(w, h, x, y, c);
  }

  /** The neighbour loops: the sum of the eight neighbours and their count. */
  method NeighbourTotal(original: seq<int>, x: int, y: int, w: int, h: int, c: int)
    returns (neighborSum: int, neighborCount: int)
    requires Shaped(original, w, h) && 1 <= x < w - 1 && 1 <= y < h - 1 && 0 <= c < 4
    ensures neighborSum == NeighbourSum(original, w, h, x, y, c, 3) && neighborCount == 8
  {
    neighborSum, neighborCount := 0, 0;
    var dy := -1;
    while dy <= 1
      invariant -1 <= dy <= 2
      invariant neighborSum == NeighbourSum(original, w, h, x, y, c, dy + 1)
      invariant neighborCount == 3 * (dy + 1) - (if dy >= 1 then 1 else 0)
    {
      neighborSum, neighborCount := NeighbourRow(original, x, y, w, h, c, dy, neighborSum, neighborCount);
      dy := dy + 1;
    }
  }

  /** The innermost neighbour loop over row dy, skipping the centre pixel. */
  method NeighbourRow(original: seq<int>, x: int, y: int, w: int, h: int, c: int, dy: int, sum0: int, count0: int)
    returns (neighborSum: int, neighborCount: int)
    requires Shaped(original, w, h) && 1 <= x < w - 1 && 1 <= y < h - 1 && 0 <= c < 4 && -1 <= dy <= 1
    ensures neighborSum == sum0 + RowNeighbourSum(original, w, h, x, y, c, dy + 1, 3)
    ensures neighborCount == count0 + (if dy == 0 then 2 else 3)
  {
    neighborSum, neighborCount := sum0, count0;
    var dx := -1;
    while dx <= 1
      invariant -1 <= dx <= 2
      invariant neighborSum == sum0 + RowNeighbourSum(original, w, h, x, y, c, dy + 1, dx + 1)
      invariant neighborCount == count0 + (dx + 1) - (if dy == 0 && dx >= 1 then 1 else 0)
    {
      if dx != 0 || dy != 0 {
        IdxCoords(w, h, x + dx, y + dy, c);
        neighborSum := neighborSum + original[Idx(w, x + dx, y + dy, c)];
        neighborCount := neighborCount + 1;
      }
      dx := dx + 1;
    }
  }

  /** The loops that push the nine samples of the neighbourhood. */
  method GatherWindow(original: seq<int>, x: int, y: int, w: int, h: int, c: int) returns (values: seq<int>)
    requires Shaped(original, w, h) && 1 <= x < w - 1 && 1 <= y < h - 1 && 0 <= c < 4
    ensures values == Cells(original, w, h, x, y, c, 3)
  {
    values := [];
    var dy := -1;
    while dy <= 1
      invariant -1 <= dy <= 2
      invariant values == Cells(original, w, h, x, y, c, dy + 1)
    {
      values := GatherRow(original, x, y, w, h, c, dy, values);
      dy := dy + 1;
    }
  }

  /** The innermost push loop over row dy. */
  method GatherRow(original: seq<int>, x: int, y: int, w: int, h: int, c: int, dy: int, values0: seq<int>)
    returns (values: seq<int>)
    requires Shaped(original, w, h) && 1 <= x < w - 1 && 1 <= y < h - 1 && 0 <= c < 4 && -1 <= dy <= 1
    ensures values == values0 + RowCells(original, w, h, x, y, c, dy + 1, 3)
  {
    values := values0;
    var dx := -1;
    while dx <= 1
      invariant -1 <= dx <= 2
      invariant values == values0 + RowCells(original, w, h, x, y, c, dy + 1, dx + 1)
    {
      IdxCoords(w, h, x + dx, y + dy, c);
      values := values + [original[Idx(w, x + dx, y + dy, c)]];
      dx := dx + 1;
    }
  }

  /** The noise test of one sample and, when it fires, the repaired byte. */
  method MedianSample(original: seq<int>, x: int, y: int, w: int, h: int, c: int, intensity: real)
    returns (noisy: bool, value: int)
    requires Shaped(original, w, h) && 1 <= x < w - 1 && 1 <= y < h - 1 && 0 <= c < 4 && Threshold(intensity) > 0.0
    ensures noisy == Noisy(original, w, h, x, y, c, intensity)
    ensures noisy ==> value == Repaired(original, w, h, x, y, c, intensity)
  {
    var threshold := Threshold(intensity);
    IdxCoords(w, h, x, y, c);
    var centerValue := original[Idx(w, x, y, c)];
    var neighborSum, neighborCount := NeighbourTotal(original, x, y, w, h, c);
    var neighborAvg := neighborSum as real / neighborCount as real;
    var deviation := AbsR(centerValue as real - neighborAvg);
    assert deviation == Deviation(original, w, h, x, y, c);
    noisy := deviation > threshold;
    value := centerValue;
    if noisy {
      var median := WindowMedian(original, x, y, w, h, c);
      var blendFactor := MinR(1.0, deviation / (threshold * 2.0)) * intensity;
      assert blendFactor == BlendFactor(deviation, intensity);
      value := RoundStore(Mix(centerValue, median, blendFactor));
    }
  }

  /** The median of the 3x3 window: its nine samples, sorted, at index 4. */
  method WindowMedian(original: seq<int>, x: int, y: int, w: int, h: int, c: int) returns (median: int)
    requires Shaped(original, w, h) && 1 <= x < w - 1 && 1 <= y < h - 1 && 0 <= c < 4
    ensures median == MedianOf(original, w, h, x, y, c)
  {
    var values := GatherWindow(original, x, y, w, h, c);
    values := Sort(values);
    median := values[|values| / 2];
  }

  /** `applySelectiveMedianFilter`: a scan of the interior that reads a
      snapshot of the buffer and rewrites only the samples found noisy. */
  method ApplySelectiveMedianFilter(data: array<int>, w: int, h: int, intensity: real)
    requires Shaped(data[..], w, h) && Threshold(intensity) > 0.0
    modifies data
    ensures data[..] == MedianPass(old(data[..]), w, h, intensity)
  {
    var originalData := data[..];
    ghost var tgt := MedianPass(originalData, w, h, intensity);
    SweepStart(originalData, tgt, w, h, 1);
    var y := 1;
    while y < h - 1
      invariant 1 <= y <= MaxI(1, h - 1)
      invariant SweptTo(data[..], originalData, tgt, w, y, 1, 0)
    {
      var x := 1;
      while x < w - 1
        invariant 1 <= x <= MaxI(1, w - 1)
        invariant SweptTo(data[..], originalData, tgt, w, y, x, 0)
      {
        var c := 0;
        while c < 3
          invariant 0 <= c <= 3
          invariant SweptTo(data[..], originalData, tgt, w, y, x, c)
        {
          MedianPassAt(originalData, w, h, intensity, x, y, c);
          SweepWrite(data[..], originalData, tgt, w, h, x, y, c);
          var centerPixel := Idx(w, x, y, c);
          var noisy, value := MedianSample(originalData, x, y, w, h, c, intensity);
          if noisy {
            data[centerPixel] := value;
          } else {
            assert data[..] == data[..][centerPixel := tgt[centerPixel]];
          }
          c := c + 1;
        }
        SweepNextPixel(data[..], originalData, tgt, w, h, 1, x, y);
        x := x + 1;
      }
      SweepNextRow(data[..], originalData, tgt, w, h, 1, x, y);
      y := y + 1;
    }
    SweepEnd(data[..], originalData, tgt, w, h, 1, y);
  }

  /** The nine samples in the order the filter pushes them; the centre is the fifth. */
  lemma {:induction false} CellsLayout(s: seq<int>, w: int, h: int, x: int, y: int, c: int)
    requires Shaped(s, w, h) && 1 <= x < w - 1 && 1 <= y < h - 1 && 0 <= c < 4
    ensures Cells(s, w, h, x, y, c, 3) ==
      [At(s, w, h, x - 1, y - 1, c), At(s, w, h, x, y - 1, c), At(s, w, h, x + 1, y - 1, c),
       At(s, w, h, x - 1, y, c), At(s, w, h, x, y, c), At(s, w, h, x + 1, y, c),
       At(s, w, h, x - 1, y + 1, c), At(s, w, h, x, y + 1, c), At(s, w, h, x + 1, y + 1, c)]
  {
    forall j | 0 <= j < 3
      ensures RowCells(s, w, h, x, y, c, j, 3) == [At(s, w, h, x - 1, y + j - 1, c), At(s, w, h, x, y + j - 1, c), At(s, w, h, x + 1, y + j - 1, c)]
    {
      assert RowCells(s, w, h, x, y, c, j, 1) == [At(s, w, h, x - 1, y + j - 1, c)];
      assert RowCells(s, w, h, x, y, c, j, 2) == [At(s, w, h, x - 1, y + j - 1, c), At(s, w, h, x, y + j - 1, c)];
    }
    assert Cells(s, w, h, x, y, c, 1) == RowCells(s, w, h, x, y, c, 0, 3);
    assert Cells(s, w, h, x, y, c, 2) == RowCells(s, w, h, x, y, c, 0, 3) + RowCells(s, w, h, x, y, c, 1, 3);
  }

  /** The neighbour sum is the sum of the eight samples around the centre. */
  lemma {:induction false} NeighbourSumLayout(s: seq<int>, w: int, h: int, x: int, y: int, c: int)
    requires Shaped(s, w, h) && 1 <= x < w - 1 && 1 <= y < h - 1 && 0 <= c < 4
    ensures NeighbourSum(s, w, h, x, y, c, 3) ==
      At(s, w, h, x - 1, y - 1, c) + At(s, w, h, x, y - 1, c) + At(s, w, h, x + 1, y - 1, c) +
      At(s, w, h, x - 1, y, c) + At(s, w, h, x + 1, y, c) +
      At(s, w, h, x - 1, y + 1, c) + At(s, w, h, x, y + 1, c) + At(s, w, h, x + 1, y + 1, c)
  {
    forall j | 0 <= j < 3
      ensures RowNeighbourSum(s, w, h, x, y, c, j, 2) == At(s, w, h, x - 1, y + j - 1, c) + (if j == 1 then 0 else At(s, w, h, x, y + j - 1, c))
    {
      assert RowNeighbourSum(s, w, h, x, y, c, j, 1) == At(s, w, h, x - 1, y + j - 1, c);
    }
    assert RowNeighbourSum(s, w, h, x, y, c, 0, 3) == At(s, w, h, x - 1, y - 1, c) + At(s, w, h, x, y - 1, c) + At(s, w, h, x + 1, y - 1, c);
    assert RowNeighbourSum(s, w, h, x, y, c, 1, 3) == At(s, w, h, x - 1, y, c) + At(s, w, h, x + 1, y, c);
    assert RowNeighbourSum(s, w, h, x, y, c, 2, 3) == At(s, w, h, x - 1, y + 1, c) + At(s, w, h, x, y + 1, c) + At(s, w, h, x + 1, y + 1, c);
    assert NeighbourSum(s, w, h, x, y, c, 1) == RowNeighbourSum(s, w, h, x, y, c, 0, 3);
    assert NeighbourSum(s, w, h, x, y, c, 2) == RowNeighbourSum(s, w, h, x, y, c, 0, 3) + RowNeighbourSum(s, w, h, x, y, c, 1, 3);
  }

  /** The value the filter picks is a true median of the nine samples: one of
      them, with at least five samples at most it and at least five at least it. */
  lemma {:induction false} MedianOfRank(s: seq<int>, w: int, h: int, x: int, y: int, c: int)
    requires Shaped(s, w, h) && 1 <= x < w - 1 && 1 <= y < h - 1 && 0 <= c < 4
    ensures MedianOf(s, w, h, x, y, c) in multiset(Cells(s, w, h, x, y, c, 3))
    ensures CountAtMost(Cells(s, w, h, x, y, c, 3), MedianOf(s, w, h, x, y, c)) >= 5
    ensures CountAtLeast(Cells(s, w, h, x, y, c, 3), MedianOf(s, w, h, x, y, c)) >= 5
  {
    MedianRank(Cells(s, w, h, x, y, c, 3));
  }

  /** A sample on a flat 3x3 patch is never taken for noise and keeps its value. */
  lemma {:induction false} FlatPatchKept(s: seq<int>, w: int, h: int, x: int, y: int, c: int, d: real)
    requires Shaped(s, w, h) && 1 <= x < w - 1 && 1 <= y < h - 1 && 0 <= c < 4 && Threshold(d) > 0.0
    requires FlatPatch(s, w, h, x, y, c)
    ensures Deviation(s, w, h, x, y, c) == 0.0
    ensures MedianAt(s, w, h, x, y, c, d) == At(s, w, h, x, y, c)
  {
    NeighbourSumLayout(s, w, h, x, y, c);
    assert At(s, w, h, x - 1, y - 1, c) == At(s, w, h, x, y, c);
    assert At(s, w, h, x, y - 1, c) == At(s, w, h, x, y, c);
    assert At(s, w, h, x + 1, y - 1, c) == At(s, w, h, x, y, c);
    assert At(s, w, h, x - 1, y, c) == At(s, w, h, x, y, c);
    assert At(s, w, h, x + 1, y, c) == At(s, w, h, x, y, c);
    assert At(s, w, h, x - 1, y + 1, c) == At(s, w, h, x, y, c);
    assert At(s, w, h, x, y + 1, c) == At(s, w, h, x, y, c);
    assert At(s, w, h, x + 1, y + 1, c) == At(s, w, h, x, y, c);
  }

  /** A flat field is a fixed point of the filter. */
  lemma {:induction false} MedianUniform(s: seq<int>, w: int, h: int, d: real)
    requires Shaped(s, w, h) && Uniform(s) && Threshold(d) > 0.0
    ensures MedianPass(s, w, h, d) == s
  {
    var r := MedianPass(s, w, h, d);
    forall k | 0 <= k < |s| && Interior(w, h, 1, k)
      ensures r[k] == s[k]
    {
      CoordsOf(w, h, k);
      var x, y, c := Col(w, k), Row(w, k), Chan(k);
      UniformFlatPatch(s, w, h, x, y, c);
      FlatPatchKept(s, w, h, x, y, c, d);
    }
  }

  /** Every sample of the window lies in the range of its channel. */
  lemma {:induction false} CellsBetween(s: seq<int>, w: int, h: int, x: int, y: int, c: int, lo: int, hi: int)
    requires Shaped(s, w, h) && 1 <= x < w - 1 && 1 <= y < h - 1 && 0 <= c < 4 && ChannelBetween(s, c, lo, hi)
    ensures forall i | 0 <= i < 9 :: lo <= Cells(s, w, h, x, y, c, 3)[i] <= hi
  {
    CellsLayout(s, w, h, x, y, c);
    forall nx, ny | x - 1 <= nx <= x + 1 && y - 1 <= ny <= y + 1
      ensures lo <= At(s, w, h, nx, ny, c) <= hi
    {
      AtBetween(s, w, h, nx, ny, c, lo, hi);
    }
  }

  /** `u * (1 - b) + v * b` lies between u and v when 0 <= b <= 1. */
  lemma {:induction false} MixBetween(u: int, v: int, b: real)
    requires 0.0 <= b <= 1.0
    ensures MinI(u, v) as real <= Mix(u, v, b) <= MaxI(u, v) as real
  {
    var f := v as real - u as real;
    assert Mix(u, v, b) == u as real + b * f;
    if u <= v {
      ScaleMonotone(0.0, b, f);
      ScaleMonotone(b, 1.0, f);
      assert 0.0 <= b * f <= f;
    } else {
      ScaleMonotone(0.0, b, -f);
      ScaleMonotone(b, 1.0, -f);
      assert b * -f == -(b * f);
    }
  }

  /** At intensities up to 1 the blend factor is a proportion. */
  lemma {:induction false} BlendFactorProportion(deviation: real, d: real)
    requires deviation >= 0.0 && 0.0 < d <= 1.0
    ensures 0.0 <= BlendFactor(deviation, d) <= d
  {
    var q := MinR(1.0, deviation / (Threshold(d) * 2.0));
    QuotientNonNegative(deviation, Threshold(d) * 2.0);
    assert 0.0 <= q <= 1.0;
    ScaleMonotone(0.0, q, d);
    ScaleMonotone(q, 1.0, d);
    assert q * d <= d;
    assert BlendFactor(deviation, d) == q * d;
  }

  /** With intensity at most 1 a repaired sample lies between its old value
      and the median of its window: the filter only ever moves a sample
      towards the median, and the median lies in the range of its channel. */
  lemma {:induction false} RepairedBetween(s: seq<int>, w: int, h: int, x: int, y: int, c: int, d: real, lo: int, hi: int)
    requires Shaped(s, w, h) && 1 <= x < w - 1 && 1 <= y < h - 1 && 0 <= c < 4
    requires 0 <= lo <= hi <= 255 && ChannelBetween(s, c, lo, hi) && 0.0 < d <= 1.0
    ensures lo <= MedianOf(s, w, h, x, y, c) <= hi
    ensures MinI(At(s, w, h, x, y, c), MedianOf(s, w, h, x, y, c)) <= Repaired(s, w, h, x, y, c, d)
    ensures Repaired(s, w, h, x, y, c, d) <= MaxI(At(s, w, h, x, y, c), MedianOf(s, w, h, x, y, c))
  {
    var u, med := At(s, w, h, x, y, c), MedianOf(s, w, h, x, y, c);
    var cells := Cells(s, w, h, x, y, c, 3);
    MedianOfRank(s, w, h, x, y, c);
    CellsBetween(s, w, h, x, y, c, lo, hi);
    var i :| 0 <= i < 9 && cells[i] == med;
    AtBetween(s, w, h, x, y, c, lo, hi);
    var b := BlendFactor(Deviation(s, w, h, x, y, c), d);
    BlendFactorProportion(Deviation(s, w, h, x, y, c), d);
    MixBetween(u, med, b);
    RoundStoreBetween(MinI(u, med), MaxI(u, med), Mix(u, med, b));
  }

  /** Maximum principle for the pass: with intensity at most 1 a channel whose
      samples lie in [lo, hi] before the pass still does afterwards. */
  lemma {:induction false} MedianPassWithin(s: seq<int>, w: int, h: int, d: real, c: int, lo: int, hi: int)
    requires Shaped(s, w, h) && 0.0 < d <= 1.0 && 0 <= c < 4
    requires 0 <= lo <= hi <= 255 && ChannelBetween(s, c, lo, hi)
    ensures ChannelBetween(MedianPass(s, w, h, d), c, lo, hi)
  {
    var r := MedianPass(s, w, h, d);
    forall k | 0 <= k < |r| && Chan(k) == c
      ensures lo <= r[k] <= hi
    {
      if Interior(w, h, 1, k) {
        CoordsOf(w, h, k);
        var x, y := Col(w, k), Row(w, k);
        AtBetween(s, w, h, x, y, c, lo, hi);
        if Noisy(s, w, h, x, y, c, d) {
          RepairedBetween(s, w, h, x, y, c, d, lo, hi);
        }
      }
    }
  }

  /** The filter keeps a sample or writes a stored byte, so a byte buffer
      stays one at any intensity. */
  lemma {:induction false} MedianPassBytes(s: seq<int>, w: int, h: int, d: real)
    requires Shaped(s, w, h) && Threshold(d) > 0.0 && ByteRange(s)
    ensures ByteRange(MedianPass(s, w, h, d))
  {
    var r := MedianPass(s, w, h, d);
    forall k | 0 <= k < |r|
      ensures 0 <= r[k] <= 255
    {
      if Interior(w, h, 1, k) {
        CoordsOf(w, h, k);
        var x, y := Col(w, k), Row(w, k);
        IdxCoords(w, h, x, y, Chan(k));
        assert r[k] == MedianAt(s, w, h, x, y, Chan(k), d);
      }
    }
  }

  /** Every neighbour of (x, y) in channel c has the value v. */
  predicate Surrounded(s: seq<int>, w: int, h: int, x: int, y: int, c: int, v: int)
    requires Shaped(s, w, h) && 1 <= x < w - 1 && 1 <= y < h - 1 && 0 <= c < 4
  {
    forall nx, ny | x - 1 <= nx <= x + 1 && y - 1 <= ny <= y + 1 && (nx != x || ny != y) :: At(s, w, h, nx, ny, c) == v
  }

  /** The median of the window of an isolated impulse is the surrounding value. */
  lemma {:induction false} ImpulseMedian(s: seq<int>, w: int, h: int, x: int, y: int, c: int, v: int)
    requires Shaped(s, w, h) && 1 <= x < w - 1 && 1 <= y < h - 1 && 0 <= c < 4 && Surrounded(s, w, h, x, y, c, v)
    ensures MedianOf(s, w, h, x, y, c) == v
  {
    CellsLayout(s, w, h, x, y, c);
    var cells := Cells(s, w, h, x, y, c, 3);
    forall i | 0 <= i < 9 && i != 4
      ensures cells[i] == v
    {
      assert At(s, w, h, x - 1, y - 1, c) == v && At(s, w, h, x, y - 1, c) == v && At(s, w, h, x + 1, y - 1, c) == v;
      assert At(s, w, h, x - 1, y, c) == v && At(s, w, h, x + 1, y, c) == v;
      assert At(s, w, h, x - 1, y + 1, c) == v && At(s, w, h, x, y + 1, c) == v && At(s, w, h, x + 1, y + 1, c) == v;
    }
    OutlierIgnored(cells, 4, v);
  }

  /** The deviation of an isolated impulse is its distance from the surrounding value. */
  lemma {:induction false} ImpulseDeviation(s: seq<int>, w: int, h: int, x: int, y: int, c: int, v: int)
    requires Shaped(s, w, h) && 1 <= x < w - 1 && 1 <= y < h - 1 && 0 <= c < 4 && Surrounded(s, w, h, x, y, c, v)
    ensures Deviation(s, w, h, x, y, c) == AbsR((At(s, w, h, x, y, c) - v) as real)
  {
    NeighbourSumLayout(s, w, h, x, y, c);
    assert At(s, w, h, x - 1, y - 1, c) == v && At(s, w, h, x, y - 1, c) == v && At(s, w, h, x + 1, y - 1, c) == v;
    assert At(s, w, h, x - 1, y, c) == v && At(s, w, h, x + 1, y, c) == v;
    assert At(s, w, h, x - 1, y + 1, c) == v && At(s, w, h, x, y + 1, c) == v && At(s, w, h, x + 1, y + 1, c) == v;
  }

  /** At full intensity an isolated impulse at least 100 away from its
      surroundings is replaced by the surrounding value outright. */
  lemma {:induction false} ImpulseRemoved(s: seq<int>, w: int, h: int, x: int, y: int, c: int, v: int)
    requires Shaped(s, w, h) && 1 <= x < w - 1 && 1 <= y < h - 1 && 0 <= c < 4 && Surrounded(s, w, h, x, y, c, v)
    requires 0 <= v <= 255 && AbsR((At(s, w, h, x, y, c) - v) as real) >= 100.0
    ensures MedianAt(s, w, h, x, y, c, 1.0) == v
  {
    ImpulseMedian(s, w, h, x, y, c, v);
    ImpulseDeviation(s, w, h, x, y, c, v);
    assert BlendFactor(Deviation(s, w, h, x, y, c), 1.0) == 1.0;
    assert Mix(At(s, w, h, x, y, c), v, 1.0) == v as real;
    RoundStoreByte(v);
  }
}
