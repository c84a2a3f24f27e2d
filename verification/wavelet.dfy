/** `applyWaveletDenoising`: a multi-scale soft thresholding. For each scale
    of 2, 4 and 8 that is below a quarter of the smaller side, a copy of the
    buffer (`scaledData`) is rewritten around every grid point (x, y) spaced
    `scale` apart: each colour sample of the window of radius `scale` that lies
    within `threshold = 15 i` of the local mean (taken over a strided sample of
    the same window) is pulled towards that mean by `threshold / 2`, and the
    colour samples of the buffer are then blended with the copy, share
    `0.3 i / 3`. Windows of neighbouring grid points overlap, so a sample of
    the copy holds the value written for the last grid point in scan order
    that wrote it; the specification functions below are written as folds in
    that same order. */
module Wavelet {
  import opened Raster
  import opened JsNumbers
  import opened Smoothing
  import opened Neighbourhood

  /** The scales the pass visits, in order. */
  const Scales: seq<int> := [2, 4, 8]

  function Threshold(d: real): real { d * 15.0 }

  /** `0.3 * intensity / scales.length`: the share of the thresholded copy in the result. */
  function BlendFactor(d: real): real { 0.3 * d / 3.0 }

  /** A scale is skipped when it is at least a quarter of the smaller side. */
  predicate Skipped(w: int, h: int, scale: int)
  {
    scale as real >= MinI(w, h) as real / 4.0
  }

  /** `Math.max(1, scale / 2)`: the stride of the samples the local mean reads. */
  function MeanStride(scale: int): (r: int)
    ensures r >= 1
  {
    MaxI(1, scale / 2)
  }

  /** What the sample at (px, py) adds to the local mean: itself, with weight 1, when it is in the image. */
  function MeanTerm(s: seq<int>, w: int, h: int, px: int, py: int, c: int): Sums
    requires Shaped(s, w, h) && 0 <= c < 4
  {
    if InImage(w, h, px, py) then Term(At(s, w, h, px, py, c), 1.0) else NoSums
  }

  /** The running (`count`, `sum`) after the mean's samples of window row dy
      from column offset dx on are added to `acc`. */
  function MeanRowFrom(acc: Sums, s: seq<int>, w: int, h: int, x: int, y: int, c: int, scale: int, dy: int, dx: int): Sums
    requires Shaped(s, w, h) && 0 <= c < 4
    decreases scale + 1 - dx
  {
    if dx > scale then acc
    else MeanRowFrom(Plus(acc, MeanTerm(s, w, h, x + dx, y + dy, c)), s, w, h, x, y, c, scale, dy, dx + MeanStride(scale))
  }

  /** The running (`count`, `sum`) after the mean's window rows from dy on are added to `acc`. */
  function MeanFrom(acc: Sums, s: seq<int>, w: int, h: int, x: int, y: int, c: int, scale: int, dy: int): Sums
    requires Shaped(s, w, h) && 0 <= c < 4
    decreases scale + 1 - dy
  {
    if dy > scale then acc
    else MeanFrom(MeanRowFrom(acc, s, w, h, x, y, c, scale, dy, -scale), s, w, h, x, y, c, scale, dy + MeanStride(scale))
  }

  /** `count` (as `weight`) and `sum` (as `pixel`) of the local mean around (x, y). */
  function MeanSums(s: seq<int>, w: int, h: int, x: int, y: int, c: int, scale: int): Sums
    requires Shaped(s, w, h) && 0 <= c < 4
  {
    MeanFrom(NoSums, s, w, h, x, y, c, scale, -scale)
  }

  /** `localMean = sum / count` at a grid point; the corner sample (x - scale,
      y - scale) is in the image, so the count is positive. */
  function LocalMean(s: seq<int>, w: int, h: int, x: int, y: int, c: int, scale: int): real
    requires Shaped(s, w, h) && 0 <= c < 4 && scale >= 1 && Inset(w, h, x, y, scale)
  {
    LocalMeanAt(s, w, h, x, y, c, scale, 1)
  }

  /** The definition of LocalMean, reached after `layer` unfoldings, so that
      the mean's sums and division stay out of the proofs that only pass the
      mean on; LocalMeanIs states it. */
  function LocalMeanAt(s: seq<int>, w: int, h: int, x: int, y: int, c: int, scale: int, layer: nat): real
    requires Shaped(s, w, h) && 0 <= c < 4 && scale >= 1 && Inset(w, h, x, y, scale)
    decreases layer
  {
    if layer > 0 then LocalMeanAt(s, w, h, x, y, c, scale, layer - 1)
    else
      MeanCounted(s, w, h, x, y, c, scale);
      MeanSums(s, w, h, x, y, c, scale).pixel / MeanSums(s, w, h, x, y, c, scale).weight
  }

  lemma {:induction false} LocalMeanIs(s: seq<int>, w: int, h: int, x: int, y: int, c: int, scale: int)
    requires Shaped(s, w, h) && 0 <= c < 4 && scale >= 1 && Inset(w, h, x, y, scale)
    ensures MeanSums(s, w, h, x, y, c, scale).weight >= 1.0
    ensures LocalMean(s, w, h, x, y, c, scale) == MeanSums(s, w, h, x, y, c, scale).pixel / MeanSums(s, w, h, x, y, c, scale).weight
  {
    MeanCounted(s, w, h, x, y, c, scale);
    assert LocalMeanAt(s, w, h, x, y, c, scale, 1) == LocalMeanAt(s, w, h, x, y, c, scale, 0);
  }

  /** The soft-threshold test: the sample lies within `thr` of the mean. */
  predicate Shrinks(v: int, mean: real, thr: real)
  {
    AbsR(v as real - mean) < thr
  }

  /** The byte written for sample v: the mean plus the difference shrunk by
      `thr / 2` towards zero (and not past it), with the sign of the difference. */
  function Shrunk(v: int, mean: real, thr: real): int
  {
    var diff := v as real - mean;
    var sign := if diff >= 0.0 then 1.0 else -1.0;
    RoundStore(mean + MaxR(0.0, AbsR(diff) - thr * 0.5) * sign)
  }

  /** The copy `t` after the soft threshold of sample c of (px, py). */
  function ShrinkCell(t: seq<int>, s: seq<int>, w: int, h: int, px: int, py: int, c: int, mean: real, thr: real): (r: seq<int>)
    requires Shaped(s, w, h) && |t| == |s| && 0 <= c < 4
    ensures |r| == |t|
  {
    if InImage(w, h, px, py) && Shrinks(At(s, w, h, px, py, c), mean, thr) then
      IdxCoords(w, h, px, py, c);
      t[Idx(w, px, py, c) := Shrunk(At(s, w, h, px, py, c), mean, thr)]
    else t
  }

  /** The copy after thresholding row dy of the window from column offset dx on. */
  function ShrinkRowFrom(t: seq<int>, s: seq<int>, w: int, h: int, x: int, y: int, c: int, scale: int, mean: real, thr: real,
                         dy: int, dx: int): (r: seq<int>)
    requires Shaped(s, w, h) && |t| == |s| && 0 <= c < 4
    ensures |r| == |t|
    decreases scale + 1 - dx, 2
  {
    ShrinkRowFromAt(t, s, w, h, x, y, c, scale, mean, thr, dy, dx, 1)
  }

  /** The definition of ShrinkRowFrom, reached after `layer` unfoldings, so
      that the loop proofs do not unfold the row at every step;
      ShrinkRowStep states it. */
  function ShrinkRowFromAt(t: seq<int>, s: seq<int>, w: int, h: int, x: int, y: int, c: int, scale: int, mean: real, thr: real,
                           dy: int, dx: int, layer: nat): (r: seq<int>)
    requires Shaped(s, w, h) && |t| == |s| && 0 <= c < 4
    ensures |r| == |t|
    decreases scale + 1 - dx, layer
  {
    if layer > 0 then ShrinkRowFromAt(t, s, w, h, x, y, c, scale, mean, thr, dy, dx, layer - 1)
    else if dx > scale then t
    else ShrinkRowFrom(ShrinkCell(t, s, w, h, x + dx, y + dy, c, mean, thr), s, w, h, x, y, c, scale, mean, thr, dy, dx + 1)
  }

  /** One column of the row: past the window the copy is unchanged, before it
      the cell at column dx is thresholded first. */
  lemma {:induction false} ShrinkRowStep(t: seq<int>, s: seq<int>, w: int, h: int, x: int, y: int, c: int, scale: int, mean: real,
                                         thr: real, dy: int, dx: int)
    requires Shaped(s, w, h) && |t| == |s| && 0 <= c < 4
    ensures dx > scale ==> ShrinkRowFrom(t, s, w, h, x, y, c, scale, mean, thr, dy, dx) == t
    ensures dx <= scale ==>
      ShrinkRowFrom(t, s, w, h, x, y, c, scale, mean, thr, dy, dx)
      == ShrinkRowFrom(ShrinkCell(t, s, w, h, x + dx, y + dy, c, mean, thr), s, w, h, x, y, c, scale, mean, thr, dy, dx + 1)
  {
    assert ShrinkRowFromAt(t, s, w, h, x, y, c, scale, mean, thr, dy, dx, 1) == ShrinkRowFromAt(t, s, w, h, x, y, c, scale, mean, thr, dy, dx, 0);
  }

  /** The copy after thresholding the window rows from dy on. */
  function ShrinkFrom(t: seq<int>, s: seq<int>, w: int, h: int, x: int, y: int, c: int, scale: int, mean: real, thr: real,
                      dy: int): (r: seq<int>)
    requires Shaped(s, w, h) && |t| == |s| && 0 <= c < 4
    ensures |r| == |t|
    decreases scale + 1 - dy
  {
    if dy > scale then t
    else ShrinkFrom(ShrinkRowFrom(t, s, w, h, x, y, c, scale, mean, thr, dy, -scale), s, w, h, x, y, c, scale, mean, thr, dy + 1)
  }

  /** The copy after channel c of grid point (x, y) is thresholded around
      that channel's local mean. Each `layer` puts one more unfolding step in
      front of the definition, so that the verifier, unfolding a fold over
      grid points, stops short of the window and the mean; `ChannelPassIs`
      states the definition. */
  function ChannelPass(t: seq<int>, s: seq<int>, w: int, h: int, x: int, y: int, scale: int, thr: real, c: int,
                       layer: nat): (r: seq<int>)
    requires Shaped(s, w, h) && |t| == |s| && scale >= 1 && Inset(w, h, x, y, scale) && 0 <= c < 4
    ensures |r| == |t|
  {
    if layer == 0 then ShrinkFrom(t, s, w, h, x, y, c, scale, LocalMean(s, w, h, x, y, c, scale), thr, -scale)
    else ChannelPass(t, s, w, h, x, y, scale, thr, c, layer - 1)
  }

  lemma {:induction false} ChannelPassIs(t: seq<int>, s: seq<int>, w: int, h: int, x: int, y: int, scale: int, thr: real, c: int)
    requires Shaped(s, w, h) && |t| == |s| && scale >= 1 && Inset(w, h, x, y, scale) && 0 <= c < 4
    ensures ChannelPass(t, s, w, h, x, y, scale, thr, c, 1)
         == ShrinkFrom(t, s, w, h, x, y, c, scale, LocalMean(s, w, h, x, y, c, scale), thr, -scale)
  {
    assert ChannelPass(t, s, w, h, x, y, scale, thr, c, 1) == ChannelPass(t, s, w, h, x, y, scale, thr, c, 0);
  }

  /** The copy after the colour channels from c on of the grid point (x, y). */
  function ChannelsFrom(t: seq<int>, s: seq<int>, w: int, h: int, x: int, y: int, scale: int, thr: real, c: int): (r: seq<int>)
    requires Shaped(s, w, h) && |t| == |s| && scale >= 1 && Inset(w, h, x, y, scale) && 0 <= c
    ensures |r| == |t|
    decreases 3 - c
  {
    if c >= 3 then t
    else ChannelsFrom(ChannelPass(t, s, w, h, x, y, scale, thr, c, 1), s, w, h, x, y, scale, thr, c + 1)
  }

  /** The copy after the grid points of row y from column x on. */
  function GridRowFrom(t: seq<int>, s: seq<int>, w: int, h: int, y: int, scale: int, thr: real, x: int): (r: seq<int>)
    requires Shaped(s, w, h) && |t| == |s| && scale >= 1 && scale <= y < h - scale && scale <= x
    ensures |r| == |t|
    decreases w - x
  {
    if x >= w - scale then t
    else GridRowFrom(ChannelsFrom(t, s, w, h, x, y, scale, thr, 0), s, w, h, y, scale, thr, x + scale)
  }

  /** The copy after the grid rows from y on. */
  function GridFrom(t: seq<int>, s: seq<int>, w: int, h: int, scale: int, thr: real, y: int): (r: seq<int>)
    requires Shaped(s, w, h) && |t| == |s| && scale >= 1 && scale <= y
    ensures |r| == |t|
    decreases h - y
  {
    if y >= h - scale then t
    else GridFrom(GridRowFrom(t, s, w, h, y, scale, thr, scale), s, w, h, scale, thr, y + scale)
  }

  /** `scaledData` once every grid point of the scale is done; it starts as a copy of `s`. */
  function Scaled(s: seq<int>, w: int, h: int, scale: int, thr: real): (r: seq<int>)
    requires Shaped(s, w, h) && scale >= 1
    ensures |r| == |s|
  {
    GridFrom(s, s, w, h, scale, thr, scale)
  }

  /** The blend loop: every colour sample becomes `s * (1 - b) + t * b`,
      rounded and stored; alpha is left alone. */
  function BlendPass(s: seq<int>, t: seq<int>, b: real): (r: seq<int>)
    requires |t| == |s|
    ensures |r| == |s|
    ensures forall k | 0 <= k < |s| && IsAlpha(k) :: r[k] == s[k]
  {
    ZipColour(s, t, BlendStore(b))
  }

  /** The byte stored for sample v blended with u, share b of u. */
  function BlendStore(b: real): (int, int) -> int
  {
    (v, u) => RoundStore(Blend(v, u as real, b, 1.0))
  }

  /** `s` with `f` of its colour samples and the matching samples of `t`; alpha kept. */
  function ZipColour(s: seq<int>, t: seq<int>, f: (int, int) -> int): (r: seq<int>)
    requires |t| == |s|
    ensures |r| == |s|
    ensures forall k | 0 <= k < |s| && IsAlpha(k) :: r[k] == s[k]
  {
    seq(|s|, k requires 0 <= k < |s| => if IsAlpha(k) then s[k] else f(s[k], t[k]))
  }

  /** One scale of the pass: skipped, or the grid thresholding followed by the blend. */
  function ScalePass(s: seq<int>, w: int, h: int, scale: int, d: real): (r: seq<int>)
    requires Shaped(s, w, h) && scale >= 1
    ensures |r| == |s|
  {
    if Skipped(w, h, scale) then s else BlendPass(s, Scaled(s, w, h, scale, Threshold(d)), BlendFactor(d))
  }

  /** The buffer after the scales from the i-th on. */
  function WaveletFrom(s: seq<int>, w: int, h: int, d: real, i: int): (r: seq<int>)
    requires Shaped(s, w, h) && 0 <= i <= |Scales|
    ensures |r| == |s|
    decreases |Scales| - i
  {
    if i == |Scales| then s else WaveletFrom(ScalePass(s, w, h, Scales[i], d), w, h, d, i + 1)
  }

  /** The buffer after the whole pass. */
  function WaveletPass(s: seq<int>, w: int, h: int, d: real): (r: seq<int>)
    requires Shaped(s, w, h)
    ensures |r| == |s|
  {
    WaveletFrom(s, w, h, d, 0)
  }

  /** The mean's samples only add weight, and the first sample of a row adds
      a whole unit when it is in the image. */
  lemma {:induction false} MeanRowCounted(acc: Sums, s: seq<int>, w: int, h: int, x: int, y: int, c: int, scale: int, dy: int, dx: int)
    requires Shaped(s, w, h) && 0 <= c < 4
    ensures MeanRowFrom(acc, s, w, h, x, y, c, scale, dy, dx).weight >= acc.weight
    ensures dx <= scale && InImage(w, h, x + dx, y + dy) ==> MeanRowFrom(acc, s, w, h, x, y, c, scale, dy, dx).weight >= acc.weight + 1.0
    decreases scale + 1 - dx
  {
    if dx <= scale {
      MeanRowCounted(Plus(acc, MeanTerm(s, w, h, x + dx, y + dy, c)), s, w, h, x, y, c, scale, dy, dx + MeanStride(scale));
    }
  }

  lemma {:induction false} MeanFromCounted(acc: Sums, s: seq<int>, w: int, h: int, x: int, y: int, c: int, scale: int, dy: int)
    requires Shaped(s, w, h) && 0 <= c < 4 && scale >= 0
    ensures MeanFrom(acc, s, w, h, x, y, c, scale, dy).weight >= acc.weight
    ensures dy <= scale && InImage(w, h, x + -scale, y + dy) ==> MeanFrom(acc, s, w, h, x, y, c, scale, dy).weight >= acc.weight + 1.0
    decreases scale + 1 - dy
  {
    if dy <= scale {
      MeanRowCounted(acc, s, w, h, x, y, c, scale, dy, -scale);
      MeanFromCounted(MeanRowFrom(acc, s, w, h, x, y, c, scale, dy, -scale), s, w, h, x, y, c, scale, dy + MeanStride(scale));
    }
  }

  /** At a grid point the mean has at least one sample, so `count` is positive. */
  lemma {:induction false} MeanCounted(s: seq<int>, w: int, h: int, x: int, y: int, c: int, scale: int)
    requires Shaped(s, w, h) && 0 <= c < 4 && scale >= 1 && Inset(w, h, x, y, scale)
    ensures MeanSums(s, w, h, x, y, c, scale).weight >= 1.0
  {
    assert InImage(w, h, x + -scale, y + -scale);
    MeanFromCounted(NoSums, s, w, h, x, y, c, scale, -scale);
  }

  /** Adding samples of channel c in [lo, hi] to sums of samples in [lo, hi] keeps them so. */
  lemma {:induction false} MeanRowBracketed(acc: Sums, s: seq<int>, w: int, h: int, x: int, y: int, c: int, scale: int, dy: int, dx: int,
                                            lo: int, hi: int)
    requires Shaped(s, w, h) && 0 <= c < 4 && ChannelBetween(s, c, lo, hi) && Bracketed(acc, lo as real, hi as real)
    ensures Bracketed(MeanRowFrom(acc, s, w, h, x, y, c, scale, dy, dx), lo as real, hi as real)
    decreases scale + 1 - dx
  {
    if dx <= scale {
      if InImage(w, h, x + dx, y + dy) {
        AtBetween(s, w, h, x + dx, y + dy, c, lo, hi);
        TermBracketed(At(s, w, h, x + dx, y + dy, c), 1.0, lo, hi);
      }
      PlusBracketed(acc, MeanTerm(s, w, h, x + dx, y + dy, c), lo as real, hi as real);
      MeanRowBracketed(Plus(acc, MeanTerm(s, w, h, x + dx, y + dy, c)), s, w, h, x, y, c, scale, dy, dx + MeanStride(scale), lo, hi);
    }
  }

  lemma {:induction false} MeanFromBracketed(acc: Sums, s: seq<int>, w: int, h: int, x: int, y: int, c: int, scale: int, dy: int,
                                             lo: int, hi: int)
    requires Shaped(s, w, h) && 0 <= c < 4 && ChannelBetween(s, c, lo, hi) && Bracketed(acc, lo as real, hi as real)
    ensures Bracketed(MeanFrom(acc, s, w, h, x, y, c, scale, dy), lo as real, hi as real)
    decreases scale + 1 - dy
  {
    if dy <= scale {
      MeanRowBracketed(acc, s, w, h, x, y, c, scale, dy, -scale, lo, hi);
      MeanFromBracketed(MeanRowFrom(acc, s, w, h, x, y, c, scale, dy, -scale), s, w, h, x, y, c, scale, dy + MeanStride(scale), lo, hi);
    }
  }

  /** The local mean lies within the bounds of its channel. */
  lemma {:induction false} LocalMeanBetween(s: seq<int>, w: int, h: int, x: int, y: int, c: int, scale: int, lo: int, hi: int)
    requires Shaped(s, w, h) && 0 <= c < 4 && scale >= 1 && Inset(w, h, x, y, scale) && ChannelBetween(s, c, lo, hi)
    ensures lo as real <= LocalMean(s, w, h, x, y, c, scale) <= hi as real
  {
    LocalMeanIs(s, w, h, x, y, c, scale);
    NoSumsBracketed(lo as real, hi as real);
    MeanFromBracketed(NoSums, s, w, h, x, y, c, scale, -scale, lo, hi);
    MeanBracketed(MeanSums(s, w, h, x, y, c, scale), lo as real, hi as real);
  }

  /** The shrunk value lies between the mean and the sample, so within any
      bounds that hold both. */
  lemma {:induction false} ShrunkBetween(v: int, mean: real, thr: real, lo: int, hi: int)
    requires 0 <= lo <= hi <= 255 && lo <= v <= hi && lo as real <= mean <= hi as real && Shrinks(v, mean, thr)
    ensures lo <= Shrunk(v, mean, thr) <= hi
  {
    var diff := v as real - mean;
    var shrink := MaxR(0.0, AbsR(diff) - thr * 0.5);
    assert 0.0 <= shrink <= AbsR(diff);
    var sign := if diff >= 0.0 then 1.0 else -1.0;
    assert MinR(mean, v as real) <= mean + shrink * sign <= MaxR(mean, v as real);
    RoundStoreBetween(lo, hi, mean + shrink * sign);
  }

  /** The value written for a sample equal to the mean is the sample itself. */
  lemma {:induction false} ShrunkFixed(v: int, thr: real)
    requires 0 <= v <= 255 && Shrinks(v, v as real, thr)
    ensures Shrunk(v, v as real, thr) == v
  {
    assert MaxR(0.0, AbsR(0.0) - thr * 0.5) == 0.0;
    RoundStoreByte(v);
  }

  /** One threshold step keeps channel c0 of the copy in [lo, hi] when the
      snapshot's channel c0 and (for channel c0) the mean are in [lo, hi]. */
  lemma {:induction false} ShrinkCellWithin(t: seq<int>, s: seq<int>, w: int, h: int, px: int, py: int, c: int, mean: real, thr: real,
                         c0: int, lo: int, hi: int)
    requires Shaped(s, w, h) && |t| == |s| && 0 <= c < 4 && 0 <= lo <= hi <= 255
    requires ChannelBetween(s, c0, lo, hi) && ChannelBetween(t, c0, lo, hi)
    requires c == c0 ==> lo as real <= mean <= hi as real
    ensures ChannelBetween(ShrinkCell(t, s, w, h, px, py, c, mean, thr), c0, lo, hi)
  {
    if InImage(w, h, px, py) && Shrinks(At(s, w, h, px, py, c), mean, thr) {
      IdxCoords(w, h, px, py, c);
      if c == c0 {
        AtBetween(s, w, h, px, py, c, lo, hi);
        ShrunkBetween(At(s, w, h, px, py, c), mean, thr, lo, hi);
      }
    }
  }

  lemma {:induction false} ShrinkRowWithin(t: seq<int>, s: seq<int>, w: int, h: int, x: int, y: int, c: int, scale: int, mean: real,
                                           thr: real, dy: int, dx: int, c0: int, lo: int, hi: int)
    requires Shaped(s, w, h) && |t| == |s| && 0 <= c < 4 && 0 <= lo <= hi <= 255
    requires ChannelBetween(s, c0, lo, hi) && ChannelBetween(t, c0, lo, hi)
    requires c == c0 ==> lo as real <= mean <= hi as real
    ensures ChannelBetween(ShrinkRowFrom(t, s, w, h, x, y, c, scale, mean, thr, dy, dx), c0, lo, hi)
    decreases scale + 1 - dx
  {
    ShrinkRowStep(t, s, w, h, x, y, c, scale, mean, thr, dy, dx);
    if dx <= scale {
      ShrinkCellWithin(t, s, w, h, x + dx, y + dy, c, mean, thr, c0, lo, hi);
      ShrinkRowWithin(ShrinkCell(t, s, w, h, x + dx, y + dy, c, mean, thr), s, w, h, x, y, c, scale, mean, thr, dy, dx + 1, c0, lo, hi);
    }
  }

  lemma {:induction false} ShrinkFromWithin(t: seq<int>, s: seq<int>, w: int, h: int, x: int, y: int, c: int, scale: int, mean: real,
                                            thr: real, dy: int, c0: int, lo: int, hi: int)
    requires Shaped(s, w, h) && |t| == |s| && 0 <= c < 4 && 0 <= lo <= hi <= 255
    requires ChannelBetween(s, c0, lo, hi) && ChannelBetween(t, c0, lo, hi)
    requires c == c0 ==> lo as real <= mean <= hi as real
    ensures ChannelBetween(ShrinkFrom(t, s, w, h, x, y, c, scale, mean, thr, dy), c0, lo, hi)
    decreases scale + 1 - dy
  {
    if dy <= scale {
      ShrinkRowWithin(t, s, w, h, x, y, c, scale, mean, thr, dy, -scale, c0, lo, hi);
      ShrinkFromWithin(ShrinkRowFrom(t, s, w, h, x, y, c, scale, mean, thr, dy, -scale), s, w, h, x, y, c, scale, mean, thr, dy + 1,
                       c0, lo, hi);
    }
  }

  lemma {:induction false} ChannelsWithin(t: seq<int>, s: seq<int>, w: int, h: int, x: int, y: int, scale: int, thr: real, c: int,
                                          c0: int, lo: int, hi: int)
    requires Shaped(s, w, h) && |t| == |s| && scale >= 1 && Inset(w, h, x, y, scale) && 0 <= c && 0 <= c0 < 4
    requires 0 <= lo <= hi <= 255 && ChannelBetween(s, c0, lo, hi) && ChannelBetween(t, c0, lo, hi)
    ensures ChannelBetween(ChannelsFrom(t, s, w, h, x, y, scale, thr, c), c0, lo, hi)
    decreases 3 - c
  {
    if c < 3 {
      ChannelPassWithin(t, s, w, h, x, y, scale, thr, c, c0, lo, hi);
      ChannelsWithin(ChannelPass(t, s, w, h, x, y, scale, thr, c, 1), s, w, h, x, y, scale, thr, c + 1, c0, lo, hi);
    }
  }

  /** Thresholding one channel keeps channel c0 of the copy in [lo, hi]: for
      c0 itself the mean lies in [lo, hi] too. */
  lemma {:induction false} ChannelPassWithin(t: seq<int>, s: seq<int>, w: int, h: int, x: int, y: int, scale: int, thr: real, c: int,
                          c0: int, lo: int, hi: int)
    requires Shaped(s, w, h) && |t| == |s| && scale >= 1 && Inset(w, h, x, y, scale) && 0 <= c < 4 && 0 <= c0 < 4
    requires 0 <= lo <= hi <= 255 && ChannelBetween(s, c0, lo, hi) && ChannelBetween(t, c0, lo, hi)
    ensures ChannelBetween(ChannelPass(t, s, w, h, x, y, scale, thr, c, 1), c0, lo, hi)
  {
    var mean := LocalMean(s, w, h, x, y, c, scale);
    if c == c0 {
      LocalMeanBetween(s, w, h, x, y, c, scale, lo, hi);
    }
    ShrinkFromWithin(t, s, w, h, x, y, c, scale, mean, thr, -scale, c0, lo, hi);
    ChannelPassIs(t, s, w, h, x, y, scale, thr, c);
  }

  lemma {:induction false} GridRowWithin(t: seq<int>, s: seq<int>, w: int, h: int, y: int, scale: int, thr: real, x: int,
                                         c0: int, lo: int, hi: int)
    requires Shaped(s, w, h) && |t| == |s| && scale >= 1 && scale <= y < h - scale && scale <= x && 0 <= c0 < 4
    requires 0 <= lo <= hi <= 255 && ChannelBetween(s, c0, lo, hi) && ChannelBetween(t, c0, lo, hi)
    ensures ChannelBetween(GridRowFrom(t, s, w, h, y, scale, thr, x), c0, lo, hi)
    decreases w - x
  {
    if x < w - scale {
      ChannelsWithin(t, s, w, h, x, y, scale, thr, 0, c0, lo, hi);
      GridRowWithin(ChannelsFrom(t, s, w, h, x, y, scale, thr, 0), s, w, h, y, scale, thr, x + scale, c0, lo, hi);
    }
  }

  lemma {:induction false} GridWithin(t: seq<int>, s: seq<int>, w: int, h: int, scale: int, thr: real, y: int,
                                      c0: int, lo: int, hi: int)
    requires Shaped(s, w, h) && |t| == |s| && scale >= 1 && scale <= y && 0 <= c0 < 4
    requires 0 <= lo <= hi <= 255 && ChannelBetween(s, c0, lo, hi) && ChannelBetween(t, c0, lo, hi)
    ensures ChannelBetween(GridFrom(t, s, w, h, scale, thr, y), c0, lo, hi)
    decreases h - y
  {
    if y < h - scale {
      GridRowWithin(t, s, w, h, y, scale, thr, scale, c0, lo, hi);
      GridWithin(GridRowFrom(t, s, w, h, y, scale, thr, scale), s, w, h, scale, thr, y + scale, c0, lo, hi);
    }
  }

  /** The blend of two buffers whose channel c0 is in [lo, hi] has its channel c0 in [lo, hi]. */
  lemma {:induction false} BlendPassWithin(s: seq<int>, t: seq<int>, b: real, c0: int, lo: int, hi: int)
    requires |t| == |s| && 0.0 <= b <= 1.0 && 0 <= lo <= hi <= 255
    requires ChannelBetween(s, c0, lo, hi) && ChannelBetween(t, c0, lo, hi)
    ensures ChannelBetween(BlendPass(s, t, b), c0, lo, hi)
  {
    var r := BlendPass(s, t, b);
    forall k | 0 <= k < |r| && Chan(k) == c0
      ensures lo <= r[k] <= hi
    {
      if !IsAlpha(k) {
        BlendBetween(s[k], t[k] as real, b, 1.0);
        RoundStoreBetween(lo, hi, Blend(s[k], t[k] as real, b, 1.0));
      }
    }
  }

  lemma {:induction false} WaveletFromWithin(s: seq<int>, w: int, h: int, d: real, i: int, c0: int, lo: int, hi: int)
    requires Shaped(s, w, h) && 0 <= i <= |Scales| && 0.0 <= d <= 1.0 && 0 <= c0 < 4
    requires 0 <= lo <= hi <= 255 && ChannelBetween(s, c0, lo, hi)
    ensures ChannelBetween(WaveletFrom(s, w, h, d, i), c0, lo, hi)
    decreases |Scales| - i
  {
    if i < |Scales| {
      var scale := Scales[i];
      if !Skipped(w, h, scale) {
        GridWithin(s, s, w, h, scale, Threshold(d), scale, c0, lo, hi);
        BlendPassWithin(s, Scaled(s, w, h, scale, Threshold(d)), BlendFactor(d), c0, lo, hi);
      }
      WaveletFromWithin(ScalePass(s, w, h, scale, d), w, h, d, i + 1, c0, lo, hi);
    }
  }

  /** The pass never takes a channel outside the range it already spans (for
      intensities in [0, 1]): thresholding writes values between a sample and
      a mean of samples, and the blend mixes two such buffers. */
  lemma {:induction false} WaveletWithin(s: seq<int>, w: int, h: int, d: real, c: int, lo: int, hi: int)
    requires Shaped(s, w, h) && 0.0 <= d <= 1.0 && 0 <= c < 4
    requires 0 <= lo <= hi <= 255 && ChannelBetween(s, c, lo, hi)
    ensures ChannelBetween(WaveletPass(s, w, h, d), c, lo, hi)
  {
    WaveletFromWithin(s, w, h, d, 0, c, lo, hi);
  }

  /** The blend stores every colour sample and keeps alpha, so it maps a
      byte buffer to a byte buffer whatever the thresholded copy holds. */
  lemma {:induction false} BlendPassBytes(s: seq<int>, t: seq<int>, b: real)
    requires |t| == |s| && ByteRange(s)
    ensures ByteRange(BlendPass(s, t, b))
  {
    var r := BlendPass(s, t, b);
    forall k | 0 <= k < |r|
      ensures 0 <= r[k] <= 255
    {
      if !IsAlpha(k) {
        assert r[k] == BlendStore(b)(s[k], t[k]);
      }
    }
  }

  lemma {:induction false} WaveletFromBytes(s: seq<int>, w: int, h: int, d: real, i: int)
    requires Shaped(s, w, h) && 0 <= i <= |Scales| && ByteRange(s)
    ensures ByteRange(WaveletFrom(s, w, h, d, i))
    decreases |Scales| - i
  {
    if i < |Scales| {
      var scale := Scales[i];
      if !Skipped(w, h, scale) {
        BlendPassBytes(s, Scaled(s, w, h, scale, Threshold(d)), BlendFactor(d));
      }
      WaveletFromBytes(ScalePass(s, w, h, scale, d), w, h, d, i + 1);
    }
  }

  /** The wavelet pass maps byte buffers to byte buffers at any intensity. */
  lemma {:induction false} WaveletBytes(s: seq<int>, w: int, h: int, d: real)
    requires Shaped(s, w, h) && ByteRange(s)
    ensures ByteRange(WaveletPass(s, w, h, d))
  {
    WaveletFromBytes(s, w, h, d, 0);
  }

  lemma {:induction false} WaveletFromAlpha(s: seq<int>, w: int, h: int, d: real, i: int)
    requires Shaped(s, w, h) && 0 <= i <= |Scales|
    ensures forall k | 0 <= k < |s| && IsAlpha(k) :: WaveletFrom(s, w, h, d, i)[k] == s[k]
    decreases |Scales| - i
  {
    if i < |Scales| {
      WaveletFromAlpha(ScalePass(s, w, h, Scales[i], d), w, h, d, i + 1);
    }
  }

  /** Alpha samples are never changed. */
  lemma {:induction false} WaveletAlpha(s: seq<int>, w: int, h: int, d: real)
    requires Shaped(s, w, h)
    ensures forall k | 0 <= k < |s| && IsAlpha(k) :: WaveletPass(s, w, h, d)[k] == s[k]
  {
    WaveletFromAlpha(s, w, h, d, 0);
  }

  /** In a flat field a threshold step writes the value already there. */
  lemma {:induction false} ShrinkCellUniform(s: seq<int>, w: int, h: int, px: int, py: int, c: int, thr: real)
    requires Shaped(s, w, h) && 0 <= c < 4 && Uniform(s) && ByteRange(s)
    ensures ShrinkCell(s, s, w, h, px, py, c, s[c] as real, thr) == s
  {
    if InImage(w, h, px, py) && Shrinks(At(s, w, h, px, py, c), s[c] as real, thr) {
      UniformAt(s, w, h, px, py, c);
      ShrunkFixed(s[c], thr);
      IdxCoords(w, h, px, py, c);
    }
  }

  lemma {:induction false} ShrinkRowUniform(s: seq<int>, w: int, h: int, x: int, y: int, c: int, scale: int, thr: real, dy: int, dx: int)
    requires Shaped(s, w, h) && 0 <= c < 4 && Uniform(s) && ByteRange(s)
    ensures ShrinkRowFrom(s, s, w, h, x, y, c, scale, s[c] as real, thr, dy, dx) == s
    decreases scale + 1 - dx
  {
    ShrinkRowStep(s, s, w, h, x, y, c, scale, s[c] as real, thr, dy, dx);
    if dx <= scale {
      ShrinkCellUniform(s, w, h, x + dx, y + dy, c, thr);
      ShrinkRowUniform(s, w, h, x, y, c, scale, thr, dy, dx + 1);
    }
  }

  lemma {:induction false} ShrinkFromUniform(s: seq<int>, w: int, h: int, x: int, y: int, c: int, scale: int, thr: real, dy: int)
    requires Shaped(s, w, h) && 0 <= c < 4 && Uniform(s) && ByteRange(s)
    ensures ShrinkFrom(s, s, w, h, x, y, c, scale, s[c] as real, thr, dy) == s
    decreases scale + 1 - dy
  {
    if dy <= scale {
      ShrinkRowUniform(s, w, h, x, y, c, scale, thr, dy, -scale);
      ShrinkFromUniform(s, w, h, x, y, c, scale, thr, dy + 1);
    }
  }

  lemma {:induction false} ChannelsUniform(s: seq<int>, w: int, h: int, x: int, y: int, scale: int, thr: real, c: int)
    requires Shaped(s, w, h) && scale >= 1 && Inset(w, h, x, y, scale) && 0 <= c && Uniform(s) && ByteRange(s)
    ensures ChannelsFrom(s, s, w, h, x, y, scale, thr, c) == s
    decreases 3 - c
  {
    if c < 3 {
      ChannelPassUniform(s, w, h, x, y, scale, thr, c);
      ChannelsUniform(s, w, h, x, y, scale, thr, c + 1);
    }
  }

  /** In a flat field the local mean is the field's value, so thresholding a channel writes nothing new. */
  lemma {:induction false} ChannelPassUniform(s: seq<int>, w: int, h: int, x: int, y: int, scale: int, thr: real, c: int)
    requires Shaped(s, w, h) && scale >= 1 && Inset(w, h, x, y, scale) && 0 <= c < 4 && Uniform(s) && ByteRange(s)
    ensures ChannelPass(s, s, w, h, x, y, scale, thr, c, 1) == s
  {
    ChannelBounds(s, c);
    LocalMeanBetween(s, w, h, x, y, c, scale, s[c], s[c]);
    ShrinkFromUniform(s, w, h, x, y, c, scale, thr, -scale);
    ChannelPassIs(s, s, w, h, x, y, scale, thr, c);
  }

  lemma {:induction false} GridRowUniform(s: seq<int>, w: int, h: int, y: int, scale: int, thr: real, x: int)
    requires Shaped(s, w, h) && scale >= 1 && scale <= y < h - scale && scale <= x && Uniform(s) && ByteRange(s)
    ensures GridRowFrom(s, s, w, h, y, scale, thr, x) == s
    decreases w - x
  {
    if x < w - scale {
      ChannelsUniform(s, w, h, x, y, scale, thr, 0);
      GridRowUniform(s, w, h, y, scale, thr, x + scale);
    }
  }

  lemma {:induction false} GridUniform(s: seq<int>, w: int, h: int, scale: int, thr: real, y: int)
    requires Shaped(s, w, h) && scale >= 1 && scale <= y && Uniform(s) && ByteRange(s)
    ensures GridFrom(s, s, w, h, scale, thr, y) == s
    decreases h - y
  {
    if y < h - scale {
      GridRowUniform(s, w, h, y, scale, thr, scale);
      GridUniform(s, w, h, scale, thr, y + scale);
    }
  }

  /** Blending a byte buffer with itself gives it back. */
  lemma {:induction false} BlendPassSelf(s: seq<int>, b: real)
    requires ByteRange(s)
    ensures BlendPass(s, s, b) == s
  {
    var r := BlendPass(s, s, b);
    forall k | 0 <= k < |s|
      ensures r[k] == s[k]
    {
      if !IsAlpha(k) {
        BlendFixed(s[k], b, 1.0);
        RoundStoreByte(s[k]);
      }
    }
  }

  lemma {:induction false} WaveletFromUniform(s: seq<int>, w: int, h: int, d: real, i: int)
    requires Shaped(s, w, h) && 0 <= i <= |Scales| && Uniform(s) && ByteRange(s)
    ensures WaveletFrom(s, w, h, d, i) == s
    decreases |Scales| - i
  {
    if i < |Scales| {
      if !Skipped(w, h, Scales[i]) {
        GridUniform(s, w, h, Scales[i], Threshold(d), Scales[i]);
        BlendPassSelf(s, BlendFactor(d));
      }
      WaveletFromUniform(s, w, h, d, i + 1);
    }
  }

  /** A flat field is left as it is. */
  lemma {:induction false} WaveletUniform(s: seq<int>, w: int, h: int, d: real)
    requires Shaped(s, w, h) && Uniform(s) && ByteRange(s)
    ensures WaveletPass(s, w, h, d) == s
  {
    WaveletFromUniform(s, w, h, d, 0);
  }

  /** An image whose smaller side is at most 8 pixels is left as it is: every scale is skipped. */
  lemma {:induction false} WaveletSmall(s: seq<int>, w: int, h: int, d: real)
    requires Shaped(s, w, h) && MinI(w, h) <= 8
    ensures WaveletPass(s, w, h, d) == s
  {
    assert Skipped(w, h, 2) && Skipped(w, h, 4) && Skipped(w, h, 8);
    assert WaveletFrom(s, w, h, d, 3) == s;
    assert WaveletFrom(s, w, h, d, 2) == s;
    assert WaveletFrom(s, w, h, d, 1) == s;
  }

  /** The mean loop's body: the sample at (nx, ny) is counted when it is in the image. */
  method MeanCell(data: seq<int>, w: int, h: int, c: int, nx: int, ny: int, sum0: int, count0: int)
    returns (sum: int, count: int)
    requires Shaped(data, w, h) && 0 <= c < 4
    ensures Sums(count as real, sum as real) == Plus(Sums(count0 as real, sum0 as real), MeanTerm(data, w, h, nx, ny, c))
  {
    sum, count := sum0, count0;
    if ny >= 0 && ny < h && nx >= 0 && nx < w {
      IdxCoords(w, h, nx, ny, c);
      sum := sum + data[Idx(w, nx, ny, c)];
      count := count + 1;
    }
  }

  /** The inner mean loop over row dy of the window. */
  method MeanRow(data: seq<int>, x: int, y: int, w: int, h: int, c: int, scale: int, dy: int, sum0: int, count0: int)
    returns (sum: int, count: int)
    requires Shaped(data, w, h) && 0 <= c < 4
    ensures Sums(count as real, sum as real) == MeanRowFrom(Sums(count0 as real, sum0 as real), data, w, h, x, y, c, scale, dy, -scale)
  {
    sum, count := sum0, count0;
    var dx := -scale;
    while dx <= scale
      invariant MeanRowFrom(Sums(count as real, sum as real), data, w, h, x, y, c, scale, dy, dx)
             == MeanRowFrom(Sums(count0 as real, sum0 as real), data, w, h, x, y, c, scale, dy, -scale)
      decreases scale + 1 - dx
    {
      sum, count := MeanCell(data, w, h, c, x + dx, y + dy, sum, count);
      dx := dx + MeanStride(scale);
    }
  }

  /** The mean loops: `localMean = sum / count` over the strided window of (x, y). */
  method LocalMeanOf(data: seq<int>, x: int, y: int, w: int, h: int, c: int, scale: int) returns (localMean: real)
    requires Shaped(data, w, h) && 0 <= c < 4 && scale >= 1 && Inset(w, h, x, y, scale)
    ensures localMean == LocalMean(data, w, h, x, y, c, scale)
  {
    var sum, count := 0, 0;
    var dy := -scale;
    while dy <= scale
      invariant MeanFrom(Sums(count as real, sum as real), data, w, h, x, y, c, scale, dy) == MeanSums(data, w, h, x, y, c, scale)
      decreases scale + 1 - dy
    {
      sum, count := MeanRow(data, x, y, w, h, c, scale, dy, sum, count);
      dy := dy + MeanStride(scale);
    }
    LocalMeanIs(data, w, h, x, y, c, scale);
    localMean := sum as real / count as real;
  }

  /** The thresholding loop's body for the sample c of (nx, ny). */
  method ShrinkAt(data: seq<int>, scaledData: array<int>, w: int, h: int, c: int, nx: int, ny: int, localMean: real, threshold: real)
    requires Shaped(data, w, h) && scaledData.Length == |data| && 0 <= c < 4
    modifies scaledData
    ensures scaledData[..] == ShrinkCell(old(scaledData[..]), data, w, h, nx, ny, c, localMean, threshold)
  {
    if ny >= 0 && ny < h && nx >= 0 && nx < w {
      IdxCoords(w, h, nx, ny, c);
      var pixel := Idx(w, nx, ny, c);
      var diff := data[pixel] as real - localMean;
      if AbsR(diff) < threshold {
        var sign := if diff >= 0.0 then 1.0 else -1.0;
        var newDiff := MaxR(0.0, AbsR(diff) - threshold * 0.5) * sign;
        scaledData[pixel] := RoundStore(localMean + newDiff);
      }
    }
  }

  /** The thresholding loop over row dy of the window. */
  method ShrinkRow(data: seq<int>, scaledData: array<int>, x: int, y: int, w: int, h: int, c: int, scale: int,
                   localMean: real, threshold: real, dy: int)
    requires Shaped(data, w, h) && scaledData.Length == |data| && 0 <= c < 4
    modifies scaledData
    ensures scaledData[..] == ShrinkRowFrom(old(scaledData[..]), data, w, h, x, y, c, scale, localMean, threshold, dy, -scale)
  {
    ghost var t0 := scaledData[..];
    var dx := -scale;
    while dx <= scale
      invariant ShrinkRowFrom(scaledData[..], data, w, h, x, y, c, scale, localMean, threshold, dy, dx)
             == ShrinkRowFrom(t0, data, w, h, x, y, c, scale, localMean, threshold, dy, -scale)
      decreases scale + 1 - dx
    {
      ShrinkRowStep(scaledData[..], data, w, h, x, y, c, scale, localMean, threshold, dy, dx);
      ShrinkAt(data, scaledData, w, h, c, x + dx, y + dy, localMean, threshold);
      dx := dx + 1;
    }
    ShrinkRowStep(scaledData[..], data, w, h, x, y, c, scale, localMean, threshold, dy, dx);
  }

  /** The thresholding loops over the window of (x, y). */
  method ShrinkWindow(data: seq<int>, scaledData: array<int>, x: int, y: int, w: int, h: int, c: int, scale: int,
                      localMean: real, threshold: real)
    requires Shaped(data, w, h) && scaledData.Length == |data| && 0 <= c < 4
    modifies scaledData
    ensures scaledData[..] == ShrinkFrom(old(scaledData[..]), data, w, h, x, y, c, scale, localMean, threshold, -scale)
  {
    ghost var t0 := scaledData[..];
    var dy := -scale;
    while dy <= scale
      invariant ShrinkFrom(scaledData[..], data, w, h, x, y, c, scale, localMean, threshold, dy)
             == ShrinkFrom(t0, data, w, h, x, y, c, scale, localMean, threshold, -scale)
      decreases scale + 1 - dy
    {
      ShrinkRow(data, scaledData, x, y, w, h, c, scale, localMean, threshold, dy);
      dy := dy + 1;
    }
  }

  /** The channel loop of one grid point: the local mean, then the thresholding. */
  method GridPoint(data: seq<int>, scaledData: array<int>, x: int, y: int, w: int, h: int, scale: int, threshold: real)
    requires Shaped(data, w, h) && scaledData.Length == |data| && scale >= 1 && Inset(w, h, x, y, scale)
    modifies scaledData
    ensures scaledData[..] == ChannelsFrom(old(scaledData[..]), data, w, h, x, y, scale, threshold, 0)
  {
    ghost var t0 := scaledData[..];
    var c := 0;
    while c < 3
      invariant 0 <= c <= 3
      invariant ChannelsFrom(scaledData[..], data, w, h, x, y, scale, threshold, c)
             == ChannelsFrom(t0, data, w, h, x, y, scale, threshold, 0)
    {
      ghost var before := scaledData[..];
      var localMean := LocalMeanOf(data, x, y, w, h, c, scale);
      ShrinkWindow(data, scaledData, x, y, w, h, c, scale, localMean, threshold);
      ChannelPassIs(before, data, w, h, x, y, scale, threshold, c);
      c := c + 1;
    }
  }

  /** The grid loop over the points of row y. */
  method GridRow(data: seq<int>, scaledData: array<int>, y: int, w: int, h: int, scale: int, threshold: real)
    requires Shaped(data, w, h) && scaledData.Length == |data| && scale >= 1 && scale <= y < h - scale
    modifies scaledData
    ensures scaledData[..] == GridRowFrom(old(scaledData[..]), data, w, h, y, scale, threshold, scale)
  {
    ghost var t0 := scaledData[..];
    var x := scale;
    while x < w - scale
      invariant scale <= x
      invariant GridRowFrom(scaledData[..], data, w, h, y, scale, threshold, x)
             == GridRowFrom(t0, data, w, h, y, scale, threshold, scale)
      decreases w - x
    {
      ghost var before := scaledData[..];
      GridPoint(data, scaledData, x, y, w, h, scale, threshold);
      GridRowAdvance(before, scaledData[..], data, w, h, y, scale, threshold, x);
      x := x + scale;
    }
  }

  /** Thresholding around one grid point moves the row fold on by one grid point. */
  lemma {:induction false} GridRowAdvance(t: seq<int>, t': seq<int>, s: seq<int>, w: int, h: int, y: int, scale: int, thr: real, x: int)
    requires Shaped(s, w, h) && |t| == |s| && scale >= 1 && scale <= y < h - scale && scale <= x < w - scale
    requires t' == ChannelsFrom(t, s, w, h, x, y, scale, thr, 0)
    ensures |t'| == |s|
    ensures GridRowFrom(t', s, w, h, y, scale, thr, x + scale) == GridRowFrom(t, s, w, h, y, scale, thr, x)
  {
  }

  /** The grid loops of one scale, writing into `scaledData` and reading `data`. */
  method ThresholdGrid(data: seq<int>, scaledData: array<int>, w: int, h: int, scale: int, threshold: real)
    requires Shaped(data, w, h) && scaledData.Length == |data| && scale >= 1
    modifies scaledData
    ensures scaledData[..] == GridFrom(old(scaledData[..]), data, w, h, scale, threshold, scale)
  {
    ghost var t0 := scaledData[..];
    var y := scale;
    while y < h - scale
      invariant scale <= y
      invariant GridFrom(scaledData[..], data, w, h, scale, threshold, y) == GridFrom(t0, data, w, h, scale, threshold, scale)
      decreases h - y
    {
      GridRow(data, scaledData, y, w, h, scale, threshold);
      y := y + scale;
    }
  }

  /** The blend loop, one pixel per step. */
  method BlendLoop(data: array<int>, scaledData: array<int>, blendFactor: real)
    requires data != scaledData && data.Length == scaledData.Length && data.Length % 4 == 0
    modifies data
    ensures data[..] == BlendPass(old(data[..]), scaledData[..], blendFactor)
  {
    ghost var src := data[..];
    var mix := BlendStore(blendFactor);
    ghost var tgt := ZipColour(src, scaledData[..], mix);
    var i := 0;
    while i < data.Length
      invariant 0 <= i <= data.Length && i % 4 == 0
      invariant forall k | 0 <= k < data.Length :: data[k] == if k < i then tgt[k] else src[k]
    {
      PixelStep(i, data.Length);
      ghost var before := data[..];
      var r, g, b := mix(data[i], scaledData[i]), mix(data[i + 1], scaledData[i + 1]), mix(data[i + 2], scaledData[i + 2]);
      data[i], data[i + 1], data[i + 2] := r, g, b;
      ZipColourStep(before, data[..], src, scaledData[..], tgt, mix, i);
      i := i + 4;
    }
    assert data[..] == tgt;
  }

  /** One step of the blend loop: the three colour samples of the pixel at i
      are blended and its alpha sample is left alone. */
  lemma {:induction false} ZipColourStep(a: seq<int>, a': seq<int>, src: seq<int>, t: seq<int>, tgt: seq<int>, f: (int, int) -> int, i: int)
    requires |a| == |src| == |a'| == |t| && |src| % 4 == 0 && 0 <= i < |src| && i % 4 == 0 && tgt == ZipColour(src, t, f)
    requires forall k | 0 <= k < |a| :: a[k] == if k < i then tgt[k] else src[k]
    requires a' == a[i := f(a[i], t[i])][i + 1 := f(a[i + 1], t[i + 1])][i + 2 := f(a[i + 2], t[i + 2])]
    ensures forall k | 0 <= k < |a| :: a'[k] == if k < i + 4 then tgt[k] else src[k]
  {
    PixelChannels(i);
    forall k | 0 <= k < |a|
      ensures a'[k] == if k < i + 4 then tgt[k] else src[k]
    {
      if i <= k < i + 3 {
        assert !IsAlpha(k);
      }
    }
  }

  /** One scale: a fresh copy of the buffer is thresholded around every grid
      point and then blended back into the buffer. */
  method DenoiseAtScale(data: array<int>, w: int, h: int, scale: int, threshold: real, blendFactor: real)
    requires Shaped(data[..], w, h) && scale >= 1
    modifies data
    ensures data[..] == BlendPass(old(data[..]), Scaled(old(data[..]), w, h, scale, threshold), blendFactor)
  {
    var snapshot := data[..];
    var scaledData := Duplicate(data);
    assert scaledData[..] == snapshot;
    ThresholdGrid(snapshot, scaledData, w, h, scale, threshold);
    BlendLoop(data, scaledData, blendFactor);
  }

  /** `applyWaveletDenoising`. */
  method ApplyWaveletDenoising(data: array<int>, w: int, h: int, intensity: real)
    requires Shaped(data[..], w, h)
    modifies data
    ensures data[..] == WaveletPass(old(data[..]), w, h, intensity)
  {
    ghost var s0 := data[..];
    var scales := Scales;
    var threshold := intensity * 15.0;
    var blendFactor := 0.3 * intensity / |scales| as real;
    assert threshold == Threshold(intensity) && blendFactor == BlendFactor(intensity);
    var i := 0;
    while i < |scales|
      invariant 0 <= i <= |scales| && Shaped(data[..], w, h)
      invariant WaveletFrom(data[..], w, h, intensity, i) == WaveletPass(s0, w, h, intensity)
    {
      var scale := scales[i];
      ghost var before := data[..];
      if !Skipped(w, h, scale) {
        DenoiseAtScale(data, w, h, scale, threshold, blendFactor);
      }
      ScaleStep(before, data[..], w, h, intensity, i);
      i := i + 1;
    }
  }

  /** One scale of the pass moves the fold on by one scale. */
  lemma {:induction false} ScaleStep(before: seq<int>, after: seq<int>, w: int, h: int, d: real, i: int)
    requires Shaped(before, w, h) && 0 <= i < |Scales|
    requires after == ScalePass(before, w, h, Scales[i], d)
    ensures Shaped(after, w, h)
    ensures WaveletFrom(after, w, h, d, i + 1) == WaveletFrom(before, w, h, d, i)
  {
  }
}
