/** `applyAdaptiveSharpening`: an unsharp mask whose strength grows with the
    local Sobel edge strength. Every interior colour sample (at least one
    pixel from each edge) is replaced by the clamped 3x3 correlation of the
    input with the kernel; the new values are gathered in a copy and then
    copied back, colour samples only. */
module AdaptiveSharpening {
  import opened Raster
  import opened JsNumbers
  import opened Neighbourhood

  /** The mask for adaptive strength a, row-major: centre `1 + 2a`, the four
      direct neighbours `-a/2`, the corners 0. */
  function SharpenKernel(a: real): (k: seq<real>)
    ensures |k| == 9
  {
    [0.0, -a * 0.5, 0.0, -a * 0.5, 1.0 + 2.0 * a, -a * 0.5, 0.0, -a * 0.5, 0.0]
  }

  /** Sum of the first n weights of a kernel. */
  function KernelTotal(k: seq<real>, n: nat): real
    requires n <= |k|
  {
    if n == 0 then 0.0 else KernelTotal(k, n - 1) + k[n - 1]
  }

  /** The weights of the mask sum to 1 whatever the strength, so it keeps the
      mean brightness of a region. */
  lemma {:induction false} KernelSumsToOne(a: real)
    ensures KernelTotal(SharpenKernel(a), 9) == 1.0
  {
    var k := SharpenKernel(a);
    var q := -a * 0.5;
    assert k == [0.0, q, 0.0, q, 1.0 + 2.0 * a, q, 0.0, q, 0.0];
    assert KernelTotal(k, 1) == 0.0;
    assert KernelTotal(k, 2) == q;
    assert KernelTotal(k, 3) == q;
    assert KernelTotal(k, 4) == 2.0 * q;
    assert KernelTotal(k, 5) == 1.0 + 2.0 * a + 2.0 * q;
    assert KernelTotal(k, 6) == 1.0 + 2.0 * a + 3.0 * q;
    assert KernelTotal(k, 7) == 1.0 + 2.0 * a + 3.0 * q;
    assert KernelTotal(k, 8) == 1.0 + 2.0 * a + 4.0 * q;
  }

  /** Strength of the mask at (x, y): `intensity * (0.5 + 0.5 * edge)`. */
  function AdaptiveStrength(s: seq<int>, w: int, h: int, x: int, y: int, c: int, d: real, m: MathLib): real
    requires Shaped(s, w, h) && 0 <= c < 4
  {
    d * (0.5 + EdgeStrength(s, w, h, x, y, c, m) * 0.5)
  }

  /** Sum, over the first n cells of row j of the 3x3 neighbourhood of (x, y),
      of sample times weight. */
  function MaskRow(s: seq<int>, w: int, h: int, x: int, y: int, c: int, k: seq<real>, j: int, n: int): real
    requires Shaped(s, w, h) && 1 <= x < w - 1 && 1 <= y < h - 1 && 0 <= c < 4
    requires |k| == 9 && 0 <= j < 3 && 0 <= n <= 3
  {
    if n == 0 then 0.0
    else MaskRow(s, w, h, x, y, c, k, j, n - 1) + At(s, w, h, x + n - 2, y + j - 1, c) as real * k[j * 3 + n - 1]
  }

  /** Sum over the first m rows: with m = 3, the correlation of the kernel with the neighbourhood. */
  function Mask(s: seq<int>, w: int, h: int, x: int, y: int, c: int, k: seq<real>, m: int): real
    requires Shaped(s, w, h) && 1 <= x < w - 1 && 1 <= y < h - 1 && 0 <= c < 4
    requires |k| == 9 && 0 <= m <= 3
  {
    if m == 0 then 0.0 else Mask(s, w, h, x, y, c, k, m - 1) + MaskRow(s, w, h, x, y, c, k, m - 1, 3)
  }

  /** The byte the sharpener stores for sample c of interior pixel (x, y). */
  function SharpenAt(s: seq<int>, w: int, h: int, x: int, y: int, c: int, d: real, m: MathLib): (r: int)
    requires Shaped(s, w, h) && 1 <= x < w - 1 && 1 <= y < h - 1 && 0 <= c < 4
    ensures 0 <= r <= 255
  {
    ToUint8Clamp(Clamp255(Mask(s, w, h, x, y, c, SharpenKernel(AdaptiveStrength(s, w, h, x, y, c, d, m)), 3)))
  }

  /** The buffer after the sharpening stage: only interior colour samples change, and they become bytes. */
  function SharpenPass(s: seq<int>, w: int, h: int, d: real, m: MathLib): (r: seq<int>)
    requires Shaped(s, w, h)
    ensures FramedBy(s, r, w, h, 1)
    ensures forall k | 0 <= k < |s| && Interior(w, h, 1, k) :: 0 <= r[k] <= 255
  {
    seq(|s|, k requires 0 <= k < |s| =>
      if Interior(w, h, 1, k) then
        CoordsOf(w, h, k);
        SharpenAt(s, w, h, Col(w, k), Row(w, k), Chan(k), d, m)
      else s[k])
  }

  lemma {:induction false} SharpenPassAt(s: seq<int>, w: int, h: int, d: real, m: MathLib, x: int, y: int, c: int)
    requires Shaped(s, w, h) && 1 <= x < w - 1 && 1 <= y < h - 1 && 0 <= c < 3
    ensures 0 <= Idx(w, x, y, c) < |s|
    ensures SharpenPass(s, w, h, d, m)[Idx(w, x, y, c)] == SharpenAt(s, w, h, x, y, c, d, m)
  {
    IdxCoords(w, h, x, y, c);
  }

  /** The masked value of one sample, as `applyAdaptiveSharpening` computes it. */
  method SharpenSample(data: seq<int>, x: int, y: int, w: int, h: int, c: int, intensity: real, m: MathLib)
    returns (v: int)
    requires Shaped(data, w, h) && 1 <= x < w - 1 && 1 <= y < h - 1 && 0 <= c < 4
    ensures v == SharpenAt(data, w, h, x, y, c, intensity, m)
  {
    var edgeStrength := CalculateEdgeStrength(data, x, y, w, h, c, m);
    var adaptiveIntensity := intensity * (0.5 + edgeStrength * 0.5);
    assert adaptiveIntensity == AdaptiveStrength(data, w, h, x, y, c, intensity, m);
    var sum := Correlate(data, x, y, w, h, c, SharpenKernel(adaptiveIntensity));
    v := ToUint8Clamp(Clamp255(sum));
  }

  /** The two inner loops of `applyAdaptiveSharpening`: the 3x3 neighbourhood
      of (x, y) weighted by the row-major kernel k. */
  method Correlate(data: seq<int>, x: int, y: int, w: int, h: int, c: int, k: seq<real>) returns (sum: real)
    requires Shaped(data, w, h) && 1 <= x < w - 1 && 1 <= y < h - 1 && 0 <= c < 4 && |k| == 9
    ensures sum == Mask(data, w, h, x, y, c, k, 3)
  {
    sum := 0.0;
    var ky := -1;
    while ky <= 1
      invariant -1 <= ky <= 2
      invariant sum == Mask(data, w, h, x, y, c, k, ky + 1)
    {
      sum := CorrelateRow(data, x, y, w, h, c, k, ky, sum);
      ky := ky + 1;
    }
  }

  /** The innermost loop: adds row `ky` (-1, 0 or 1) of the weighted
      neighbourhood to the running sum. */
  method CorrelateRow(data: seq<int>, x: int, y: int, w: int, h: int, c: int, k: seq<real>, ky: int, sum0: real)
    returns (sum: real)
    requires Shaped(data, w, h) && 1 <= x < w - 1 && 1 <= y < h - 1 && 0 <= c < 4 && |k| == 9 && -1 <= ky <= 1
    ensures sum == sum0 + MaskRow(data, w, h, x, y, c, k, ky + 1, 3)
  {
    sum := sum0;
    var kx := -1;
    while kx <= 1
      invariant -1 <= kx <= 2
      invariant sum == sum0 + MaskRow(data, w, h, x, y, c, k, ky + 1, kx + 1)
    {
      IdxCoords(w, h, x + kx, y + ky, c);
      var kernelIndex := (ky + 1) * 3 + (kx + 1);
      sum := sum + data[Idx(w, x + kx, y + ky, c)] as real * k[kernelIndex];
      kx := kx + 1;
    }
  }

  /** `applyAdaptiveSharpening`: the sharpened interior is built in a copy,
      whose colour samples are then copied back. */
  method ApplyAdaptiveSharpening(data: array<int>, w: int, h: int, intensity: real, m: MathLib)
    requires Shaped(data[..], w, h)
    modifies data
    ensures data[..] == SharpenPass(old(data[..]), w, h, intensity, m)
  {
    ghost var src := data[..];
    ghost var tgt := SharpenPass(src, w, h, intensity, m);
    var newData := Duplicate(data);
    assert newData[..] == src;
    SweepStart(src, tgt, w, h, 1);
    var y := 1;
    while y < h - 1
      modifies newData
      invariant 1 <= y <= MaxI(1, h - 1) && data[..] == src
      invariant SweptTo(newData[..], src, tgt, w, y, 1, 0)
    {
      var x := 1;
      while x < w - 1
        modifies newData
        invariant 1 <= x <= MaxI(1, w - 1) && data[..] == src
        invariant SweptTo(newData[..], src, tgt, w, y, x, 0)
      {
        var c := 0;
        while c < 3
          modifies newData
          invariant 0 <= c <= 3 && data[..] == src
          invariant SweptTo(newData[..], src, tgt, w, y, x, c)
        {
          SharpenPassAt(src, w, h, intensity, m, x, y, c);
          SweepWrite(newData[..], src, tgt, w, h, x, y, c);
          var centerPixel := Idx(w, x, y, c);
          newData[centerPixel] := SharpenSample(data[..], x, y, w, h, c, intensity, m);
          c := c + 1;
        }
        SweepNextPixel(newData[..], src, tgt, w, h, 1, x, y);
        x := x + 1;
      }
      SweepNextRow(newData[..], src, tgt, w, h, 1, x, y);
      y := y + 1;
    }
    SweepEnd(newData[..], src, tgt, w, h, 1, y);
    CopyColour(data, newData);
    assert data[..] == tgt;
  }

  /** On a constant 3x3 patch the mask returns the centre value. */
  lemma {:induction false} MaskRowFlat(s: seq<int>, w: int, h: int, x: int, y: int, c: int, k: seq<real>, j: int, n: int)
    requires Shaped(s, w, h) && 1 <= x < w - 1 && 1 <= y < h - 1 && 0 <= c < 4 && FlatPatch(s, w, h, x, y, c)
    requires |k| == 9 && 0 <= j < 3 && 0 <= n <= 3
    ensures MaskRow(s, w, h, x, y, c, k, j, n) == At(s, w, h, x, y, c) as real * (KernelTotal(k, j * 3 + n) - KernelTotal(k, j * 3))
  {
    if n > 0 {
      MaskRowFlat(s, w, h, x, y, c, k, j, n - 1);
      assert At(s, w, h, x + n - 2, y + j - 1, c) == At(s, w, h, x, y, c);
      Distribute(At(s, w, h, x, y, c) as real, KernelTotal(k, j * 3 + n - 1) - KernelTotal(k, j * 3), k[j * 3 + n - 1]);
    }
  }

  lemma {:induction false} Distribute(v: real, a: real, b: real)
    ensures v * a + v * b == v * (a + b)
  {
  }

  lemma {:induction false} MaskFlat(s: seq<int>, w: int, h: int, x: int, y: int, c: int, k: seq<real>, m: int)
    requires Shaped(s, w, h) && 1 <= x < w - 1 && 1 <= y < h - 1 && 0 <= c < 4 && FlatPatch(s, w, h, x, y, c)
    requires |k| == 9 && 0 <= m <= 3
    ensures Mask(s, w, h, x, y, c, k, m) == At(s, w, h, x, y, c) as real * KernelTotal(k, m * 3)
  {
    if m > 0 {
      MaskFlat(s, w, h, x, y, c, k, m - 1);
      MaskRowFlat(s, w, h, x, y, c, k, m - 1, 3);
      Distribute(At(s, w, h, x, y, c) as real, KernelTotal(k, (m - 1) * 3), KernelTotal(k, m * 3) - KernelTotal(k, (m - 1) * 3));
    }
  }

  /** Sharpening leaves a byte on a constant 3x3 patch unchanged, whatever the edge strength. */
  lemma {:induction false} SharpenFlatPatch(s: seq<int>, w: int, h: int, x: int, y: int, c: int, d: real, m: MathLib)
    requires Shaped(s, w, h) && 1 <= x < w - 1 && 1 <= y < h - 1 && 0 <= c < 4 && FlatPatch(s, w, h, x, y, c)
    requires 0 <= At(s, w, h, x, y, c) <= 255
    ensures SharpenAt(s, w, h, x, y, c, d, m) == At(s, w, h, x, y, c)
  {
    var k := SharpenKernel(AdaptiveStrength(s, w, h, x, y, c, d, m));
    MaskFlat(s, w, h, x, y, c, k, 3);
    KernelSumsToOne(AdaptiveStrength(s, w, h, x, y, c, d, m));
    StoreByte(At(s, w, h, x, y, c));
  }

  /** A flat field of bytes is a fixed point of the sharpening stage. */
  lemma {:induction false} SharpenUniform(s: seq<int>, w: int, h: int, d: real, m: MathLib)
    requires Shaped(s, w, h) && Uniform(s) && ByteRange(s)
    ensures SharpenPass(s, w, h, d, m) == s
  {
    var r := SharpenPass(s, w, h, d, m);
    forall k | 0 <= k < |s| && Interior(w, h, 1, k)
      ensures r[k] == s[k]
    {
      CoordsOf(w, h, k);
      var x, y, c := Col(w, k), Row(w, k), Chan(k);
      UniformFlatPatch(s, w, h, x, y, c);
      SharpenFlatPatch(s, w, h, x, y, c, d, m);
    }
  }
}
