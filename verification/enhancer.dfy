/** `applyEnhancements` and `applyAdvancedDenoising`: the order in which the
    filters run over the RGBA buffer of the canvas, and which of them run.
    The denoiser runs non-local means and the bilateral filter always, the
    selective median above intensity 0.3 and the wavelet shrinkage above 0.6;
    the enhancer runs the denoiser, the brightness/contrast remap and the
    sharpening, each only when its setting is positive, with intensity
    setting / 100. */
module Enhancer {
  import opened Raster
  import opened JsNumbers
  import opened NonLocalMeans
  import opened Bilateral
  import opened SelectiveMedian
  import opened Wavelet
  import opened AdaptiveSharpening
  import opened BrightnessContrast

  /** `EnhancementSettings`: slider values, 1..4 for the scale factor and
      0..100 for the three filters. */
  datatype Settings = Settings(superResolution: real, faceEnhancement: real, deblurring: real, sharpening: real)

  /** The buffer after the denoiser at intensity d. */
  function Denoise(s: seq<int>, w: int, h: int, d: real, m: MathLib): (r: seq<int>)
    requires Shaped(s, w, h) && d > 0.0 && Sound(m)
    ensures |r| == |s|
  {
    var afterNlm := NlmPass(s, s, w, h, d, m);
    var afterBilateral := BilateralPass(afterNlm, afterNlm, w, h, d, m);
    var afterMedian := if d > 0.3 then MedianPass(afterBilateral, w, h, d) else afterBilateral;
    if d > 0.6 then WaveletPass(afterMedian, w, h, d) else afterMedian
  }

  /** Stage 1: the denoiser when the deblurring setting is positive. */
  function DenoiseStage(s: seq<int>, w: int, h: int, settings: Settings, m: MathLib): (r: seq<int>)
    requires Shaped(s, w, h) && Sound(m)
    ensures |r| == |s|
  {
    if settings.deblurring > 0.0 then Denoise(s, w, h, settings.deblurring / 100.0, m) else s
  }

  /** Stage 2: the brightness/contrast remap when the face setting is positive. */
  function ToneStage(s: seq<int>, settings: Settings): (r: seq<int>)
    ensures |r| == |s|
  {
    if settings.faceEnhancement > 0.0 then ToneMap(s, settings.faceEnhancement / 100.0) else s
  }

  /** Stage 3: the sharpening when the sharpening setting is positive. */
  function SharpenStage(s: seq<int>, w: int, h: int, settings: Settings, m: MathLib): (r: seq<int>)
    requires Shaped(s, w, h)
    ensures |r| == |s|
  {
    if settings.sharpening > 0.0 then SharpenPass(s, w, h, settings.sharpening / 100.0, m) else s
  }

  /** The buffer after `applyEnhancements`. */
  function Enhance(s: seq<int>, w: int, h: int, settings: Settings, m: MathLib): (r: seq<int>)
    requires Shaped(s, w, h) && Sound(m)
    ensures |r| == |s|
  {
    SharpenStage(ToneStage(DenoiseStage(s, w, h, settings, m), settings), w, h, settings, m)
  }

  /** `applyAdvancedDenoising`: the snapshots are taken before the passes that read them. */
  method ApplyAdvancedDenoising(data: array<int>, w: int, h: int, intensity: real, m: MathLib)
    requires Shaped(data[..], w, h) && intensity > 0.0 && Sound(m)
    modifies data
    ensures data[..] == Denoise(old(data[..]), w, h, intensity, m)
  {
    var originalData := data[..];
    ApplyNonLocalMeansDenoising(data, originalData, w, h, intensity, m);
    var intermediateData := data[..];
    ApplyImprovedBilateralFilter(data, intermediateData, w, h, intensity, m);
    if intensity > 0.3 {
      ApplySelectiveMedianFilter(data, w, h, intensity);
    }
    if intensity > 0.6 {
      ApplyWaveletDenoising(data, w, h, intensity);
    }
  }

  /** `applyEnhancements` on the buffer read from the canvas. */
  method ApplyEnhancements(data: array<int>, w: int, h: int, settings: Settings, m: MathLib)
    requires Shaped(data[..], w, h) && Sound(m)
    modifies data
    ensures data[..] == Enhance(old(data[..]), w, h, settings, m)
  {
    RunDenoiseStage(data, w, h, settings, m);
    RunToneStage(data, settings);
    RunSharpenStage(data, w, h, settings, m);
  }

  /** The first branch of `applyEnhancements`. */
  method RunDenoiseStage(data: array<int>, w: int, h: int, settings: Settings, m: MathLib)
    requires Shaped(data[..], w, h) && Sound(m)
    modifies data
    ensures data[..] == DenoiseStage(old(data[..]), w, h, settings, m)
  {
    if settings.deblurring > 0.0 {
      ApplyAdvancedDenoising(data, w, h, settings.deblurring / 100.0, m);
    }
  }

  /** The second branch of `applyEnhancements`. */
  method RunToneStage(data: array<int>, settings: Settings)
    requires data.Length % 4 == 0
    modifies data
    ensures data[..] == ToneStage(old(data[..]), settings)
  {
    if settings.faceEnhancement > 0.0 {
      ApplyBrightnessContrast(data, settings.faceEnhancement / 100.0);
    }
  }

  /** The third branch of `applyEnhancements`. */
  method RunSharpenStage(data: array<int>, w: int, h: int, settings: Settings, m: MathLib)
    requires Shaped(data[..], w, h)
    modifies data
    ensures data[..] == SharpenStage(old(data[..]), w, h, settings, m)
  {
    if settings.sharpening > 0.0 {
      ApplyAdaptiveSharpening(data, w, h, settings.sharpening / 100.0, m);
    }
  }

  /** With no filter setting positive the buffer comes back unchanged. */
  lemma {:induction false} EnhanceAllOff(s: seq<int>, w: int, h: int, settings: Settings, m: MathLib)
    requires Shaped(s, w, h) && Sound(m)
    requires settings.deblurring <= 0.0 && settings.faceEnhancement <= 0.0 && settings.sharpening <= 0.0
    ensures Enhance(s, w, h, settings, m) == s
  {
  }

  /** A filter that only rewrites interior colour samples keeps every alpha sample. */
  lemma {:induction false} FramedKeepsAlpha(src: seq<int>, tgt: seq<int>, w: int, h: int, r: int)
    requires w > 0 && FramedBy(src, tgt, w, h, r)
    ensures forall k | 0 <= k < |src| && IsAlpha(k) :: tgt[k] == src[k]
  {
    forall k | 0 <= k < |src| && IsAlpha(k)
      ensures tgt[k] == src[k]
    {
      assert !Interior(w, h, r, k);
    }
  }

  /** The denoiser never changes an alpha sample. */
  lemma {:induction false} DenoiseAlpha(s: seq<int>, w: int, h: int, d: real, m: MathLib)
    requires Shaped(s, w, h) && d > 0.0 && Sound(m)
    ensures forall k | 0 <= k < |s| && IsAlpha(k) :: Denoise(s, w, h, d, m)[k] == s[k]
  {
    var afterNlm := NlmPass(s, s, w, h, d, m);
    FramedKeepsAlpha(s, afterNlm, w, h, SearchRadius(d));
    var afterBilateral := BilateralPass(afterNlm, afterNlm, w, h, d, m);
    FramedKeepsAlpha(afterNlm, afterBilateral, w, h, Radius(d));
    var afterMedian := if d > 0.3 then MedianPass(afterBilateral, w, h, d) else afterBilateral;
    if d > 0.3 {
      FramedKeepsAlpha(afterBilateral, afterMedian, w, h, 1);
    }
    if d > 0.6 {
      WaveletAlpha(afterMedian, w, h, d);
    }
  }

  /** No stage of the enhancer ever changes an alpha sample. */
  lemma {:induction false} EnhanceAlpha(s: seq<int>, w: int, h: int, settings: Settings, m: MathLib)
    requires Shaped(s, w, h) && Sound(m)
    ensures forall k | 0 <= k < |s| && IsAlpha(k) :: Enhance(s, w, h, settings, m)[k] == s[k]
  {
    var denoised := DenoiseStage(s, w, h, settings, m);
    if settings.deblurring > 0.0 {
      DenoiseAlpha(s, w, h, settings.deblurring / 100.0, m);
    }
    var toned := ToneStage(denoised, settings);
    if settings.sharpening > 0.0 {
      FramedKeepsAlpha(toned, SharpenStage(toned, w, h, settings, m), w, h, 1);
    }
  }

  /** Maximum principle for the denoiser: with intensity at most 1 every
      pass keeps each channel within the range it had before, so the
      denoiser never brightens the brightest or darkens the darkest sample
      of a channel. */
  lemma {:induction false} DenoiseWithin(s: seq<int>, w: int, h: int, d: real, m: MathLib, c: int, lo: int, hi: int)
    requires Shaped(s, w, h) && 0.0 < d <= 1.0 && Sound(m) && 0 <= c < 4
    requires 0 <= lo <= hi <= 255 && ChannelBetween(s, c, lo, hi)
    ensures ChannelBetween(Denoise(s, w, h, d, m), c, lo, hi)
  {
    var afterNlm := NlmPass(s, s, w, h, d, m);
    NlmPassWithin(s, w, h, d, m, c, lo, hi);
    var afterBilateral := BilateralPass(afterNlm, afterNlm, w, h, d, m);
    BilateralPassWithin(afterNlm, w, h, d, m, c, lo, hi);
    var afterMedian := if d > 0.3 then MedianPass(afterBilateral, w, h, d) else afterBilateral;
    if d > 0.3 {
      MedianPassWithin(afterBilateral, w, h, d, c, lo, hi);
    }
    if d > 0.6 {
      WaveletWithin(afterMedian, w, h, d, c, lo, hi);
    }
  }

  /** A flat byte image is a fixed point of the denoiser. */
  lemma {:induction false} DenoiseUniform(s: seq<int>, w: int, h: int, d: real, m: MathLib)
    requires Shaped(s, w, h) && Uniform(s) && ByteRange(s) && d > 0.0 && Sound(m)
    ensures Denoise(s, w, h, d, m) == s
  {
    NlmUniform(s, w, h, d, m);
    BilateralUniform(s, w, h, d, m);
    if d > 0.3 {
      MedianUniform(s, w, h, d);
    }
    if d > 0.6 {
      WaveletUniform(s, w, h, d);
    }
  }

  /** The denoiser maps byte buffers to byte buffers at any intensity: every
      pass keeps a sample or writes a stored byte. */
  lemma {:induction false} DenoiseBytes(s: seq<int>, w: int, h: int, d: real, m: MathLib)
    requires Shaped(s, w, h) && ByteRange(s) && d > 0.0 && Sound(m)
    ensures ByteRange(Denoise(s, w, h, d, m))
  {
    var afterNlm := NlmPass(s, s, w, h, d, m);
    NlmPassBytes(s, s, w, h, d, m);
    var afterBilateral := BilateralPass(afterNlm, afterNlm, w, h, d, m);
    BilateralPassBytes(afterNlm, afterNlm, w, h, d, m);
    var afterMedian := if d > 0.3 then MedianPass(afterBilateral, w, h, d) else afterBilateral;
    if d > 0.3 {
      MedianPassBytes(afterBilateral, w, h, d);
    }
    if d > 0.6 {
      WaveletBytes(afterMedian, w, h, d);
    }
  }

  /** Every sample stays a byte through every stage, whatever the settings. */
  lemma {:induction false} EnhanceBytes(s: seq<int>, w: int, h: int, settings: Settings, m: MathLib)
    requires Shaped(s, w, h) && ByteRange(s) && Sound(m)
    ensures ByteRange(Enhance(s, w, h, settings, m))
  {
    var denoised := DenoiseStage(s, w, h, settings, m);
    if settings.deblurring > 0.0 {
      DenoiseBytes(s, w, h, settings.deblurring / 100.0, m);
    }
    var toned := ToneStage(denoised, settings);
    if settings.faceEnhancement > 0.0 {
      ToneMapBytes(denoised, settings.faceEnhancement / 100.0);
    }
    var sharpened := SharpenStage(toned, w, h, settings, m);
    forall k | 0 <= k < |sharpened|
      ensures 0 <= sharpened[k] <= 255
    {
      if settings.sharpening > 0.0 && !Interior(w, h, 1, k) {
        assert sharpened[k] == toned[k];
      }
    }
  }

  /** The remap stage keeps a flat byte image a flat byte image. */
  lemma {:induction false} ToneStageUniform(s: seq<int>, settings: Settings)
    requires Uniform(s) && ByteRange(s)
    ensures Uniform(ToneStage(s, settings)) && ByteRange(ToneStage(s, settings))
  {
    if settings.faceEnhancement > 0.0 {
      ToneMapFlatBytes(s, settings.faceEnhancement / 100.0, ToneStage(s, settings));
    } else {
      assert ToneStage(s, settings) == s;
    }
  }

  /** The remapped buffer r of a flat byte image is a flat byte image. */
  lemma {:induction false} ToneMapFlatBytes(s: seq<int>, d: real, r: seq<int>)
    requires Uniform(s) && ByteRange(s) && r == ToneMap(s, d)
    ensures Uniform(r) && ByteRange(r)
  {
    ToneMapUniform(s, d);
    ToneMapBytes(s, d);
  }

  /** A flat byte image stays flat through the whole enhancer: the denoiser
      and the sharpening leave it as it is and the remap maps every pixel
      the same way. */
  lemma {:induction false} EnhanceUniform(s: seq<int>, w: int, h: int, settings: Settings, m: MathLib)
    requires Shaped(s, w, h) && Uniform(s) && ByteRange(s) && Sound(m)
    ensures Uniform(Enhance(s, w, h, settings, m))
  {
    DenoiseStageUniform(s, w, h, settings, m);
    ToneStageUniform(s, settings);
    SharpenStageUniform(ToneStage(s, settings), w, h, settings, m);
  }

  lemma {:induction false} DenoiseStageUniform(s: seq<int>, w: int, h: int, settings: Settings, m: MathLib)
    requires Shaped(s, w, h) && Uniform(s) && ByteRange(s) && Sound(m)
    ensures DenoiseStage(s, w, h, settings, m) == s
  {
    if settings.deblurring > 0.0 {
      DenoiseUniform(s, w, h, settings.deblurring / 100.0, m);
    }
  }

  lemma {:induction false} SharpenStageUniform(s: seq<int>, w: int, h: int, settings: Settings, m: MathLib)
    requires Shaped(s, w, h) && Uniform(s) && ByteRange(s)
    ensures SharpenStage(s, w, h, settings, m) == s
  {
    if settings.sharpening > 0.0 {
      SharpenUniform(s, w, h, settings.sharpening / 100.0, m);
    }
  }
}
