/** `applyBrightnessContrast`: a per-sample affine remap of the colour
    samples around mid-grey 128, with contrast `1 + 0.3 i` and brightness
    `15 i` for intensity i, clamped to [0, 255]; alpha is left alone. */
module BrightnessContrast {
  import opened Raster
  import opened JsNumbers

  function Contrast(d: real): real { 1.0 + d * 0.3 }
  function Brightness(d: real): real { d * 15.0 }

  /** The affine remap before clamping. */
  function ToneValue(v: int, d: real): real
  {
    (v as real - 128.0) * Contrast(d) + 128.0 + Brightness(d)
  }

  /** The byte stored for colour sample v at intensity d: the clamped
      affine value, rounded to the nearest byte by the store. */
  function ToneAt(v: int, d: real): (r: int)
    ensures 0 <= r <= 255
  {
    ToUint8Clamp(Clamp255(ToneValue(v, d)))
  }

  /** The remap of one colour sample at intensity d, as a function value. */
  function Tone(d: real): int -> int
  {
    v => ToneAt(v, d)
  }

  /** A buffer with `f` applied to every colour sample and alpha left alone. */
  function MapColour(s: seq<int>, f: int -> int): (r: seq<int>)
    ensures |r| == |s|
    ensures forall k | 0 <= k < |s| && IsAlpha(k) :: r[k] == s[k]
  {
    seq(|s|, k requires 0 <= k < |s| => if IsAlpha(k) then s[k] else f(s[k]))
  }

  /** The whole buffer after the remap. */
  function ToneMap(s: seq<int>, d: real): (r: seq<int>)
    ensures |r| == |s|
    ensures forall k | 0 <= k < |s| && IsAlpha(k) :: r[k] == s[k]
    ensures forall k | 0 <= k < |s| && !IsAlpha(k) :: 0 <= r[k] <= 255
  {
    MapColour(s, Tone(d))
  }

  /** The loop of `applyBrightnessContrast`, one pixel (four samples) per step. */
  method ApplyBrightnessContrast(data: array<int>, intensity: real)
    requires data.Length % 4 == 0
    modifies data
    ensures data[..] == ToneMap(old(data[..]), intensity)
  {
    ghost var src := data[..];
    var tone := Tone(intensity);
    ghost var tgt := MapColour(src, tone);
    var i := 0;
    while i < data.Length
      invariant 0 <= i <= data.Length && i % 4 == 0
      invariant forall k | 0 <= k < data.Length :: data[k] == if k < i then tgt[k] else src[k]
    {
      PixelStep(i, data.Length);
      ghost var before := data[..];
      var r, g, b := tone(data[i]), tone(data[i + 1]), tone(data[i + 2]);
      data[i], data[i + 1], data[i + 2] := r, g, b;
      MapColourStep(before, data[..], src, tgt, tone, i);
      i := i + 4;
    }
    assert data[..] == tgt;
  }

  /** One step of the loop: the three colour samples of the pixel at i are
      remapped and its alpha sample is left alone. */
  lemma {:induction false} MapColourStep(a: seq<int>, a': seq<int>, src: seq<int>, tgt: seq<int>, f: int -> int, i: int)
    requires |a| == |src| == |a'| && |src| % 4 == 0 && 0 <= i < |src| && i % 4 == 0 && tgt == MapColour(src, f)
    requires forall k | 0 <= k < |a| :: a[k] == if k < i then tgt[k] else src[k]
    requires a' == a[i := f(a[i])][i + 1 := f(a[i + 1])][i + 2 := f(a[i + 2])]
    ensures forall k | 0 <= k < |a| :: a'[k] == if k < i + 4 then tgt[k] else src[k]
  {
    PixelChannels(i);
    forall k | 0 <= k < |a|
      ensures a'[k] == if k < i + 4 then tgt[k] else src[k]
    {
      if i <= k < i + 3 {
        assert !IsAlpha(k);
      }
    }
  }

  /** The stored byte is within half a unit of the clamped affine value. */
  lemma {:induction false} ToneNearValue(v: int, d: real)
    ensures -0.5 <= ToneAt(v, d) as real - Clamp255(ToneValue(v, d)) <= 0.5
  {
  }

  /** The remap never reverses the order of two samples. */
  lemma {:induction false} ToneMonotone(u: int, v: int, d: real)
    requires u <= v && d >= 0.0
    ensures ToneAt(u, d) <= ToneAt(v, d)
  {
    ToneValueMonotone(u, v, d);
    ClampMonotone(ToneValue(u, d), ToneValue(v, d));
    StoreMonotone(Clamp255(ToneValue(u, d)), Clamp255(ToneValue(v, d)));
  }

  lemma {:induction false} ToneValueMonotone(u: int, v: int, d: real)
    requires u <= v && d >= 0.0
    ensures ToneValue(u, d) <= ToneValue(v, d)
  {
    ScaleMonotone(u as real - 128.0, v as real - 128.0, Contrast(d));
  }

  /** At full intensity mid-grey 128 becomes 143. */
  lemma {:induction false} MidGreyAtFullIntensity()
    ensures ToneAt(128, 1.0) == 143
  {
    StoreByte(143);
  }

  /** At intensity 0 the remap is the identity on bytes. */
  lemma {:induction false} ToneZero(v: int)
    requires 0 <= v <= 255
    ensures ToneAt(v, 0.0) == v
  {
    StoreByte(v);
  }

  /** A flat field stays flat. */
  lemma {:induction false} ToneMapUniform(s: seq<int>, d: real)
    requires Uniform(s)
    ensures Uniform(ToneMap(s, d))
  {
    var r := ToneMap(s, d);
    forall k | 0 <= k < |r|
      ensures r[k] == r[k % 4]
    {
      ChanOfFirstPixel(k);
      if !IsAlpha(k) {
        ToneMapAt(s, d, k);
        ToneMapAt(s, d, k % 4);
      }
    }
  }

  /** A colour sample of the remapped buffer is the remap of the sample. */
  lemma {:induction false} ToneMapAt(s: seq<int>, d: real, k: int)
    requires 0 <= k < |s| && !IsAlpha(k)
    ensures ToneMap(s, d)[k] == ToneAt(s[k], d)
  {
  }

  /** A byte buffer stays a byte buffer: colour samples are clamped and alpha is kept. */
  lemma {:induction false} ToneMapBytes(s: seq<int>, d: real)
    requires ByteRange(s)
    ensures ByteRange(ToneMap(s, d))
  {
    var r := ToneMap(s, d);
    forall k | 0 <= k < |r|
      ensures 0 <= r[k] <= 255
    {
      if IsAlpha(k) {
        assert r[k] == s[k];
      }
    }
  }
}
