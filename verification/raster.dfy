/** The RGBA raster that every filter of the browser pipeline works on: a flat,
    row-major buffer of `width * height` pixels, four samples each (red, green,
    blue, alpha), stride `width * 4`. Coordinates of a sample index are
    recovered with `Col`, `Row` and `Chan`. */
module Raster {

  /** Sample `c` of pixel (x, y), as the filters compute it: `(y * width + x) * 4 + c`,
      with the row start `y * width` written as `RowStart`. */
  function Idx(w: int, x: int, y: int, c: int): int
  {
    (RowStart(w, y) + x) * 4 + c
  }

  /** `y * width`, the index of the first pixel of row y, defined by
      repeated addition so that index arithmetic stays linear; `RowStartIs`
      gives the product. */
  function RowStart(w: int, y: int): int
    decreases if y < 0 then -y else y
  {
    if y == 0 then 0 else if y > 0 then RowStart(w, y - 1) + w else RowStart(w, y + 1) - w
  }

  lemma {:induction false} RowStartIs(w: int, y: int)
    ensures RowStart(w, y) == y * w
    decreases if y < 0 then -y else y
  {
    if y > 0 {
      RowStartIs(w, y - 1);
    } else if y < 0 {
      RowStartIs(w, y + 1);
    }
  }

  /** Channel of a sample: 0 red, 1 green, 2 blue, 3 alpha. */
  function Chan(k: int): int
  {
    k % 4
  }

  /** Column of the pixel holding sample `k`. */
  function Col(w: int, k: int): int
    requires w > 0
  {
    (k / 4) % w
  }

  /** Row of the pixel holding sample `k`. */
  function Row(w: int, k: int): int
    requires w > 0
  {
    (k / 4) / w
  }

  predicate IsAlpha(k: int)
  {
    Chan(k) == 3
  }

  /** Every sample is a byte value, as a `Uint8ClampedArray` guarantees. */
  predicate ByteRange(s: seq<int>)
  {
    forall k | 0 <= k < |s| :: 0 <= s[k] <= 255
  }

  /** Every sample of channel c lies in [lo, hi]. */
  predicate ChannelBetween(s: seq<int>, c: int, lo: int, hi: int)
  {
    forall k | 0 <= k < |s| && Chan(k) == c :: lo <= s[k] <= hi
  }

  /** A buffer of the right length for a w x h raster. */
  predicate Shaped(s: seq<int>, w: int, h: int)
  {
    w > 0 && h > 0 && |s| == w * h * 4
  }

  /** A flat field: every pixel equals the first one (per channel). */
  predicate Uniform(s: seq<int>)
  {
    forall k | 0 <= k < |s| :: s[k] == s[k % 4]
  }

  /** The pixel (x, y) is at least r pixels away from every edge. */
  predicate Inset(w: int, h: int, x: int, y: int, r: int)
  {
    r <= x < w - r && r <= y < h - r
  }

  /** Sample `k` is a colour sample of a pixel at least `r` pixels away from
      every edge: the region a border-excluding filter of radius `r` rewrites. */
  predicate Interior(w: int, h: int, r: int, k: int)
    requires w > 0
  {
    Chan(k) < 3 && r <= Col(w, k) < w - r && r <= Row(w, k) < h - r
  }

  /** A positive multiple of a positive number is at least that number. */
  lemma {:induction false} MulAtLeast(a: int, d: int)
    requires a >= 1 && d > 0
    ensures a * d >= d
  {
    var i := 1;
    while i < a
      invariant 1 <= i <= a && i * d >= d
    {
      i := i + 1;
      assert i * d == (i - 1) * d + d;
    }
  }

  /** Multiplying by a non-negative number keeps the order. */
  lemma {:induction false} MulMono(a: int, b: int, d: int)
    requires a <= b && d >= 0
    ensures a * d <= b * d
  {
    if a < b && d > 0 {
      MulAtLeast(b - a, d);
      assert b * d - a * d == (b - a) * d;
    }
  }

  /** Sample c of pixel (x, y) of a buffer of the right shape. */
  function At(s: seq<int>, w: int, h: int, x: int, y: int, c: int): int
    requires Shaped(s, w, h) && 0 <= x < w && 0 <= y < h && 0 <= c < 4
  {
    IdxCoords(w, h, x, y, c);
    s[Idx(w, x, y, c)]
  }

  lemma {:induction false} AtBetween(s: seq<int>, w: int, h: int, x: int, y: int, c: int, lo: int, hi: int)
    requires Shaped(s, w, h) && 0 <= x < w && 0 <= y < h && 0 <= c < 4 && ChannelBetween(s, c, lo, hi)
    ensures lo <= At(s, w, h, x, y, c) <= hi
  {
    IdxCoords(w, h, x, y, c);
  }

  /** A byte buffer has every channel in [0, 255]; a flat field has channel c equal to its first sample. */
  lemma {:induction false} ChannelBounds(s: seq<int>, c: int)
    requires 0 <= c < 4
    ensures ByteRange(s) ==> ChannelBetween(s, c, 0, 255)
    ensures Uniform(s) && c < |s| ==> ChannelBetween(s, c, s[c], s[c])
  {
    if Uniform(s) && c < |s| {
      forall k | 0 <= k < |s| && Chan(k) == c
        ensures s[k] == s[c]
      {
        assert s[k] == s[k % 4];
      }
    }
  }

  /** Quotient and remainder are determined by the division identity. */
  lemma {:induction false} DivModUnique(p: int, d: int, q: int, r: int)
    requires d > 0 && 0 <= r < d && p == q * d + r
    ensures p / d == q && p % d == r
  {
    var q', r' := p / d, p % d;
    assert p == q' * d + r' && 0 <= r' < d;
    assert (q - q') * d == r' - r;
    if q' > q {
      MulAtLeast(q' - q, d);
    } else if q' < q {
      MulAtLeast(q - q', d);
    }
  }

  /** The index of (x, y, c) is inside the buffer and maps back to (x, y, c). */
  lemma {:induction false} IdxCoords(w: int, h: int, x: int, y: int, c: int)
    requires 0 <= x < w && 0 <= y < h && 0 <= c < 4
    ensures 0 <= Idx(w, x, y, c) < w * h * 4
    ensures Col(w, Idx(w, x, y, c)) == x && Row(w, Idx(w, x, y, c)) == y
    ensures Chan(Idx(w, x, y, c)) == c
  {
    RowStartIs(w, y);
    var p := y * w + x;
    assert 0 <= y * w <= (h - 1) * w;
    assert p < h * w;
    DivModUnique(Idx(w, x, y, c), 4, p, c);
    DivModUnique(p, w, y, x);
  }

  /** Every sample index of a w x h buffer is the index of its own coordinates. */
  lemma {:induction false} CoordsOf(w: int, h: int, k: int)
    requires w > 0 && h > 0 && 0 <= k < w * h * 4
    ensures 0 <= Col(w, k) < w && 0 <= Row(w, k) < h && 0 <= Chan(k) < 4
    ensures Idx(w, Col(w, k), Row(w, k), Chan(k)) == k
  {
    RowStartIs(w, Row(w, k));
    var wh := w * h;
    var p := k / 4;
    assert k == p * 4 + k % 4;
    assert p < wh;
    var y, x := p / w, p % w;
    assert p == y * w + x;
    RowBelow(p, w, h);
    assert Idx(w, x, y, k % 4) == (y * w + x) * 4 + k % 4;
  }

  /** A pixel index below w * h lies in one of the first h rows. */
  lemma {:induction false} RowBelow(p: int, w: int, h: int)
    requires w > 0 && 0 <= p < w * h
    ensures p / w < h
  {
    if p / w >= h {
      MulMono(h, p / w, w);
      assert false;
    }
  }

  /** Two indices with the same coordinates are equal. */
  lemma {:induction false} SameCoords(w: int, k1: int, k2: int)
    requires w > 0 && 0 <= k1 && 0 <= k2
    requires Col(w, k1) == Col(w, k2) && Row(w, k1) == Row(w, k2) && Chan(k1) == Chan(k2)
    ensures k1 == k2
  {
    assert k1 / 4 == Row(w, k1) * w + Col(w, k1);
    assert k2 / 4 == Row(w, k2) * w + Col(w, k2);
  }

  /** The channel of the index of (x, y, c) is c, whatever x and y (in or out of range). */
  lemma {:induction false} ChanOfIdx(w: int, x: int, y: int, c: int)
    requires 0 <= c < 4
    ensures Chan(Idx(w, x, y, c)) == c
  {
    DivModUnique(Idx(w, x, y, c), 4, RowStart(w, y) + x, c);
  }

  /** In a flat field every sample equals the sample of the same channel of the first pixel. */
  lemma {:induction false} UniformAt(s: seq<int>, w: int, h: int, x: int, y: int, c: int)
    requires Shaped(s, w, h) && 0 <= x < w && 0 <= y < h && 0 <= c < 4 && Uniform(s)
    ensures At(s, w, h, x, y, c) == s[c]
  {
    IdxCoords(w, h, x, y, c);
  }

  /** Sample k precedes sample c of pixel (x, y) in the row, column, channel
      order in which the filters visit samples. */
  predicate ScannedBefore(w: int, k: int, y: int, x: int, c: int)
    requires w > 0
  {
    Row(w, k) < y || (Row(w, k) == y && (Col(w, k) < x || (Col(w, k) == x && Chan(k) < c)))
  }

  /** `tgt` differs from `src` only at colour samples at least r pixels away
      from every edge. */
  ghost predicate FramedBy(src: seq<int>, tgt: seq<int>, w: int, h: int, r: int)
    requires w > 0
  {
    |src| == |tgt| && forall k {:trigger tgt[k]} | 0 <= k < |src| && !Interior(w, h, r, k) :: tgt[k] == src[k]
  }

  /** A scan that rewrites `src` into `tgt` has reached sample c of pixel
      (x, y): `a` holds `tgt` at every sample visited so far and `src` at the others. */
  ghost predicate SweptTo(a: seq<int>, src: seq<int>, tgt: seq<int>, w: int, y: int, x: int, c: int)
    requires w > 0
  {
    |a| == |src| == |tgt| && forall k {:trigger a[k]} | 0 <= k < |a| :: a[k] == if ScannedBefore(w, k, y, x, c) then tgt[k] else src[k]
  }

  lemma {:induction false} SweepStart(src: seq<int>, tgt: seq<int>, w: int, h: int, r: int)
    requires Shaped(src, w, h) && r >= 0 && FramedBy(src, tgt, w, h, r)
    ensures SweptTo(src, src, tgt, w, r, r, 0)
  {
  }

  /** Writing the target value of the current sample advances the scan by one sample. */
  lemma {:induction false} SweepWrite(a: seq<int>, src: seq<int>, tgt: seq<int>, w: int, h: int, x: int, y: int, c: int)
    requires Shaped(src, w, h) && 0 <= x < w && 0 <= y < h && 0 <= c < 4
    requires SweptTo(a, src, tgt, w, y, x, c)
    ensures 0 <= Idx(w, x, y, c) < |a|
    ensures SweptTo(a[Idx(w, x, y, c) := tgt[Idx(w, x, y, c)]], src, tgt, w, y, x, c + 1)
  {
    var p := Idx(w, x, y, c);
    IdxCoords(w, h, x, y, c);
    var a' := a[p := tgt[p]];
    forall k | 0 <= k < |a'|
      ensures a'[k] == if ScannedBefore(w, k, y, x, c + 1) then tgt[k] else src[k]
    {
      if k != p && Row(w, k) == y && Col(w, k) == x && Chan(k) == c {
        SameCoords(w, k, p);
      }
    }
  }

  /** The alpha sample of a pixel is never rewritten, so the scan moves on to the next pixel. */
  lemma {:induction false} SweepNextPixel(a: seq<int>, src: seq<int>, tgt: seq<int>, w: int, h: int, r: int, x: int, y: int)
    requires w > 0 && FramedBy(src, tgt, w, h, r) && SweptTo(a, src, tgt, w, y, x, 3)
    ensures SweptTo(a, src, tgt, w, y, x + 1, 0)
  {
    forall k | 0 <= k < |a| && Row(w, k) == y && Col(w, k) == x && Chan(k) == 3
      ensures tgt[k] == src[k]
    {
    }
  }

  /** Past the last interior column the rest of the row and the start of the
      next row are border, so the scan moves on to the next row. */
  lemma {:induction false} SweepNextRow(a: seq<int>, src: seq<int>, tgt: seq<int>, w: int, h: int, r: int, x: int, y: int)
    requires w > 0 && r >= 0 && x >= w - r && FramedBy(src, tgt, w, h, r) && SweptTo(a, src, tgt, w, y, x, 0)
    ensures SweptTo(a, src, tgt, w, y + 1, r, 0)
  {
  }

  /** Past the last interior row everything left is border: the scan is complete. */
  lemma {:induction false} SweepEnd(a: seq<int>, src: seq<int>, tgt: seq<int>, w: int, h: int, r: int, y: int)
    requires w > 0 && r >= 0 && y >= h - r && FramedBy(src, tgt, w, h, r) && SweptTo(a, src, tgt, w, y, r, 0)
    ensures a == tgt
  {
    forall k | 0 <= k < |a|
      ensures a[k] == tgt[k]
    {
    }
  }

  /** `s` with its colour samples taken from `t` and its alpha samples kept. */
  function Overlay(s: seq<int>, t: seq<int>): (r: seq<int>)
    requires |s| == |t|
    ensures |r| == |s|
    ensures forall k | 0 <= k < |s| :: r[k] == if IsAlpha(k) then s[k] else t[k]
  {
    seq(|s|, k requires 0 <= k < |s| => if IsAlpha(k) then s[k] else t[k])
  }

  /** The copy-back loop of the filters that build their result in a second
      buffer: the colour samples of every pixel are copied, alpha is left alone. */
  method CopyColour(data: array<int>, from: array<int>)
    requires data != from && data.Length == from.Length && data.Length % 4 == 0
    modifies data
    ensures data[..] == Overlay(old(data[..]), from[..])
  {
    ghost var src := data[..];
    ghost var tgt := Overlay(src, from[..]);
    var i := 0;
    while i < data.Length
      invariant 0 <= i <= data.Length && i % 4 == 0
      invariant forall k | 0 <= k < data.Length :: data[k] == if k < i then tgt[k] else src[k]
    {
      PixelStep(i, data.Length);
      ghost var before := data[..];
      data[i], data[i + 1], data[i + 2] := from[i], from[i + 1], from[i + 2];
      CopyStep(before, data[..], src, tgt, i);
      i := i + 4;
    }
    assert data[..] == tgt;
  }

  /** A fresh buffer holding the same samples (`new Uint8ClampedArray(data)`). */
  method Duplicate(data: array<int>) returns (copy: array<int>)
    ensures fresh(copy) && copy[..] == data[..]
  {
    copy := new int[data.Length](k requires 0 <= k < data.Length reads data => data[k]);
  }

  /** The four samples of a pixel that starts at a multiple of 4 are its red,
      green, blue and alpha samples. */
  lemma {:induction false} PixelChannels(i: int)
    requires i % 4 == 0
    ensures Chan(i) == 0 && Chan(i + 1) == 1 && Chan(i + 2) == 2 && Chan(i + 3) == 3
  {
    var q := i / 4;
    DivModUnique(i + 1, 4, q, 1);
    DivModUnique(i + 2, 4, q, 2);
    DivModUnique(i + 3, 4, q, 3);
  }

  /** Sample `k % 4` of the first pixel has the channel of sample k. */
  lemma {:induction false} ChanOfFirstPixel(k: int)
    ensures Chan(k % 4) == Chan(k)
  {
    DivModUnique(k % 4, 4, 0, k % 4);
  }

  /** The pixel that starts at sample i of a buffer of n samples is whole,
      and the next one starts at i + 4. */
  lemma {:induction false} PixelStep(i: int, n: int)
    requires 0 <= i < n && i % 4 == 0 && n % 4 == 0
    ensures i + 4 <= n && (i + 4) % 4 == 0
  {
    var a, b := i / 4, n / 4;
    assert i == 4 * a && n == 4 * b;
  }

  lemma {:induction false} CopyStep(a: seq<int>, a': seq<int>, src: seq<int>, tgt: seq<int>, i: int)
    requires |a| == |src| == |a'| == |tgt| && |src| % 4 == 0 && 0 <= i < |src| && i % 4 == 0
    requires forall k | 0 <= k < |src| && IsAlpha(k) :: tgt[k] == src[k]
    requires forall k | 0 <= k < |a| :: a[k] == if k < i then tgt[k] else src[k]
    requires a' == a[i := tgt[i]][i + 1 := tgt[i + 1]][i + 2 := tgt[i + 2]]
    ensures forall k | 0 <= k < |a| :: a'[k] == if k < i + 4 then tgt[k] else src[k]
  {
    assert IsAlpha(i + 3);
  }
}
