/** The tile arithmetic of `enhance_image_tiled`, one axis at a time. An
    axis of n pixels is cut into tiles `effective_tile_size` apart; each tile
    reads a window widened by `overlap` on both sides and clipped to the
    image, the model upscales it by `scale`, and the part of the result left
    after trimming the overlap is placed into the output. The same
    arithmetic serves rows (i, h) and columns (j, w). */
module Tiling {

  function Min(a: int, b: int): int { if a <= b then a else b }
  function Max(a: int, b: int): int { if a >= b then a else b }

  /** `tile_size`, `overlap` and `scale`. */
  datatype Grid = Grid(tileSize: int, overlap: int, scale: int)

  /** A half-open range [lo, hi) of positions along one axis. */
  datatype Span = Span(lo: int, hi: int)

  /** `effective_tile_size`: the distance between the starts of two tiles. */
  function Stride(g: Grid): int
  {
    g.tileSize - 2 * g.overlap
  }

  /** The configurations this model covers: the stride is positive and at
      least the overlap, so that every window and every trimmed region has
      a positive size and no slice bound is negative. */
  predicate Sane(g: Grid)
  {
    g.overlap >= 0 && g.scale >= 1 && Stride(g) >= 1 && Stride(g) >= g.overlap
  }

  /** `int(np.ceil(n / e))`: the least q with q * e >= n. */
  function CeilDiv(n: int, e: int): (q: int)
    requires n >= 0 && e >= 1
    ensures q >= 0 && (q - 1) * e < n <= q * e
  {
    var q := (n + e - 1) / e;
    var r := (n + e - 1) % e;
    assert n + e - 1 == q * e + r;
    assert (q - 1) * e == q * e - e;
    q
  }

  /** `num_tiles_h` / `num_tiles_w`: at least one tile, and the fewest tiles
      whose strides reach the end of the axis. */
  function Count(n: int, g: Grid): (k: int)
    requires n >= 1 && Sane(g)
    ensures k >= 1 && (k - 1) * Stride(g) < n <= k * Stride(g)
  {
    Max(1, CeilDiv(n, Stride(g)))
  }

  /** The input window of tile j, widened by the overlap and clipped to [0, n). */
  function Window(n: int, g: Grid, j: int): Span
  {
    Span(Max(0, j * Stride(g) - g.overlap), Min(n, (j + 1) * Stride(g) + g.overlap))
  }

  /** `expected_w`: the length of the upscaled window. */
  function Expected(n: int, g: Grid, j: int): int
  {
    (Window(n, g, j).hi - Window(n, g, j).lo) * g.scale
  }

  /** `valid_x_start`: the first tile keeps its leading edge, every other
      tile drops the upscaled overlap. */
  function ValidStart(g: Grid, j: int): int
  {
    if j == 0 then 0 else g.overlap * g.scale
  }

  /** `valid_x_end` as written, for a tile result `actual` samples long: the
      last tile keeps its trailing edge, every other tile drops the full
      upscaled overlap, whether or not its window reached that far. */
  function ValidEndAsWritten(n: int, g: Grid, j: int, actual: int): int
    requires n >= 1 && Sane(g)
  {
    if j == Count(n, g) - 1 then Min(actual, Expected(n, g, j))
    else Min(actual - g.overlap * g.scale, Expected(n, g, j))
  }

  /** How far the window of tile j reaches past the start of tile j + 1:
      the overlap, or less where the window was clipped at the image edge. */
  function Trailing(n: int, g: Grid, j: int): int
  {
    Window(n, g, j).hi - (j + 1) * Stride(g)
  }

  /** The corrected `valid_x_end`: a tile other than the last drops only the
      overlap its window actually has past the start of the next tile. */
  function ValidEnd(n: int, g: Grid, j: int, actual: int): int
    requires n >= 1 && Sane(g)
  {
    if j == Count(n, g) - 1 then Min(actual, Expected(n, g, j))
    else Min(actual - Trailing(n, g, j) * g.scale, Expected(n, g, j))
  }

  /** The output range the code as written fills from tile j (its result
      having the expected length). */
  function PlacedAsWritten(n: int, g: Grid, j: int): Span
    requires n >= 1 && Sane(g)
  {
    Span(Window(n, g, j).lo * g.scale + ValidStart(g, j), Window(n, g, j).lo * g.scale + ValidEndAsWritten(n, g, j, Expected(n, g, j)))
  }

  /** The output range filled from tile j with the corrected trimming. */
  function Placed(n: int, g: Grid, j: int): Span
    requires n >= 1 && Sane(g)
  {
    Span(Window(n, g, j).lo * g.scale + ValidStart(g, j), Window(n, g, j).lo * g.scale + ValidEnd(n, g, j, Expected(n, g, j)))
  }

  /** Which `valid_x_end` the tile loop uses: the one the code computes, or
      the corrected one. */
  datatype Trimming = AsWritten | Corrected

  /** The output range filled from tile j under trimming t. */
  function PlacedBy(t: Trimming, n: int, g: Grid, j: int): Span
    requires n >= 1 && Sane(g)
  {
    if t == AsWritten then PlacedAsWritten(n, g, j) else Placed(n, g, j)
  }

  /** The tile whose corrected range holds output position X. */
  function Owner(n: int, g: Grid, X: int): (j: int)
    requires n >= 1 && Sane(g) && X >= 0
    ensures 0 <= j < Count(n, g)
  {
    MulMonotone(1, Stride(g), g.scale);
    DivBounds(X, Stride(g) * g.scale);
    Min(Count(n, g) - 1, X / (Stride(g) * g.scale))
  }

  // ---------------------------------------------------------------------
  // Arithmetic helpers

  lemma {:induction false} MulMonotone(a: int, b: int, c: int)
    requires a <= b && c >= 0
    ensures a * c <= b * c
  {
    assert b * c - a * c == (b - a) * c;
  }

  lemma {:induction false} MulStrict(a: int, b: int, c: int)
    requires a < b && c >= 1
    ensures a * c < b * c
  {
    assert b * c - a * c == (b - a) * c;
    MulMonotone(1, b - a, c);
  }

  lemma {:induction false} SubScaled(a: int, b: int, c: int)
    ensures a * c - b * c == (a - b) * c
  {
  }

  /** Before the last tile the stride has not yet reached the end of the axis. */
  lemma {:induction false} BeforeLast(n: int, g: Grid, j: int)
    requires n >= 1 && Sane(g) && 0 <= j < Count(n, g) - 1
    ensures (j + 1) * Stride(g) < n
  {
    MulMonotone(j + 1, Count(n, g) - 1, Stride(g));
  }

  /** The window of tile j, as the stride and the overlap place it. */
  lemma {:induction false} WindowBounds(n: int, g: Grid, j: int)
    requires n >= 1 && Sane(g) && 0 <= j < Count(n, g)
    ensures Window(n, g, j).lo == (if j == 0 then 0 else j * Stride(g) - g.overlap)
    ensures j < Count(n, g) - 1 ==> (j + 1) * Stride(g) < n && (j + 1) * Stride(g) <= Window(n, g, j).hi
    ensures j == Count(n, g) - 1 ==> Window(n, g, j).hi == n
    ensures (j + 1) * Stride(g) == j * Stride(g) + Stride(g)
  {
    var e := Stride(g);
    assert (j + 1) * e == j * e + e;
    if j >= 1 {
      MulMonotone(1, j, e);
    }
    if j < Count(n, g) - 1 {
      BeforeLast(n, g, j);
    } else {
      assert (j + 1) * e >= n;
    }
  }

  // ---------------------------------------------------------------------
  // Properties of the windows and of the trimming

  /** Every tile reads a non-empty window inside the image. */
  lemma {:induction false} WindowInImage(n: int, g: Grid, j: int)
    requires n >= 1 && Sane(g) && 0 <= j < Count(n, g)
    ensures 0 <= Window(n, g, j).lo < Window(n, g, j).hi <= n
  {
    WindowBounds(n, g, j);
    if j == Count(n, g) - 1 && j >= 1 {
      assert (j - 1 + 1) * Stride(g) < n;
    }
  }

  /** The trimmed region of every tile, as written and corrected, is a
      non-empty part of its result. */
  lemma {:induction false} ValidInTile(n: int, g: Grid, j: int)
    requires n >= 1 && Sane(g) && 0 <= j < Count(n, g)
    ensures 0 <= ValidStart(g, j) < ValidEndAsWritten(n, g, j, Expected(n, g, j)) <= Expected(n, g, j)
    ensures 0 <= ValidStart(g, j) < ValidEnd(n, g, j, Expected(n, g, j)) <= Expected(n, g, j)
  {
    var win, s := Window(n, g, j), g.scale;
    WindowBounds(n, g, j);
    TrimmedWidth(n, g, j);
    var first := ValidStartUnits(g, j);
    var asWritten := if j == Count(n, g) - 1 then win.hi - win.lo else win.hi - win.lo - g.overlap;
    var corrected := if j == Count(n, g) - 1 then win.hi - win.lo else (j + 1) * Stride(g) - win.lo;
    assert 0 <= first < asWritten <= win.hi - win.lo;
    assert first < corrected <= win.hi - win.lo;
    MulMonotone(0, first, s);
    MulStrict(first, asWritten, s);
    MulMonotone(asWritten, win.hi - win.lo, s);
    MulStrict(first, corrected, s);
    MulMonotone(corrected, win.hi - win.lo, s);
  }

  /** `ValidStart` in unscaled positions. */
  function ValidStartUnits(g: Grid, j: int): int
  {
    if j == 0 then 0 else g.overlap
  }

  lemma {:induction false} TrimmedWidth(n: int, g: Grid, j: int)
    requires n >= 1 && Sane(g) && 0 <= j < Count(n, g)
    ensures ValidStart(g, j) == ValidStartUnits(g, j) * g.scale
    ensures ValidEndAsWritten(n, g, j, Expected(n, g, j)) == (if j == Count(n, g) - 1 then Window(n, g, j).hi - Window(n, g, j).lo else Window(n, g, j).hi - Window(n, g, j).lo - g.overlap) * g.scale
    ensures ValidEnd(n, g, j, Expected(n, g, j)) == (if j == Count(n, g) - 1 then Window(n, g, j).hi - Window(n, g, j).lo else (j + 1) * Stride(g) - Window(n, g, j).lo) * g.scale
  {
    var win, s := Window(n, g, j), g.scale;
    WindowBounds(n, g, j);
    SubScaled(win.hi - win.lo, g.overlap, s);
    SubScaled(win.hi - win.lo, Trailing(n, g, j), s);
    if j < Count(n, g) - 1 {
      MulMonotone(0, g.overlap, s);
      MulMonotone(0, Trailing(n, g, j), s);
    }
  }

  // ---------------------------------------------------------------------
  // Where the trimmed regions land in the output

  /** The output range of tile j: it starts at `j * E * scale` (0 for the
      first tile); the corrected range of a tile other than the last ends
      where the next one starts, the range as written ends `overlap * scale`
      before the end of the upscaled window, and the last tile's range ends
      at the end of the output. */
  lemma {:induction false} PlacedBounds(n: int, g: Grid, j: int)
    requires n >= 1 && Sane(g) && 0 <= j < Count(n, g)
    ensures Placed(n, g, j).lo == PlacedAsWritten(n, g, j).lo == (if j == 0 then 0 else j * Stride(g) * g.scale)
    ensures Placed(n, g, j).hi == (if j == Count(n, g) - 1 then n * g.scale else (j + 1) * Stride(g) * g.scale)
    ensures PlacedAsWritten(n, g, j).hi == (if j == Count(n, g) - 1 then n * g.scale else (Window(n, g, j).hi - g.overlap) * g.scale)
  {
    var win, s := Window(n, g, j), g.scale;
    WindowBounds(n, g, j);
    TrimmedWidth(n, g, j);
    if j > 0 {
      SubScaled(j * Stride(g), g.overlap, s);
    }
    AddScaled(win.lo, win.hi - win.lo, s);
    AddScaled(win.lo, win.hi - win.lo - g.overlap, s);
    AddScaled(win.lo, (j + 1) * Stride(g) - win.lo, s);
  }

  lemma {:induction false} AddScaled(a: int, b: int, c: int)
    ensures a * c + b * c == (a + b) * c
  {
  }

  /** The bounds check before the write never fails: every range, as
      written or corrected, lies inside the `n * scale` samples of the output. */
  lemma {:induction false} PlacedInOutput(n: int, g: Grid, j: int)
    requires n >= 1 && Sane(g) && 0 <= j < Count(n, g)
    ensures 0 <= Placed(n, g, j).lo < Placed(n, g, j).hi <= n * g.scale
    ensures 0 <= PlacedAsWritten(n, g, j).lo < PlacedAsWritten(n, g, j).hi <= n * g.scale
  {
    PlacedBounds(n, g, j);
    WindowBounds(n, g, j);
    ValidInTile(n, g, j);
    WindowInImage(n, g, j);
    MulMonotone(0, Window(n, g, j).lo, g.scale);
    if j < Count(n, g) - 1 {
      MulMonotone((j + 1) * Stride(g), n, g.scale);
      MulMonotone(Window(n, g, j).hi - g.overlap, n, g.scale);
    }
  }

  /** With the corrected trimming each tile's range ends exactly where the
      next one begins. */
  lemma {:induction false} PlacedAbut(n: int, g: Grid, j: int)
    requires n >= 1 && Sane(g) && 0 <= j < Count(n, g) - 1
    ensures Placed(n, g, j).hi == Placed(n, g, j + 1).lo
  {
    PlacedBounds(n, g, j);
    PlacedBounds(n, g, j + 1);
  }

  /** As written, tile j's range never runs into the next one, and the two
      meet exactly when tile j's window was not clipped at the image edge;
      otherwise the samples between them are never written. */
  lemma {:induction false} PlacedAsWrittenAbutIff(n: int, g: Grid, j: int)
    requires n >= 1 && Sane(g) && 0 <= j < Count(n, g) - 1
    ensures PlacedAsWritten(n, g, j).hi <= PlacedAsWritten(n, g, j + 1).lo
    ensures PlacedAsWritten(n, g, j).hi == PlacedAsWritten(n, g, j + 1).lo
        <==> Window(n, g, j).hi == (j + 1) * Stride(g) + g.overlap
  {
    var e, o, s := Stride(g), g.overlap, g.scale;
    var hi := Window(n, g, j).hi;
    PlacedBounds(n, g, j);
    PlacedBounds(n, g, j + 1);
    assert hi - o <= (j + 1) * e;
    MulMonotone(hi - o, (j + 1) * e, s);
    if hi - o < (j + 1) * e {
      MulStrict(hi - o, (j + 1) * e, s);
    }
  }

  /** A tile before the last whose window was not clipped fills exactly the
      `E * scale` samples from `j * E * scale` on, as the corrected trimming does. */
  lemma {:induction false} UnclippedTile(n: int, g: Grid, j: int)
    requires n >= 1 && Sane(g) && 0 <= j < Count(n, g) - 1
    requires Window(n, g, j).hi == (j + 1) * Stride(g) + g.overlap
    ensures PlacedAsWritten(n, g, j) == Placed(n, g, j)
    ensures PlacedAsWritten(n, g, j) == Span(if j == 0 then 0 else j * Stride(g) * g.scale, (j + 1) * Stride(g) * g.scale)
    ensures forall actual :: ValidEndAsWritten(n, g, j, actual) == ValidEnd(n, g, j, actual)
  {
    PlacedBounds(n, g, j);
  }

  /** At the defaults of `enhance_image` (tiles of 512 with overlap 32,
      scale 2) a 470-pixel axis gets two tiles; the first one's window is
      clipped at 470, and as written the output samples 876..895 are left
      at zero. */
  lemma {:induction false} DefaultGridGap()
    ensures Count(470, Grid(512, 32, 2)) == 2
    ensures PlacedAsWritten(470, Grid(512, 32, 2), 0) == Span(0, 876)
    ensures PlacedAsWritten(470, Grid(512, 32, 2), 1) == Span(896, 940)
    ensures forall j | 0 <= j < 2 :: !(PlacedAsWritten(470, Grid(512, 32, 2), j).lo <= 876 < PlacedAsWritten(470, Grid(512, 32, 2), j).hi)
  {
    var g := Grid(512, 32, 2);
    assert CeilDiv(470, 448) == 2;
    assert Window(470, g, 0) == Span(0, 470);
    assert Window(470, g, 1) == Span(416, 470);
  }

  // ---------------------------------------------------------------------
  // Which tile fills an output sample

  /** X / d is the j with j * d <= X < (j + 1) * d. */
  lemma {:induction false} DivBetween(X: int, d: int, j: int)
    requires d >= 1 && j * d <= X < (j + 1) * d
    ensures X / d == j
  {
    var q, r := X / d, X % d;
    assert X == q * d + r && 0 <= r < d;
    assert (q + 1) * d == q * d + d && (j + 1) * d == j * d + d;
    if q < j {
      MulMonotone(q + 1, j, d);
    } else if q > j {
      MulMonotone(j + 1, q, d);
    }
  }

  lemma {:induction false} DivBounds(X: int, d: int)
    requires d >= 1 && X >= 0
    ensures X / d >= 0 && (X / d) * d <= X < (X / d + 1) * d
  {
    var q, r := X / d, X % d;
    assert X == q * d + r && 0 <= r < d;
    assert (q + 1) * d == q * d + d;
    if q < 0 {
      MulMonotone(q + 1, 0, d);
    }
  }

  /** With the corrected trimming every output sample is filled from
      exactly one tile: `Owner` names a tile whose range holds X, and a
      tile whose range holds X is the owner. */
  lemma {:induction false} OwnerPlaced(n: int, g: Grid, X: int)
    requires n >= 1 && Sane(g) && 0 <= X < n * g.scale
    ensures 0 <= Owner(n, g, X) < Count(n, g)
    ensures Placed(n, g, Owner(n, g, X)).lo <= X < Placed(n, g, Owner(n, g, X)).hi
  {
    var e, s, k := Stride(g), g.scale, Count(n, g);
    var d := e * s;
    MulMonotone(1, e, s);
    DivBounds(X, d);
    var q := X / d;
    var j := Owner(n, g, X);
    PlacedBounds(n, g, j);
    Associate(j, e, s);
    Associate(j + 1, e, s);
    if q < k - 1 {
      assert j == q;
    } else {
      MulMonotone(k - 1, q, d);
    }
  }

  lemma {:induction false} Associate(a: int, b: int, c: int)
    ensures a * b * c == a * (b * c)
  {
  }

  lemma {:induction false} OwnerUnique(n: int, g: Grid, X: int, j: int)
    requires n >= 1 && Sane(g) && 0 <= j < Count(n, g) && X >= 0
    requires Placed(n, g, j).lo <= X < Placed(n, g, j).hi
    ensures j == Owner(n, g, X)
  {
    var e, s, k := Stride(g), g.scale, Count(n, g);
    var d := e * s;
    MulMonotone(1, e, s);
    PlacedBounds(n, g, j);
    Associate(j, e, s);
    Associate(j + 1, e, s);
    if j < k - 1 {
      DivBetween(X, d, j);
    } else {
      DivBounds(X, d);
      if X / d < j {
        MulMonotone(X / d + 1, j, d);
      }
    }
  }

  // ---------------------------------------------------------------------
  // Which output samples some tile fills

  /** Output position X is filled under trimming t: it lies in the range of
      its owner. */
  predicate Covered(t: Trimming, n: int, g: Grid, X: int)
    requires n >= 1 && Sane(g) && X >= 0
  {
    PlacedBy(t, n, g, Owner(n, g, X)).lo <= X < PlacedBy(t, n, g, Owner(n, g, X)).hi
  }

  /** The range as written starts where the corrected one does and ends no
      later. */
  lemma {:induction false} AsWrittenInsidePlaced(n: int, g: Grid, j: int)
    requires n >= 1 && Sane(g) && 0 <= j < Count(n, g)
    ensures PlacedAsWritten(n, g, j).lo == Placed(n, g, j).lo
    ensures PlacedAsWritten(n, g, j).hi <= Placed(n, g, j).hi
  {
    PlacedBounds(n, g, j);
    if j < Count(n, g) - 1 {
      assert Window(n, g, j).hi - g.overlap <= (j + 1) * Stride(g);
      MulMonotone(Window(n, g, j).hi - g.overlap, (j + 1) * Stride(g), g.scale);
    }
  }

  /** Under either trimming, tile j's range holds X exactly when j owns X
      and X is filled at all, so no two tiles write the same sample. */
  lemma {:induction false} CoveredIff(t: Trimming, n: int, g: Grid, X: int, j: int)
    requires n >= 1 && Sane(g) && 0 <= j < Count(n, g) && 0 <= X < n * g.scale
    ensures PlacedBy(t, n, g, j).lo <= X < PlacedBy(t, n, g, j).hi <==> Owner(n, g, X) == j && Covered(t, n, g, X)
  {
    AsWrittenInsidePlaced(n, g, j);
    if PlacedBy(t, n, g, j).lo <= X < PlacedBy(t, n, g, j).hi {
      OwnerUnique(n, g, X, j);
    }
  }

  /** With the corrected trimming every output position is filled. */
  lemma {:induction false} CorrectedCovers(n: int, g: Grid, X: int)
    requires n >= 1 && Sane(g) && 0 <= X < n * g.scale
    ensures Covered(Corrected, n, g, X)
  {
    OwnerPlaced(n, g, X);
  }

  /** As written, the 470-pixel axis of DefaultGridGap leaves output
      positions 876..895 unfilled. */
  lemma {:induction false} DefaultGridUncovered(X: int)
    requires 876 <= X < 896
    ensures !Covered(AsWritten, 470, Grid(512, 32, 2), X)
  {
    var g := Grid(512, 32, 2);
    DefaultGridGap();
    assert Window(470, g, 0) == Span(0, 470);
    assert Window(470, g, 1) == Span(416, 470);
    assert 0 <= Owner(470, g, X) < 2;
  }
}
