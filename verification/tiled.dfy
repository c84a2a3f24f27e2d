/** `enhance_image_tiled`: the image is cut into overlapping tiles, each
    tile is run through the super-resolution model, and the trimmed part of
    every result is written into an output `scale` times larger that starts
    out all zeros. Pixels are of any type `P`; the model, together with the
    conversions around it, is the function `infer`, and `cv2.resize` is the
    function `resize`, of which only the shape of its result is known. The
    trimming is a parameter: `AsWritten` is the `valid_x_end` the code
    computes, `Corrected` the one of `Tiling.ValidEnd`. */
module TiledUpscale {
  import opened Tiling

  /** A `rows` x `cols` image stored row by row. */
  predicate Rect<P>(t: seq<seq<P>>, rows: int, cols: int)
  {
    |t| == rows && forall r | 0 <= r < |t| :: |t[r]| == cols
  }

  /** `image[y0:y1, x0:x1]`. */
  function Crop<P>(image: seq<seq<P>>, h: int, w: int, y0: int, y1: int, x0: int, x1: int): (r: seq<seq<P>>)
    requires Rect(image, h, w) && 0 <= y0 <= y1 <= h && 0 <= x0 <= x1 <= w
    ensures Rect(r, y1 - y0, x1 - x0)
    ensures forall a, b | 0 <= a < y1 - y0 && 0 <= b < x1 - x0 :: r[a][b] == image[y0 + a][x0 + b]
  {
    seq(y1 - y0, a requires 0 <= a < y1 - y0 => image[y0 + a][x0..x1])
  }

  /** `cv2.resize(t, (cols, rows))` returns an image of exactly that shape. */
  ghost predicate ResizesExactly<P(!new)>(resize: (seq<seq<P>>, int, int) -> seq<seq<P>>)
  {
    forall t, cols, rows | cols >= 0 && rows >= 0 :: Rect(resize(t, cols, rows), rows, cols)
  }

  /** The arguments `enhance_image_tiled` works with. */
  ghost predicate Setup<P(!new)>(image: seq<seq<P>>, h: int, w: int, g: Grid, resize: (seq<seq<P>>, int, int) -> seq<seq<P>>)
  {
    h >= 1 && w >= 1 && Rect(image, h, w) && Sane(g) && ResizesExactly(resize)
  }

  /** The result for tile (i, j): the model's output on the tile's window,
      resized to the expected shape when it has another. */
  function TileResult<P(!new)>(image: seq<seq<P>>, h: int, w: int, g: Grid, infer: seq<seq<P>> -> seq<seq<P>>,
                         resize: (seq<seq<P>>, int, int) -> seq<seq<P>>, i: int, j: int): (r: seq<seq<P>>)
    requires Setup(image, h, w, g, resize) && 0 <= i < Count(h, g) && 0 <= j < Count(w, g)
    ensures Rect(r, Expected(h, g, i), Expected(w, g, j))
  {
    WindowInImage(h, g, i);
    WindowInImage(w, g, j);
    var rows, cols := Window(h, g, i), Window(w, g, j);
    var out := infer(Crop(image, h, w, rows.lo, rows.hi, cols.lo, cols.hi));
    if Rect(out, Expected(h, g, i), Expected(w, g, j)) then out
    else
      MulMonotone(0, rows.hi - rows.lo, g.scale);
      MulMonotone(0, cols.hi - cols.lo, g.scale);
      resize(out, Expected(w, g, j), Expected(h, g, i))
  }

  /** Output row Y and column X each lie in the range of exactly one tile,
      and the output sample there is the sample of that tile's result at the
      same offset from the start of the tile's upscaled window. */
  function Upscaled<P(!new)>(image: seq<seq<P>>, h: int, w: int, g: Grid, infer: seq<seq<P>> -> seq<seq<P>>,
                       resize: (seq<seq<P>>, int, int) -> seq<seq<P>>, Y: int, X: int): P
    requires Setup(image, h, w, g, resize) && 0 <= Y < h * g.scale && 0 <= X < w * g.scale
  {
    var i, j := Owner(h, g, Y), Owner(w, g, X);
    OwnerPlaced(h, g, Y);
    OwnerPlaced(w, g, X);
    InTile(h, g, i, Y);
    InTile(w, g, j, X);
    TileResult(image, h, w, g, infer, resize, i, j)[Y - Window(h, g, i).lo * g.scale][X - Window(w, g, j).lo * g.scale]
  }

  /** A position in the range of tile j is inside the tile's result. */
  lemma {:induction false} InTile(n: int, g: Grid, j: int, X: int)
    requires n >= 1 && Sane(g) && 0 <= j < Count(n, g) && Placed(n, g, j).lo <= X < Placed(n, g, j).hi
    ensures 0 <= X - Window(n, g, j).lo * g.scale < Expected(n, g, j)
  {
    ValidInTile(n, g, j);
  }

  /** `enhance_image_tiled`: an output sample whose row and column are both
      covered under trimming t holds the sample of the tile that owns them,
      and every other sample keeps the initial zero. With the corrected
      trimming every sample is covered. */
  method EnhanceImageTiled<P(!new)>(image: seq<seq<P>>, h: int, w: int, g: Grid, infer: seq<seq<P>> -> seq<seq<P>>,
                              resize: (seq<seq<P>>, int, int) -> seq<seq<P>>, zero: P, t: Trimming)
    returns (output: array2<P>)
    requires Setup(image, h, w, g, resize)
    ensures fresh(output) && output.Length0 == h * g.scale && output.Length1 == w * g.scale
    ensures forall Y, X | 0 <= Y < output.Length0 && 0 <= X < output.Length1 ::
      output[Y, X] == if Covered(t, h, g, Y) && Covered(t, w, g, X) then Upscaled(image, h, w, g, infer, resize, Y, X) else zero
    ensures t == Corrected ==> forall Y, X | 0 <= Y < output.Length0 && 0 <= X < output.Length1 ::
      output[Y, X] == Upscaled(image, h, w, g, infer, resize, Y, X)
  {
    var outputH, outputW := h * g.scale, w * g.scale;
    MulMonotone(0, h, g.scale);
    MulMonotone(0, w, g.scale);
    output := new P[outputH, outputW]((_, _) => zero);
    var numTilesH, numTilesW := Count(h, g), Count(w, g);
    var i := 0;
    while i < numTilesH
      invariant 0 <= i <= numTilesH
      invariant forall Y, X | 0 <= Y < outputH && 0 <= X < outputW ::
        output[Y, X] == if Owner(h, g, Y) < i && Covered(t, h, g, Y) && Covered(t, w, g, X) then Upscaled(image, h, w, g, infer, resize, Y, X) else zero
    {
      var j := 0;
      while j < numTilesW
        invariant 0 <= j <= numTilesW
        invariant forall Y, X | 0 <= Y < outputH && 0 <= X < outputW ::
          output[Y, X] == if Filled(h, w, g, i, j, Y, X) && Covered(t, h, g, Y) && Covered(t, w, g, X) then Upscaled(image, h, w, g, infer, resize, Y, X) else zero
      {
        PlaceTile(output, image, h, w, g, infer, resize, i, j, t);
        j := j + 1;
      }
      i := i + 1;
    }
    if t == Corrected {
      forall Y, X | 0 <= Y < outputH && 0 <= X < outputW
        ensures output[Y, X] == Upscaled(image, h, w, g, infer, resize, Y, X)
      {
        CorrectedCovers(h, g, Y);
        CorrectedCovers(w, g, X);
      }
    }
  }

  /** Tiles are visited row of tiles by row of tiles: the sample (Y, X) has
      been written once tile (i, j) is reached when its owner comes earlier. */
  predicate Filled(h: int, w: int, g: Grid, i: int, j: int, Y: int, X: int)
    requires h >= 1 && w >= 1 && Sane(g) && Y >= 0 && X >= 0
  {
    Owner(h, g, Y) < i || (Owner(h, g, Y) == i && Owner(w, g, X) < j)
  }

  /** One iteration of the tile loop: the window of tile (i, j) is cut out
      and run through the model, the result is resized if its shape is off,
      and its part kept under trimming t is written at its place in the
      output, behind the bounds check. Exactly the covered samples tile
      (i, j) owns change. */
  method PlaceTile<P(!new)>(output: array2<P>, image: seq<seq<P>>, h: int, w: int, g: Grid, infer: seq<seq<P>> -> seq<seq<P>>,
                      resize: (seq<seq<P>>, int, int) -> seq<seq<P>>, i: int, j: int, t: Trimming)
    requires Setup(image, h, w, g, resize) && 0 <= i < Count(h, g) && 0 <= j < Count(w, g)
    requires output.Length0 == h * g.scale && output.Length1 == w * g.scale
    modifies output
    ensures forall Y, X | 0 <= Y < output.Length0 && 0 <= X < output.Length1 ::
      output[Y, X] == if Owner(h, g, Y) == i && Owner(w, g, X) == j && Covered(t, h, g, Y) && Covered(t, w, g, X)
                      then Upscaled(image, h, w, g, infer, resize, Y, X) else old(output[Y, X])
  {
    var tileResult := RunTile(image, h, w, g, infer, resize, i, j);
    WriteTile(output, tileResult, h, w, g, i, j, t);
    forall Y, X | 0 <= Y < output.Length0 && 0 <= X < output.Length1
      ensures output[Y, X] == if Owner(h, g, Y) == i && Owner(w, g, X) == j && Covered(t, h, g, Y) && Covered(t, w, g, X)
                              then Upscaled(image, h, w, g, infer, resize, Y, X) else old(output[Y, X])
    {
      BlockOwned(image, h, w, g, infer, resize, i, j, Y, X, t);
    }
  }

  /** The part of the result of tile (i, j) kept under trimming t written at
      its place in the output, behind the bounds check: exactly the samples
      in the tile's placed ranges change, to the result's samples at the same
      offset from the start of the tile's upscaled window. */
  method WriteTile<P>(output: array2<P>, tileResult: seq<seq<P>>, h: int, w: int, g: Grid, i: int, j: int, t: Trimming)
    requires h >= 1 && w >= 1 && Sane(g) && 0 <= i < Count(h, g) && 0 <= j < Count(w, g)
    requires Rect(tileResult, Expected(h, g, i), Expected(w, g, j))
    requires output.Length0 == h * g.scale && output.Length1 == w * g.scale
    modifies output
    ensures Window(h, g, i).lo * g.scale <= PlacedBy(t, h, g, i).lo && PlacedBy(t, h, g, i).hi <= Window(h, g, i).lo * g.scale + Expected(h, g, i)
    ensures Window(w, g, j).lo * g.scale <= PlacedBy(t, w, g, j).lo && PlacedBy(t, w, g, j).hi <= Window(w, g, j).lo * g.scale + Expected(w, g, j)
    ensures forall Y, X | 0 <= Y < output.Length0 && 0 <= X < output.Length1 ::
      output[Y, X] == if PlacedBy(t, h, g, i).lo <= Y < PlacedBy(t, h, g, i).hi && PlacedBy(t, w, g, j).lo <= X < PlacedBy(t, w, g, j).hi
                      then tileResult[Y - Window(h, g, i).lo * g.scale][X - Window(w, g, j).lo * g.scale] else old(output[Y, X])
  {
    var rows, cols := Window(h, g, i), Window(w, g, j);
    var outXStart, outYStart := cols.lo * g.scale, rows.lo * g.scale;
    var validYStart, validYEnd := ValidSpan(h, g, i, |tileResult|, t);
    var validXStart, validXEnd := ValidSpan(w, g, j, |tileResult[0]|, t);
    var validOutWidth, validOutHeight := validXEnd - validXStart, validYEnd - validYStart;
    PlacedInOutput(h, g, i);
    PlacedInOutput(w, g, j);
    if outYStart + validYStart + validOutHeight <= output.Length0 && outXStart + validXStart + validOutWidth <= output.Length1 {
      CopyBlock(output, tileResult, outYStart + validYStart, outXStart + validXStart, validYStart, validXStart, validOutHeight, validOutWidth);
    }
  }

  /** The part of a tile's result that is kept along one axis: the leading
      overlap is dropped unless the tile is the first; unless it is the last,
      the code as written drops the full upscaled overlap at the end, and the
      corrected trimming only the part of the window beyond the tile's own
      stride. Offset by the window's start, it is the tile's placed range. */
  method ValidSpan(n: int, g: Grid, j: int, actual: int, t: Trimming) returns (validStart: int, validEnd: int)
    requires n >= 1 && Sane(g) && 0 <= j < Count(n, g) && actual == Expected(n, g, j)
    ensures Window(n, g, j).lo * g.scale + validStart == PlacedBy(t, n, g, j).lo
    ensures Window(n, g, j).lo * g.scale + validEnd == PlacedBy(t, n, g, j).hi
    ensures 0 <= validStart < validEnd <= actual
  {
    ValidInTile(n, g, j);
    validStart := if j == 0 then 0 else g.overlap * g.scale;
    if j == Count(n, g) - 1 {
      validEnd := Min(actual, Expected(n, g, j));
    } else if t == AsWritten {
      validEnd := Min(actual - g.overlap * g.scale, Expected(n, g, j));
    } else {
      validEnd := Min(actual - Trailing(n, g, j) * g.scale, Expected(n, g, j));
    }
  }

  /** Cutting out the window of tile (i, j), running the model on it and
      resizing a result of the wrong shape. */
  method RunTile<P(!new)>(image: seq<seq<P>>, h: int, w: int, g: Grid, infer: seq<seq<P>> -> seq<seq<P>>,
                          resize: (seq<seq<P>>, int, int) -> seq<seq<P>>, i: int, j: int)
    returns (tileResult: seq<seq<P>>)
    requires Setup(image, h, w, g, resize) && 0 <= i < Count(h, g) && 0 <= j < Count(w, g)
    ensures tileResult == TileResult(image, h, w, g, infer, resize, i, j)
  {
    var rows, cols := Window(h, g, i), Window(w, g, j);
    WindowInImage(h, g, i);
    WindowInImage(w, g, j);
    var tile := Crop(image, h, w, rows.lo, rows.hi, cols.lo, cols.hi);
    tileResult := infer(tile);
    var expectedH, expectedW := (rows.hi - rows.lo) * g.scale, (cols.hi - cols.lo) * g.scale;
    if !Rect(tileResult, expectedH, expectedW) {
      MulMonotone(0, rows.hi - rows.lo, g.scale);
      MulMonotone(0, cols.hi - cols.lo, g.scale);
      tileResult := resize(tileResult, expectedW, expectedH);
    }
  }

  /** The block tile (i, j) writes under trimming t is the set of covered
      samples it owns, and what it writes there is what `Upscaled` says. */
  lemma {:induction false} BlockOwned<P(!new)>(image: seq<seq<P>>, h: int, w: int, g: Grid, infer: seq<seq<P>> -> seq<seq<P>>,
                                               resize: (seq<seq<P>>, int, int) -> seq<seq<P>>, i: int, j: int, Y: int, X: int, t: Trimming)
    requires Setup(image, h, w, g, resize) && 0 <= i < Count(h, g) && 0 <= j < Count(w, g)
    requires 0 <= Y < h * g.scale && 0 <= X < w * g.scale
    ensures (PlacedBy(t, h, g, i).lo <= Y < PlacedBy(t, h, g, i).hi && PlacedBy(t, w, g, j).lo <= X < PlacedBy(t, w, g, j).hi)
        <==> (Owner(h, g, Y) == i && Owner(w, g, X) == j && Covered(t, h, g, Y) && Covered(t, w, g, X))
    ensures Owner(h, g, Y) == i && Owner(w, g, X) == j ==>
      0 <= Y - Window(h, g, i).lo * g.scale < Expected(h, g, i) && 0 <= X - Window(w, g, j).lo * g.scale < Expected(w, g, j) &&
      Upscaled(image, h, w, g, infer, resize, Y, X) == TileResult(image, h, w, g, infer, resize, i, j)[Y - Window(h, g, i).lo * g.scale][X - Window(w, g, j).lo * g.scale]
  {
    CoveredIff(t, h, g, Y, i);
    CoveredIff(t, w, g, X, j);
    if Owner(h, g, Y) == i && Owner(w, g, X) == j {
      OwnerPlaced(h, g, Y);
      OwnerPlaced(w, g, X);
      InTile(h, g, i, Y);
      InTile(w, g, j, X);
    }
  }

  /** The slice assignment `output[oy:oy+rows, ox:ox+cols] = tile[ty:ty+rows, tx:tx+cols]`. */
  method CopyBlock<P>(output: array2<P>, tile: seq<seq<P>>, oy: int, ox: int, ty: int, tx: int, rows: int, cols: int)
    requires 0 <= oy && 0 <= rows && oy + rows <= output.Length0 && 0 <= ox && 0 <= cols && ox + cols <= output.Length1
    requires 0 <= ty && ty + rows <= |tile| && 0 <= tx && forall r | ty <= r < ty + rows :: tx + cols <= |tile[r]|
    modifies output
    ensures forall Y, X | 0 <= Y < output.Length0 && 0 <= X < output.Length1 ::
      output[Y, X] == if oy <= Y < oy + rows && ox <= X < ox + cols then tile[ty + (Y - oy)][tx + (X - ox)] else old(output[Y, X])
  {
    var a := 0;
    while a < rows
      invariant 0 <= a <= rows
      invariant forall Y, X | 0 <= Y < output.Length0 && 0 <= X < output.Length1 ::
        output[Y, X] == if oy <= Y < oy + a && ox <= X < ox + cols then tile[ty + (Y - oy)][tx + (X - ox)] else old(output[Y, X])
    {
      var b := 0;
      while b < cols
        invariant 0 <= b <= cols
        invariant forall Y, X | 0 <= Y < output.Length0 && 0 <= X < output.Length1 ::
          output[Y, X] == if (oy <= Y < oy + a && ox <= X < ox + cols) || (Y == oy + a && ox <= X < ox + b)
                          then tile[ty + (Y - oy)][tx + (X - ox)] else old(output[Y, X])
      {
        output[oy + a, ox + b] := tile[ty + a][tx + b];
        b := b + 1;
      }
      a := a + 1;
    }
  }
}
