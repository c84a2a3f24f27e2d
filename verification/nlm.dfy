/** `applyNonLocalMeansDenoising`: every interior colour sample (at least
    the search radius from each edge) becomes a blend of itself and a
    weighted mean of the samples at every second offset of its search
    window. A candidate's weight falls with the mean squared difference
    between the patch around it and the patch around the centre. All reads
    go to the snapshot `originalData`; the writes go to the buffer. */
module NonLocalMeans {
  import opened Raster
  import opened JsNumbers
  import opened Smoothing

  /** `Math.max(3, Math.floor(intensity * 8))`. */
  function SearchRadius(d: real): int { MaxI(3, Floor(d * 8.0)) }

  /** `Math.max(1, Math.floor(intensity * 3))`. */
  function PatchRadius(d: real): int { MaxI(1, Floor(d * 3.0)) }

  /** The filtering strength `h = 10 + 20 i`. */
  function FilterStrength(d: real): real { 10.0 + d * 20.0 }

  /** The patch radius never exceeds the search radius, so every patch
      around an interior centre lies inside the image. */
  lemma {:induction false} PatchWithinSearch(d: real)
    ensures 1 <= PatchRadius(d) <= SearchRadius(d)
  {
    if d >= 0.0 {
      assert d * 3.0 <= d * 8.0;
    }
  }

  /** `Math.pow(a, 2)`. */
  function Pow2(a: int): (r: int)
    ensures r >= 0
  {
    a * a
  }

  /** Squared differences along row py of the patches around (x, y) and
      (nx, ny), from column px to the right edge of the patch. */
  function PatchRowFrom(s: seq<int>, w: int, h: int, x: int, y: int, nx: int, ny: int, c: int, pr: int, py: int, px: int): (r: int)
    requires Shaped(s, w, h) && 0 <= c < 4 && Inset(w, h, x, y, pr) && Inset(w, h, nx, ny, pr)
    requires -pr <= py <= pr && -pr <= px <= pr + 1
    ensures r >= 0
    decreases pr + 1 - px
  {
    if px > pr then 0
    else Pow2(At(s, w, h, x + px, y + py, c) - At(s, w, h, nx + px, ny + py, c)) + PatchRowFrom(s, w, h, x, y, nx, ny, c, pr, py, px + 1)
  }

  /** Squared differences of the two patches, from row py to the bottom of the patch. */
  function PatchFrom(s: seq<int>, w: int, h: int, x: int, y: int, nx: int, ny: int, c: int, pr: int, py: int): (r: int)
    requires Shaped(s, w, h) && 0 <= c < 4 && Inset(w, h, x, y, pr) && Inset(w, h, nx, ny, pr)
    requires -pr <= py <= pr + 1
    ensures r >= 0
    decreases pr + 1 - py
  {
    if py > pr then 0
    else PatchRowFrom(s, w, h, x, y, nx, ny, c, pr, py, -pr) + PatchFrom(s, w, h, x, y, nx, ny, c, pr, py + 1)
  }

  /** The number of samples in `rows` rows of `side` samples, counted row by row. */
  function Samples(rows: int, side: int): (r: int)
    requires rows >= 0 && side >= 0
    ensures r >= 0 && (rows >= 1 ==> r >= side)
  {
    if rows == 0 then 0 else Samples(rows - 1, side) + side
  }

  /** The number of samples in a patch of radius pr. */
  function PatchArea(pr: int): (r: int)
    requires pr >= 0
    ensures r >= 1
  {
    Samples(2 * pr + 1, 2 * pr + 1)
  }

  /** Counting row by row gives the product. */
  lemma {:induction false} SamplesProduct(rows: int, side: int)
    requires rows >= 0 && side >= 0
    ensures Samples(rows, side) == rows * side
  {
    if rows > 0 {
      SamplesProduct(rows - 1, side);
      assert (rows - 1) * side + side == rows * side;
    }
  }

  /** A patch of radius pr holds (2 pr + 1)^2 samples. */
  lemma {:induction false} PatchAreaSquare(pr: int)
    requires pr >= 0
    ensures PatchArea(pr) == (2 * pr + 1) * (2 * pr + 1)
  {
    SamplesProduct(2 * pr + 1, 2 * pr + 1);
  }

  lemma {:induction false} StrengthSquaredPositive(d: real)
    requires d > 0.0
    ensures FilterStrength(d) * FilterStrength(d) >= 100.0
  {
    ScaleMonotone(10.0, FilterStrength(d), FilterStrength(d));
    ScaleMonotone(10.0, FilterStrength(d), 10.0);
  }

  /** `Math.exp(-patchDistance / (h * h))` for the mean squared difference `diff / count`. */
  function Weight(diff: int, count: int, d: real, m: MathLib): real
    requires count > 0 && d > 0.0
  {
    WeightAt(diff, count, d, m, 1)
  }

  /** The definition of Weight, reached after `layer` unfoldings. The solver
      unfolds a recursive function once per occurrence, so the divisions
      behind a weight stay out of every proof that does not call WeightIs. */
  function WeightAt(diff: int, count: int, d: real, m: MathLib, layer: nat): real
    requires count > 0 && d > 0.0
    decreases layer
  {
    if layer > 0 then WeightAt(diff, count, d, m, layer - 1)
    else
      var hh := FilterStrength(d);
      StrengthSquaredPositive(d);
      m.exp(-(diff as real / count as real) / (hh * hh))
  }

  lemma {:induction false} WeightIs(diff: int, count: int, d: real, m: MathLib)
    requires count > 0 && d > 0.0
    ensures FilterStrength(d) * FilterStrength(d) >= 100.0
    ensures Weight(diff, count, d, m) == m.exp(-(diff as real / count as real) / (FilterStrength(d) * FilterStrength(d)))
  {
    StrengthSquaredPositive(d);
    assert WeightAt(diff, count, d, m, 1) == WeightAt(diff, count, d, m, 0);
  }

  /** What the candidate at offset (sx, sy) from (x, y) adds to the sums:
      nothing when its patch would leave the image. */
  function Contribution(s: seq<int>, w: int, h: int, x: int, y: int, c: int, d: real, m: MathLib, sx: int, sy: int): Sums
    requires Shaped(s, w, h) && 0 <= c < 4 && d > 0.0 && Inset(w, h, x, y, SearchRadius(d))
  {
    ContributionAt(s, w, h, x, y, c, d, m, sx, sy, 1)
  }

  /** The definition of Contribution, reached after `layer` unfoldings, so
      that the sums over the search window do not expose every patch
      difference to the solver; ContributionIs states it. */
  function ContributionAt(s: seq<int>, w: int, h: int, x: int, y: int, c: int, d: real, m: MathLib, sx: int, sy: int, layer: nat): Sums
    requires Shaped(s, w, h) && 0 <= c < 4 && d > 0.0 && Inset(w, h, x, y, SearchRadius(d))
    decreases layer
  {
    if layer > 0 then ContributionAt(s, w, h, x, y, c, d, m, sx, sy, layer - 1)
    else
      var pr := PatchRadius(d);
      if Inset(w, h, x + sx, y + sy, pr) then
        PatchWithinSearch(d);
        Term(At(s, w, h, x + sx, y + sy, c), Weight(PatchFrom(s, w, h, x, y, x + sx, y + sy, c, pr, -pr), PatchArea(pr), d, m))
      else NoSums
  }

  lemma {:induction false} ContributionIs(s: seq<int>, w: int, h: int, x: int, y: int, c: int, d: real, m: MathLib, sx: int, sy: int)
    requires Shaped(s, w, h) && 0 <= c < 4 && d > 0.0 && Inset(w, h, x, y, SearchRadius(d))
    ensures Inset(w, h, x + sx, y + sy, PatchRadius(d)) ==> Inset(w, h, x, y, PatchRadius(d))
    ensures Contribution(s, w, h, x, y, c, d, m, sx, sy)
         == if Inset(w, h, x + sx, y + sy, PatchRadius(d)) then
              Term(At(s, w, h, x + sx, y + sy, c),
                   Weight(PatchFrom(s, w, h, x, y, x + sx, y + sy, c, PatchRadius(d), -PatchRadius(d)), PatchArea(PatchRadius(d)), d, m))
            else NoSums
  {
    PatchWithinSearch(d);
    assert ContributionAt(s, w, h, x, y, c, d, m, sx, sy, 1) == ContributionAt(s, w, h, x, y, c, d, m, sx, sy, 0);
  }

  /** A candidate whose patch would leave the image adds nothing. */
  lemma {:induction false} NoContribution(s: seq<int>, w: int, h: int, x: int, y: int, c: int, d: real, m: MathLib, sx: int, sy: int)
    requires Shaped(s, w, h) && 0 <= c < 4 && d > 0.0 && Inset(w, h, x, y, SearchRadius(d))
    requires !Inset(w, h, x + sx, y + sy, PatchRadius(d))
    ensures Contribution(s, w, h, x, y, c, d, m, sx, sy) == NoSums
  {
    ContributionIs(s, w, h, x, y, c, d, m, sx, sy);
  }

  /** The candidate at offset (sx, sy), whose patch lies inside the image,
      contributes its sample with the weight the filter computes for it. */
  lemma {:induction false} AddContribution(s: seq<int>, w: int, h: int, x: int, y: int, c: int, d: real, m: MathLib, sx: int, sy: int,
                        diff: int, count: int, weight: real)
    requires Shaped(s, w, h) && 0 <= c < 4 && d > 0.0 && Inset(w, h, x, y, SearchRadius(d))
    requires Inset(w, h, x + sx, y + sy, PatchRadius(d)) && Inset(w, h, x, y, PatchRadius(d))
    requires diff == PatchFrom(s, w, h, x, y, x + sx, y + sy, c, PatchRadius(d), -PatchRadius(d)) && count == PatchArea(PatchRadius(d))
    requires weight == Weight(diff, count, d, m)
    ensures 0 <= Idx(w, x + sx, y + sy, c) < |s|
    ensures Contribution(s, w, h, x, y, c, d, m, sx, sy) == Term(s[Idx(w, x + sx, y + sy, c)], weight)
  {
    ContributionIs(s, w, h, x, y, c, d, m, sx, sy);
    IdxCoords(w, h, x + sx, y + sy, c);
  }

  /** The candidates of search row sy from column offset sx on, every second one. */
  function SearchRowFrom(s: seq<int>, w: int, h: int, x: int, y: int, c: int, d: real, m: MathLib, sy: int, sx: int): Sums
    requires Shaped(s, w, h) && 0 <= c < 4 && d > 0.0 && Inset(w, h, x, y, SearchRadius(d))
    decreases SearchRadius(d) + 2 - sx, 2
  {
    SearchRowFromAt(s, w, h, x, y, c, d, m, sy, sx, 1)
  }

  /** The definition of SearchRowFrom, reached after `layer` unfoldings, so
      that the sums of a row are unfolded only where a proof asks for it. */
  function SearchRowFromAt(s: seq<int>, w: int, h: int, x: int, y: int, c: int, d: real, m: MathLib, sy: int, sx: int,
                           layer: nat): Sums
    requires Shaped(s, w, h) && 0 <= c < 4 && d > 0.0 && Inset(w, h, x, y, SearchRadius(d))
    decreases SearchRadius(d) + 2 - sx, layer
  {
    if layer > 0 then SearchRowFromAt(s, w, h, x, y, c, d, m, sy, sx, layer - 1)
    else if sx > SearchRadius(d) then NoSums
    else Plus(Contribution(s, w, h, x, y, c, d, m, sx, sy), SearchRowFrom(s, w, h, x, y, c, d, m, sy, sx + 2))
  }

  /** The candidates of every second search row from sy on. */
  function SearchFrom(s: seq<int>, w: int, h: int, x: int, y: int, c: int, d: real, m: MathLib, sy: int): Sums
    requires Shaped(s, w, h) && 0 <= c < 4 && d > 0.0 && Inset(w, h, x, y, SearchRadius(d))
    decreases SearchRadius(d) + 2 - sy, 2
  {
    SearchFromAt(s, w, h, x, y, c, d, m, sy, 1)
  }

  /** The definition of SearchFrom, reached after `layer` unfoldings. */
  function SearchFromAt(s: seq<int>, w: int, h: int, x: int, y: int, c: int, d: real, m: MathLib, sy: int, layer: nat): Sums
    requires Shaped(s, w, h) && 0 <= c < 4 && d > 0.0 && Inset(w, h, x, y, SearchRadius(d))
    decreases SearchRadius(d) + 2 - sy, layer
  {
    if layer > 0 then SearchFromAt(s, w, h, x, y, c, d, m, sy, layer - 1)
    else if sy > SearchRadius(d) then NoSums
    else Plus(SearchRowFrom(s, w, h, x, y, c, d, m, sy, -SearchRadius(d)), SearchFrom(s, w, h, x, y, c, d, m, sy + 2))
  }

  /** One step of the row sums, and their end. */
  lemma {:induction false} SearchRowStep(s: seq<int>, w: int, h: int, x: int, y: int, c: int, d: real, m: MathLib, sy: int, sx: int)
    requires Shaped(s, w, h) && 0 <= c < 4 && d > 0.0 && Inset(w, h, x, y, SearchRadius(d))
    ensures sx > SearchRadius(d) ==> SearchRowFrom(s, w, h, x, y, c, d, m, sy, sx) == NoSums
    ensures sx <= SearchRadius(d) ==>
      SearchRowFrom(s, w, h, x, y, c, d, m, sy, sx) == Plus(Contribution(s, w, h, x, y, c, d, m, sx, sy), SearchRowFrom(s, w, h, x, y, c, d, m, sy, sx + 2))
  {
    assert SearchRowFromAt(s, w, h, x, y, c, d, m, sy, sx, 1) == SearchRowFromAt(s, w, h, x, y, c, d, m, sy, sx, 0);
  }

  /** One step of the window sums, and their end. */
  lemma {:induction false} SearchStep(s: seq<int>, w: int, h: int, x: int, y: int, c: int, d: real, m: MathLib, sy: int)
    requires Shaped(s, w, h) && 0 <= c < 4 && d > 0.0 && Inset(w, h, x, y, SearchRadius(d))
    ensures sy > SearchRadius(d) ==> SearchFrom(s, w, h, x, y, c, d, m, sy) == NoSums
    ensures sy <= SearchRadius(d) ==>
      SearchFrom(s, w, h, x, y, c, d, m, sy) == Plus(SearchRowFrom(s, w, h, x, y, c, d, m, sy, -SearchRadius(d)), SearchFrom(s, w, h, x, y, c, d, m, sy + 2))
  {
    assert SearchFromAt(s, w, h, x, y, c, d, m, sy, 1) == SearchFromAt(s, w, h, x, y, c, d, m, sy, 0);
  }

  /** The whole search window of (x, y). */
  function Search(s: seq<int>, w: int, h: int, x: int, y: int, c: int, d: real, m: MathLib): Sums
    requires Shaped(s, w, h) && 0 <= c < 4 && d > 0.0 && Inset(w, h, x, y, SearchRadius(d))
  {
    SearchFrom(s, w, h, x, y, c, d, m, -SearchRadius(d))
  }

  /** The offsets a search loop visits: from `from` up to `r`, every second one. */
  function Offsets(r: int, from: int): seq<int>
    decreases r + 2 - from
  {
    if from > r then [] else [from] + Offsets(r, from + 2)
  }

  /** An offset is visited exactly when it lies in [from, r] an even distance from `from`. */
  lemma {:induction false} OffsetsHas(r: int, from: int, t: int)
    ensures t in Offsets(r, from) <==> from <= t <= r && (t - from) % 2 == 0
    decreases r + 2 - from
  {
    if from <= r {
      OffsetsHas(r, from + 2, t);
      assert (t - (from + 2)) % 2 == (t - from) % 2;
    }
  }

  /** The search loops reach the centre offset (0, 0) exactly when the search
      radius is even: the loops start at `-searchRadius` and step by 2. */
  lemma {:induction false} CentreOnGrid(d: real)
    ensures 0 in Offsets(SearchRadius(d), -SearchRadius(d)) <==> SearchRadius(d) % 2 == 0
  {
    OffsetsHas(SearchRadius(d), -SearchRadius(d), 0);
  }

  /** Below intensity 0.5 the search radius is 3, so the centre is never
      its own candidate. */
  lemma {:induction false} CentreSkippedAtLowIntensity(d: real)
    requires d < 0.5
    ensures SearchRadius(d) == 3
    ensures 0 !in Offsets(SearchRadius(d), -SearchRadius(d))
  {
    assert Floor(d * 8.0) as real <= d * 8.0 < 4.0;
    CentreOnGrid(d);
  }

  /** The contributions of the candidates at column offsets `xs` of search row sy. */
  function RowSum(s: seq<int>, w: int, h: int, x: int, y: int, c: int, d: real, m: MathLib, sy: int, xs: seq<int>): Sums
    requires Shaped(s, w, h) && 0 <= c < 4 && d > 0.0 && Inset(w, h, x, y, SearchRadius(d))
  {
    if xs == [] then NoSums else Plus(Contribution(s, w, h, x, y, c, d, m, xs[0], sy), RowSum(s, w, h, x, y, c, d, m, sy, xs[1..]))
  }

  /** The contributions of the candidates at row offsets `ys` and column offsets `xs`. */
  function GridSum(s: seq<int>, w: int, h: int, x: int, y: int, c: int, d: real, m: MathLib, ys: seq<int>, xs: seq<int>): Sums
    requires Shaped(s, w, h) && 0 <= c < 4 && d > 0.0 && Inset(w, h, x, y, SearchRadius(d))
  {
    if ys == [] then NoSums else Plus(RowSum(s, w, h, x, y, c, d, m, ys[0], xs), GridSum(s, w, h, x, y, c, d, m, ys[1..], xs))
  }

  lemma {:induction false} SearchRowOverOffsets(s: seq<int>, w: int, h: int, x: int, y: int, c: int, d: real, m: MathLib, sy: int, sx: int)
    requires Shaped(s, w, h) && 0 <= c < 4 && d > 0.0 && Inset(w, h, x, y, SearchRadius(d))
    ensures SearchRowFrom(s, w, h, x, y, c, d, m, sy, sx) == RowSum(s, w, h, x, y, c, d, m, sy, Offsets(SearchRadius(d), sx))
    decreases SearchRadius(d) + 2 - sx
  {
    SearchRowStep(s, w, h, x, y, c, d, m, sy, sx);
    var xs := Offsets(SearchRadius(d), sx);
    if sx <= SearchRadius(d) {
      SearchRowOverOffsets(s, w, h, x, y, c, d, m, sy, sx + 2);
      assert xs[0] == sx && xs[1..] == Offsets(SearchRadius(d), sx + 2);
      assert RowSum(s, w, h, x, y, c, d, m, sy, xs) == Plus(Contribution(s, w, h, x, y, c, d, m, sx, sy), RowSum(s, w, h, x, y, c, d, m, sy, xs[1..]));
    } else {
      assert xs == [];
    }
  }

  lemma {:induction false} SearchFromOverOffsets(s: seq<int>, w: int, h: int, x: int, y: int, c: int, d: real, m: MathLib, sy: int)
    requires Shaped(s, w, h) && 0 <= c < 4 && d > 0.0 && Inset(w, h, x, y, SearchRadius(d))
    ensures SearchFrom(s, w, h, x, y, c, d, m, sy)
         == GridSum(s, w, h, x, y, c, d, m, Offsets(SearchRadius(d), sy), Offsets(SearchRadius(d), -SearchRadius(d)))
    decreases SearchRadius(d) + 2 - sy
  {
    SearchStep(s, w, h, x, y, c, d, m, sy);
    var ys, xs := Offsets(SearchRadius(d), sy), Offsets(SearchRadius(d), -SearchRadius(d));
    if sy <= SearchRadius(d) {
      SearchRowOverOffsets(s, w, h, x, y, c, d, m, sy, -SearchRadius(d));
      SearchFromOverOffsets(s, w, h, x, y, c, d, m, sy + 2);
      assert ys[0] == sy && ys[1..] == Offsets(SearchRadius(d), sy + 2);
      assert GridSum(s, w, h, x, y, c, d, m, ys, xs) == Plus(RowSum(s, w, h, x, y, c, d, m, sy, xs), GridSum(s, w, h, x, y, c, d, m, ys[1..], xs));
    } else {
      assert ys == [];
    }
  }

  /** The search window sums the contributions of exactly the offsets
      (sx, sy) with both coordinates in `Offsets(searchRadius, -searchRadius)`. */
  lemma {:induction false} SearchOverGrid(s: seq<int>, w: int, h: int, x: int, y: int, c: int, d: real, m: MathLib)
    requires Shaped(s, w, h) && 0 <= c < 4 && d > 0.0 && Inset(w, h, x, y, SearchRadius(d))
    ensures Search(s, w, h, x, y, c, d, m)
         == GridSum(s, w, h, x, y, c, d, m, Offsets(SearchRadius(d), -SearchRadius(d)), Offsets(SearchRadius(d), -SearchRadius(d)))
  {
    SearchFromOverOffsets(s, w, h, x, y, c, d, m, -SearchRadius(d));
  }

  /** The byte written for sample c of (x, y) once some weight was
      collected: the blend of the centre with the weighted mean, share `0.7 i`. */
  function Denoised(s: seq<int>, w: int, h: int, x: int, y: int, c: int, d: real, m: MathLib): int
    requires Shaped(s, w, h) && 0 <= c < 4 && d > 0.0 && Inset(w, h, x, y, SearchRadius(d))
    requires Search(s, w, h, x, y, c, d, m).weight > 0.0
  {
    var sums := Search(s, w, h, x, y, c, d, m);
    RoundStore(Blend(At(s, w, h, x, y, c), sums.pixel / sums.weight, d, 0.7))
  }

  /** The byte stored at sample c of (x, y), whose value before the pass is
      `current`: the denoised value when some weight was collected,
      otherwise `current`. */
  function NlmAt(s: seq<int>, w: int, h: int, x: int, y: int, c: int, d: real, m: MathLib, current: int): int
    requires Shaped(s, w, h) && 0 <= c < 4 && d > 0.0 && Inset(w, h, x, y, SearchRadius(d))
  {
    if Search(s, w, h, x, y, c, d, m).weight > 0.0 then Denoised(s, w, h, x, y, c, d, m) else current
  }

  /** The buffer `a` after the pass over the snapshot `s`. */
  function NlmPass(a: seq<int>, s: seq<int>, w: int, h: int, d: real, m: MathLib): (r: seq<int>)
    requires Shaped(s, w, h) && |a| == |s| && d > 0.0
    ensures FramedBy(a, r, w, h, SearchRadius(d))
  {
    seq(|a|, k requires 0 <= k < |a| =>
      if Interior(w, h, SearchRadius(d), k) then
        CoordsOf(w, h, k);
        NlmAt(s, w, h, Col(w, k), Row(w, k), Chan(k), d, m, a[k])
      else a[k])
  }

  lemma {:induction false} NlmPassAt(a: seq<int>, s: seq<int>, w: int, h: int, d: real, m: MathLib, x: int, y: int, c: int)
    requires Shaped(s, w, h) && |a| == |s| && d > 0.0 && Inset(w, h, x, y, SearchRadius(d)) && 0 <= c < 3
    ensures 0 <= Idx(w, x, y, c) < |a|
    ensures NlmPass(a, s, w, h, d, m)[Idx(w, x, y, c)] == NlmAt(s, w, h, x, y, c, d, m, a[Idx(w, x, y, c)])
  {
    IdxCoords(w, h, x, y, c);
  }

  /** The innermost patch loop over row py of the two patches. */
  method PatchRowDifference(original: seq<int>, x: int, y: int, nx: int, ny: int, w: int, h: int, c: int, pr: int, py: int,
                            diff0: int, count0: int)
    returns (patchDiff: int, patchCount: int)
    requires Shaped(original, w, h) && 0 <= c < 4 && Inset(w, h, x, y, pr) && Inset(w, h, nx, ny, pr) && -pr <= py <= pr
    ensures patchDiff == diff0 + PatchRowFrom(original, w, h, x, y, nx, ny, c, pr, py, -pr)
    ensures patchCount == count0 + 2 * pr + 1
  {
    patchDiff, patchCount := diff0, count0;
    var px := -pr;
    while px <= pr
      invariant -pr <= px <= pr + 1
      invariant patchDiff + PatchRowFrom(original, w, h, x, y, nx, ny, c, pr, py, px) == diff0 + PatchRowFrom(original, w, h, x, y, nx, ny, c, pr, py, -pr)
      invariant patchCount == count0 + (px + pr)
      decreases pr + 1 - px
    {
      PatchRowStep(original, w, h, x, y, nx, ny, c, pr, py, px);
      var p1 := Idx(w, x + px, y + py, c);
      var p2 := Idx(w, nx + px, ny + py, c);
      patchDiff := patchDiff + Pow2(original[p1] - original[p2]);
      patchCount := patchCount + 1;
      px := px + 1;
    }
  }

  /** One column of the patch row: the samples at column px of both patches
      and what they add to the row's squared difference. */
  lemma {:induction false} PatchRowStep(s: seq<int>, w: int, h: int, x: int, y: int, nx: int, ny: int, c: int, pr: int, py: int, px: int)
    requires Shaped(s, w, h) && 0 <= c < 4 && Inset(w, h, x, y, pr) && Inset(w, h, nx, ny, pr)
    requires -pr <= py <= pr && -pr <= px <= pr
    ensures 0 <= Idx(w, x + px, y + py, c) < |s| && 0 <= Idx(w, nx + px, ny + py, c) < |s|
    ensures PatchRowFrom(s, w, h, x, y, nx, ny, c, pr, py, px)
         == Pow2(s[Idx(w, x + px, y + py, c)] - s[Idx(w, nx + px, ny + py, c)]) + PatchRowFrom(s, w, h, x, y, nx, ny, c, pr, py, px + 1)
  {
    IdxCoords(w, h, x + px, y + py, c);
    IdxCoords(w, h, nx + px, ny + py, c);
  }

  /** The patch loops: the squared difference of the patches around (x, y)
      and (nx, ny), and the number of samples compared. */
  method PatchDifference(original: seq<int>, x: int, y: int, nx: int, ny: int, w: int, h: int, c: int, pr: int)
    returns (patchDiff: int, patchCount: int)
    requires Shaped(original, w, h) && 0 <= c < 4 && pr >= 0 && Inset(w, h, x, y, pr) && Inset(w, h, nx, ny, pr)
    ensures patchDiff == PatchFrom(original, w, h, x, y, nx, ny, c, pr, -pr)
    ensures patchCount == PatchArea(pr)
  {
    patchDiff, patchCount := 0, 0;
    var py := -pr;
    while py <= pr
      invariant -pr <= py <= pr + 1
      invariant patchDiff + PatchFrom(original, w, h, x, y, nx, ny, c, pr, py) == PatchFrom(original, w, h, x, y, nx, ny, c, pr, -pr)
      invariant patchCount == Samples(py + pr, 2 * pr + 1)
      decreases pr + 1 - py
    {
      patchDiff, patchCount := PatchRowDifference(original, x, y, nx, ny, w, h, c, pr, py, patchDiff, patchCount);
      py := py + 1;
    }
  }

  /** The loop over search row sy: adds every candidate of the row to the sums. */
  method SearchRow(original: seq<int>, x: int, y: int, w: int, h: int, c: int, intensity: real, m: MathLib, sy: int,
                   weight0: real, pixel0: real)
    returns (weightSum: real, pixelSum: real)
    requires Shaped(original, w, h) && 0 <= c < 4 && intensity > 0.0 && Inset(w, h, x, y, SearchRadius(intensity))
    ensures Sums(weightSum, pixelSum) == Plus(Sums(weight0, pixel0), SearchRowFrom(original, w, h, x, y, c, intensity, m, sy, -SearchRadius(intensity)))
  {
    var searchRadius := SearchRadius(intensity);
    weightSum, pixelSum := weight0, pixel0;
    var sx := -searchRadius;
    while sx <= searchRadius
      invariant -searchRadius <= sx <= searchRadius + 2
      invariant Plus(Sums(weightSum, pixelSum), SearchRowFrom(original, w, h, x, y, c, intensity, m, sy, sx))
             == Plus(Sums(weight0, pixel0), SearchRowFrom(original, w, h, x, y, c, intensity, m, sy, -searchRadius))
      decreases searchRadius + 2 - sx
    {
      SearchRowStep(original, w, h, x, y, c, intensity, m, sy, sx);
      ghost var before := Sums(weightSum, pixelSum);
      weightSum, pixelSum := AddCandidate(original, x, y, w, h, c, intensity, m, sx, sy, weightSum, pixelSum);
      PlusAssociative(before, Contribution(original, w, h, x, y, c, intensity, m, sx, sy), SearchRowFrom(original, w, h, x, y, c, intensity, m, sy, sx + 2));
      sx := sx + 2;
    }
    SearchRowStep(original, w, h, x, y, c, intensity, m, sy, sx);
    PlusNoSums(Sums(weightSum, pixelSum));
  }

  /** The body of the search loops: the candidate at offset (sx, sy) is
      weighed by patch similarity and added to the sums when its patch lies
      inside the image. */
  method AddCandidate(original: seq<int>, x: int, y: int, w: int, h: int, c: int, intensity: real, m: MathLib, sx: int, sy: int,
                      weight0: real, pixel0: real)
    returns (weightSum: real, pixelSum: real)
    requires Shaped(original, w, h) && 0 <= c < 4 && intensity > 0.0 && Inset(w, h, x, y, SearchRadius(intensity))
    ensures Sums(weightSum, pixelSum) == Plus(Sums(weight0, pixel0), Contribution(original, w, h, x, y, c, intensity, m, sx, sy))
  {
    var patchRadius := PatchRadius(intensity);
    weightSum, pixelSum := weight0, pixel0;
    if y + sy >= patchRadius && y + sy < h - patchRadius && x + sx >= patchRadius && x + sx < w - patchRadius {
      var weight, value := WeighCandidate(original, x, y, w, h, c, intensity, m, sx, sy);
      PlusTerm(weight0, pixel0, value, weight);
      weightSum := weightSum + weight;
      pixelSum := pixelSum + value as real * weight;
    } else {
      NoContribution(original, w, h, x, y, c, intensity, m, sx, sy);
      PlusNoSums(Sums(weight0, pixel0));
    }
  }

  /** The patch distance of the candidate at offset (sx, sy), whose patch
      lies inside the image, turned into its weight; `value` is its sample. */
  method WeighCandidate(original: seq<int>, x: int, y: int, w: int, h: int, c: int, intensity: real, m: MathLib, sx: int, sy: int)
    returns (weight: real, value: int)
    requires Shaped(original, w, h) && 0 <= c < 4 && intensity > 0.0 && Inset(w, h, x, y, SearchRadius(intensity))
    requires Inset(w, h, x + sx, y + sy, PatchRadius(intensity))
    ensures Contribution(original, w, h, x, y, c, intensity, m, sx, sy) == Term(value, weight)
  {
    var patchRadius := PatchRadius(intensity);
    PatchWithinSearch(intensity);
    var patchDiff, patchCount := PatchDifference(original, x, y, x + sx, y + sy, w, h, c, patchRadius);
    weight := Weight(patchDiff, patchCount, intensity, m);
    AddContribution(original, w, h, x, y, c, intensity, m, sx, sy, patchDiff, patchCount, weight);
    value := original[Idx(w, x + sx, y + sy, c)];
  }

  /** The search loops of one sample: `weightSum` and `pixelSum` over the search window. */
  method NlmSample(original: seq<int>, x: int, y: int, w: int, h: int, c: int, intensity: real, m: MathLib)
    returns (weightSum: real, pixelSum: real)
    requires Shaped(original, w, h) && 0 <= c < 4 && intensity > 0.0 && Inset(w, h, x, y, SearchRadius(intensity))
    ensures Sums(weightSum, pixelSum) == Search(original, w, h, x, y, c, intensity, m)
  {
    var searchRadius := SearchRadius(intensity);
    weightSum, pixelSum := 0.0, 0.0;
    var sy := -searchRadius;
    while sy <= searchRadius
      invariant -searchRadius <= sy <= searchRadius + 2
      invariant Plus(Sums(weightSum, pixelSum), SearchFrom(original, w, h, x, y, c, intensity, m, sy))
             == Search(original, w, h, x, y, c, intensity, m)
      decreases searchRadius + 2 - sy
    {
      weightSum, pixelSum := SearchRowInto(original, x, y, w, h, c, intensity, m, sy, weightSum, pixelSum);
      sy := sy + 2;
    }
    SearchStep(original, w, h, x, y, c, intensity, m, sy);
    PlusNoSums(Sums(weightSum, pixelSum));
  }

  /** One iteration of the outer search loop: row sy moves from what is
      still to be searched into the sums. */
  method SearchRowInto(original: seq<int>, x: int, y: int, w: int, h: int, c: int, intensity: real, m: MathLib, sy: int,
                       weight0: real, pixel0: real)
    returns (weightSum: real, pixelSum: real)
    requires Shaped(original, w, h) && 0 <= c < 4 && intensity > 0.0 && Inset(w, h, x, y, SearchRadius(intensity))
    requires sy <= SearchRadius(intensity)
    ensures Plus(Sums(weightSum, pixelSum), SearchFrom(original, w, h, x, y, c, intensity, m, sy + 2))
         == Plus(Sums(weight0, pixel0), SearchFrom(original, w, h, x, y, c, intensity, m, sy))
  {
    SearchStep(original, w, h, x, y, c, intensity, m, sy);
    weightSum, pixelSum := SearchRow(original, x, y, w, h, c, intensity, m, sy, weight0, pixel0);
    PlusAssociative(Sums(weight0, pixel0), SearchRowFrom(original, w, h, x, y, c, intensity, m, sy, -SearchRadius(intensity)),
                    SearchFrom(original, w, h, x, y, c, intensity, m, sy + 2));
  }

  /** The body of the channel loop: whether some weight was collected for
      sample c of (x, y), and the byte then written. */
  method DenoiseSample(original: seq<int>, x: int, y: int, w: int, h: int, c: int, intensity: real, m: MathLib)
    returns (write: bool, value: int)
    requires Shaped(original, w, h) && 0 <= c < 4 && intensity > 0.0 && Inset(w, h, x, y, SearchRadius(intensity))
    ensures write == (Search(original, w, h, x, y, c, intensity, m).weight > 0.0)
    ensures write ==> value == Denoised(original, w, h, x, y, c, intensity, m)
  {
    IdxCoords(w, h, x, y, c);
    var centerPixel := Idx(w, x, y, c);
    var weightSum, pixelSum := NlmSample(original, x, y, w, h, c, intensity, m);
    write := weightSum > 0.0;
    value := original[centerPixel];
    if write {
      var filteredValue := pixelSum / weightSum;
      value := RoundStore(Blend(original[centerPixel], filteredValue, intensity, 0.7));
    }
  }

  /** `applyNonLocalMeansDenoising`: a scan of the interior that reads the
      snapshot `originalData` and rewrites the samples for which some weight
      was collected. */
  method ApplyNonLocalMeansDenoising(data: array<int>, originalData: seq<int>, w: int, h: int, intensity: real, m: MathLib)
    requires Shaped(originalData, w, h) && data.Length == |originalData| && intensity > 0.0
    modifies data
    ensures data[..] == NlmPass(old(data[..]), originalData, w, h, intensity, m)
  {
    ghost var src := data[..];
    ghost var tgt := NlmPass(src, originalData, w, h, intensity, m);
    var searchRadius := SearchRadius(intensity);
    SweepStart(src, tgt, w, h, searchRadius);
    var y := searchRadius;
    while y < h - searchRadius
      invariant searchRadius <= y <= MaxI(searchRadius, h - searchRadius)
      invariant SweptTo(data[..], src, tgt, w, y, searchRadius, 0)
    {
      var x := searchRadius;
      while x < w - searchRadius
        invariant searchRadius <= x <= MaxI(searchRadius, w - searchRadius)
        invariant SweptTo(data[..], src, tgt, w, y, x, 0)
      {
        var c := 0;
        while c < 3
          invariant 0 <= c <= 3
          invariant SweptTo(data[..], src, tgt, w, y, x, c)
        {
          NlmPassAt(src, originalData, w, h, intensity, m, x, y, c);
          SweepWrite(data[..], src, tgt, w, h, x, y, c);
          var centerPixel := Idx(w, x, y, c);
          var write, value := DenoiseSample(originalData, x, y, w, h, c, intensity, m);
          if write {
            data[centerPixel] := value;
          } else {
            assert data[..] == data[..][centerPixel := tgt[centerPixel]];
          }
          c := c + 1;
        }
        SweepNextPixel(data[..], src, tgt, w, h, searchRadius, x, y);
        x := x + 1;
      }
      SweepNextRow(data[..], src, tgt, w, h, searchRadius, x, y);
      y := y + 1;
    }
    SweepEnd(data[..], src, tgt, w, h, searchRadius, y);
  }

  /** A patch row compared with itself differs nowhere. */
  lemma {:induction false} PatchRowSelf(s: seq<int>, w: int, h: int, x: int, y: int, c: int, pr: int, py: int, px: int)
    requires Shaped(s, w, h) && 0 <= c < 4 && Inset(w, h, x, y, pr) && -pr <= py <= pr && -pr <= px <= pr + 1
    ensures PatchRowFrom(s, w, h, x, y, x, y, c, pr, py, px) == 0
    decreases pr + 1 - px
  {
    if px <= pr {
      PatchRowSelf(s, w, h, x, y, c, pr, py, px + 1);
    }
  }

  /** A patch compared with itself differs nowhere. */
  lemma {:induction false} PatchSelf(s: seq<int>, w: int, h: int, x: int, y: int, c: int, pr: int, py: int)
    requires Shaped(s, w, h) && 0 <= c < 4 && Inset(w, h, x, y, pr) && -pr <= py <= pr + 1
    ensures PatchFrom(s, w, h, x, y, x, y, c, pr, py) == 0
    decreases pr + 1 - py
  {
    if py <= pr {
      PatchRowSelf(s, w, h, x, y, c, pr, py, -pr);
      PatchSelf(s, w, h, x, y, c, pr, py + 1);
    }
  }

  /** Swapping the two patches of a row leaves their difference unchanged. */
  lemma {:induction false} PatchRowSymmetric(s: seq<int>, w: int, h: int, x: int, y: int, nx: int, ny: int, c: int, pr: int, py: int, px: int)
    requires Shaped(s, w, h) && 0 <= c < 4 && Inset(w, h, x, y, pr) && Inset(w, h, nx, ny, pr)
    requires -pr <= py <= pr && -pr <= px <= pr + 1
    ensures PatchRowFrom(s, w, h, x, y, nx, ny, c, pr, py, px) == PatchRowFrom(s, w, h, nx, ny, x, y, c, pr, py, px)
    decreases pr + 1 - px
  {
    if px <= pr {
      var a, b := At(s, w, h, x + px, y + py, c), At(s, w, h, nx + px, ny + py, c);
      assert Pow2(a - b) == Pow2(b - a) by {
        assert (a - b) * (a - b) == (b - a) * (b - a);
      }
      PatchRowSymmetric(s, w, h, x, y, nx, ny, c, pr, py, px + 1);
    }
  }

  /** The patch difference, and so a candidate's weight, is symmetric in the two pixels. */
  lemma {:induction false} PatchSymmetric(s: seq<int>, w: int, h: int, x: int, y: int, nx: int, ny: int, c: int, pr: int, py: int)
    requires Shaped(s, w, h) && 0 <= c < 4 && Inset(w, h, x, y, pr) && Inset(w, h, nx, ny, pr)
    requires -pr <= py <= pr + 1
    ensures PatchFrom(s, w, h, x, y, nx, ny, c, pr, py) == PatchFrom(s, w, h, nx, ny, x, y, c, pr, py)
    decreases pr + 1 - py
  {
    if py <= pr {
      PatchRowSymmetric(s, w, h, x, y, nx, ny, c, pr, py, -pr);
      PatchSymmetric(s, w, h, x, y, nx, ny, c, pr, py + 1);
    }
  }

  /** The centre offset (0, 0), when the search reaches it (CentreOnGrid),
      contributes the centre sample with the weight `Math.exp(0)` of a
      perfect match. */
  lemma {:induction false} CentreCandidate(s: seq<int>, w: int, h: int, x: int, y: int, c: int, d: real, m: MathLib)
    requires Shaped(s, w, h) && 0 <= c < 4 && d > 0.0 && Inset(w, h, x, y, SearchRadius(d))
    ensures Contribution(s, w, h, x, y, c, d, m, 0, 0) == Term(At(s, w, h, x, y, c), m.exp(0.0))
  {
    ContributionIs(s, w, h, x, y, c, d, m, 0, 0);
    PatchWithinSearch(d);
    var pr := PatchRadius(d);
    IdxCoords(w, h, x, y, c);
    PatchSelf(s, w, h, x, y, c, pr, -pr);
    ZeroWeight(PatchArea(pr), d, m);
  }

  /** Identical patches get the weight `Math.exp(0)`. */
  lemma {:induction false} ZeroWeight(count: int, d: real, m: MathLib)
    requires count > 0 && d > 0.0
    ensures Weight(0, count, d, m) == m.exp(0.0)
  {
    var hh := FilterStrength(d);
    WeightIs(0, count, d, m);
    assert 0 as real / count as real == 0.0;
    assert -0.0 / (hh * hh) == 0.0;
  }

  /** No weight is negative. */
  lemma {:induction false} WeightNonNegative(diff: int, count: int, d: real, m: MathLib)
    requires count > 0 && d > 0.0 && Sound(m)
    ensures Weight(diff, count, d, m) >= 0.0
  {
    WeightIs(diff, count, d, m);
  }

  /** Every candidate has a value in [lo, hi] and a non-negative weight. */
  lemma {:induction false} ContributionBracketed(s: seq<int>, w: int, h: int, x: int, y: int, c: int, d: real, m: MathLib, sx: int, sy: int, lo: int, hi: int)
    requires Shaped(s, w, h) && 0 <= c < 4 && d > 0.0 && Inset(w, h, x, y, SearchRadius(d))
    requires Sound(m) && ChannelBetween(s, c, lo, hi)
    ensures Bracketed(Contribution(s, w, h, x, y, c, d, m, sx, sy), lo as real, hi as real)
  {
    ContributionIs(s, w, h, x, y, c, d, m, sx, sy);
    var pr := PatchRadius(d);
    if Inset(w, h, x + sx, y + sy, pr) {
      PatchWithinSearch(d);
      AtBetween(s, w, h, x + sx, y + sy, c, lo, hi);
      var wt := Weight(PatchFrom(s, w, h, x, y, x + sx, y + sy, c, pr, -pr), PatchArea(pr), d, m);
      WeightNonNegative(PatchFrom(s, w, h, x, y, x + sx, y + sy, c, pr, -pr), PatchArea(pr), d, m);
      TermBracketed(At(s, w, h, x + sx, y + sy, c), wt, lo, hi);
    }
  }

  lemma {:induction false} SearchRowBracketed(s: seq<int>, w: int, h: int, x: int, y: int, c: int, d: real, m: MathLib, sy: int, sx: int, lo: int, hi: int)
    requires Shaped(s, w, h) && 0 <= c < 4 && d > 0.0 && Inset(w, h, x, y, SearchRadius(d))
    requires Sound(m) && ChannelBetween(s, c, lo, hi)
    ensures Bracketed(SearchRowFrom(s, w, h, x, y, c, d, m, sy, sx), lo as real, hi as real)
    decreases SearchRadius(d) + 2 - sx
  {
    SearchRowStep(s, w, h, x, y, c, d, m, sy, sx);
    NoSumsBracketed(lo as real, hi as real);
    if sx <= SearchRadius(d) {
      ContributionBracketed(s, w, h, x, y, c, d, m, sx, sy, lo, hi);
      SearchRowBracketed(s, w, h, x, y, c, d, m, sy, sx + 2, lo, hi);
      PlusBracketed(Contribution(s, w, h, x, y, c, d, m, sx, sy), SearchRowFrom(s, w, h, x, y, c, d, m, sy, sx + 2), lo as real, hi as real);
    }
  }

  lemma {:induction false} SearchFromBracketed(s: seq<int>, w: int, h: int, x: int, y: int, c: int, d: real, m: MathLib, sy: int, lo: int, hi: int)
    requires Shaped(s, w, h) && 0 <= c < 4 && d > 0.0 && Inset(w, h, x, y, SearchRadius(d))
    requires Sound(m) && ChannelBetween(s, c, lo, hi)
    ensures Bracketed(SearchFrom(s, w, h, x, y, c, d, m, sy), lo as real, hi as real)
    decreases SearchRadius(d) + 2 - sy
  {
    SearchStep(s, w, h, x, y, c, d, m, sy);
    NoSumsBracketed(lo as real, hi as real);
    if sy <= SearchRadius(d) {
      SearchRowBracketed(s, w, h, x, y, c, d, m, sy, -SearchRadius(d), lo, hi);
      SearchFromBracketed(s, w, h, x, y, c, d, m, sy + 2, lo, hi);
      PlusBracketed(SearchRowFrom(s, w, h, x, y, c, d, m, sy, -SearchRadius(d)), SearchFrom(s, w, h, x, y, c, d, m, sy + 2), lo as real, hi as real);
    }
  }

  /** When channel c of the snapshot lies in [lo, hi], so does the weighted
      mean of the search window. */
  lemma {:induction false} FilteredBetween(s: seq<int>, w: int, h: int, x: int, y: int, c: int, d: real, m: MathLib, lo: int, hi: int)
    requires Shaped(s, w, h) && 0 <= c < 4 && d > 0.0 && Inset(w, h, x, y, SearchRadius(d))
    requires Sound(m) && ChannelBetween(s, c, lo, hi) && Search(s, w, h, x, y, c, d, m).weight > 0.0
    ensures lo as real <= Search(s, w, h, x, y, c, d, m).pixel / Search(s, w, h, x, y, c, d, m).weight <= hi as real
  {
    SearchFromBracketed(s, w, h, x, y, c, d, m, -SearchRadius(d), lo, hi);
    MeanBracketed(Search(s, w, h, x, y, c, d, m), lo as real, hi as real);
  }

  /** Maximum principle for one sample: with `0 < i <= 1` the denoised byte
      lies between the least and the greatest value of its channel in the
      snapshot, as does the value it replaces. */
  lemma {:induction false} NlmAtWithin(s: seq<int>, w: int, h: int, x: int, y: int, c: int, d: real, m: MathLib, current: int, lo: int, hi: int)
    requires Shaped(s, w, h) && 0 <= c < 4 && 0.0 < d <= 1.0 && Inset(w, h, x, y, SearchRadius(d)) && Sound(m)
    requires 0 <= lo <= hi <= 255 && ChannelBetween(s, c, lo, hi) && lo <= current <= hi
    ensures lo <= NlmAt(s, w, h, x, y, c, d, m, current) <= hi
  {
    var sums := Search(s, w, h, x, y, c, d, m);
    if sums.weight > 0.0 {
      FilteredBetween(s, w, h, x, y, c, d, m, lo, hi);
      AtBetween(s, w, h, x, y, c, lo, hi);
      var centre := At(s, w, h, x, y, c);
      BlendBetween(centre, sums.pixel / sums.weight, d, 0.7);
      RoundStoreBetween(lo, hi, Blend(centre, sums.pixel / sums.weight, d, 0.7));
    }
  }

  /** Maximum principle for the pass: a colour channel whose samples lie in
      [lo, hi] before the pass still does afterwards. */
  lemma {:induction false} NlmPassWithin(s: seq<int>, w: int, h: int, d: real, m: MathLib, c: int, lo: int, hi: int)
    requires Shaped(s, w, h) && 0.0 < d <= 1.0 && Sound(m) && 0 <= c < 4
    requires 0 <= lo <= hi <= 255 && ChannelBetween(s, c, lo, hi)
    ensures ChannelBetween(NlmPass(s, s, w, h, d, m), c, lo, hi)
  {
    var r := NlmPass(s, s, w, h, d, m);
    forall k | 0 <= k < |r| && Chan(k) == c
      ensures lo <= r[k] <= hi
    {
      if Interior(w, h, SearchRadius(d), k) {
        CoordsOf(w, h, k);
        NlmAtWithin(s, w, h, Col(w, k), Row(w, k), c, d, m, s[k], lo, hi);
      }
    }
  }

  /** The pass writes only stored bytes, so a byte buffer stays one at any
      intensity. */
  lemma {:induction false} NlmPassBytes(a: seq<int>, s: seq<int>, w: int, h: int, d: real, m: MathLib)
    requires Shaped(s, w, h) && |a| == |s| && d > 0.0 && ByteRange(a)
    ensures ByteRange(NlmPass(a, s, w, h, d, m))
  {
    var r := NlmPass(a, s, w, h, d, m);
    forall k | 0 <= k < |r|
      ensures 0 <= r[k] <= 255
    {
      if Interior(w, h, SearchRadius(d), k) {
        CoordsOf(w, h, k);
        var x, y := Col(w, k), Row(w, k);
        assert r[k] == NlmAt(s, w, h, x, y, Chan(k), d, m, a[k]);
      }
    }
  }

  /** A flat byte image is a fixed point of the pass, whatever the intensity. */
  lemma {:induction false} NlmUniform(s: seq<int>, w: int, h: int, d: real, m: MathLib)
    requires Shaped(s, w, h) && Uniform(s) && ByteRange(s) && d > 0.0 && Sound(m)
    ensures NlmPass(s, s, w, h, d, m) == s
  {
    var r := NlmPass(s, s, w, h, d, m);
    forall k | 0 <= k < |s| && Interior(w, h, SearchRadius(d), k)
      ensures r[k] == s[k]
    {
      CoordsOf(w, h, k);
      NlmAtUniform(s, w, h, Col(w, k), Row(w, k), Chan(k), d, m);
    }
  }

  /** In a flat byte image every interior sample keeps its value. */
  lemma {:induction false} NlmAtUniform(s: seq<int>, w: int, h: int, x: int, y: int, c: int, d: real, m: MathLib)
    requires Shaped(s, w, h) && Uniform(s) && ByteRange(s) && d > 0.0 && Sound(m)
    requires 0 <= c < 4 && Inset(w, h, x, y, SearchRadius(d))
    ensures 0 <= Idx(w, x, y, c) < |s|
    ensures NlmAt(s, w, h, x, y, c, d, m, s[Idx(w, x, y, c)]) == s[Idx(w, x, y, c)]
  {
    IdxCoords(w, h, x, y, c);
    UniformAt(s, w, h, x, y, c);
    if Search(s, w, h, x, y, c, d, m).weight > 0.0 {
      DenoisedUniform(s, w, h, x, y, c, d, m);
    }
  }

  /** On a flat byte image the denoised value of a sample is the sample. */
  lemma {:induction false} DenoisedUniform(s: seq<int>, w: int, h: int, x: int, y: int, c: int, d: real, m: MathLib)
    requires Shaped(s, w, h) && Uniform(s) && ByteRange(s) && d > 0.0 && Sound(m)
    requires 0 <= c < 4 && Inset(w, h, x, y, SearchRadius(d)) && Search(s, w, h, x, y, c, d, m).weight > 0.0
    ensures Denoised(s, w, h, x, y, c, d, m) == At(s, w, h, x, y, c)
  {
    var v := At(s, w, h, x, y, c);
    AtBetween(s, w, h, x, y, c, 0, 255);
    UniformAt(s, w, h, x, y, c);
    ChannelBounds(s, c);
    FilteredBetween(s, w, h, x, y, c, d, m, v, v);
    var sums := Search(s, w, h, x, y, c, d, m);
    RoundBlendFixed(v, sums.pixel / sums.weight, d, 0.7);
  }
}