/** `applyImprovedBilateralFilter`: every interior colour sample (at least
    the radius from each edge) becomes a blend of itself and a weighted mean
    of the samples of its square window. The window is walked with stride 1
    where the local variance exceeds 100 and with stride 2 elsewhere. A
    neighbour's weight is a Gaussian of its distance times a Gaussian of its
    colour difference from the centre, whose sigma widens with the Sobel
    edge strength at the neighbour. All reads go to the snapshot
    `originalData`; the writes go to the buffer. */
module Bilateral {
  import opened Raster
  import opened JsNumbers
  import opened Stats
  import opened Neighbourhood
  import opened Smoothing

  /** `Math.max(2, Math.floor(intensity * 5))`. */
  function Radius(d: real): int { MaxI(2, Floor(d * 5.0)) }

  /** `sigmaColor` and `sigmaSpace`, both `30 + 40 i`. */
  function Sigma(d: real): real { 30.0 + d * 40.0 }

  /** The denominator `2 sigma^2` of a Gaussian whose sigma is at least 30. */
  lemma {:induction false} TwiceSquareAtLeast(v: real)
    requires v >= 30.0
    ensures 2.0 * v * v >= 1800.0
  {
    ScaleMonotone(30.0, v, v);
    ScaleMonotone(30.0, v, 30.0);
    assert 2.0 * v * v == 2.0 * (v * v);
  }

  /** `Math.exp(-(spatialDist * spatialDist) / (2 * sigmaSpace * sigmaSpace))`
      with `spatialDist = Math.sqrt(dx * dx + dy * dy)`. */
  function SpatialWeight(dx: int, dy: int, d: real, m: MathLib): real
    requires d > 0.0
  {
    SpatialWeightAt(dx, dy, d, m, 1)
  }

  /** The definition of SpatialWeight, reached after `layer` unfoldings. The
      solver unfolds a recursive function once per occurrence, so the
      arithmetic behind a weight stays out of the proofs that only pass it on. */
  function SpatialWeightAt(dx: int, dy: int, d: real, m: MathLib, layer: nat): real
    requires d > 0.0
    decreases layer
  {
    if layer > 0 then SpatialWeightAt(dx, dy, d, m, layer - 1)
    else
      var sigmaSpace := Sigma(d);
      TwiceSquareAtLeast(sigmaSpace);
      var spatialDist := m.sqrt((dx * dx + dy * dy) as real);
      m.exp(-(spatialDist * spatialDist) / (2.0 * sigmaSpace * sigmaSpace))
  }

  /** The colour sigma at a neighbour of edge strength e: `sigmaColor * (1 + e * 0.5)`. */
  function AdaptedSigma(e: real, d: real): (r: real)
    requires d > 0.0 && e >= 0.0
    ensures r >= 30.0
  {
    ScaleMonotone(1.0, 1.0 + e * 0.5, Sigma(d));
    Sigma(d) * (1.0 + e * 0.5)
  }

  /** `Math.exp(-(colorDist * colorDist) / (2 * adaptedSigmaColor * adaptedSigmaColor))`
      with `colorDist = Math.abs(centerValue - neighborValue)`. */
  function ColourWeight(centre: int, neighbour: int, e: real, d: real, m: MathLib): real
    requires d > 0.0 && e >= 0.0
  {
    ColourWeightAt(centre, neighbour, e, d, m, 1)
  }

  /** The definition of ColourWeight, reached after `layer` unfoldings. */
  function ColourWeightAt(centre: int, neighbour: int, e: real, d: real, m: MathLib, layer: nat): real
    requires d > 0.0 && e >= 0.0
    decreases layer
  {
    if layer > 0 then ColourWeightAt(centre, neighbour, e, d, m, layer - 1)
    else
      var adaptedSigmaColor := AdaptedSigma(e, d);
      TwiceSquareAtLeast(adaptedSigmaColor);
      var colorDist := AbsR((centre - neighbour) as real);
      m.exp(-(colorDist * colorDist) / (2.0 * adaptedSigmaColor * adaptedSigmaColor))
  }

  /** The weight of the neighbour at offset (dx, dy) of (x, y). */
  function NeighbourWeight(s: seq<int>, w: int, h: int, x: int, y: int, c: int, d: real, m: MathLib, dx: int, dy: int): real
    requires Shaped(s, w, h) && 0 <= c < 4 && d > 0.0 && Sound(m) && Inset(w, h, x, y, Radius(d))
    requires -Radius(d) <= dx <= Radius(d) && -Radius(d) <= dy <= Radius(d)
  {
    EdgeStrengthNonNegative(s, w, h, x + dx, y + dy, c, m);
    SpatialWeight(dx, dy, d, m)
      * ColourWeight(At(s, w, h, x, y, c), At(s, w, h, x + dx, y + dy, c), EdgeStrength(s, w, h, x + dx, y + dy, c, m), d, m)
  }

  /** What the neighbour at offset (dx, dy) adds to the sums. */
  function Contribution(s: seq<int>, w: int, h: int, x: int, y: int, c: int, d: real, m: MathLib, dx: int, dy: int): Sums
    requires Shaped(s, w, h) && 0 <= c < 4 && d > 0.0 && Sound(m) && Inset(w, h, x, y, Radius(d))
    requires -Radius(d) <= dx <= Radius(d) && -Radius(d) <= dy <= Radius(d)
  {
    ContributionAt(s, w, h, x, y, c, d, m, dx, dy, 1)
  }

  /** The definition of Contribution, reached after `layer` unfoldings, so
      that the sums over a window do not expose every weight to the solver. */
  function ContributionAt(s: seq<int>, w: int, h: int, x: int, y: int, c: int, d: real, m: MathLib, dx: int, dy: int, layer: nat): Sums
    requires Shaped(s, w, h) && 0 <= c < 4 && d > 0.0 && Sound(m) && Inset(w, h, x, y, Radius(d))
    requires -Radius(d) <= dx <= Radius(d) && -Radius(d) <= dy <= Radius(d)
    decreases layer
  {
    if layer > 0 then ContributionAt(s, w, h, x, y, c, d, m, dx, dy, layer - 1)
    else Term(At(s, w, h, x + dx, y + dy, c), NeighbourWeight(s, w, h, x, y, c, d, m, dx, dy))
  }

  /** The samples the filter reads for the neighbour at offset (dx, dy) are in the buffer. */
  lemma {:induction false} NeighbourOf(s: seq<int>, w: int, h: int, x: int, y: int, c: int, d: real, m: MathLib, dx: int, dy: int)
    requires Shaped(s, w, h) && 0 <= c < 4 && d > 0.0 && Sound(m) && Inset(w, h, x, y, Radius(d))
    requires -Radius(d) <= dx <= Radius(d) && -Radius(d) <= dy <= Radius(d)
    ensures 0 <= Idx(w, x, y, c) < |s| && 0 <= Idx(w, x + dx, y + dy, c) < |s|
    ensures EdgeStrength(s, w, h, x + dx, y + dy, c, m) >= 0.0
  {
    IdxCoords(w, h, x, y, c);
    IdxCoords(w, h, x + dx, y + dy, c);
    EdgeStrengthNonNegative(s, w, h, x + dx, y + dy, c, m);
  }

  /** The neighbour at offset (dx, dy) contributes its sample with the
      weight the filter computes for it. */
  lemma {:induction false} AddContribution(s: seq<int>, w: int, h: int, x: int, y: int, c: int, d: real, m: MathLib, dx: int, dy: int,
                        e: real, weight: real)
    requires Shaped(s, w, h) && 0 <= c < 4 && d > 0.0 && Sound(m) && Inset(w, h, x, y, Radius(d))
    requires -Radius(d) <= dx <= Radius(d) && -Radius(d) <= dy <= Radius(d)
    requires 0 <= Idx(w, x, y, c) < |s| && 0 <= Idx(w, x + dx, y + dy, c) < |s|
    requires e == EdgeStrength(s, w, h, x + dx, y + dy, c, m) && e >= 0.0
    requires weight == SpatialWeight(dx, dy, d, m) * ColourWeight(s[Idx(w, x, y, c)], s[Idx(w, x + dx, y + dy, c)], e, d, m)
    ensures Contribution(s, w, h, x, y, c, d, m, dx, dy) == Term(s[Idx(w, x + dx, y + dy, c)], weight)
  {
    var centre, neighbour := At(s, w, h, x, y, c), At(s, w, h, x + dx, y + dy, c);
    assert centre == s[Idx(w, x, y, c)] && neighbour == s[Idx(w, x + dx, y + dy, c)];
    assert NeighbourWeight(s, w, h, x, y, c, d, m, dx, dy) == weight;
    assert ContributionAt(s, w, h, x, y, c, d, m, dx, dy, 1) == ContributionAt(s, w, h, x, y, c, d, m, dx, dy, 0);
  }

  /** The running sums after the neighbours of window row dy, from column
      offset dx on and every `step`-th one, are added to `acc`. */
  function RowFrom(acc: Sums, s: seq<int>, w: int, h: int, x: int, y: int, c: int, d: real, m: MathLib, step: int, dy: int, dx: int): Sums
    requires Shaped(s, w, h) && 0 <= c < 4 && d > 0.0 && Sound(m) && Inset(w, h, x, y, Radius(d))
    requires step >= 1 && -Radius(d) <= dy <= Radius(d) && -Radius(d) <= dx
    decreases Radius(d) + 1 - dx, 2
  {
    RowFromAt(acc, s, w, h, x, y, c, d, m, step, dy, dx, 1)
  }

  /** The definition of RowFrom, reached after `layer` unfoldings, so that
      the sums of a row are unfolded only where a proof asks for it. */
  function RowFromAt(acc: Sums, s: seq<int>, w: int, h: int, x: int, y: int, c: int, d: real, m: MathLib, step: int, dy: int, dx: int,
                     layer: nat): Sums
    requires Shaped(s, w, h) && 0 <= c < 4 && d > 0.0 && Sound(m) && Inset(w, h, x, y, Radius(d))
    requires step >= 1 && -Radius(d) <= dy <= Radius(d) && -Radius(d) <= dx
    decreases Radius(d) + 1 - dx, layer
  {
    if layer > 0 then RowFromAt(acc, s, w, h, x, y, c, d, m, step, dy, dx, layer - 1)
    else if dx > Radius(d) then acc
    else RowFrom(Plus(acc, Contribution(s, w, h, x, y, c, d, m, dx, dy)), s, w, h, x, y, c, d, m, step, dy, dx + step)
  }

  /** The running sums after every `step`-th window row from dy on is added to `acc`. */
  function WindowFrom(acc: Sums, s: seq<int>, w: int, h: int, x: int, y: int, c: int, d: real, m: MathLib, step: int, dy: int): Sums
    requires Shaped(s, w, h) && 0 <= c < 4 && d > 0.0 && Sound(m) && Inset(w, h, x, y, Radius(d))
    requires step >= 1 && -Radius(d) <= dy
    decreases Radius(d) + 1 - dy, 2
  {
    WindowFromAt(acc, s, w, h, x, y, c, d, m, step, dy, 1)
  }

  /** The definition of WindowFrom, reached after `layer` unfoldings. */
  function WindowFromAt(acc: Sums, s: seq<int>, w: int, h: int, x: int, y: int, c: int, d: real, m: MathLib, step: int, dy: int,
                        layer: nat): Sums
    requires Shaped(s, w, h) && 0 <= c < 4 && d > 0.0 && Sound(m) && Inset(w, h, x, y, Radius(d))
    requires step >= 1 && -Radius(d) <= dy
    decreases Radius(d) + 1 - dy, layer
  {
    if layer > 0 then WindowFromAt(acc, s, w, h, x, y, c, d, m, step, dy, layer - 1)
    else if dy > Radius(d) then acc
    else WindowFrom(RowFrom(acc, s, w, h, x, y, c, d, m, step, dy, -Radius(d)), s, w, h, x, y, c, d, m, step, dy + step)
  }

  /** One neighbour of the row is taken into the sums, or the row is done. */
  lemma {:induction false} RowStep(acc: Sums, s: seq<int>, w: int, h: int, x: int, y: int, c: int, d: real, m: MathLib, step: int, dy: int, dx: int)
    requires Shaped(s, w, h) && 0 <= c < 4 && d > 0.0 && Sound(m) && Inset(w, h, x, y, Radius(d))
    requires step >= 1 && -Radius(d) <= dy <= Radius(d) && -Radius(d) <= dx
    ensures dx > Radius(d) ==> RowFrom(acc, s, w, h, x, y, c, d, m, step, dy, dx) == acc
    ensures dx <= Radius(d) ==>
      RowFrom(acc, s, w, h, x, y, c, d, m, step, dy, dx)
      == RowFrom(Plus(acc, Contribution(s, w, h, x, y, c, d, m, dx, dy)), s, w, h, x, y, c, d, m, step, dy, dx + step)
  {
    assert RowFromAt(acc, s, w, h, x, y, c, d, m, step, dy, dx, 1) == RowFromAt(acc, s, w, h, x, y, c, d, m, step, dy, dx, 0);
  }

  /** One row of the window is taken into the sums, or the window is done. */
  lemma {:induction false} WindowStep(acc: Sums, s: seq<int>, w: int, h: int, x: int, y: int, c: int, d: real, m: MathLib, step: int, dy: int)
    requires Shaped(s, w, h) && 0 <= c < 4 && d > 0.0 && Sound(m) && Inset(w, h, x, y, Radius(d))
    requires step >= 1 && -Radius(d) <= dy
    ensures dy > Radius(d) ==> WindowFrom(acc, s, w, h, x, y, c, d, m, step, dy) == acc
    ensures dy <= Radius(d) ==>
      WindowFrom(acc, s, w, h, x, y, c, d, m, step, dy)
      == WindowFrom(RowFrom(acc, s, w, h, x, y, c, d, m, step, dy, -Radius(d)), s, w, h, x, y, c, d, m, step, dy + step)
  {
    assert WindowFromAt(acc, s, w, h, x, y, c, d, m, step, dy, 1) == WindowFromAt(acc, s, w, h, x, y, c, d, m, step, dy, 0);
  }

  /** `adaptiveStep`: 1 where the variance of the window exceeds 100, else 2. */
  function Stride(s: seq<int>, w: int, h: int, x: int, y: int, c: int, r: int): (step: int)
    requires Shaped(s, w, h) && 0 <= c < 4 && InImage(w, h, x, y) && r >= 0
    ensures step == 1 || step == 2
  {
    WindowHasCenter(s, w, h, x, y, c, r, r + 1);
    if Variance(LocalWindow(s, w, h, x, y, c, r)) > 100.0 then 1 else 2
  }

  /** The sums over the whole window of (x, y) at its adaptive stride. */
  function Window(s: seq<int>, w: int, h: int, x: int, y: int, c: int, d: real, m: MathLib): Sums
    requires Shaped(s, w, h) && 0 <= c < 4 && d > 0.0 && Sound(m) && Inset(w, h, x, y, Radius(d))
  {
    WindowAt(s, w, h, x, y, c, d, m, 1)
  }

  /** The definition of Window, reached after `layer` unfoldings, so that
      the facts about one window do not expose all of its sums. */
  function WindowAt(s: seq<int>, w: int, h: int, x: int, y: int, c: int, d: real, m: MathLib, layer: nat): Sums
    requires Shaped(s, w, h) && 0 <= c < 4 && d > 0.0 && Sound(m) && Inset(w, h, x, y, Radius(d))
    decreases layer
  {
    if layer > 0 then WindowAt(s, w, h, x, y, c, d, m, layer - 1)
    else WindowFrom(NoSums, s, w, h, x, y, c, d, m, Stride(s, w, h, x, y, c, Radius(d)), -Radius(d))
  }

  lemma {:induction false} WindowIs(s: seq<int>, w: int, h: int, x: int, y: int, c: int, d: real, m: MathLib)
    requires Shaped(s, w, h) && 0 <= c < 4 && d > 0.0 && Sound(m) && Inset(w, h, x, y, Radius(d))
    ensures Window(s, w, h, x, y, c, d, m) == WindowFrom(NoSums, s, w, h, x, y, c, d, m, Stride(s, w, h, x, y, c, Radius(d)), -Radius(d))
  {
    assert WindowAt(s, w, h, x, y, c, d, m, 1) == WindowAt(s, w, h, x, y, c, d, m, 0);
  }

  /** The byte written for sample c of (x, y) once some weight was
      collected: the blend of the centre with the weighted mean, share `0.6 i`. */
  function Smoothed(s: seq<int>, w: int, h: int, x: int, y: int, c: int, d: real, m: MathLib): int
    requires Shaped(s, w, h) && 0 <= c < 4 && d > 0.0 && Sound(m) && Inset(w, h, x, y, Radius(d))
    requires Window(s, w, h, x, y, c, d, m).weight > 0.0
  {
    var sums := Window(s, w, h, x, y, c, d, m);
    RoundStore(Blend(At(s, w, h, x, y, c), sums.pixel / sums.weight, d, 0.6))
  }

  /** The byte stored at sample c of (x, y), whose value before the pass is `current`. */
  function BilateralAt(s: seq<int>, w: int, h: int, x: int, y: int, c: int, d: real, m: MathLib, current: int): int
    requires Shaped(s, w, h) && 0 <= c < 4 && d > 0.0 && Sound(m) && Inset(w, h, x, y, Radius(d))
  {
    if Window(s, w, h, x, y, c, d, m).weight > 0.0 then Smoothed(s, w, h, x, y, c, d, m) else current
  }

  /** The buffer `a` after the pass over the snapshot `s`. */
  function BilateralPass(a: seq<int>, s: seq<int>, w: int, h: int, d: real, m: MathLib): (r: seq<int>)
    requires Shaped(s, w, h) && |a| == |s| && d > 0.0 && Sound(m)
    ensures FramedBy(a, r, w, h, Radius(d))
  {
    seq(|a|, k requires 0 <= k < |a| =>
      if Interior(w, h, Radius(d), k) then
        CoordsOf(w, h, k);
        BilateralAt(s, w, h, Col(w, k), Row(w, k), Chan(k), d, m, a[k])
      else a[k])
  }

  lemma {:induction false} BilateralPassAt(a: seq<int>, s: seq<int>, w: int, h: int, d: real, m: MathLib, x: int, y: int, c: int)
    requires Shaped(s, w, h) && |a| == |s| && d > 0.0 && Sound(m) && Inset(w, h, x, y, Radius(d)) && 0 <= c < 3
    ensures 0 <= Idx(w, x, y, c) < |a|
    ensures BilateralPass(a, s, w, h, d, m)[Idx(w, x, y, c)] == BilateralAt(s, w, h, x, y, c, d, m, a[Idx(w, x, y, c)])
  {
    IdxCoords(w, h, x, y, c);
  }

  /** The body of the window loops: the neighbour at offset (dx, dy) is
      added to the sums. */
  method AddNeighbour(original: seq<int>, x: int, y: int, w: int, h: int, c: int, intensity: real, m: MathLib, dx: int, dy: int,
                      weight0: real, pixel0: real)
    returns (weightSum: real, pixelSum: real)
    requires Shaped(original, w, h) && 0 <= c < 4 && intensity > 0.0 && Sound(m) && Inset(w, h, x, y, Radius(intensity))
    requires -Radius(intensity) <= dx <= Radius(intensity) && -Radius(intensity) <= dy <= Radius(intensity)
    ensures Sums(weightSum, pixelSum) == Plus(Sums(weight0, pixel0), Contribution(original, w, h, x, y, c, intensity, m, dx, dy))
  {
    var weight, neighborValue := WeighNeighbour(original, x, y, w, h, c, intensity, m, dx, dy);
    PlusTerm(weight0, pixel0, neighborValue, weight);
    weightSum := weight0 + weight;
    pixelSum := pixel0 + neighborValue as real * weight;
  }

  /** The neighbour at offset (dx, dy), weighed by its distance and by its
      colour similarity to the centre; `neighborValue` is its sample. */
  method WeighNeighbour(original: seq<int>, x: int, y: int, w: int, h: int, c: int, intensity: real, m: MathLib, dx: int, dy: int)
    returns (weight: real, neighborValue: int)
    requires Shaped(original, w, h) && 0 <= c < 4 && intensity > 0.0 && Sound(m) && Inset(w, h, x, y, Radius(intensity))
    requires -Radius(intensity) <= dx <= Radius(intensity) && -Radius(intensity) <= dy <= Radius(intensity)
    ensures Contribution(original, w, h, x, y, c, intensity, m, dx, dy) == Term(neighborValue, weight)
  {
    NeighbourOf(original, w, h, x, y, c, intensity, m, dx, dy);
    var centerValue := original[Idx(w, x, y, c)];
    neighborValue := original[Idx(w, x + dx, y + dy, c)];
    var spatialWeight := SpatialWeight(dx, dy, intensity, m);
    var edgeStrength := CalculateEdgeStrength(original, x + dx, y + dy, w, h, c, m);
    var colorWeight := ColourWeight(centerValue, neighborValue, edgeStrength, intensity, m);
    weight := spatialWeight * colorWeight;
    AddContribution(original, w, h, x, y, c, intensity, m, dx, dy, edgeStrength, weight);
  }

  /** The loop over window row dy at the given stride. */
  method FilterRow(original: seq<int>, x: int, y: int, w: int, h: int, c: int, intensity: real, m: MathLib, step: int, dy: int,
                   weight0: real, pixel0: real)
    returns (weightSum: real, pixelSum: real)
    requires Shaped(original, w, h) && 0 <= c < 4 && intensity > 0.0 && Sound(m) && Inset(w, h, x, y, Radius(intensity))
    requires step >= 1 && -Radius(intensity) <= dy <= Radius(intensity)
    ensures Sums(weightSum, pixelSum) == RowFrom(Sums(weight0, pixel0), original, w, h, x, y, c, intensity, m, step, dy, -Radius(intensity))
  {
    var radius := Radius(intensity);
    weightSum, pixelSum := weight0, pixel0;
    var dx := -radius;
    while dx <= radius
      invariant -radius <= dx <= radius + step
      invariant RowFrom(Sums(weightSum, pixelSum), original, w, h, x, y, c, intensity, m, step, dy, dx)
             == RowFrom(Sums(weight0, pixel0), original, w, h, x, y, c, intensity, m, step, dy, -radius)
      decreases radius + 1 - dx
    {
      ghost var before := Sums(weightSum, pixelSum);
      weightSum, pixelSum := AddNeighbour(original, x, y, w, h, c, intensity, m, dx, dy, weightSum, pixelSum);
      RowStep(before, original, w, h, x, y, c, intensity, m, step, dy, dx);
      dx := dx + step;
    }
    RowStep(Sums(weightSum, pixelSum), original, w, h, x, y, c, intensity, m, step, dy, dx);
  }

  /** The window loops of one sample at the given stride. */
  method FilterWindow(original: seq<int>, x: int, y: int, w: int, h: int, c: int, intensity: real, m: MathLib, step: int)
    returns (weightSum: real, pixelSum: real)
    requires Shaped(original, w, h) && 0 <= c < 4 && intensity > 0.0 && Sound(m) && Inset(w, h, x, y, Radius(intensity)) && step >= 1
    ensures Sums(weightSum, pixelSum) == WindowFrom(NoSums, original, w, h, x, y, c, intensity, m, step, -Radius(intensity))
  {
    var radius := Radius(intensity);
    weightSum, pixelSum := 0.0, 0.0;
    var dy := -radius;
    while dy <= radius
      invariant -radius <= dy <= radius + step
      invariant WindowFrom(Sums(weightSum, pixelSum), original, w, h, x, y, c, intensity, m, step, dy)
             == WindowFrom(NoSums, original, w, h, x, y, c, intensity, m, step, -radius)
      decreases radius + 1 - dy
    {
      ghost var before := Sums(weightSum, pixelSum);
      weightSum, pixelSum := FilterRow(original, x, y, w, h, c, intensity, m, step, dy, weightSum, pixelSum);
      WindowStep(before, original, w, h, x, y, c, intensity, m, step, dy);
      dy := dy + step;
    }
    WindowStep(Sums(weightSum, pixelSum), original, w, h, x, y, c, intensity, m, step, dy);
  }

  /** The body of the channel loop: the stride from the local variance, the
      window sums, whether some weight was collected, and the byte then written. */
  method SmoothSample(original: seq<int>, x: int, y: int, w: int, h: int, c: int, intensity: real, m: MathLib)
    returns (write: bool, value: int)
    requires Shaped(original, w, h) && 0 <= c < 4 && intensity > 0.0 && Sound(m) && Inset(w, h, x, y, Radius(intensity))
    ensures write == (Window(original, w, h, x, y, c, intensity, m).weight > 0.0)
    ensures write ==> value == Smoothed(original, w, h, x, y, c, intensity, m)
  {
    var radius := Radius(intensity);
    IdxCoords(w, h, x, y, c);
    var centerValue := original[Idx(w, x, y, c)];
    var localVariance := CalculateLocalVariance(original, x, y, w, h, c, radius);
    var adaptiveStep := if localVariance > 100.0 then 1 else 2;
    assert adaptiveStep == Stride(original, w, h, x, y, c, radius);
    var weightSum, pixelSum := FilterWindow(original, x, y, w, h, c, intensity, m, adaptiveStep);
    WindowIs(original, w, h, x, y, c, intensity, m);
    write := weightSum > 0.0;
    value := centerValue;
    if write {
      var filteredValue := pixelSum / weightSum;
      value := RoundStore(Blend(centerValue, filteredValue, intensity, 0.6));
    }
  }

  /** `applyImprovedBilateralFilter`: a scan of the interior that reads the
      snapshot `originalData` and rewrites the samples for which some weight
      was collected. */
  method ApplyImprovedBilateralFilter(data: array<int>, originalData: seq<int>, w: int, h: int, intensity: real, m: MathLib)
    requires Shaped(originalData, w, h) && data.Length == |originalData| && intensity > 0.0 && Sound(m)
    modifies data
    ensures data[..] == BilateralPass(old(data[..]), originalData, w, h, intensity, m)
  {
    ghost var src := data[..];
    ghost var tgt := BilateralPass(src, originalData, w, h, intensity, m);
    var radius := Radius(intensity);
    SweepStart(src, tgt, w, h, radius);
    var y := radius;
    while y < h - radius
      invariant radius <= y <= MaxI(radius, h - radius)
      invariant SweptTo(data[..], src, tgt, w, y, radius, 0)
    {
      var x := radius;
      while x < w - radius
        invariant radius <= x <= MaxI(radius, w - radius)
        invariant SweptTo(data[..], src, tgt, w, y, x, 0)
      {
        var c := 0;
        while c < 3
          invariant 0 <= c <= 3
          invariant SweptTo(data[..], src, tgt, w, y, x, c)
        {
          BilateralPassAt(src, originalData, w, h, intensity, m, x, y, c);
          SweepWrite(data[..], src, tgt, w, h, x, y, c);
          var centerPixel := Idx(w, x, y, c);
          var write, value := SmoothSample(originalData, x, y, w, h, c, intensity, m);
          if write {
            data[centerPixel] := value;
          } else {
            assert data[..] == data[..][centerPixel := tgt[centerPixel]];
          }
          c := c + 1;
        }
        SweepNextPixel(data[..], src, tgt, w, h, radius, x, y);
        x := x + 1;
      }
      SweepNextRow(data[..], src, tgt, w, h, radius, x, y);
      y := y + 1;
    }
    SweepEnd(data[..], src, tgt, w, h, radius, y);
  }

  /** No neighbour weight is negative: both Gaussians are values of `Math.exp`. */
  lemma {:induction false} NeighbourWeightNonNegative(s: seq<int>, w: int, h: int, x: int, y: int, c: int, d: real, m: MathLib, dx: int, dy: int)
    requires Shaped(s, w, h) && 0 <= c < 4 && d > 0.0 && Sound(m) && Inset(w, h, x, y, Radius(d))
    requires -Radius(d) <= dx <= Radius(d) && -Radius(d) <= dy <= Radius(d)
    ensures NeighbourWeight(s, w, h, x, y, c, d, m, dx, dy) >= 0.0
  {
    EdgeStrengthNonNegative(s, w, h, x + dx, y + dy, c, m);
    var e := EdgeStrength(s, w, h, x + dx, y + dy, c, m);
    var centre, neighbour := At(s, w, h, x, y, c), At(s, w, h, x + dx, y + dy, c);
    assert SpatialWeightAt(dx, dy, d, m, 1) == SpatialWeightAt(dx, dy, d, m, 0);
    assert ColourWeightAt(centre, neighbour, e, d, m, 1) == ColourWeightAt(centre, neighbour, e, d, m, 0);
    ScaleMonotone(0.0, SpatialWeight(dx, dy, d, m), ColourWeight(centre, neighbour, e, d, m));
  }

  /** Every neighbour has a value in [lo, hi] and a non-negative weight. */
  lemma {:induction false} ContributionBracketed(s: seq<int>, w: int, h: int, x: int, y: int, c: int, d: real, m: MathLib, dx: int, dy: int,
                                                 lo: int, hi: int)
    requires Shaped(s, w, h) && 0 <= c < 4 && d > 0.0 && Sound(m) && Inset(w, h, x, y, Radius(d))
    requires -Radius(d) <= dx <= Radius(d) && -Radius(d) <= dy <= Radius(d) && ChannelBetween(s, c, lo, hi)
    ensures Bracketed(Contribution(s, w, h, x, y, c, d, m, dx, dy), lo as real, hi as real)
  {
    assert ContributionAt(s, w, h, x, y, c, d, m, dx, dy, 1) == ContributionAt(s, w, h, x, y, c, d, m, dx, dy, 0);
    NeighbourWeightNonNegative(s, w, h, x, y, c, d, m, dx, dy);
    AtBetween(s, w, h, x + dx, y + dy, c, lo, hi);
    TermBracketed(At(s, w, h, x + dx, y + dy, c), NeighbourWeight(s, w, h, x, y, c, d, m, dx, dy), lo, hi);
  }

  lemma {:induction false} RowBracketed(acc: Sums, s: seq<int>, w: int, h: int, x: int, y: int, c: int, d: real, m: MathLib,
                                        step: int, dy: int, dx: int, lo: int, hi: int)
    requires Shaped(s, w, h) && 0 <= c < 4 && d > 0.0 && Sound(m) && Inset(w, h, x, y, Radius(d))
    requires step >= 1 && -Radius(d) <= dy <= Radius(d) && -Radius(d) <= dx
    requires ChannelBetween(s, c, lo, hi) && Bracketed(acc, lo as real, hi as real)
    ensures Bracketed(RowFrom(acc, s, w, h, x, y, c, d, m, step, dy, dx), lo as real, hi as real)
    decreases Radius(d) + 1 - dx
  {
    RowStep(acc, s, w, h, x, y, c, d, m, step, dy, dx);
    if dx <= Radius(d) {
      var next := Plus(acc, Contribution(s, w, h, x, y, c, d, m, dx, dy));
      ContributionBracketed(s, w, h, x, y, c, d, m, dx, dy, lo, hi);
      PlusBracketed(acc, Contribution(s, w, h, x, y, c, d, m, dx, dy), lo as real, hi as real);
      RowBracketed(next, s, w, h, x, y, c, d, m, step, dy, dx + step, lo, hi);
    }
  }

  lemma {:induction false} WindowBracketed(acc: Sums, s: seq<int>, w: int, h: int, x: int, y: int, c: int, d: real, m: MathLib,
                                           step: int, dy: int, lo: int, hi: int)
    requires Shaped(s, w, h) && 0 <= c < 4 && d > 0.0 && Sound(m) && Inset(w, h, x, y, Radius(d))
    requires step >= 1 && -Radius(d) <= dy
    requires ChannelBetween(s, c, lo, hi) && Bracketed(acc, lo as real, hi as real)
    ensures Bracketed(WindowFrom(acc, s, w, h, x, y, c, d, m, step, dy), lo as real, hi as real)
    decreases Radius(d) + 1 - dy
  {
    WindowStep(acc, s, w, h, x, y, c, d, m, step, dy);
    if dy <= Radius(d) {
      RowBracketed(acc, s, w, h, x, y, c, d, m, step, dy, -Radius(d), lo, hi);
      WindowBracketed(RowFrom(acc, s, w, h, x, y, c, d, m, step, dy, -Radius(d)), s, w, h, x, y, c, d, m, step, dy + step, lo, hi);
    }
  }

  /** When channel c of the snapshot lies in [lo, hi], so does the weighted
      mean of the window. */
  lemma {:induction false} FilteredBetween(s: seq<int>, w: int, h: int, x: int, y: int, c: int, d: real, m: MathLib, lo: int, hi: int)
    requires Shaped(s, w, h) && 0 <= c < 4 && d > 0.0 && Sound(m) && Inset(w, h, x, y, Radius(d))
    requires ChannelBetween(s, c, lo, hi) && Window(s, w, h, x, y, c, d, m).weight > 0.0
    ensures lo as real <= Window(s, w, h, x, y, c, d, m).pixel / Window(s, w, h, x, y, c, d, m).weight <= hi as real
  {
    WindowSumsBracketed(s, w, h, x, y, c, d, m, lo, hi);
    MeanBracketed(Window(s, w, h, x, y, c, d, m), lo as real, hi as real);
  }

  /** The sums over the window of (x, y) are bracketed by the channel's bounds. */
  lemma {:induction false} WindowSumsBracketed(s: seq<int>, w: int, h: int, x: int, y: int, c: int, d: real, m: MathLib, lo: int, hi: int)
    requires Shaped(s, w, h) && 0 <= c < 4 && d > 0.0 && Sound(m) && Inset(w, h, x, y, Radius(d))
    requires ChannelBetween(s, c, lo, hi)
    ensures Bracketed(Window(s, w, h, x, y, c, d, m), lo as real, hi as real)
  {
    WindowIs(s, w, h, x, y, c, d, m);
    NoSumsBracketed(lo as real, hi as real);
    WindowBracketed(NoSums, s, w, h, x, y, c, d, m, Stride(s, w, h, x, y, c, Radius(d)), -Radius(d), lo, hi);
  }

  /** Maximum principle for one sample: with `0 < i <= 1` the smoothed byte
      lies between the least and the greatest value of its channel in the
      snapshot, as does the value it replaces. */
  lemma {:induction false} BilateralAtWithin(s: seq<int>, w: int, h: int, x: int, y: int, c: int, d: real, m: MathLib, current: int,
                                             lo: int, hi: int)
    requires Shaped(s, w, h) && 0 <= c < 4 && 0.0 < d <= 1.0 && Sound(m) && Inset(w, h, x, y, Radius(d))
    requires 0 <= lo <= hi <= 255 && ChannelBetween(s, c, lo, hi) && lo <= current <= hi
    ensures lo <= BilateralAt(s, w, h, x, y, c, d, m, current) <= hi
  {
    var sums := Window(s, w, h, x, y, c, d, m);
    if sums.weight > 0.0 {
      FilteredBetween(s, w, h, x, y, c, d, m, lo, hi);
      AtBetween(s, w, h, x, y, c, lo, hi);
      var centre := At(s, w, h, x, y, c);
      BlendBetween(centre, sums.pixel / sums.weight, d, 0.6);
      RoundStoreBetween(lo, hi, Blend(centre, sums.pixel / sums.weight, d, 0.6));
    }
  }

  /** Maximum principle for the pass: a channel whose samples lie in [lo, hi]
      before the pass still does afterwards. */
  lemma {:induction false} BilateralPassWithin(s: seq<int>, w: int, h: int, d: real, m: MathLib, c: int, lo: int, hi: int)
    requires Shaped(s, w, h) && 0.0 < d <= 1.0 && Sound(m) && 0 <= c < 4
    requires 0 <= lo <= hi <= 255 && ChannelBetween(s, c, lo, hi)
    ensures ChannelBetween(BilateralPass(s, s, w, h, d, m), c, lo, hi)
  {
    var r := BilateralPass(s, s, w, h, d, m);
    forall k | 0 <= k < |r| && Chan(k) == c
      ensures lo <= r[k] <= hi
    {
      if Interior(w, h, Radius(d), k) {
        CoordsOf(w, h, k);
        BilateralAtWithin(s, w, h, Col(w, k), Row(w, k), c, d, m, s[k], lo, hi);
      }
    }
  }

  /** The pass writes only stored bytes, so a byte buffer stays one at any
      intensity. */
  lemma {:induction false} BilateralPassBytes(a: seq<int>, s: seq<int>, w: int, h: int, d: real, m: MathLib)
    requires Shaped(s, w, h) && |a| == |s| && d > 0.0 && Sound(m) && ByteRange(a)
    ensures ByteRange(BilateralPass(a, s, w, h, d, m))
  {
    var r := BilateralPass(a, s, w, h, d, m);
    forall k | 0 <= k < |r|
      ensures 0 <= r[k] <= 255
    {
      if Interior(w, h, Radius(d), k) {
        CoordsOf(w, h, k);
        var x, y := Col(w, k), Row(w, k);
        assert r[k] == BilateralAt(s, w, h, x, y, Chan(k), d, m, a[k]);
      }
    }
  }

  /** A flat byte image is a fixed point of the pass, whatever the intensity. */
  lemma {:induction false} BilateralUniform(s: seq<int>, w: int, h: int, d: real, m: MathLib)
    requires Shaped(s, w, h) && Uniform(s) && ByteRange(s) && d > 0.0 && Sound(m)
    ensures BilateralPass(s, s, w, h, d, m) == s
  {
    var r := BilateralPass(s, s, w, h, d, m);
    forall k | 0 <= k < |s| && Interior(w, h, Radius(d), k)
      ensures r[k] == s[k]
    {
      CoordsOf(w, h, k);
      BilateralAtUniform(s, w, h, Col(w, k), Row(w, k), Chan(k), d, m);
    }
  }

  /** In a flat byte image every interior sample keeps its value. */
  lemma {:induction false} BilateralAtUniform(s: seq<int>, w: int, h: int, x: int, y: int, c: int, d: real, m: MathLib)
    requires Shaped(s, w, h) && Uniform(s) && ByteRange(s) && d > 0.0 && Sound(m)
    requires 0 <= c < 4 && Inset(w, h, x, y, Radius(d))
    ensures 0 <= Idx(w, x, y, c) < |s|
    ensures BilateralAt(s, w, h, x, y, c, d, m, s[Idx(w, x, y, c)]) == s[Idx(w, x, y, c)]
  {
    IdxCoords(w, h, x, y, c);
    UniformAt(s, w, h, x, y, c);
    if Window(s, w, h, x, y, c, d, m).weight > 0.0 {
      SmoothedUniform(s, w, h, x, y, c, d, m);
    }
  }

  /** On a flat byte image the smoothed value of a sample is the sample. */
  lemma {:induction false} SmoothedUniform(s: seq<int>, w: int, h: int, x: int, y: int, c: int, d: real, m: MathLib)
    requires Shaped(s, w, h) && Uniform(s) && ByteRange(s) && d > 0.0 && Sound(m)
    requires 0 <= c < 4 && Inset(w, h, x, y, Radius(d)) && Window(s, w, h, x, y, c, d, m).weight > 0.0
    ensures Smoothed(s, w, h, x, y, c, d, m) == At(s, w, h, x, y, c)
  {
    var v := At(s, w, h, x, y, c);
    AtBetween(s, w, h, x, y, c, 0, 255);
    UniformAt(s, w, h, x, y, c);
    ChannelBounds(s, c);
    FilteredBetween(s, w, h, x, y, c, d, m, v, v);
    var sums := Window(s, w, h, x, y, c, d, m);
    RoundBlendFixed(v, sums.pixel / sums.weight, d, 0.6);
  }
}