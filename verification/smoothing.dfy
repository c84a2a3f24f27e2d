/** The weighted average that both edge-preserving denoisers compute: every
    candidate sample contributes its weight to `weightSum` and its value
    times its weight to `pixelSum`; when some weight was collected the
    filtered value `pixelSum / weightSum` is blended with the centre sample. */
module Smoothing {
  import opened JsNumbers

  /** The pair (`weightSum`, `pixelSum`). */
  datatype Sums = Sums(weight: real, pixel: real)

  const NoSums := Sums(0.0, 0.0)

  function Plus(a: Sums, b: Sums): (r: Sums)
    ensures r.weight == a.weight + b.weight && r.pixel == a.pixel + b.pixel
  {
    Sums(a.weight + b.weight, a.pixel + b.pixel)
  }

  /** The contribution of one candidate of value v and weight wt. */
  function Term(v: int, wt: real): (t: Sums)
    ensures t.weight == wt
  {
    Sums(wt, v as real * wt)
  }

  /** Adding nothing leaves the sums unchanged. */
  lemma {:induction false} PlusNoSums(a: Sums)
    ensures Plus(a, NoSums) == a && Plus(NoSums, a) == a
  {
  }

  /** Sums may be added in any grouping. */
  lemma {:induction false} PlusAssociative(a: Sums, b: Sums, c: Sums)
    ensures Plus(Plus(a, b), c) == Plus(a, Plus(b, c))
  {
  }

  /** Adding one candidate to the running sums, as the filter loops do. */
  lemma {:induction false} PlusTerm(weightSum: real, pixelSum: real, v: int, wt: real)
    ensures Plus(Sums(weightSum, pixelSum), Term(v, wt)) == Sums(weightSum + wt, pixelSum + v as real * wt)
  {
  }

  /** `centre * (1 - d * k) + filtered * d * k`: the share `d * k` of the
      filtered value in the stored sample. */
  function Blend(centre: int, filtered: real, d: real, k: real): real
  {
    centre as real * (1.0 - d * k) + filtered * d * k
  }

  /** The sums are those of candidates whose values all lie in [lo, hi] and
      whose weights are non-negative. */
  predicate Bracketed(s: Sums, lo: real, hi: real)
  {
    BracketedAt(s, lo, hi, 1)
  }

  /** The definition of Bracketed, reached after `layer` unfoldings, so that
      a sum over a whole window is not turned into products the solver
      would try to reason about. */
  predicate BracketedAt(s: Sums, lo: real, hi: real, layer: nat)
    decreases layer
  {
    if layer > 0 then BracketedAt(s, lo, hi, layer - 1)
    else s.weight >= 0.0 && lo * s.weight <= s.pixel <= hi * s.weight
  }

  lemma {:induction false} BracketedIs(s: Sums, lo: real, hi: real)
    ensures Bracketed(s, lo, hi) <==> s.weight >= 0.0 && lo * s.weight <= s.pixel <= hi * s.weight
  {
    assert BracketedAt(s, lo, hi, 1) == BracketedAt(s, lo, hi, 0);
  }

  /** Nothing collected yet is bracketed by any bounds. */
  lemma {:induction false} NoSumsBracketed(lo: real, hi: real)
    ensures Bracketed(NoSums, lo, hi)
  {
    BracketedIs(NoSums, lo, hi);
  }

  lemma {:induction false} TermBracketed(v: int, wt: real, lo: int, hi: int)
    requires wt >= 0.0 && lo <= v <= hi
    ensures Bracketed(Term(v, wt), lo as real, hi as real)
  {
    ScaleMonotone(lo as real, v as real, wt);
    ScaleMonotone(v as real, hi as real, wt);
    BracketedIs(Term(v, wt), lo as real, hi as real);
  }

  lemma {:induction false} PlusBracketed(a: Sums, b: Sums, lo: real, hi: real)
    requires Bracketed(a, lo, hi) && Bracketed(b, lo, hi)
    ensures Bracketed(Plus(a, b), lo, hi)
  {
    BracketedIs(a, lo, hi);
    BracketedIs(b, lo, hi);
    BracketedIs(Plus(a, b), lo, hi);
    assert lo * (a.weight + b.weight) == lo * a.weight + lo * b.weight;
    assert hi * (a.weight + b.weight) == hi * a.weight + hi * b.weight;
  }

  /** A weighted mean of values in [lo, hi] lies in [lo, hi]. */
  lemma {:induction false} MeanBracketed(s: Sums, lo: real, hi: real)
    requires Bracketed(s, lo, hi) && s.weight > 0.0
    ensures lo <= s.pixel / s.weight <= hi
  {
    BracketedIs(s, lo, hi);
    QuotientBounds(s.pixel, s.weight, lo);
    QuotientBounds(s.pixel, s.weight, hi);
  }

  /** Dividing by a positive f keeps the comparison of p with b * f. */
  lemma {:induction false} QuotientBounds(p: real, f: real, b: real)
    requires f > 0.0
    ensures b * f <= p ==> b <= p / f
    ensures p <= b * f ==> p / f <= b
  {
    var q := p / f;
    assert q * f == p;
    if q < b {
      ScaleStrict(q, b, f);
    } else if q > b {
      ScaleStrict(b, q, f);
    }
  }

  /** With a share between 0 and 1 the blend lies between the centre and the filtered value. */
  lemma {:induction false} BlendBetween(centre: int, filtered: real, d: real, k: real)
    requires 0.0 <= d <= 1.0 && 0.0 <= k <= 1.0
    ensures MinR(centre as real, filtered) <= Blend(centre, filtered, d, k) <= MaxR(centre as real, filtered)
  {
    ShareBetween(d, k);
    var b := d * k;
    assert Blend(centre, filtered, d, k) == centre as real * (1.0 - b) + filtered * b;
    Interpolate(centre as real, filtered, b);
  }

  /** The product of two shares is a share. */
  lemma {:induction false} ShareBetween(d: real, k: real)
    requires 0.0 <= d <= 1.0 && 0.0 <= k <= 1.0
    ensures 0.0 <= d * k <= 1.0
  {
    ScaleMonotone(0.0, d, k);
    ScaleMonotone(d, 1.0, k);
    assert d * k <= 1.0 * k;
    assert 1.0 * k == k;
  }

  /** A point of the segment between u and v lies between them. */
  lemma {:induction false} Interpolate(u: real, v: real, b: real)
    requires 0.0 <= b <= 1.0
    ensures MinR(u, v) <= u * (1.0 - b) + v * b <= MaxR(u, v)
  {
    var f, p := v - u, u * (1.0 - b) + v * b;
    assert p == u + b * f;
    ShareOfSpan(b, f);
    if f >= 0.0 {
      assert u <= p <= v;
    } else {
      assert v <= p <= u;
    }
  }

  /** A share b in [0, 1] of a span f lies between 0 and f. */
  lemma {:induction false} ShareOfSpan(b: real, f: real)
    requires 0.0 <= b <= 1.0
    ensures f >= 0.0 ==> 0.0 <= b * f <= f
    ensures f <= 0.0 ==> f <= b * f <= 0.0
  {
    if f >= 0.0 {
      ScaleMonotone(0.0, b, f);
      ScaleMonotone(b, 1.0, f);
    } else {
      var g := -f;
      ScaleMonotone(0.0, b, g);
      ScaleMonotone(b, 1.0, g);
      assert b * g == -(b * f);
    }
  }

  /** A byte blended with a mean equal to itself is stored unchanged. */
  lemma {:induction false} RoundBlendFixed(v: int, mean: real, d: real, k: real)
    requires 0 <= v <= 255 && mean == v as real
    ensures RoundStore(Blend(v, mean, d, k)) == v
  {
    BlendFixed(v, d, k);
    RoundStoreByte(v);
  }

  /** Blending a value with itself gives it back, whatever the share. */
  lemma {:induction false} BlendFixed(v: int, d: real, k: real)
    ensures Blend(v, v as real, d, k) == v as real
  {
    assert v as real * d * k == v as real * (d * k);
  }
}
