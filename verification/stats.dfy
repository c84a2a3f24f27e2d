/** Sums, means, variance and sorting over the small windows of samples the
    filters collect. `Variance` is the textbook two-pass definition; the
    filters compute the one-pass form `E[X^2] - E[X]^2`, and `OnePassVariance`
    proves the two equal. `Sort` stands for the library sort that the median
    filter calls (`values.sort((a, b) => a - b)`). */
module Stats {

  function Sum(s: seq<int>): int
  {
    if s == [] then 0 else Sum(s[..|s| - 1]) + s[|s| - 1]
  }

  function SumSq(s: seq<int>): int
  {
    if s == [] then 0 else SumSq(s[..|s| - 1]) + s[|s| - 1] * s[|s| - 1]
  }

  function Mean(s: seq<int>): real
    requires |s| > 0
  {
    Sum(s) as real / |s| as real
  }

  /** Sum of squared deviations from `mu`. */
  function SqDev(s: seq<int>, mu: real): real
    decreases |s|, 2
  {
    SqDevAt(s, mu, 1)
  }

  /** The definition of SqDev, reached after `layer` unfoldings, so that the
      squares are expanded only where a proof asks for it. */
  function SqDevAt(s: seq<int>, mu: real, layer: nat): real
    decreases |s|, layer
  {
    if layer > 0 then SqDevAt(s, mu, layer - 1)
    else if s == [] then 0.0
    else SqDev(s[..|s| - 1], mu) + (s[|s| - 1] as real - mu) * (s[|s| - 1] as real - mu)
  }

  /** One unfolding of SqDev. */
  lemma {:induction false} SqDevStep(s: seq<int>, mu: real)
    ensures s == [] ==> SqDev(s, mu) == 0.0
    ensures s != [] ==>
      SqDev(s, mu) == SqDev(s[..|s| - 1], mu) + (s[|s| - 1] as real - mu) * (s[|s| - 1] as real - mu)
  {
    assert SqDevAt(s, mu, 1) == SqDevAt(s, mu, 0);
  }

  /** Population variance, two-pass: mean squared deviation from the mean. */
  function Variance(s: seq<int>): real
    requires |s| > 0
  {
    SqDev(s, Mean(s)) / |s| as real
  }

  /** The one-pass form the local-variance helper computes. */
  function OnePass(sum: int, sumSq: int, count: int): real
    requires count > 0
  {
    var mean := sum as real / count as real;
    sumSq as real / count as real - mean * mean
  }

  lemma {:induction false} SumAppend(s: seq<int>, v: int)
    ensures Sum(s + [v]) == Sum(s) + v && SumSq(s + [v]) == SumSq(s) + v * v
  {
    assert (s + [v])[..|s|] == s;
  }

  lemma {:induction false} SqDevAppend(s: seq<int>, v: int, mu: real)
    ensures SqDev(s + [v], mu) == SqDev(s, mu) + (v as real - mu) * (v as real - mu)
  {
    assert (s + [v])[..|s|] == s;
    SqDevStep(s + [v], mu);
  }

  /** Expanding the square: the sum of squared deviations from any `mu`. */
  lemma {:induction false} SqDevExpand(s: seq<int>, mu: real)
    ensures SqDev(s, mu) == SumSq(s) as real - 2.0 * mu * Sum(s) as real + |s| as real * mu * mu
  {
    SqDevStep(s, mu);
    if s != [] {
      var p, v := s[..|s| - 1], s[|s| - 1];
      SqDevExpand(p, mu);
      var vr := v as real;
      assert (v * v) as real == vr * vr;
      ExpandStep(SumSq(p) as real, Sum(p) as real, |p| as real, vr, mu);
    }
  }

  lemma {:induction false} ExpandStep(Qp: real, Sp: real, n: real, vr: real, mu: real)
    ensures (Qp - 2.0 * mu * Sp + n * mu * mu) + (vr - mu) * (vr - mu)
         == (Qp + vr * vr) - 2.0 * mu * (Sp + vr) + (n + 1.0) * mu * mu
  {
  }

  /** A sum of squares is never negative. */
  lemma {:induction false} SqDevNonNegative(s: seq<int>, mu: real)
    ensures SqDev(s, mu) >= 0.0
  {
    SqDevStep(s, mu);
    if s != [] {
      SqDevNonNegative(s[..|s| - 1], mu);
    }
  }

  /** The one-pass formula `sumSq / n - (sum / n)^2` is the variance, hence never negative. */
  lemma {:induction false} OnePassVariance(s: seq<int>)
    requires |s| > 0
    ensures OnePass(Sum(s), SumSq(s), |s|) == Variance(s)
    ensures OnePass(Sum(s), SumSq(s), |s|) >= 0.0
  {
    OnePassExpanded(s);
    VarianceNonNegative(s);
  }

  lemma {:induction false} VarianceNonNegative(s: seq<int>)
    requires |s| > 0
    ensures Variance(s) >= 0.0
  {
    SqDevNonNegative(s, Mean(s));
    QuotientNonNegative(SqDev(s, Mean(s)), |s| as real);
  }

  lemma {:induction false} QuotientNonNegative(a: real, b: real)
    requires a >= 0.0 && b > 0.0
    ensures a / b >= 0.0
  {
  }

  /** `sumSq / n - mu^2` is the mean squared deviation from the mean mu. */
  lemma {:induction false} OnePassExpanded(s: seq<int>)
    requires |s| > 0
    ensures SqDev(s, Sum(s) as real / |s| as real) / |s| as real
         == SumSq(s) as real / |s| as real - (Sum(s) as real / |s| as real) * (Sum(s) as real / |s| as real)
  {
    var n, total, squares := |s| as real, Sum(s) as real, SumSq(s) as real;
    var mu := total / n;
    var sq := mu * mu;
    var dev := SqDev(s, mu);
    MeanTimesCount(s);
    SqDevAtMean(s, mu);
    DivSplit(squares, n, sq, dev);
  }

  lemma {:induction false} MeanTimesCount(s: seq<int>)
    requires |s| > 0
    ensures |s| as real * (Sum(s) as real / |s| as real) == Sum(s) as real
  {
  }

  /** Around the mean, the squared deviations add up to `sumSq - n mu^2`. */
  lemma {:induction false} SqDevAtMean(s: seq<int>, mu: real)
    requires |s| as real * mu == Sum(s) as real
    ensures SqDev(s, mu) == SumSq(s) as real - |s| as real * (mu * mu)
  {
    SqDevExpand(s, mu);
    ExpandAtMean(SumSq(s) as real, Sum(s) as real, |s| as real, mu, SqDev(s, mu));
  }

  lemma {:induction false} ExpandAtMean(Q: real, S: real, n: real, mu: real, D: real)
    requires n * mu == S && D == Q - 2.0 * mu * S + n * mu * mu
    ensures D == Q - n * (mu * mu)
  {
    assert 2.0 * mu * S == 2.0 * (n * (mu * mu));
  }

  lemma {:induction false} DivSplit(Q: real, n: real, x: real, D: real)
    requires n > 0.0 && D == Q - n * x
    ensures D / n == Q / n - x
  {
  }

  /** A window whose samples are all `v` has mean `v` and variance 0. */
  lemma {:induction false} ConstantWindow(s: seq<int>, v: int)
    requires |s| > 0 && forall i | 0 <= i < |s| :: s[i] == v
    ensures Sum(s) == |s| * v && SumSq(s) == |s| * v * v
    ensures OnePass(Sum(s), SumSq(s), |s|) == 0.0
  {
    ConstantSums(s, v);
    var n := |s| as real;
    assert Sum(s) as real == n * v as real;
    assert SumSq(s) as real == n * (v as real * v as real);
  }

  lemma {:induction false} ConstantSums(s: seq<int>, v: int)
    requires forall i | 0 <= i < |s| :: s[i] == v
    ensures Sum(s) == |s| * v && SumSq(s) == |s| * v * v
  {
    if s != [] {
      ConstantSums(s[..|s| - 1], v);
    }
  }

  predicate Sorted(s: seq<int>)
  {
    forall i, j | 0 <= i < j < |s| :: s[i] <= s[j]
  }

  /** Inserts `x` into the sorted sequence `s`. */
  function Insert(x: int, s: seq<int>): (r: seq<int>)
    requires Sorted(s)
    ensures Sorted(r) && multiset(r) == multiset(s) + multiset{x} && |r| == |s| + 1
  {
    if s == [] || x <= s[0] then
      InsertFront(x, s);
      [x] + s
    else
      var rest := Insert(x, s[1..]);
      InsertAfter(x, s, rest);
      [s[0]] + rest
  }

  lemma {:induction false} InsertFront(x: int, s: seq<int>)
    requires Sorted(s) && (s == [] || x <= s[0])
    ensures Sorted([x] + s) && multiset([x] + s) == multiset(s) + multiset{x}
  {
  }

  /** Putting the head of s in front of the insertion of x into the tail of s. */
  lemma {:induction false} InsertAfter(x: int, s: seq<int>, rest: seq<int>)
    requires Sorted(s) && s != [] && s[0] < x
    requires Sorted(rest) && multiset(rest) == multiset(s[1..]) + multiset{x}
    ensures Sorted([s[0]] + rest) && multiset([s[0]] + rest) == multiset(s) + multiset{x}
  {
    BelowAll(s[0], x, s[1..], rest);
    assert s == [s[0]] + s[1..];
  }

  /** A bound below x and below every element of t is below every element
      of any r holding the elements of t and x. */
  lemma {:induction false} BelowAll(a: int, x: int, t: seq<int>, r: seq<int>)
    requires a <= x && (forall i | 0 <= i < |t| :: a <= t[i]) && multiset(r) == multiset(t) + multiset{x}
    ensures forall j | 0 <= j < |r| :: a <= r[j]
  {
    forall j | 0 <= j < |r|
      ensures a <= r[j]
    {
      assert r[j] in multiset(r);
      if r[j] != x {
        assert r[j] in multiset(t);
        var i :| 0 <= i < |t| && t[i] == r[j];
      }
    }
  }

  /** Ascending numeric sort, standing for `Array.prototype.sort` with the
      comparator `(a, b) => a - b`. */
  function Sort(s: seq<int>): (r: seq<int>)
    ensures Sorted(r) && multiset(r) == multiset(s) && |r| == |s|
  {
    if s == [] then []
    else
      assert s == s[..|s| - 1] + [s[|s| - 1]];
      Insert(s[|s| - 1], Sort(s[..|s| - 1]))
  }

  /** How many elements of `s` are at most `m`. */
  function CountAtMost(s: seq<int>, m: int): nat
  {
    if s == [] then 0 else CountAtMost(s[..|s| - 1], m) + (if s[|s| - 1] <= m then 1 else 0)
  }

  /** How many elements of `s` are at least `m`. */
  function CountAtLeast(s: seq<int>, m: int): nat
  {
    if s == [] then 0 else CountAtLeast(s[..|s| - 1], m) + (if s[|s| - 1] >= m then 1 else 0)
  }

  lemma {:induction false} CountConcat(s: seq<int>, t: seq<int>, m: int)
    ensures CountAtMost(s + t, m) == CountAtMost(s, m) + CountAtMost(t, m)
    ensures CountAtLeast(s + t, m) == CountAtLeast(s, m) + CountAtLeast(t, m)
  {
    if t != [] {
      CountConcat(s, t[..|t| - 1], m);
      assert (s + t)[..|s + t| - 1] == s + t[..|t| - 1];
    } else {
      assert s + t == s;
    }
  }

  /** The counts depend only on the multiset of elements. */
  lemma {:induction false} CountPermutation(s: seq<int>, t: seq<int>, m: int)
    requires multiset(s) == multiset(t)
    ensures CountAtMost(s, m) == CountAtMost(t, m) && CountAtLeast(s, m) == CountAtLeast(t, m)
    decreases |s|
  {
    if s != [] {
      var x := s[|s| - 1];
      assert x in multiset(t);
      var i :| 0 <= i < |t| && t[i] == x;
      var t' := t[..i] + t[i + 1..];
      assert t == t[..i] + [x] + t[i + 1..];
      assert s == s[..|s| - 1] + [x];
      assert multiset(t) == multiset(t[..i]) + multiset{x} + multiset(t[i + 1..]);
      assert multiset(s) == multiset(s[..|s| - 1]) + multiset{x};
      assert multiset(t') == multiset(t[..i]) + multiset(t[i + 1..]);
      assert multiset(t') == multiset(t) - multiset{x};
      assert multiset(s[..|s| - 1]) == multiset(s) - multiset{x};
      CountPermutation(s[..|s| - 1], t', m);
      CountConcat(s[..|s| - 1], [x], m);
      CountConcat(t[..i], [x], m);
      CountConcat(t[..i] + [x], t[i + 1..], m);
      CountConcat(t[..i], t[i + 1..], m);
      assert [x][..0] == [];
    }
  }

  lemma {:induction false} AllAtMost(s: seq<int>, m: int)
    requires forall i | 0 <= i < |s| :: s[i] <= m
    ensures CountAtMost(s, m) == |s|
  {
    if s != [] {
      AllAtMost(s[..|s| - 1], m);
    }
  }

  lemma {:induction false} AllAtLeast(s: seq<int>, m: int)
    requires forall i | 0 <= i < |s| :: s[i] >= m
    ensures CountAtLeast(s, m) == |s|
  {
    if s != [] {
      AllAtLeast(s[..|s| - 1], m);
    }
  }

  /** The element the median filter picks, `sorted[floor(n / 2)]`, is one of
      the samples, and is a true median: at least half of the samples
      (rounded up) are at most it, and at least half are at least it. */
  lemma {:induction false} MedianRank(s: seq<int>)
    requires |s| % 2 == 1
    ensures Sort(s)[|s| / 2] in multiset(s)
    ensures CountAtMost(s, Sort(s)[|s| / 2]) >= |s| / 2 + 1
    ensures CountAtLeast(s, Sort(s)[|s| / 2]) >= |s| / 2 + 1
  {
    var t := Sort(s);
    var k := |s| / 2;
    var m := t[k];
    assert m in multiset(t);
    CountPermutation(s, t, m);
    SortedRank(t, k);
  }

  /** In a sorted sequence, element k has at least k + 1 elements at most it
      and at least |t| - k elements at least it. */
  lemma {:induction false} SortedRank(t: seq<int>, k: nat)
    requires Sorted(t) && k < |t|
    ensures CountAtMost(t, t[k]) >= k + 1
    ensures CountAtLeast(t, t[k]) >= |t| - k
  {
    AtMostRank(t, k);
    AtLeastRank(t, k);
  }

  lemma {:induction false} AtMostRank(t: seq<int>, k: nat)
    requires Sorted(t) && k < |t|
    ensures CountAtMost(t, t[k]) >= k + 1
  {
    var p, q := t[..k + 1], t[k + 1..];
    assert t == p + q;
    CountConcat(p, q, t[k]);
    AllAtMost(p, t[k]);
  }

  lemma {:induction false} AtLeastRank(t: seq<int>, k: nat)
    requires Sorted(t) && k < |t|
    ensures CountAtLeast(t, t[k]) >= |t| - k
  {
    var p, q := t[..k], t[k..];
    assert t == p + q;
    CountConcat(p, q, t[k]);
    AllAtLeast(q, t[k]);
  }

  /** If every element except possibly the one at i is below m, at most one element is at least m. */
  lemma {:induction false} CountAtLeastOutside(t: seq<int>, m: int, i: int)
    requires forall j | 0 <= j < |t| && j != i :: t[j] < m
    ensures CountAtLeast(t, m) <= if 0 <= i < |t| then 1 else 0
  {
    if t != [] {
      CountAtLeastOutside(t[..|t| - 1], m, i);
    }
  }

  /** If every element except possibly the one at i is above m, at most one element is at most m. */
  lemma {:induction false} CountAtMostOutside(t: seq<int>, m: int, i: int)
    requires forall j | 0 <= j < |t| && j != i :: t[j] > m
    ensures CountAtMost(t, m) <= if 0 <= i < |t| then 1 else 0
  {
    if t != [] {
      CountAtMostOutside(t[..|t| - 1], m, i);
    }
  }

  /** A single outlier among at least three samples never becomes the median:
      if all samples but the one at i equal v, the median is v. */
  lemma {:induction false} OutlierIgnored(t: seq<int>, i: int, v: int)
    requires |t| % 2 == 1 && |t| >= 3 && 0 <= i < |t|
    requires forall j | 0 <= j < |t| && j != i :: t[j] == v
    ensures Sort(t)[|t| / 2] == v
  {
    var m := Sort(t)[|t| / 2];
    MedianRank(t);
    if m != v {
      var j :| 0 <= j < |t| && t[j] == m;
      assert j == i;
      if v < m {
        CountAtLeastOutside(t, m, i);
      } else {
        CountAtMostOutside(t, m, i);
      }
    }
  }
}
