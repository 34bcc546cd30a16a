/** Round-trip-time summary statistics, over exact reals.  The deviation is stated as
    the population variance, whose square root the code reports. */
module Stats {
  import opened Types

  /** Durations are integer nanoseconds; the summary is in milliseconds (and their square). */
  datatype Summary = Summary(min: real, mean: real, max: real, variance: real)

  function Total(s: seq<int>): int {
    if s == [] then 0 else Total(s[..|s| - 1]) + s[|s| - 1]
  }

  function SumOf(s: seq<int>, f: int -> real): real {
    if s == [] then 0.0 else SumOf(s[..|s| - 1], f) + f(s[|s| - 1])
  }

  function Square(d: real): real { d * d }

  /** A mark for the solver: it expands the two definitions below only at a marked sample. */
  predicate At(x: int) { true }

  /** `f` gives the squared distance from `m`. */
  ghost predicate SquaredFrom(f: int -> real, m: real) {
    forall x {:trigger At(x)} :: At(x) ==> f(x) == Square(x as real - m)
  }

  /** f + g is a straight line. */
  ghost predicate Linear(f: int -> real, g: int -> real, a: real, b: real) {
    forall x {:trigger At(x)} :: At(x) ==> f(x) + g(x) == a + x as real * b
  }

  ghost predicate IsMin(s: seq<int>, m: int) { m in s && forall i :: 0 <= i < |s| ==> m <= s[i] }

  ghost predicate IsMax(s: seq<int>, m: int) { m in s && forall i :: 0 <= i < |s| ==> s[i] <= m }

  /** The summary that the extremes `lo` and `hi`, the mean `m` and the variance `v`
      (in nanoseconds and their square) come to. */
  function InMillis(lo: int, m: real, hi: int, v: real): Summary {
    Summary(lo as real * 0.000001, m * 0.000001, hi as real * 0.000001, v * 0.000000000001)
  }

  /** `m` and `v` are the means of samples that sum to `t`, and of their squared distances from `m`. */
  ghost predicate Averages(s: seq<int>, t: int, n: real, m: real, v: real, f: int -> real) {
    n == |s| as real && n * m == t as real && SquaredFrom(f, m) && n * v == SumOf(s, f)
  }

  /** `r` summarises the samples, taking `t` for their sum: all zeros if there are none. */
  ghost predicate SummarisesFor(s: seq<int>, t: int, r: Summary) {
    if s == [] then r == Summary(0.0, 0.0, 0.0, 0.0)
    else
      exists lo, hi, n, m, v, f ::
        IsMin(s, lo) && IsMax(s, hi) && Averages(s, t, n, m, v, f) && r == InMillis(lo, m, hi, v)
  }

  ghost predicate Summarises(s: seq<int>, r: Summary) { SummarisesFor(s, Total(s), r) }

  /** What the code reports: its sum is an int64. */
  ghost predicate Reports(s: seq<int>, r: Summary) { SummarisesFor(s, Wrap64(Total(s)), r) }

  method Extremes(samples: seq<int>) returns (lo: int, hi: int, sum: Int64)
    requires samples != []
    ensures IsMin(samples, lo) && IsMax(samples, hi) && sum == Wrap64(Total(samples))
  {
    lo, hi, sum := samples[0], samples[0], 0;
    for i := 0 to |samples|
      invariant sum == Wrap64(Total(samples[..i]))
      invariant lo in samples && hi in samples
      invariant forall j :: 0 <= j < i ==> lo <= samples[j] <= hi
    {
      var s := samples[i];
      if s < lo { lo := s; }
      if s > hi { hi := s; }
      assert samples[..i + 1][..i] == samples[..i];
      WrapAdd(Total(samples[..i]), s);
      sum := Wrap64(sum + s);
    }
    assert samples[..|samples|] == samples;
  }

  lemma WrapAdd(a: int, b: int)
    ensures Wrap64(Wrap64(a) + b) == Wrap64(a + b)
  {
  }

  method Squares(samples: seq<int>, mean: real, ghost f: int -> real) returns (sum: real)
    requires SquaredFrom(f, mean)
    ensures sum == SumOf(samples, f)
  {
    sum := 0.0;
    for i := 0 to |samples|
      invariant sum == SumOf(samples[..i], f)
    {
      assert At(samples[i]);
      var d := samples[i] as real - mean;
      assert samples[..i + 1][..i] == samples[..i];
      sum := sum + Square(d);
    }
    assert samples[..|samples|] == samples;
  }

  /** The two loops of RTTStats are those of `Extremes` and `Squares`. */
  method RTTStats(samples: seq<int>) returns (r: Summary)
    ensures Reports(samples, r)
  {
    if |samples| == 0 {
      return Summary(0.0, 0.0, 0.0, 0.0);
    }
    var lo, hi, sum := Extremes(samples);
    var n := |samples| as real;
    var mean := sum as real / n;
    ghost var f: int -> real := x => Square(x as real - mean);
    var squares := Squares(samples, mean, f);
    var variance := squares / n;
    r := Summary(lo as real * 0.000001, mean * 0.000001, hi as real * 0.000001, variance * 0.000000000001);
    assert Averages(samples, sum, n, mean, variance, f) && r == InMillis(lo, mean, hi, variance);
  }

  // -------- Sums --------

  lemma {:induction false} SumNonNegative(s: seq<int>, f: int -> real)
    requires forall i :: 0 <= i < |s| ==> f(s[i]) >= 0.0
    ensures SumOf(s, f) >= 0.0
    ensures SumOf(s, f) == 0.0 <==> forall i :: 0 <= i < |s| ==> f(s[i]) == 0.0
  {
    if s != [] {
      var front := s[..|s| - 1];
      assert forall i :: 0 <= i < |front| ==> front[i] == s[i];
      SumNonNegative(front, f);
    }
  }

  lemma Distribute(n: real, a: real, t: real, x: real, b: real)
    ensures (n + 1.0) * a + (t + x) * b == n * a + t * b + (a + x * b)
  {
  }

  /** If f(x) + g(x) is linear in x, their sums depend on the number and total of the samples only. */
  lemma {:induction false} SumLinear(s: seq<int>, f: int -> real, g: int -> real, a: real, b: real)
    requires Linear(f, g, a, b)
    ensures SumOf(s, f) + SumOf(s, g) == |s| as real * a + Total(s) as real * b
  {
    if s != [] {
      var front, x := s[..|s| - 1], s[|s| - 1];
      SumLinear(front, f, g, a, b);
      assert At(x);
      Distribute(|front| as real, a, Total(front) as real, x as real, b);
      assert |s| as real == |front| as real + 1.0 && Total(s) as real == Total(front) as real + x as real;
    }
  }

  // -------- Numbers --------

  lemma SignOfProduct(a: real, b: real, p: real)
    requires p == a * b && a >= 0.0 && b >= 0.0
    ensures p >= 0.0
    ensures a > 0.0 && b > 0.0 ==> p > 0.0
    ensures a == 0.0 || b == 0.0 ==> p == 0.0
  {
  }

  lemma SquareSign(d: real)
    ensures Square(d) >= 0.0
    ensures d == 0.0 ==> Square(d) == 0.0
    ensures d != 0.0 ==> Square(d) > 0.0
  {
    if d >= 0.0 { SignOfProduct(d, d, Square(d)); } else { SignOfProduct(-d, -d, Square(d)); }
  }

  lemma ScaledOrder(n: real, a: real, b: real, na: real, nb: real)
    requires n > 0.0 && na == n * a && nb == n * b && na <= nb
    ensures a <= b
  {
    if a > b { SignOfProduct(n, a - b, na - nb); }
  }

  /** A share `v` of `nw` parts out of `n`. */
  lemma ShareBetween(n: real, w: real, v: real, nw: real, d: real, q: real)
    requires n > 0.0 && d >= 0.0 && q >= 0.0 && d + q == nw && nw == n * w && d == n * v
    ensures 0.0 <= v <= w
    ensures v == 0.0 <==> d == 0.0
  {
    ScaledOrder(n, v, w, d, nw);
    ScaledOrder(n, 0.0, v, 0.0, d);
    if d == 0.0 { ScaledOrder(n, v, 0.0, d, 0.0); }
  }

  // -------- Bounds --------

  /** `g` is the product of the distances to the two ends. */
  ghost predicate IsGap(g: int -> real, lo: real, hi: real) {
    forall x {:trigger At(x)} :: At(x) ==> g(x) == (hi - x as real) * (x as real - lo)
  }

  /** The line a + bx that squared distance and gap add up to. */
  predicate IsLine(m: real, lo: real, hi: real, a: real, b: real) {
    a == m * m - hi * lo && b == hi + lo - 2.0 * m
  }

  lemma Expand(x: real, m: real, lo: real, hi: real, a: real, b: real, fx: real, gx: real)
    requires fx == Square(x - m) && gx == (hi - x) * (x - lo) && IsLine(m, lo, hi, a, b)
    ensures fx + gx == a + x * b
  {
  }

  /** At the mean the line through f + g takes the value (hi - m)(m - lo). */
  lemma AtMean(n: real, t: real, m: real, lo: real, hi: real, a: real, b: real, w: real)
    requires t == n * m && IsLine(m, lo, hi, a, b) && w == (hi - m) * (m - lo)
    ensures n * a + t * b == n * w
  {
    assert a + m * b == w;
    assert t * b == n * (m * b);
    assert n * a + n * (m * b) == n * (a + m * b);
  }

  lemma {:induction false} PointIdentity(
      f: int -> real, g: int -> real, m: real, lo: real, hi: real, a: real, b: real)
    requires SquaredFrom(f, m) && IsGap(g, lo, hi) && IsLine(m, lo, hi, a, b)
    ensures Linear(f, g, a, b)
  {
    forall x | At(x) ensures f(x) + g(x) == a + x as real * b {
      Expand(x as real, m, lo, hi, a, b, f(x), g(x));
    }
  }

  lemma Gap(lo: real, hi: real) returns (g: int -> real)
    ensures IsGap(g, lo, hi)
    ensures forall x :: lo <= x as real <= hi ==> g(x) >= 0.0
  {
    g := x => (hi - x as real) * (x as real - lo);
    forall x: int | lo <= x as real <= hi ensures g(x) >= 0.0 {
      assert At(x);
      SignOfProduct(hi - x as real, x as real - lo, g(x));
    }
  }

  /** `f` and the product of the distances to the two ends add up to a line, whose value
      at the mean is `w`; that product is non-negative between the ends. */
  lemma Line(n: real, t: real, m: real, lo: real, hi: real, f: int -> real)
    returns (g: int -> real, a: real, b: real, w: real)
    requires t == n * m && SquaredFrom(f, m)
    ensures w == (hi - m) * (m - lo) && n * a + t * b == n * w
    ensures Linear(f, g, a, b)
    ensures forall x :: lo <= x as real <= hi ==> g(x) >= 0.0
  {
    g := Gap(lo, hi);
    a, b, w := Coefficients(m, lo, hi);
    AtMean(n, t, m, lo, hi, a, b, w);
    PointIdentity(f, g, m, lo, hi, a, b);
  }

  lemma Coefficients(m: real, lo: real, hi: real) returns (a: real, b: real, w: real)
    ensures IsLine(m, lo, hi, a, b) && w == (hi - m) * (m - lo)
  {
    a, b, w := m * m - hi * lo, hi + lo - 2.0 * m, (hi - m) * (m - lo);
  }

  lemma AffineSign(n: real, m: real, t: real, a: real, b: real, sum: real, value: real)
    requires n > 0.0 && t == n * m && sum == n * a + t * b && sum >= 0.0 && value == a + m * b
    ensures value >= 0.0
  {
    assert n * value == n * a + n * (m * b);
    assert t * b == n * (m * b);
    ScaledOrder(n, 0.0, value, 0.0, sum);
  }

  /** A line that is non-negative on the samples is non-negative at their mean. */
  lemma {:induction false} LineAtMean(s: seq<int>, n: real, m: real, f: int -> real, a: real, b: real)
    requires s != [] && n == |s| as real && n * m == Total(s) as real
    requires forall x :: f(x) == a + x as real * b
    requires forall i :: 0 <= i < |s| ==> f(s[i]) >= 0.0
    ensures a + m * b >= 0.0
  {
    var zero := (x: int) => 0.0;
    assert Linear(f, zero, a, b);
    SumNonNegative(s, zero);
    SumNonNegative(s, f);
    SumLinear(s, f, zero, a, b);
    AffineSign(n, m, Total(s) as real, a, b, SumOf(s, f), a + m * b);
  }

  lemma {:induction false} MeanBetween(s: seq<int>, n: real, lo: int, hi: int, m: real)
    requires s != [] && n == |s| as real && n * m == Total(s) as real
    requires forall i :: 0 <= i < |s| ==> lo <= s[i] <= hi
    ensures lo as real <= m <= hi as real
  {
    LineAtMean(s, n, m, x => -(lo as real) + x as real * 1.0, -(lo as real), 1.0);
    LineAtMean(s, n, m, x => hi as real + x as real * -1.0, hi as real, -1.0);
  }

  /** The bounds for any non-negative `f` that vanishes at `m` only and any `g` that is
      non-negative on the samples, if f + g is a line that takes the value `w` at the mean. */
  lemma {:induction false} SpreadBetween(
      s: seq<int>, f: int -> real, g: int -> real, n: real, m: real, v: real, a: real, b: real, w: real)
    requires s != [] && n == |s| as real && n * v == SumOf(s, f)
    requires Linear(f, g, a, b)
    requires n * a + Total(s) as real * b == n * w
    requires forall i :: 0 <= i < |s| ==> f(s[i]) >= 0.0 && g(s[i]) >= 0.0
    requires forall i :: 0 <= i < |s| ==> (f(s[i]) == 0.0 <==> s[i] as real == m)
    ensures 0.0 <= v <= w
    ensures v == 0.0 <==> forall i :: 0 <= i < |s| ==> s[i] as real == m
  {
    SumLinear(s, f, g, a, b);
    SumNonNegative(s, f);
    SumNonNegative(s, g);
    ShareBetween(n, w, v, n * w, SumOf(s, f), SumOf(s, g));
  }

  lemma {:induction false} SquareSigns(s: seq<int>, f: int -> real, m: real)
    requires SquaredFrom(f, m)
    ensures forall i :: 0 <= i < |s| ==> f(s[i]) >= 0.0 && (f(s[i]) == 0.0 <==> s[i] as real == m)
  {
    forall i | 0 <= i < |s| ensures f(s[i]) >= 0.0 && (f(s[i]) == 0.0 <==> s[i] as real == m) {
      assert At(s[i]);
      SquareSign(s[i] as real - m);
    }
  }

  /** The variance `v` is at most w = (max-mean)(mean-min), and zero exactly if all
      samples equal the mean. */
  lemma {:induction false} VarianceBound(
      s: seq<int>, n: real, lo: int, hi: int, m: real, v: real, f: int -> real) returns (w: real)
    requires s != [] && Averages(s, Total(s), n, m, v, f) && forall i :: 0 <= i < |s| ==> lo <= s[i] <= hi
    ensures w == (hi as real - m) * (m - lo as real) && 0.0 <= v <= w
    ensures v == 0.0 <==> forall i :: 0 <= i < |s| ==> s[i] as real == m
  {
    SquareSigns(s, f, m);
    var g, a, b;
    g, a, b, w := Line(n, Total(s) as real, m, lo as real, hi as real, f);
    SpreadBetween(s, f, g, n, m, v, a, b, w);
  }

  lemma {:induction false} AllEqualMean(s: seq<int>, lo: int, hi: int, m: real)
    requires s != [] && IsMin(s, lo) && IsMax(s, hi) && lo as real <= m <= hi as real
    ensures (forall i :: 0 <= i < |s| ==> s[i] as real == m) <==>
            (forall i, j :: 0 <= i < |s| && 0 <= j < |s| ==> s[i] == s[j])
  {
    var p :| 0 <= p < |s| && s[p] == lo;
    var q :| 0 <= q < |s| && s[q] == hi;
    if forall i, j :: 0 <= i < |s| && 0 <= j < |s| ==> s[i] == s[j] {
      assert s[p] == s[q];
      assert forall i :: 0 <= i < |s| ==> s[i] == s[p];
    } else {
      var i, j :| 0 <= i < |s| && 0 <= j < |s| && s[i] != s[j];
      assert s[i] as real != s[j] as real;
    }
  }

  lemma HalfRange(lo: real, m: real, hi: real)
    ensures (hi - m) * (m - lo) <= ((hi - lo) / 2.0) * ((hi - lo) / 2.0)
  {
    var a, b := hi - m, m - lo;
    SquareSign(a - b);
    assert Square(a - b) == a * a - 2.0 * (a * b) + b * b;
    assert ((a + b) / 2.0) * ((a + b) / 2.0) == (a * a + 2.0 * (a * b) + b * b) / 4.0;
    assert hi - lo == a + b;
  }

  lemma ScaleBounds(r: Summary, lo: int, m: real, hi: int, v: real, w: real)
    requires r == InMillis(lo, m, hi, v)
    requires lo as real <= m <= hi as real && 0.0 <= v <= w && w == (hi as real - m) * (m - lo as real)
    ensures r.min <= r.mean <= r.max
    ensures 0.0 <= r.variance <= (r.max - r.mean) * (r.mean - r.min)
    ensures r.variance == 0.0 <==> v == 0.0
  {
    assert (r.max - r.mean) * (r.mean - r.min) == w * 0.000000000001;
  }

  /** The summary of every non-empty sample list: min <= mean <= max, the variance is at
      most (max-mean)(mean-min), which is at most the square of half the range, and it is
      zero exactly when all samples are equal. */
  lemma {:induction false} SummaryBounds(s: seq<int>, r: Summary)
    requires s != [] && Summarises(s, r)
    ensures r.min <= r.mean <= r.max
    ensures 0.0 <= r.variance <= (r.max - r.mean) * (r.mean - r.min)
    ensures (r.max - r.mean) * (r.mean - r.min) <= ((r.max - r.min) / 2.0) * ((r.max - r.min) / 2.0)
    ensures r.variance == 0.0 <==> forall i, j :: 0 <= i < |s| && 0 <= j < |s| ==> s[i] == s[j]
  {
    var lo, hi, m, v, w := NanosecondBounds(s, r);
    ScaleBounds(r, lo, m, hi, v, w);
    HalfRange(r.min, r.mean, r.max);
  }

  lemma {:induction false} NanosecondBounds(s: seq<int>, r: Summary)
    returns (lo: int, hi: int, m: real, v: real, w: real)
    requires s != [] && Summarises(s, r)
    ensures r == InMillis(lo, m, hi, v)
    ensures lo as real <= m <= hi as real && 0.0 <= v <= w && w == (hi as real - m) * (m - lo as real)
    ensures v == 0.0 <==> forall i, j :: 0 <= i < |s| && 0 <= j < |s| ==> s[i] == s[j]
  {
    var n, f;
    lo, hi, n, m, v, f :|
      IsMin(s, lo) && IsMax(s, hi) && Averages(s, Total(s), n, m, v, f) && r == InMillis(lo, m, hi, v);
    MeanBetween(s, n, lo, hi, m);
    AllEqualMean(s, lo, hi, m);
    w := VarianceBound(s, n, lo, hi, m, v, f);
  }

  lemma SumFromMean(n: real, m: real, t: int, n': real, m': real, t': int)
    requires n * m == t as real && n' * m' == t' as real && n == n' && m * 0.000001 == m' * 0.000001
    ensures t == t'
  {
  }

  lemma {:induction false} MeanOf(s: seq<int>, t: int, r: Summary) returns (m: real)
    requires s != [] && SummarisesFor(s, t, r)
    ensures |s| as real * m == t as real && r.mean == m * 0.000001
  {
    var lo, hi, n, v, f;
    lo, hi, n, m, v, f :| IsMin(s, lo) && IsMax(s, hi) && Averages(s, t, n, m, v, f) && r == InMillis(lo, m, hi, v);
  }

  /** A summary determines the sum it was made from. */
  lemma {:induction false} SumIsDetermined(s: seq<int>, t: int, t': int, r: Summary)
    requires s != [] && SummarisesFor(s, t, r) && SummarisesFor(s, t', r)
    ensures t == t'
  {
    var m := MeanOf(s, t, r);
    var m' := MeanOf(s, t', r);
    SumFromMean(|s| as real, m, t, |s| as real, m', t');
  }

  /** What is reported is the summary of the samples exactly when their sum is an int64. */
  lemma {:induction false} ExactIffSumFits(s: seq<int>, r: Summary)
    requires Reports(s, r)
    ensures Summarises(s, r) <==> s == [] || -TWO_63 <= Total(s) < TWO_63
  {
    if s != [] && Summarises(s, r) {
      SumIsDetermined(s, Wrap64(Total(s)), Total(s), r);
    }
  }

  /** Two round trips of 2^62 ns each sum to 2^63: the reported mean is negative. */
  lemma {:induction false} WrappedSumMisreports(r: Summary)
    requires Reports([0x4000_0000_0000_0000, 0x4000_0000_0000_0000], r)
    ensures r.mean < 0.0 && !Summarises([0x4000_0000_0000_0000, 0x4000_0000_0000_0000], r)
  {
    var s: seq<int> := [0x4000_0000_0000_0000, 0x4000_0000_0000_0000];
    assert s[..1] == [0x4000_0000_0000_0000] && s[..1][..0] == [];
    assert Total(s[..1]) == 0x4000_0000_0000_0000;
    assert Total(s) == 0x8000_0000_0000_0000 && Wrap64(Total(s)) == -0x8000_0000_0000_0000;
    var m := MeanOf(s, Wrap64(Total(s)), r);
    assert |s| as real == 2.0;
    ExactIffSumFits(s, r);
  }

  // -------- What is reported, in milliseconds --------

  function SquaresFrom(s: seq<int>, m: real): real {
    if s == [] then 0.0 else SquaresFrom(s[..|s| - 1], m) + Square(s[|s| - 1] as real - m)
  }

  lemma {:induction false} SumIsSquares(s: seq<int>, f: int -> real, m: real)
    requires SquaredFrom(f, m)
    ensures SumOf(s, f) == SquaresFrom(s, m)
  {
    if s != [] {
      assert At(s[|s| - 1]);
      SumIsSquares(s[..|s| - 1], f, m);
    }
  }

  /** In nanoseconds, a million to the millisecond: the minimum and maximum are the least and
      the greatest sample, n times the mean is the sum that was used, and n times the
      variance is the sum of the squared distances from the mean. */
  lemma {:induction false} SummaryMeaning(s: seq<int>, t: int, r: Summary)
    returns (lo: int, hi: int, m: real, v: real)
    requires s != [] && SummarisesFor(s, t, r)
    ensures r.min * 1000000.0 == lo as real && lo in s && forall i :: 0 <= i < |s| ==> lo <= s[i]
    ensures r.max * 1000000.0 == hi as real && hi in s && forall i :: 0 <= i < |s| ==> s[i] <= hi
    ensures r.mean * 1000000.0 == m && |s| as real * m == t as real
    ensures r.variance * 1000000000000.0 == v && |s| as real * v == SquaresFrom(s, m)
  {
    var n, f;
    lo, hi, n, m, v, f :| IsMin(s, lo) && IsMax(s, hi) && Averages(s, t, n, m, v, f) && r == InMillis(lo, m, hi, v);
    SumIsSquares(s, f, m);
  }

  lemma SummaryOfNothing(r: Summary)
    requires SummarisesFor([], 0, r)
    ensures r.min == r.mean == r.max == r.variance == 0.0
  {
  }
}
