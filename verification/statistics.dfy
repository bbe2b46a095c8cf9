/** The descriptive statistics the engines take from the simple-statistics
    library, over exact reals: `mean`, `median`, `variance` (the population
    form, which is what the library's `standardDeviation` takes the square
    root of), `linearRegression(...).m`, and JavaScript's `Math.round`. */
module Statistics {
  import opened Sequences

  function Min(xs: seq<real>): (m: real)
    requires |xs| > 0
    ensures m in xs
    ensures forall i :: 0 <= i < |xs| ==> m <= xs[i]
  {
    if |xs| == 1 then xs[0]
    else
      var m' := Min(xs[..|xs| - 1]);
      assert xs == xs[..|xs| - 1] + [xs[|xs| - 1]];
      if xs[|xs| - 1] < m' then xs[|xs| - 1] else m'
  }

  function Max(xs: seq<real>): (m: real)
    requires |xs| > 0
    ensures m in xs
    ensures forall i :: 0 <= i < |xs| ==> xs[i] <= m
  {
    if |xs| == 1 then xs[0]
    else
      var m' := Max(xs[..|xs| - 1]);
      assert xs == xs[..|xs| - 1] + [xs[|xs| - 1]];
      if xs[|xs| - 1] > m' then xs[|xs| - 1] else m'
  }

  /** A sum lies between |xs| copies of any lower bound and of any upper bound. */
  lemma {:induction false} SumBounds(xs: seq<real>, lo: real, hi: real)
    requires forall i :: 0 <= i < |xs| ==> lo <= xs[i] <= hi
    ensures (|xs| as real) * lo <= Sum(xs) <= (|xs| as real) * hi
    decreases |xs|
  {
    if |xs| > 0 {
      var n := |xs| - 1;
      SumBounds(xs[..n], lo, hi);
      assert ((n + 1) as real) * lo == (n as real) * lo + lo;
      assert ((n + 1) as real) * hi == (n as real) * hi + hi;
    }
  }

  lemma DivBounds(s: real, n: real, lo: real, hi: real)
    requires n > 0.0 && n * lo <= s <= n * hi
    ensures lo <= s / n <= hi
  {
  }

  function Mean(xs: seq<real>): (m: real)
    requires |xs| > 0
    ensures Min(xs) <= m <= Max(xs)
  {
    SumBounds(xs, Min(xs), Max(xs));
    DivBounds(Sum(xs), |xs| as real, Min(xs), Max(xs));
    Sum(xs) / (|xs| as real)
  }

  /** The square of a real. Kept behind a function so that facts about a
      square stay linear facts about one term. */
  function Sq(x: real): real
  {
    x * x
  }

  lemma SqPositive(e: real)
    requires e > 0.0
    ensures Sq(e) > 0.0
  {
    calc {
      Sq(e);
      e * e;
    >
      0.0 * e;
    }
  }

  lemma SqNegate(d: real)
    ensures Sq(d) == Sq(-d)
  {
  }

  /** A square is never negative, and it is zero only for zero. */
  lemma Square(d: real)
    ensures Sq(d) >= 0.0
    ensures d != 0.0 ==> Sq(d) > 0.0
  {
    if d < 0.0 {
      SqNegate(d);
      SqPositive(-d);
    } else if d > 0.0 {
      SqPositive(d);
    }
  }

  /** Σ (x − c)² over xs. */
  function SumSquaredDeviations(xs: seq<real>, c: real): (s: real)
    ensures s >= 0.0
  {
    if |xs| == 0 then 0.0
    else
      Square(xs[|xs| - 1] - c);
      SumSquaredDeviations(xs[..|xs| - 1], c) + Sq(xs[|xs| - 1] - c)
  }

  /** Population variance: the mean squared deviation from the mean. */
  function Variance(xs: seq<real>): (v: real)
    requires |xs| > 0
    ensures v >= 0.0
  {
    SumSquaredDeviations(xs, Mean(xs)) / (|xs| as real)
  }

  lemma {:induction false} SumSquaredDeviationsOfConstant(xs: seq<real>, c: real)
    requires forall i :: 0 <= i < |xs| ==> xs[i] == c
    ensures SumSquaredDeviations(xs, c) == 0.0
    decreases |xs|
  {
    if |xs| > 0 {
      SumSquaredDeviationsOfConstant(xs[..|xs| - 1], c);
    }
  }

  lemma {:induction false} SumOfConstant(xs: seq<real>, c: real)
    requires forall i :: 0 <= i < |xs| ==> xs[i] == c
    ensures Sum(xs) == (|xs| as real) * c
    decreases |xs|
  {
    if |xs| > 0 {
      SumOfConstant(xs[..|xs| - 1], c);
    }
  }

  /** Equal values have mean equal to that value and variance zero. */
  lemma VarianceOfConstant(xs: seq<real>)
    requires |xs| > 0
    requires forall i :: 0 <= i < |xs| ==> xs[i] == xs[0]
    ensures Mean(xs) == xs[0]
    ensures Variance(xs) == 0.0
  {
    SumOfConstant(xs, xs[0]);
    SumSquaredDeviationsOfConstant(xs, xs[0]);
  }

  /** One value away from c makes the sum of squared deviations from c
      positive. */
  lemma {:induction false} DeviationPositive(xs: seq<real>, c: real, i: nat)
    requires i < |xs| && xs[i] != c
    ensures SumSquaredDeviations(xs, c) > 0.0
    decreases |xs|
  {
    var init := xs[..|xs| - 1];
    Square(xs[|xs| - 1] - c);
    if i < |xs| - 1 {
      assert init[i] == xs[i];
      DeviationPositive(init, c, i);
    }
  }

  /** Variance zero means every value equals the mean. */
  lemma ZeroVariance(xs: seq<real>)
    requires |xs| > 0 && Variance(xs) == 0.0
    ensures forall i :: 0 <= i < |xs| ==> xs[i] == Mean(xs)
  {
    forall i | 0 <= i < |xs|
      ensures xs[i] == Mean(xs)
    {
      if xs[i] != Mean(xs) {
        DeviationPositive(xs, Mean(xs), i);
      }
    }
  }

  // ----- median -----

  predicate Sorted(s: seq<real>)
  {
    forall i, j :: 0 <= i < j < |s| ==> s[i] <= s[j]
  }

  function Insert(x: real, s: seq<real>): (r: seq<real>)
    requires Sorted(s)
    ensures |r| == |s| + 1
    ensures r[0] == if |s| == 0 || x <= s[0] then x else s[0]
    ensures Sorted(r)
    ensures multiset(r) == multiset(s) + multiset{x}
  {
    if |s| == 0 then [x]
    else if x <= s[0] then [x] + s
    else
      assert s == [s[0]] + s[1..];
      var t := Insert(x, s[1..]);
      assert s[0] <= t[0];
      [s[0]] + t
  }

  /** `xs.slice().sort((a, b) => a - b)`, by insertion. */
  function SortAscending(xs: seq<real>): (r: seq<real>)
    ensures Sorted(r)
    ensures multiset(r) == multiset(xs)
  {
    if |xs| == 0 then []
    else
      assert xs == xs[..|xs| - 1] + [xs[|xs| - 1]];
      Insert(xs[|xs| - 1], SortAscending(xs[..|xs| - 1]))
  }

  /** simple-statistics `median`: the middle of the sorted values, or the
      average of the two middle ones for an even count. */
  function Median(xs: seq<real>): (m: real)
    requires |xs| > 0
    ensures Min(xs) <= m <= Max(xs)
  {
    var s := SortAscending(xs);
    var n := |s|;
    assert |s| == |xs| by {
      assert |multiset(s)| == |multiset(xs)|;
    }
    BetweenMinMax(xs, s[n / 2]);
    BetweenMinMax(xs, s[(n - 1) / 2]);
    if n % 2 == 1 then s[n / 2] else (s[n / 2 - 1] + s[n / 2]) / 2.0
  }

  lemma BetweenMinMax(xs: seq<real>, x: real)
    requires |xs| > 0 && x in multiset(xs)
    ensures Min(xs) <= x <= Max(xs)
  {
    assert x in xs;
  }

  // ----- rounding -----

  /** `Math.round`: the nearest integer, halves rounded up. */
  function Round(x: real): (r: int)
    ensures r as real - 0.5 <= x < r as real + 0.5
  {
    (x + 0.5).Floor
  }

  lemma RoundMonotone(x: real, y: real)
    requires x <= y
    ensures Round(x) <= Round(y)
  {
  }

  lemma RoundOfInt(k: int)
    ensures Round(k as real) == k
  {
  }

  // ----- least-squares slope over (index, value) -----

  /** Σ i for i < n. */
  function SumIndices(n: nat): int
  {
    if n == 0 then 0 else SumIndices(n - 1) + (n - 1)
  }

  /** Σ i² for i < n. */
  function SumSquaredIndices(n: nat): int
  {
    if n == 0 then 0 else SumSquaredIndices(n - 1) + (n - 1) * (n - 1)
  }

  lemma {:induction false} SumIndicesClosedForm(n: nat)
    ensures 2 * SumIndices(n) == n * (n - 1)
  {
    if n > 0 {
      SumIndicesClosedForm(n - 1);
      assert n * (n - 1) == (n - 1) * (n - 2) + 2 * (n - 1);
    }
  }

  lemma {:induction false} SumSquaredIndicesClosedForm(n: nat)
    ensures 6 * SumSquaredIndices(n) == (n - 1) * n * (2 * n - 1)
  {
    if n > 0 {
      SumSquaredIndicesClosedForm(n - 1);
      CubicStep(n - 1, n);
    }
  }

  lemma CubicStep(m: int, n: int)
    requires n == m + 1
    ensures (m - 1) * m * (2 * m - 1) + 6 * (m * m) == m * n * (2 * n - 1)
  {
  }

  /** Σ i · ys[i]. */
  function SumIndexTimesValue(ys: seq<real>): real
  {
    if |ys| == 0 then 0.0
    else SumIndexTimesValue(ys[..|ys| - 1]) + ((|ys| - 1) as real) * ys[|ys| - 1]
  }

  /** The slope's denominator nΣi² − (Σi)² over the indices i < n. */
  function SlopeDenominator(n: nat): int
  {
    n * SumSquaredIndices(n) - SumIndices(n) * SumIndices(n)
  }

  /** The denominator equals n²(n² − 1)/12, positive from two points on. */
  lemma SlopeDenominatorPositive(n: nat)
    requires n >= 2
    ensures SlopeDenominator(n) > 0
  {
    var sx, sxx := SumIndices(n), SumSquaredIndices(n);
    SumIndicesClosedForm(n);
    SumSquaredIndicesClosedForm(n);
    assert 12 * (n * sxx - sx * sx) == 2 * n * (6 * sxx) - 3 * (2 * sx) * (2 * sx);
    assert 12 * (n * sxx - sx * sx) == 2 * n * ((n - 1) * n * (2 * n - 1)) - 3 * (n * (n - 1)) * (n * (n - 1));
    assert 12 * (n * sxx - sx * sx) == n * n * (n - 1) * (n + 1);
    assert n * n * (n - 1) * (n + 1) > 0;
  }

  lemma CastProduct(x: int, y: int)
    ensures (x * y) as real == (x as real) * (y as real)
  {
  }

  /** The least-squares slope (nΣxy − ΣxΣy) / den from its sums, where den is
      nΣx² − (Σx)². */
  function SlopeFromSums(n: real, sx: real, sy: real, sxy: real, den: real): real
    requires den != 0.0
  {
    (n * sxy - sx * sy) / den
  }

  /** `linearRegression(ys.map((y, i) => [i, y])).m`: 0 for one point,
      otherwise the least-squares slope of the points (i, ys[i]). */
  function Slope(ys: seq<real>): real
    requires |ys| >= 1
  {
    var n := |ys|;
    if n == 1 then 0.0
    else
      SlopeDenominatorPositive(n);
      SlopeFromSums(n as real, SumIndices(n) as real, Sum(ys), SumIndexTimesValue(ys),
                    SlopeDenominator(n) as real)
  }

  /** The points (i, ys[i]) lie on the line a + b·i. */
  predicate OnLine(ys: seq<real>, a: real, b: real)
  {
    forall i :: 0 <= i < |ys| ==> ys[i] == a + b * (i as real)
  }

  lemma CastSquare(x: int)
    ensures (x * x) as real == (x as real) * (x as real)
  {
  }

  lemma SumIndexTimesValueSnoc(xs: seq<real>, y: real, k: nat)
    requires |xs| == k
    ensures SumIndexTimesValue(xs + [y]) == SumIndexTimesValue(xs) + (k as real) * y
  {
    assert (xs + [y])[..k] == xs;
  }

  /** Appending the point at index k = n − 1 to k points of a line. */
  lemma LineSumStep(xs: seq<real>, y: real, a: real, b: real, k: nat, n: nat)
    requires |xs| == k && n == k + 1 && y == a + b * (k as real)
    requires Sum(xs) == (k as real) * a + b * (SumIndices(k) as real)
    ensures Sum(xs + [y]) == (n as real) * a + b * (SumIndices(n) as real)
  {
    assert (xs + [y])[..k] == xs;
  }

  /** Σ (a + b·i) over the first n points of a line is n·a + b·Σ i. */
  lemma {:induction false} LineSum(ys: seq<real>, a: real, b: real, n: nat)
    requires n <= |ys| && OnLine(ys, a, b)
    ensures Sum(ys[..n]) == (n as real) * a + b * (SumIndices(n) as real)
  {
    if n > 0 {
      LineSum(ys, a, b, n - 1);
      assert ys[..n] == ys[..n - 1] + [ys[n - 1]];
      LineSumStep(ys[..n - 1], ys[n - 1], a, b, n - 1, n);
    }
  }

  lemma LineIndexSumStep(xs: seq<real>, y: real, a: real, b: real, k: nat, n: nat)
    requires |xs| == k && n == k + 1 && y == a + b * (k as real)
    requires SumIndexTimesValue(xs) == a * (SumIndices(k) as real) + b * (SumSquaredIndices(k) as real)
    ensures SumIndexTimesValue(xs + [y]) == a * (SumIndices(n) as real) + b * (SumSquaredIndices(n) as real)
  {
    SumIndexTimesValueSnoc(xs, y, k);
    CastSquare(k);
  }

  /** Σ i·(a + b·i) over the first n points of a line is a·Σ i + b·Σ i². */
  lemma {:induction false} LineIndexSum(ys: seq<real>, a: real, b: real, n: nat)
    requires n <= |ys| && OnLine(ys, a, b)
    ensures SumIndexTimesValue(ys[..n]) == a * (SumIndices(n) as real) + b * (SumSquaredIndices(n) as real)
  {
    if n > 0 {
      LineIndexSum(ys, a, b, n - 1);
      assert ys[..n] == ys[..n - 1] + [ys[n - 1]];
      LineIndexSumStep(ys[..n - 1], ys[n - 1], a, b, n - 1, n);
    }
  }

  lemma LineSumAll(ys: seq<real>, a: real, b: real)
    requires OnLine(ys, a, b)
    ensures Sum(ys) == (|ys| as real) * a + b * (SumIndices(|ys|) as real)
  {
    LineSum(ys, a, b, |ys|);
    assert ys[..|ys|] == ys;
  }

  lemma LineIndexSumAll(ys: seq<real>, a: real, b: real)
    requires OnLine(ys, a, b)
    ensures SumIndexTimesValue(ys) == a * (SumIndices(|ys|) as real) + b * (SumSquaredIndices(|ys|) as real)
  {
    LineIndexSum(ys, a, b, |ys|);
    assert ys[..|ys|] == ys;
  }

  /** The slope formula applied to the sums of points on the line a + b·x,
      with integer abscissa sums n, Σx and Σx². */
  lemma SlopeAlgebra(a: real, b: real, n: int, sx: int, sxx: int, sy: real, sxy: real)
    requires n * sxx - sx * sx != 0
    requires sy == (n as real) * a + b * (sx as real)
    requires sxy == a * (sx as real) + b * (sxx as real)
    ensures (n * sxx - sx * sx) as real != 0.0
    ensures SlopeFromSums(n as real, sx as real, sy, sxy, (n * sxx - sx * sx) as real) == b
  {
    CastProduct(n, sxx);
    CastSquare(sx);
    var nr, sxr, sxxr := n as real, sx as real, sxx as real;
    var den := (n * sxx - sx * sx) as real;
    assert den == nr * sxxr - sxr * sxr;
    assert nr * sxy - sxr * sy == b * den;
  }

  /** Sums of n points on the line a + b·i give the slope b. */
  lemma SlopeOfSums(n: nat, sy: real, sxy: real, a: real, b: real)
    requires n >= 2
    requires sy == (n as real) * a + b * (SumIndices(n) as real)
    requires sxy == a * (SumIndices(n) as real) + b * (SumSquaredIndices(n) as real)
    ensures SlopeDenominator(n) as real != 0.0
    ensures SlopeFromSums(n as real, SumIndices(n) as real, sy, sxy, SlopeDenominator(n) as real) == b
  {
    SlopeDenominatorPositive(n);
    SlopeAlgebra(a, b, n, SumIndices(n), SumSquaredIndices(n), sy, sxy);
  }

  /** Least squares recovers the slope of points that lie on a line. */
  lemma SlopeOfLine(ys: seq<real>, a: real, b: real)
    requires |ys| >= 2 && OnLine(ys, a, b)
    ensures Slope(ys) == b
  {
    LineSumAll(ys, a, b);
    LineIndexSumAll(ys, a, b);
    SlopeOfSums(|ys|, Sum(ys), SumIndexTimesValue(ys), a, b);
  }

  /** Equal values have slope zero. */
  lemma SlopeOfConstant(ys: seq<real>)
    requires |ys| >= 1
    requires forall i :: 0 <= i < |ys| ==> ys[i] == ys[0]
    ensures Slope(ys) == 0.0
  {
    if |ys| >= 2 {
      SlopeOfLine(ys, ys[0], 0.0);
    }
  }

  /** With two points the slope is their difference. */
  lemma SlopeOfTwo(y0: real, y1: real)
    ensures Slope([y0, y1]) == y1 - y0
  {
    var ys := [y0, y1];
    assert ys[..1] == [y0];
    assert [y0][..0] == [];
    assert SumIndexTimesValue([y0]) == 0.0;
    assert SumIndexTimesValue(ys) == SumIndexTimesValue([y0]) + 1.0 * y1;
    assert Sum([y0]) == y0;
    assert Sum(ys) == Sum([y0]) + y1;
    SlopeDenominatorPositive(2);
  }
}
