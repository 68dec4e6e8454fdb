/** The randomness test battery: the counting cores of the monobit and runs
    tests (sections 2.1 and 2.3 of NIST SP 800-22), the byte chi-square test,
    the autocorrelation test with its nan cases, the m-bit serial test, and the
    suite that unpacks bytes most significant bit first and summarises six
    verdicts. Square roots, `erfc`, the chi-square distribution and
    `np.corrcoef` are parameters; the autocorrelation statistic may be nan. */
module StatisticalTests {
  import opened Base
  import opened Tally
  import opened Avalanche

  /** `math.sqrt`, only known to be positive at positive arguments. */
  type Sqrt = f: real -> real | forall x {:trigger f(x)} :: x > 0.0 ==> f(x) > 0.0
    witness PositivePart

  function PositivePart(x: real): real
  {
    if x > 0.0 then x else 0.0
  }

  /** The library numerics the tests call: `math.sqrt`, `math.erfc` and
      `stats.chi2.cdf(x, df)`. */
  datatype Numerics = Numerics(sqrt: Sqrt, erfc: real -> real, chi2Cdf: (real, nat) -> real)

  /** A float64 as the tests compute it: a number, or nan. */
  datatype Float = Finite(value: real) | NaN

  /** A statistic that is a number. */
  function Value(x: real): Option<Float>
  {
    Some(Finite(x))
  }

  /** One test's dictionary. `statistic` is `None` where the source writes
      `None`; `note` is the description when it is a fixed text; the formatted
      descriptions are not modelled. */
  datatype TestResult = TestResult(
    testName: string,
    statistic: Option<Float>,
    pValue: real,
    passed: bool,
    note: Option<string>)

  const DefaultAlpha: real := 0.01

  function Abs(x: int): nat
  {
    if x < 0 then -x else x
  }

  function RealAbs(x: real): real
  {
    if x < 0.0 then -x else x
  }

  // ---------------------------------------------------------------------
  // Frequency (monobit) test

  /** The number of zeros of a bit list. */
  function CountZeros(s: seq<Bit>): nat
  {
    if s == [] then 0 else CountZeros(s[..|s| - 1]) + (if s[|s| - 1] == 0 then 1 else 0)
  }

  /** Every bit is a one or a zero. */
  lemma {:induction false} OnesAndZeros(s: seq<Bit>)
    ensures CountOnes(s) + CountZeros(s) == |s|
  {
    if s != [] {
      OnesAndZeros(s[..|s| - 1]);
    }
  }

  /** `frequency_test(bit_sequence, alpha)`: the statistic is |#ones - #zeros|
      over the square root of n; an empty list divides by `sqrt(0)`. */
  function FrequencyTest(nm: Numerics, bits: seq<Bit>, alpha: real): (r: Result<TestResult>)
    ensures r.Err? <==> |bits| == 0
    ensures r.Err? ==> r.error == ZeroDivisionError
    ensures r.Ok? ==> r.value.statistic.Some? && r.value.statistic.value.Finite?
    ensures r.Ok? ==> r.value.statistic.value.value * nm.sqrt(|bits| as real)
                      == Abs(CountOnes(bits) - CountZeros(bits)) as real
    ensures r.Ok? ==> r.value.pValue == nm.erfc(r.value.statistic.value.value / nm.sqrt(2.0))
    ensures r.Ok? ==> (r.value.passed <==> r.value.pValue >= alpha)
  {
    var n := |bits|;
    var ones := CountOnes(bits);
    var s := Abs(2 * ones - n);
    if n == 0 then Err(ZeroDivisionError)
    else
      OnesAndZeros(bits);
      var root := nm.sqrt(n as real);
      var sObs := s as real / root;
      assert sObs * root == s as real;
      var pValue := nm.erfc(sObs / nm.sqrt(2.0));
      Ok(TestResult("Frequency (Monobit) Test", Value(sObs), pValue, pValue >= alpha, None))
  }

  // ---------------------------------------------------------------------
  // Runs test

  /** The number of adjacent pairs that differ. */
  function Changes(s: seq<Bit>): (c: nat)
    ensures |s| > 0 ==> c < |s|
  {
    if |s| <= 1 then 0
    else Changes(s[..|s| - 1]) + (if s[|s| - 1] != s[|s| - 2] then 1 else 0)
  }

  /** The number of runs, maximal blocks of equal bits: one, plus one at
      every change. */
  function Runs(s: seq<Bit>): nat
  {
    1 + Changes(s)
  }

  /** A non-empty list has between 1 and n runs. */
  lemma RunsBounds(s: seq<Bit>)
    requires |s| > 0
    ensures 1 <= Runs(s) <= |s|
  {
  }

  /** One run exactly when every bit equals the first. */
  lemma {:induction false} OneRun(s: seq<Bit>)
    requires |s| > 0
    ensures Runs(s) == 1 <==> forall j :: 0 <= j < |s| ==> s[j] == s[0]
  {
    if |s| > 1 {
      var front := s[..|s| - 1];
      OneRun(front);
      assert front[0] == s[0];
      if Runs(s) == 1 {
        assert Changes(front) == 0;
        assert s[|s| - 1] == s[|s| - 2] == front[|s| - 2];
      }
    }
  }

  /** n runs exactly when every bit differs from the one before it. */
  lemma {:induction false} AllRuns(s: seq<Bit>)
    requires |s| > 0
    ensures Runs(s) == |s| <==> forall j :: 0 < j < |s| ==> s[j] != s[j - 1]
  {
    if |s| > 1 {
      var front := s[..|s| - 1];
      AllRuns(front);
      if forall j :: 0 < j < |s| ==> s[j] != s[j - 1] {
        assert forall j :: 0 < j < |front| ==> front[j] != front[j - 1];
      }
      if Runs(s) == |s| {
        assert Changes(front) == |front| - 1;
      }
    }
  }

  /** The proportion of ones, `pi = ones / n`. */
  function Proportion(bits: seq<Bit>): real
    requires |bits| > 0
  {
    CountOnes(bits) as real / |bits| as real
  }

  /** The pre-test `abs(pi - 0.5) >= 2 / sqrt(n)`. */
  predicate PreTestFails(nm: Numerics, bits: seq<Bit>)
    requires |bits| > 0
  {
    RealAbs(Proportion(bits) - 0.5) >= 2.0 / nm.sqrt(|bits| as real)
  }

  /** `V_obs` for a given number of runs, 0 when the denominator
      `2 sqrt(2n) pi (1 - pi)` vanishes. */
  function RunsStatistic(nm: Numerics, bits: seq<Bit>, runs: nat): real
    requires |bits| > 0
  {
    var n, pi := |bits| as real, Proportion(bits);
    var numerator := RealAbs(runs as real - 2.0 * n * pi * (1.0 - pi));
    var denominator := 2.0 * nm.sqrt(2.0 * n) * pi * (1.0 - pi);
    if denominator == 0.0 then 0.0 else numerator / denominator
  }

  const PreTestNote := "Failed pre-test: frequency too far from 0.5"

  /** `runs_test(bit_sequence, alpha)`: `ones / n` divides by zero on an empty
      list; a failed pre-test answers without counting runs; otherwise the
      loop counts the runs and the statistic is computed from them. */
  method RunsTest(nm: Numerics, bits: seq<Bit>, alpha: real) returns (r: Result<TestResult>)
    ensures r.Err? <==> |bits| == 0
    ensures r.Err? ==> r.error == ZeroDivisionError
    ensures |bits| > 0 && PreTestFails(nm, bits) ==>
              r == Ok(TestResult("Runs Test", None, 0.0, false, Some(PreTestNote)))
    ensures |bits| > 0 && !PreTestFails(nm, bits) ==>
              && r.Ok? && r.value.statistic == Value(RunsStatistic(nm, bits, Runs(bits)))
              && r.value.pValue == nm.erfc(RunsStatistic(nm, bits, Runs(bits)) / nm.sqrt(2.0))
              && (r.value.passed <==> r.value.pValue >= alpha)
  {
    var n := |bits|;
    if n == 0 {
      return Err(ZeroDivisionError);
    }
    if PreTestFails(nm, bits) {
      return Ok(TestResult("Runs Test", None, 0.0, false, Some(PreTestNote)));
    }
    var runs := 1;
    var i := 1;
    while i < n
      invariant 1 <= i <= n
      invariant runs == Runs(bits[..i])
    {
      if bits[i] != bits[i - 1] {
        runs := runs + 1;
      }
      assert bits[..i + 1][..i] == bits[..i];
      i := i + 1;
    }
    assert bits[..n] == bits;
    var vObs := RunsStatistic(nm, bits, runs);
    var pValue := nm.erfc(vObs / nm.sqrt(2.0));
    r := Ok(TestResult("Runs Test", Value(vObs), pValue, pValue >= alpha, None));
  }

  // ---------------------------------------------------------------------
  // Chi-square test of the byte histogram

  /** A `bytes` object iterated in Python: its elements are the integers
      0 .. 255, so `Counter(byte_sequence)` is keyed by those integers. */
  function ByteInts(bytes: seq<byte>): (vs: seq<int>)
    ensures |vs| == |bytes|
    ensures forall i :: 0 <= i < |bytes| ==> vs[i] == bytes[i] as int && 0 <= vs[i] < 256
  {
    seq(|bytes|, i requires 0 <= i < |bytes| => bytes[i] as int)
  }

  /** The counts of the values 0 .. m-1 in a `Counter`, `counts.get(i, 0)`. */
  function ObservedBelow(t: Table<int>, m: nat): nat
  {
    if m == 0 then 0 else ObservedBelow(t, m - 1) + Get(t.counts, m - 1)
  }

  /** The byte values 0 .. 255, `range(256)`. */
  function ByteValues(): (vs: seq<int>)
    ensures |vs| == 256
    ensures forall v :: 0 <= v < 256 ==> vs[v] == v
  {
    seq(256, v requires 0 <= v < 256 => v)
  }

  /** The occurrences in `s` of the values 0 .. m-1. */
  function OccurrencesBelow(s: seq<int>, m: nat): nat
  {
    if m == 0 then 0 else OccurrencesBelow(s, m - 1) + Count(s, m - 1)
  }

  /** One more element adds one to the occurrences of the values below m
      when it is one of them. */
  lemma {:induction false} OccurrencesBelowSnoc(s: seq<int>, x: int, m: nat)
    ensures OccurrencesBelow(s + [x], m) == OccurrencesBelow(s, m) + (if 0 <= x < m then 1 else 0)
  {
    if m > 0 {
      OccurrencesBelowSnoc(s, x, m - 1);
      assert (s + [x])[..|s|] == s;
      assert Count(s + [x], m - 1) == Count(s, m - 1) + (if x == m - 1 then 1 else 0);
    }
  }

  /** Every element of a sequence of byte values is one of the 256 values. */
  lemma {:induction false} OccurrencesAll(s: seq<int>)
    requires forall i :: 0 <= i < |s| ==> 0 <= s[i] < 256
    ensures OccurrencesBelow(s, 256) == |s|
  {
    if s != [] {
      var front := s[..|s| - 1];
      OccurrencesAll(front);
      var last := s[|s| - 1];
      assert s == front + [last];
      OccurrencesBelowSnoc(front, last, 256);
    } else {
      OccurrencesNone(s, 256);
    }
  }

  lemma {:induction false} OccurrencesNone(s: seq<int>, m: nat)
    requires s == []
    ensures OccurrencesBelow(s, m) == 0
  {
    if m > 0 {
      OccurrencesNone(s, m - 1);
    }
  }

  /** The counts a `Counter` reports for the values below m are the
      occurrences of those values. */
  lemma {:induction false} ObservedIsOccurrences(s: seq<int>, m: nat)
    ensures ObservedBelow(Tallied(s), m) == OccurrencesBelow(s, m)
  {
    if m > 0 {
      ObservedIsOccurrences(s, m - 1);
      TalliedCounts(s);
      assert Get(Tallied(s).counts, m - 1) == Count(s, m - 1);
    }
  }

  /** The observed counts over the byte values 0 .. 255 add up to n. */
  lemma ObservedSumsToLength(bytes: seq<byte>)
    ensures ObservedBelow(Tallied(ByteInts(bytes)), 256) == |bytes|
  {
    ObservedIsOccurrences(ByteInts(bytes), 256);
    OccurrencesAll(ByteInts(bytes));
  }

  /** One term `(observed - expected)**2 / expected` of a chi-square sum. */
  function ChiTerm(observed: real, expected: real): real
    requires expected > 0.0
  {
    (observed - expected) * (observed - expected) / expected
  }

  /** A term is never negative, and it is zero exactly when the observed
      count is the expected one. */
  lemma ChiTermSign(observed: real, expected: real)
    requires expected > 0.0
    ensures ChiTerm(observed, expected) >= 0.0
    ensures ChiTerm(observed, expected) == 0.0 <==> observed == expected
  {
    var d := observed - expected;
    assert ChiTerm(observed, expected) == Quotient(Product(d, d), expected);
    if d > 0.0 {
      ProductPositive(d, d);
      QuotientPositive(Product(d, d), expected);
    } else if d < 0.0 {
      ProductPositive(-d, -d);
      assert Product(d, d) == Product(-d, -d);
      QuotientPositive(Product(d, d), expected);
    } else {
      assert Product(d, d) == 0.0;
      assert Quotient(Product(d, d), expected) == 0.0;
    }
  }

  /** `chi_square_test(byte_sequence, alpha)`: the statistic runs over the
      values 0 .. 255 against `expected = n / 256`; with n = 0 the first term
      divides by zero. */
  method ChiSquareTest(nm: Numerics, bytes: seq<byte>, alpha: real) returns (r: Result<TestResult>)
    ensures r.Err? <==> |bytes| == 0
    ensures r.Err? ==> r.error == ZeroDivisionError
    ensures r.Ok? ==> var expected := |bytes| as real / 256.0;
                      && expected > 0.0
                      && r.value.statistic == Value(ChiOver(ByteValues(), Tallied(ByteInts(bytes)).counts, expected))
                      && r.value.pValue == 1.0 - nm.chi2Cdf(r.value.statistic.value.value, 255)
                      && (r.value.passed <==> r.value.pValue >= alpha)
  {
    var n := |bytes|;
    var counts := Tallied(ByteInts(bytes));
    var expected := n as real / 256.0;
    if n == 0 {
      return Err(ZeroDivisionError);
    }
    var chiSquare := ChiSum(ByteValues(), counts.counts, expected);
    var pValue := 1.0 - nm.chi2Cdf(chiSquare, 255);
    r := Ok(TestResult("Chi-Square Test", Value(chiSquare), pValue, pValue >= alpha, None));
  }

  // ---------------------------------------------------------------------
  // Autocorrelation test

  /** `abs(x)`; `abs(nan)` is nan. */
  function FloatAbs(x: Float): Float
  {
    if x.NaN? then NaN else Finite(RealAbs(x.value))
  }

  /** `x < bound`, which is false when x is nan. */
  predicate Below(x: Float, bound: real)
  {
    x.Finite? && x.value < bound
  }

  /** `x > y`, which is false when either side is nan. */
  predicate Greater(x: Float, y: Float)
  {
    x.Finite? && y.Finite? && x.value > y.value
  }

  /** Python's built-in `max` of a non-empty list: the first element, replaced
      by each later element that compares greater than the current one. */
  function PyMax(xs: seq<Float>): (m: Float)
    requires |xs| > 0
    ensures m in xs
  {
    if |xs| == 1 then xs[0]
    else
      var rest := PyMax(xs[..|xs| - 1]);
      if Greater(xs[|xs| - 1], rest) then xs[|xs| - 1] else rest
  }

  /** Since nothing compares greater than nan, `max` is nan exactly when the
      first element is; otherwise it is no smaller than any number listed. */
  lemma {:induction false} PyMaxFirst(xs: seq<Float>)
    requires |xs| > 0
    ensures PyMax(xs).NaN? <==> xs[0].NaN?
    ensures xs[0].Finite? ==>
              forall j :: 0 <= j < |xs| && xs[j].Finite? ==> xs[j].value <= PyMax(xs).value
  {
    if |xs| > 1 {
      var prefix := xs[..|xs| - 1];
      PyMaxFirst(prefix);
      assert prefix[0] == xs[0];
      assert forall j :: 0 <= j < |prefix| ==> prefix[j] == xs[j];
    }
  }

  /** All bytes are equal. */
  predicate Constant(s: seq<byte>)
  {
    forall i :: 0 <= i < |s| ==> s[i] == s[0]
  }

  /** `np.corrcoef(x[:-lag], x[lag:])[0, 1]` of the sequence normalised to
      zero mean and unit variance. A constant sequence normalises to zeros,
      whose correlation is nan. */
  type Correlation = c: (seq<byte>, nat) -> Float
    | forall s, lag {:trigger c(s, lag)} :: Constant(s) ==> c(s, lag) == NaN
    witness NoCorrelation

  function NoCorrelation(s: seq<byte>, lag: nat): Float
  {
    NaN
  }

  /** `abs(corr)` at the lags 1 .. k. */
  function AbsCorrelations(s: seq<byte>, k: nat, corr: Correlation): (a: seq<Float>)
    ensures |a| == k
    ensures forall j :: 0 <= j < k ==> a[j] == FloatAbs(corr(s, j + 1))
  {
    seq(k, j requires 0 <= j < k => FloatAbs(corr(s, j + 1)))
  }

  /** The number of lags tested, `len(range(1, min(max_lag + 1, n // 2)))`. */
  function LagCount(n: nat, maxLag: int): (c: nat)
    ensures c == 0 <==> maxLag < 1 || n / 2 <= 1
    ensures c <= n / 2 && c <= (if maxLag < 0 then 0 else maxLag)
  {
    var stop := if maxLag + 1 < n / 2 then maxLag + 1 else n / 2;
    if stop <= 1 then 0 else stop - 1
  }

  /** `max(autocorr) if autocorr else 0`. */
  function MaxAutocorrelation(s: seq<byte>, maxLag: int, corr: Correlation): Float
  {
    var a := AbsCorrelations(s, LagCount(|s|, maxLag), corr);
    if |a| > 0 then PyMax(a) else Finite(0.0)
  }

  /** The statistic is 0 when no lag is tested; nan exactly when the lag-1
      correlation is nan; otherwise the largest absolute correlation among the
      lags, which is one of them. */
  lemma MaxAutocorrelationSpec(s: seq<byte>, maxLag: int, corr: Correlation)
    ensures var m, k := MaxAutocorrelation(s, maxLag, corr), LagCount(|s|, maxLag);
            && (k == 0 ==> m == Finite(0.0))
            && (k > 0 ==> (m.NaN? <==> corr(s, 1).NaN?))
            && (m.Finite? ==> m.value >= 0.0)
            && (m.Finite? ==> forall lag :: 1 <= lag <= k && corr(s, lag).Finite? ==>
                                RealAbs(corr(s, lag).value) <= m.value)
            && (k > 0 && m.Finite? ==> exists lag :: 1 <= lag <= k && corr(s, lag).Finite?
                                                   && m.value == RealAbs(corr(s, lag).value))
  {
    var k := LagCount(|s|, maxLag);
    var a := AbsCorrelations(s, k, corr);
    if k > 0 {
      var m := PyMax(a);
      PyMaxFirst(a);
      var j :| 0 <= j < k && a[j] == m;
      if m.Finite? {
        assert corr(s, j + 1).Finite? && m.value == RealAbs(corr(s, j + 1).value);
        forall lag | 1 <= lag <= k && corr(s, lag).Finite?
          ensures RealAbs(corr(s, lag).value) <= m.value
        {
          assert a[lag - 1] == FloatAbs(corr(s, lag));
        }
      }
    }
  }

  /** The test's dictionary for a non-empty sequence: the statistic against
      the threshold `2 / sqrt(n)`; `p = 1 - statistic` when the statistic is
      below 1, else 0. A nan statistic neither passes nor is below 1. */
  function AutocorrelationVerdict(nm: Numerics, s: seq<byte>, maxLag: int, corr: Correlation): (t: TestResult)
    requires |s| > 0
    ensures t.statistic == Some(MaxAutocorrelation(s, maxLag, corr))
    ensures t.passed <==> Below(t.statistic.value, 2.0 / nm.sqrt(|s| as real))
    ensures t.statistic.value.NaN? ==> t.pValue == 0.0
    ensures t.statistic.value.Finite? ==>
              t.pValue == (if t.statistic.value.value < 1.0 then 1.0 - t.statistic.value.value else 0.0)
  {
    var m := MaxAutocorrelation(s, maxLag, corr);
    var pValue := if Below(m, 1.0) then 1.0 - m.value else 0.0;
    TestResult("Autocorrelation Test", Some(m), pValue, Below(m, 2.0 / nm.sqrt(|s| as real)), None)
  }

  /** A constant sequence of at least four bytes, with at least one lag, has a
      nan statistic, fails, and gets p-value 0. */
  lemma ConstantSequenceFails(nm: Numerics, s: seq<byte>, maxLag: int, corr: Correlation)
    requires Constant(s) && |s| >= 4 && maxLag >= 1
    ensures var t := AutocorrelationVerdict(nm, s, maxLag, corr);
            t.statistic == Some(NaN) && !t.passed && t.pValue == 0.0
  {
    assert corr(s, 1) == NaN;
    MaxAutocorrelationSpec(s, maxLag, corr);
  }

  /** `autocorrelation_test(sequence, max_lag, alpha)`: the loop collects the
      absolute correlations at lags 1, 2, ..., and the verdict compares their
      `max` with `2 / sqrt(n)`. An empty sequence divides by `sqrt(0)`. */
  method AutocorrelationTest(nm: Numerics, s: seq<byte>, maxLag: int, corr: Correlation)
    returns (r: Result<TestResult>)
    ensures r.Err? <==> |s| == 0
    ensures r.Err? ==> r.error == ZeroDivisionError
    ensures r.Ok? ==> r.value == AutocorrelationVerdict(nm, s, maxLag, corr)
  {
    var n := |s|;
    var autocorr: seq<Float> := [];
    var stop := if maxLag + 1 < n / 2 then maxLag + 1 else n / 2;
    var lag := 1;
    while lag < stop
      invariant lag == 1 || 1 < lag <= stop
      invariant autocorr == AbsCorrelations(s, lag - 1, corr)
    {
      autocorr := autocorr + [FloatAbs(corr(s, lag))];
      lag := lag + 1;
    }
    assert lag - 1 == LagCount(n, maxLag);
    var maxAutocorr := if |autocorr| > 0 then PyMax(autocorr) else Finite(0.0);
    if n == 0 {
      return Err(ZeroDivisionError);
    }
    var threshold := 2.0 / nm.sqrt(n as real);
    var passed := Below(maxAutocorr, threshold);
    var pValue := if Below(maxAutocorr, 1.0) then 1.0 - maxAutocorr.value else 0.0;
    r := Ok(TestResult("Autocorrelation Test", Some(maxAutocorr), pValue, passed, None));
  }

  // ---------------------------------------------------------------------
  // Serial test

  function Pow2(m: nat): (p: nat)
    ensures p >= 1
  {
    if m == 0 then 1 else 2 * Pow2(m - 1)
  }

  /** The overlapping m-bit windows `bit_sequence[i:i+m]`, i = 0 .. n - m. */
  function Windows(bits: seq<Bit>, m: nat): (w: seq<seq<Bit>>)
    requires m <= |bits|
    ensures |w| == |bits| - m + 1
    ensures forall i :: 0 <= i < |w| ==> w[i] == bits[i..i + m]
  {
    seq(|bits| - m + 1, i requires 0 <= i <= |bits| - m => bits[i..i + m])
  }

  /** Every bit list of length m. */
  function AllPatterns(m: nat): set<seq<Bit>>
  {
    if m == 0 then {[]} else Extended(AllPatterns(m - 1), 0) + Extended(AllPatterns(m - 1), 1)
  }

  /** There are at most 2^m bit lists of length m. */
  lemma {:induction false} PatternsCard(m: nat)
    ensures |AllPatterns(m)| <= Pow2(m)
  {
    if m > 0 {
      var shorter := AllPatterns(m - 1);
      PatternsCard(m - 1);
      ImageCard(shorter, 0);
      ImageCard(shorter, 1);
      assert |Extended(shorter, 0) + Extended(shorter, 1)| <= |Extended(shorter, 0)| + |Extended(shorter, 1)|;
    }
  }

  /** Every list of a set with the bit b appended. */
  function Extended(s: set<seq<Bit>>, b: Bit): set<seq<Bit>>
  {
    set p | p in s :: p + [b]
  }

  /** Appending a fixed bit makes no more lists than there were. */
  lemma ImageCard(s: set<seq<Bit>>, b: Bit)
    ensures |Extended(s, b)| <= |s|
    decreases |s|
  {
    if s != {} {
      var x :| x in s;
      var rest := s - {x};
      ImageCard(rest, b);
      assert Extended(s, b) <= Extended(rest, b) + {x + [b]};
      SubsetCard(Extended(s, b), Extended(rest, b) + {x + [b]});
    }
  }

  /** Every bit list is one of the patterns of its length. */
  lemma {:induction false} PatternListed(p: seq<Bit>)
    ensures p in AllPatterns(|p|)
  {
    if p != [] {
      var front := p[..|p| - 1];
      var last := p[|p| - 1];
      PatternListed(front);
      assert p == front + [last];
      assert p in Extended(AllPatterns(|front|), last);
    }
  }

  /** The serial test's pattern dictionary: one count per distinct window,
      the counts add up to n - m + 1, and there are at most 2^m patterns. */
  lemma PatternCounts(bits: seq<Bit>, m: nat)
    requires m <= |bits|
    ensures Total(Tallied(Windows(bits, m))) == |bits| - m + 1
    ensures |Tallied(Windows(bits, m)).keys| <= Pow2(m)
    ensures forall w :: Get(Tallied(Windows(bits, m)).counts, w) == Count(Windows(bits, m), w)
  {
    var w := Windows(bits, m);
    TalliedCounts(w);
    forall i | 0 <= i < |w| ensures w[i] in AllPatterns(m) {
      PatternListed(w[i]);
    }
    TalliedKeysWithin(w, AllPatterns(m));
    PatternsCard(m);
  }

  /** `sum((count - expected)**2 / expected for count in patterns.values())`
      over the first keys of the dictionary. */
  function ChiOver<K>(keys: seq<K>, counts: map<K, nat>, expected: real): real
    requires expected > 0.0
  {
    if keys == [] then 0.0
    else
      ChiOver(keys[..|keys| - 1], counts, expected) + ChiTerm(Get(counts, keys[|keys| - 1]) as real, expected)
  }

  /** The sum `sum((count - expected)**2 / expected for ...)` taken term by
      term over the keys in order. */
  method ChiSum<K>(keys: seq<K>, counts: map<K, nat>, expected: real) returns (chi: real)
    requires expected > 0.0
    ensures chi == ChiOver(keys, counts, expected)
  {
    chi := 0.0;
    var k := 0;
    while k < |keys|
      invariant 0 <= k <= |keys|
      invariant chi == ChiOver(keys[..k], counts, expected)
    {
      assert keys[..k + 1][..k] == keys[..k];
      chi := chi + ChiTerm(Get(counts, keys[k]) as real, expected);
      k := k + 1;
    }
    assert keys[..k] == keys;
  }

  /** The statistic is never negative, and it is zero exactly when every
      listed key occurs `expected` times. */
  lemma {:induction false} ChiOverZero<K>(keys: seq<K>, counts: map<K, nat>, expected: real)
    requires expected > 0.0
    ensures ChiOver(keys, counts, expected) >= 0.0
    ensures ChiOver(keys, counts, expected) == 0.0 <==>
              forall j :: 0 <= j < |keys| ==> Get(counts, keys[j]) as real == expected
  {
    if keys != [] {
      var front := keys[..|keys| - 1];
      ChiOverZero(front, counts, expected);
      ChiTermSign(Get(counts, keys[|keys| - 1]) as real, expected);
      if ChiOver(keys, counts, expected) == 0.0 {
        forall j | 0 <= j < |keys| ensures Get(counts, keys[j]) as real == expected {
          if j < |front| {
            assert keys[j] == front[j];
          }
        }
      }
      if forall j :: 0 <= j < |keys| ==> Get(counts, keys[j]) as real == expected {
        assert forall j :: 0 <= j < |front| ==> Get(counts, front[j]) as real == expected by {
          forall j | 0 <= j < |front| ensures Get(counts, front[j]) as real == expected {
            assert front[j] == keys[j];
          }
        }
      }
    }
  }

  /** The decimal digits of a natural number, `str(m)`. */
  function Decimal(m: nat): (s: string)
    ensures |s| >= 1
  {
    if m < 10 then [['0', '1', '2', '3', '4', '5', '6', '7', '8', '9'][m]]
    else Decimal(m / 10) + Decimal(m % 10)
  }

  function SerialName(m: nat): string
  {
    "Serial Test (m=" + Decimal(m) + ")"
  }

  /** The serial test's first loop: every m-bit window, from the first
      position to the last, counted in a dictionary. */
  method PatternTable(bits: seq<Bit>, m: nat) returns (patterns: Table<seq<Bit>>)
    requires m <= |bits|
    ensures patterns == Tallied(Windows(bits, m))
  {
    ghost var windows := Windows(bits, m);
    patterns := Empty();
    var i := 0;
    while i < |bits| - m + 1
      invariant 0 <= i <= |bits| - m + 1
      invariant patterns == Tallied(windows[..i])
    {
      var pattern := bits[i..i + m];
      assert windows[..i + 1] == windows[..i] + [pattern];
      patterns := Add(patterns, pattern);
      i := i + 1;
    }
    assert windows[..i] == windows;
  }

  /** The serial test's degrees of freedom, `2**m - 1`. */
  function Freedom(m: nat): nat
  {
    Pow2(m) - 1
  }

  /** `serial_test(bit_sequence, m, alpha)`: fewer than m bits fail at once;
      otherwise the loop counts every m-bit window in a dictionary and the
      statistic compares each count with `(n - m + 1) / 2**m`. */
  method SerialTest(nm: Numerics, bits: seq<Bit>, m: nat, alpha: real) returns (r: TestResult)
    ensures |bits| < m ==> r == TestResult(SerialName(m), None, 0.0, false, Some("Sequence too short"))
    ensures |bits| >= m ==>
              var expected := Quotient((|bits| - m + 1) as real, Pow2(m) as real);
              var patterns := Tallied(Windows(bits, m));
              && expected > 0.0
              && r.statistic == Value(ChiOver(patterns.keys, patterns.counts, expected))
              && r.statistic.value.value >= 0.0
              && r.pValue == 1.0 - nm.chi2Cdf(r.statistic.value.value, Freedom(m))
              && (r.passed <==> r.pValue >= alpha)
  {
    var n := |bits|;
    if n < m {
      return TestResult(SerialName(m), None, 0.0, false, Some("Sequence too short"));
    }
    var patterns := PatternTable(bits, m);
    var expected := Quotient((n - m + 1) as real, Pow2(m) as real);
    QuotientPositive((n - m + 1) as real, Pow2(m) as real);
    var chiSquare := ChiSum(patterns.keys, patterns.counts, expected);
    ChiOverZero(patterns.keys, patterns.counts, expected);
    var pValue := 1.0 - nm.chi2Cdf(chiSquare, Freedom(m));
    r := TestResult(SerialName(m), Value(chiSquare), pValue, pValue >= alpha, None);
  }

  // ---------------------------------------------------------------------
  // The suite

  /** The eight bits of one byte, most significant first (`np.unpackbits`). */
  function ByteBitsMsb(x: byte): (r: seq<Bit>)
    ensures |r| == 8
    ensures forall i {:trigger r[i]} :: 0 <= i < 8 ==> r[i] == BitOf(x, 7 - i)
  {
    seq(8, i requires 0 <= i < 8 => BitOf(x, 7 - i))
  }

  /** `np.unpackbits(byte_array)`: every byte, most significant bit first. */
  function MsbBits(data: seq<byte>): seq<Bit>
  {
    if data == [] then [] else MsbBits(data[..|data| - 1]) + ByteBitsMsb(data[|data| - 1])
  }

  /** The suite's bit list has 8 |d| entries, and entry 8k + i is bit 7 - i of
      byte k: within each byte, the reverse of `bytes_to_bits`. */
  lemma {:induction false} MsbBitsAt(data: seq<byte>, k: nat, i: nat)
    requires k < |data| && i < 8
    ensures |MsbBits(data)| == 8 * |data| == |LsbBits(data)|
    ensures MsbBits(data)[8 * k + i] == BitOf(data[k], 7 - i)
    ensures MsbBits(data)[8 * k + i] == LsbBits(data)[8 * k + 7 - i]
  {
    var front := data[..|data| - 1];
    MsbBitsLength(front);
    LsbBitsAt(data, k, 7 - i);
    if k < |data| - 1 {
      MsbBitsAt(front, k, i);
    }
  }

  lemma {:induction false} MsbBitsLength(data: seq<byte>)
    ensures |MsbBits(data)| == 8 * |data|
  {
    if data != [] {
      MsbBitsLength(data[..|data| - 1]);
    }
  }

  datatype Summary = Summary(totalTests: nat, passed: nat, failed: nat, passRate: real)

  /** The number of verdicts that passed. */
  function PassedCount(results: seq<TestResult>): (c: nat)
    ensures c <= |results|
  {
    if results == [] then 0
    else PassedCount(results[..|results| - 1]) + (if results[|results| - 1].passed then 1 else 0)
  }

  /** The suite's summary of its verdicts. */
  function Summarise(results: seq<TestResult>): (s: Summary)
    requires |results| > 0
    ensures s.totalTests == |results| && s.passed + s.failed == s.totalTests
    ensures 0.0 <= s.passRate <= 100.0
  {
    var passed := PassedCount(results);
    var total := |results|;
    QuotientUnit(passed as real, total as real);
    Summary(total, passed, total - passed, Quotient(passed as real, total as real) * 100.0)
  }

  /** Every verdict passed exactly when the pass rate is 100, and none
      passed exactly when it is 0. */
  lemma {:induction false} PassRateExtremes(results: seq<TestResult>)
    requires |results| > 0
    ensures Summarise(results).passRate == 100.0 <==> forall j :: 0 <= j < |results| ==> results[j].passed
    ensures Summarise(results).passRate == 0.0 <==> forall j :: 0 <= j < |results| ==> !results[j].passed
  {
    AllPassed(results);
    NonePassed(results);
    var p, t := PassedCount(results) as real, |results| as real;
    assert Summarise(results).passRate == Quotient(p, t) * 100.0;
    QuotientOne(p, t);
    QuotientZero(p, t);
  }

  lemma {:induction false} AllPassed(results: seq<TestResult>)
    ensures PassedCount(results) == |results| <==> forall j :: 0 <= j < |results| ==> results[j].passed
  {
    if results != [] {
      AllPassed(results[..|results| - 1]);
    }
  }

  lemma {:induction false} NonePassed(results: seq<TestResult>)
    ensures PassedCount(results) == 0 <==> forall j :: 0 <= j < |results| ==> !results[j].passed
  {
    if results != [] {
      NonePassed(results[..|results| - 1]);
    }
  }

  datatype SuiteReport = SuiteReport(
    frequency: TestResult,
    runs: TestResult,
    chiSquare: TestResult,
    autocorrelation: TestResult,
    serial2: TestResult,
    serial3: TestResult,
    summary: Summary)

  function Verdicts(s: SuiteReport): seq<TestResult>
  {
    [s.frequency, s.runs, s.chiSquare, s.autocorrelation, s.serial2, s.serial3]
  }

  /** `statistical_test_suite(byte_sequence)`: six tests on the bytes and
      their MSB-first bits, and the summary. An empty input makes the first
      test divide by zero. */
  method StatisticalTestSuite(nm: Numerics, bytes: seq<byte>, corr: Correlation)
    returns (r: Result<SuiteReport>)
    ensures r.Err? <==> |bytes| == 0
    ensures r.Err? ==> r.error == ZeroDivisionError
    ensures r.Ok? ==> var rep := r.value;
              && Ok(rep.frequency) == FrequencyTest(nm, MsbBits(bytes), DefaultAlpha)
              && rep.chiSquare.statistic
                 == Value(ChiOver(ByteValues(), Tallied(ByteInts(bytes)).counts, |bytes| as real / 256.0))
              && rep.chiSquare.pValue == 1.0 - nm.chi2Cdf(rep.chiSquare.statistic.value.value, 255)
              && (rep.chiSquare.passed <==> rep.chiSquare.pValue >= DefaultAlpha)
              && rep.autocorrelation == AutocorrelationVerdict(nm, bytes, 100, corr)
              && rep.summary == Summarise(Verdicts(rep))
              && rep.summary.totalTests == 6
  {
    var bitArray := MsbBits(bytes);
    MsbBitsLength(bytes);
    var frequency := FrequencyTest(nm, bitArray, DefaultAlpha);
    if frequency.Err? {
      return Err(frequency.error);
    }
    var runs := RunsTest(nm, bitArray, DefaultAlpha);
    var chiSquare := ChiSquareTest(nm, bytes, DefaultAlpha);
    var autocorrelation := AutocorrelationTest(nm, bytes, 100, corr);
    var serial2 := SerialTest(nm, bitArray, 2, DefaultAlpha);
    var serial3 := SerialTest(nm, bitArray, 3, DefaultAlpha);
    var results := [frequency.value, runs.value, chiSquare.value, autocorrelation.value, serial2, serial3];
    var rep := SuiteReport(frequency.value, runs.value, chiSquare.value, autocorrelation.value,
                           serial2, serial3, Summarise(results));
    r := Ok(rep);
  }
}
