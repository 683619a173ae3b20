/** Calibration bins and the decomposition of the Brier score (backend/src/evaluation.ts). */
module Evaluation {

  datatype Observation = Observation(probability: real, actual: real)

  datatype Bin = Bin(lower: real, upper: real, meanPredicted: real, observedRate: real, sampleSize: nat)

  datatype Decomposition = Decomposition(reliability: real, resolution: real, uncertainty: real, recomposed: real)

  const BINS := 10

  /** The filter of one bin; the last one is closed above. */
  predicate InBin(index: nat, p: real) {
    var lower, upper := index as real / 10.0, (index + 1) as real / 10.0;
    if index == 9 then lower <= p <= upper else lower <= p < upper
  }

  function BinValues(observations: seq<Observation>, index: nat): seq<Observation> {
    if observations == [] then []
    else
      var n := |observations| - 1;
      BinValues(observations[..n], index)
        + (if InBin(index, observations[n].probability) then [observations[n]] else [])
  }

  function Sum(observations: seq<Observation>, f: Observation -> real): real {
    if observations == [] then 0.0
    else Sum(observations[..|observations| - 1], f) + f(observations[|observations| - 1])
  }

  const PROBABILITY: Observation -> real := (o: Observation) => o.probability
  const ACTUAL: Observation -> real := (o: Observation) => o.actual
  const ONE: Observation -> real := (o: Observation) => 1.0

  function Mean(observations: seq<Observation>, f: Observation -> real): real {
    if observations == [] then 0.0 else Sum(observations, f) / |observations| as real
  }

  /** One bin, its means rounded by `round`. */
  function MakeBin(values: seq<Observation>, index: nat, round: real -> real): Bin {
    Bin(index as real / 10.0, (index + 1) as real / 10.0, round(Mean(values, PROBABILITY)), round(Mean(values, ACTUAL)),
        |values|)
  }

  /** The non-empty bins below `k`. */
  function Bins(observations: seq<Observation>, k: nat, round: real -> real): seq<Bin> {
    if k == 0 then []
    else
      var values := BinValues(observations, k - 1);
      Bins(observations, k - 1, round) + (if values == [] then [] else [MakeBin(values, k - 1, round)])
  }

  method CalibrationBins(observations: seq<Observation>, round: real -> real) returns (bins: seq<Bin>)
    ensures bins == Bins(observations, BINS, round)
  {
    hide BinValues, MakeBin;
    bins := [];
    for index := 0 to BINS
      invariant bins == Bins(observations, index, round)
    {
      var values := BinValues(observations, index);
      if |values| != 0 { bins := bins + [MakeBin(values, index, round)]; }
    }
  }

  function Square(x: real): real { x * x }

  function Reliability(bins: seq<Bin>, n: nat): real
    requires n > 0
  {
    if bins == [] then 0.0
    else
      var bin := bins[|bins| - 1];
      Reliability(bins[..|bins| - 1], n)
        + bin.sampleSize as real / n as real * Square(bin.meanPredicted - bin.observedRate)
  }

  function Resolution(bins: seq<Bin>, n: nat, overall: real): real
    requires n > 0
  {
    if bins == [] then 0.0
    else
      var bin := bins[|bins| - 1];
      Resolution(bins[..|bins| - 1], n, overall)
        + bin.sampleSize as real / n as real * Square(bin.observedRate - overall)
  }

  /** Before the last rounding. */
  function Decompose(observations: seq<Observation>, bins: seq<Bin>): Decomposition
    requires observations != []
  {
    var overall := Mean(observations, ACTUAL);
    var reliability := Reliability(bins, |observations|);
    var resolution := Resolution(bins, |observations|, overall);
    var uncertainty := overall * (1.0 - overall);
    Decomposition(reliability, resolution, uncertainty, reliability - resolution + uncertainty)
  }

  // ---------------------------------------------------------------- the bins partition the observations

  function BinOf(p: real): nat
    requires 0.0 <= p <= 1.0
  {
    if p == 1.0 then 9 else (p * 10.0).Floor
  }

  /** Every probability is in exactly one bin. */
  lemma {:induction false} ExactlyOneBin(p: real, index: nat)
    requires 0.0 <= p <= 1.0 && index < BINS
    ensures BinOf(p) < BINS
    ensures InBin(index, p) <==> index == BinOf(p)
  {
    assert index as real / 10.0 <= p <==> index as real <= p * 10.0;
    assert p < (index + 1) as real / 10.0 <==> p * 10.0 < (index + 1) as real;
  }

  predicate Scored(observations: seq<Observation>) {
    forall i | 0 <= i < |observations| ::
      0.0 <= observations[i].probability <= 1.0 && (observations[i].actual == 0.0 || observations[i].actual == 1.0)
  }

  /** A quantity summed within the bins below `k`. */
  function SumOfBins(observations: seq<Observation>, f: Observation -> real, k: nat): real {
    if k == 0 then 0.0 else SumOfBins(observations, f, k - 1) + Sum(BinValues(observations, k - 1), f)
  }

  lemma {:induction false} SumSnoc(observations: seq<Observation>, o: Observation, f: Observation -> real)
    ensures Sum(observations + [o], f) == Sum(observations, f) + f(o)
  {
    assert (observations + [o])[..|observations|] == observations;
  }

  lemma {:induction false} OneMoreInBin(observations: seq<Observation>, o: Observation, f: Observation -> real,
                                        index: nat)
    ensures Sum(BinValues(observations + [o], index), f)
         == Sum(BinValues(observations, index), f) + (if InBin(index, o.probability) then f(o) else 0.0)
  {
    hide InBin, Sum;
    assert (observations + [o])[..|observations|] == observations;
    assert BinValues(observations, index) + [] == BinValues(observations, index);
    SumSnoc(BinValues(observations, index), o, f);
  }

  lemma {:induction false} OneMoreInBins(observations: seq<Observation>, o: Observation, f: Observation -> real, k: nat)
    requires 0.0 <= o.probability <= 1.0 && k <= BINS
    ensures SumOfBins(observations + [o], f, k)
            == SumOfBins(observations, f, k) + (if BinOf(o.probability) < k then f(o) else 0.0)
  {
    hide InBin, BinOf, Sum, BinValues;
    if k > 0 {
      OneMoreInBins(observations, o, f, k - 1);
      ExactlyOneBin(o.probability, k - 1);
      OneMoreInBin(observations, o, f, k - 1);
    }
  }

  lemma {:induction false} NoBins(f: Observation -> real, k: nat)
    ensures SumOfBins([], f, k) == 0.0
  {
    if k > 0 { NoBins(f, k - 1); }
  }

  /** Summing bin by bin is summing once over all observations. */
  lemma {:induction false} BinsPartition(observations: seq<Observation>, f: Observation -> real)
    requires Scored(observations)
    ensures SumOfBins(observations, f, BINS) == Sum(observations, f)
  {
    if observations == [] {
      NoBins(f, BINS);
    } else {
      var n := |observations| - 1;
      BinsPartition(observations[..n], f);
      assert observations == observations[..n] + [observations[n]];
      OneMoreInBins(observations[..n], observations[n], f, BINS);
      ExactlyOneBin(observations[n].probability, 0);
    }
  }

  // ---------------------------------------------------------------- the identity

  /** The forecast that replaces a probability by the mean of its bin. */
  function BinMean(observations: seq<Observation>, p: real): real {
    if 0.0 <= p <= 1.0 then Mean(BinValues(observations, BinOf(p)), PROBABILITY) else p
  }

  function BinnedError(observations: seq<Observation>): Observation -> real {
    (o: Observation) => Square(BinMean(observations, o.probability) - o.actual)
  }

  lemma {:induction false} InItsBin(observations: seq<Observation>, index: nat, i: nat)
    requires Scored(observations) && i < |BinValues(observations, index)| && index < BINS
    ensures var o := BinValues(observations, index)[i];
            0.0 <= o.probability <= 1.0 && BinOf(o.probability) == index && (o.actual == 0.0 || o.actual == 1.0)
  {
    hide InBin, BinOf;
    var n := |observations| - 1;
    if i < |BinValues(observations[..n], index)| {
      InItsBin(observations[..n], index, i);
    } else {
      ExactlyOneBin(observations[n].probability, index);
    }
  }

  /** Within a bin of mean `m`: the squared error in closed form. */
  lemma {:induction false} ErrorInBin(values: seq<Observation>, f: Observation -> real, m: real)
    requires forall i | 0 <= i < |values| ::
             f(values[i]) == Square(m - values[i].actual) && (values[i].actual == 0.0 || values[i].actual == 1.0)
    ensures Sum(values, f) == BinTerm(|values|, m, Sum(values, ACTUAL)) + Sum(values, ACTUAL)
  {
    if values != [] {
      var n := |values| - 1;
      ErrorInBin(values[..n], f, m);
      assert f(values[n]) == Square(m - values[n].actual);
      TermStep(n, m, Sum(values[..n], ACTUAL), values[n].actual);
    }
  }

  /** `n * m^2 - 2 * m * a`. */
  function BinTerm(n: nat, m: real, a: real): real { n as real * Square(m) - 2.0 * m * a }

  lemma {:induction false} TermStep(n: nat, m: real, a: real, x: real)
    requires x == 0.0 || x == 1.0
    ensures BinTerm(n + 1, m, a + x) + x == BinTerm(n, m, a) + Square(m - x)
  {
    assert (n + 1) as real * Square(m) == n as real * Square(m) + Square(m);
  }

  lemma {:induction false} CountInBin(values: seq<Observation>)
    ensures Sum(values, ONE) == |values| as real
  {
    if values != [] { CountInBin(values[..|values| - 1]); }
  }

  function Spread(m: real, o: real, overall: real): real { Square(m - o) - Square(o - overall) }

  /** A bin of `n` observations, `a` of them positive, in the two sums. */
  lemma {:induction false} SpreadOfBin(n: nat, m: real, a: real, overall: real)
    requires n > 0
    ensures n as real * Spread(m, a / n as real, overall)
         == BinTerm(n, m, a) + 2.0 * overall * a - n as real * Square(overall)
  {
    var c, o := n as real, a / n as real;
    assert c * o == a;
    assert Spread(m, o, overall) == Square(m) - 2.0 * m * o + 2.0 * overall * o - Square(overall);
    SpreadExpand(c, o, m, overall);
  }

  lemma {:induction false} SpreadExpand(c: real, o: real, m: real, overall: real)
    ensures c * (Square(m) - 2.0 * m * o + 2.0 * overall * o - Square(overall))
         == c * Square(m) - 2.0 * m * (c * o) + 2.0 * overall * (c * o) - c * Square(overall)
  {
  }

  const EXACT: real -> real := (x: real) => x

  lemma {:induction false} Scale(n: nat, size: nat, x: real)
    requires n > 0
    ensures n as real * (size as real / n as real * x) == size as real * x
  {
    var c := n as real;
    assert c * (size as real / c) == size as real;
  }

  function Gain(bins: seq<Bin>, n: nat, overall: real): real
    requires n > 0
  {
    n as real * (Reliability(bins, n) - Resolution(bins, n, overall))
  }

  /** The sums of the bins below `k` that make up reliability minus resolution. */
  function GainOfSums(observations: seq<Observation>, overall: real, k: nat): real {
    SumOfTerms(observations, k) + 2.0 * overall * SumOfBins(observations, ACTUAL, k)
      - SumOfBins(observations, ONE, k) * Square(overall)
  }

  lemma {:induction false} SpreadOfBins(observations: seq<Observation>, overall: real, k: nat)
    requires observations != []
    ensures Gain(Bins(observations, k, EXACT), |observations|, overall) == GainOfSums(observations, overall, k)
  {
    hide BinValues, Gain, GainOfSums, BinTerm, Spread, Square, Sum;
    if k == 0 {
      NoGain(observations, overall);
    } else {
      SpreadOfBins(observations, overall, k - 1);
      var values := BinValues(observations, k - 1);
      GainStep(observations, overall, k);
      if values != [] {
        LastBin(Bins(observations, k - 1, EXACT), MakeBin(values, k - 1, EXACT), |observations|, overall);
        SpreadOfBin(|values|, Mean(values, PROBABILITY), Sum(values, ACTUAL), overall);
        assert Bins(observations, k, EXACT) == Bins(observations, k - 1, EXACT) + [MakeBin(values, k - 1, EXACT)];
      } else {
        EmptyTerm();
        assert Bins(observations, k, EXACT) == Bins(observations, k - 1, EXACT);
      }
    }
  }

  lemma {:induction false} NoGain(observations: seq<Observation>, overall: real)
    requires observations != []
    ensures Gain([], |observations|, overall) == 0.0 && GainOfSums(observations, overall, 0) == 0.0
  {
  }

  lemma {:induction false} GainStep(observations: seq<Observation>, overall: real, k: nat)
    requires k > 0
    ensures var values := BinValues(observations, k - 1);
      GainOfSums(observations, overall, k)
      == GainOfSums(observations, overall, k - 1) + BinTerm(|values|, Mean(values, PROBABILITY), Sum(values, ACTUAL))
         + 2.0 * overall * Sum(values, ACTUAL) - |values| as real * Square(overall)
  {
    hide BinValues, Square, BinTerm, Sum, Mean;
    var values := BinValues(observations, k - 1);
    CountInBin(values);
    Expand(overall, SumOfBins(observations, ACTUAL, k - 1), Sum(values, ACTUAL), SumOfBins(observations, ONE, k - 1),
           |values| as real, Square(overall));
  }

  lemma {:induction false} EmptyTerm()
    ensures BinTerm(0, Mean([], PROBABILITY), Sum([], ACTUAL)) == 0.0 && Sum([], ACTUAL) == 0.0
  {
  }

  lemma {:induction false} Expand(overall: real, a: real, x: real, c: real, y: real, sq: real)
    ensures 2.0 * overall * (a + x) - (c + y) * sq == (2.0 * overall * a - c * sq) + (2.0 * overall * x - y * sq)
  {
  }

  lemma {:induction false} LastBin(before: seq<Bin>, bin: Bin, n: nat, overall: real)
    requires n > 0
    ensures Gain(before + [bin], n, overall)
         == Gain(before, n, overall) + bin.sampleSize as real * Spread(bin.meanPredicted, bin.observedRate, overall)
  {
    hide Square;
    assert (before + [bin])[..|before|] == before;
    var w := bin.sampleSize as real / n as real;
    var x, y := Square(bin.meanPredicted - bin.observedRate), Square(bin.observedRate - overall);
    Scale(n, bin.sampleSize, x - y);
    assert w * x - w * y == w * (x - y);
    assert n as real * (w * (x - y)) == bin.sampleSize as real * (x - y);
    AddScaled(n as real, Reliability(before, n), Resolution(before, n, overall), w * x, w * y);
  }

  lemma {:induction false} AddScaled(c: real, r: real, s: real, x: real, y: real)
    ensures c * ((r + x) - (s + y)) == c * (r - s) + c * (x - y)
  {
  }

  /** The terms of the bins below `k`. */
  function SumOfTerms(observations: seq<Observation>, k: nat): real {
    if k == 0 then 0.0
    else
      var values := BinValues(observations, k - 1);
      SumOfTerms(observations, k - 1) + BinTerm(|values|, Mean(values, PROBABILITY), Sum(values, ACTUAL))
  }

  lemma {:induction false} BinnedErrorAt(observations: seq<Observation>, o: Observation)
    requires 0.0 <= o.probability <= 1.0
    ensures BinnedError(observations)(o)
            == Square(Mean(BinValues(observations, BinOf(o.probability)), PROBABILITY) - o.actual)
  {
    hide Square, Mean, BinValues;
  }

  /** The squared error of the binned forecast, bin by bin. */
  lemma {:induction false} BinnedErrorOfBins(observations: seq<Observation>, k: nat)
    requires Scored(observations) && k <= BINS
    ensures SumOfBins(observations, BinnedError(observations), k)
            == SumOfTerms(observations, k) + SumOfBins(observations, ACTUAL, k)
  {
    hide BinTerm, Mean, Square, BinValues, Sum, BinnedError;
    if k > 0 {
      BinnedErrorOfBins(observations, k - 1);
      var values := BinValues(observations, k - 1);
      forall i | 0 <= i < |values|
        ensures BinnedError(observations)(values[i]) == Square(Mean(values, PROBABILITY) - values[i].actual)
                && (values[i].actual == 0.0 || values[i].actual == 1.0)
      {
        InItsBin(observations, k - 1, i);
        BinnedErrorAt(observations, values[i]);
      }
      ErrorInBin(values, BinnedError(observations), Mean(values, PROBABILITY));
    }
  }

  /**
   * Before any rounding, reliability - resolution + uncertainty is exactly the mean squared error of
   * the forecast that replaces every probability by the mean of its bin.
   */
  lemma {:induction false} BrierDecompositionIsExact(observations: seq<Observation>)
    requires Scored(observations) && observations != []
    ensures Decompose(observations, Bins(observations, BINS, EXACT)).recomposed
            == Mean(observations, BinnedError(observations))
  {
    hide SumOfTerms, SumOfBins, Bins, Reliability, Resolution, Square, BinnedError, Sum, Scored;
    var n := |observations|;
    var overall := Mean(observations, ACTUAL);
    var bins := Bins(observations, BINS, EXACT);
    SpreadOfBins(observations, overall, BINS);
    BinnedErrorOfBins(observations, BINS);
    BinsPartition(observations, BinnedError(observations));
    BinsPartition(observations, ACTUAL);
    BinsPartition(observations, ONE);
    CountInBin(observations);
    Recompose(n as real, Reliability(bins, n) - Resolution(bins, n, overall), SumOfTerms(observations, BINS),
              Sum(observations, ACTUAL), overall, Sum(observations, BinnedError(observations)));
  }

  lemma {:induction false} Recompose(n: real, spread: real, terms: real, a: real, overall: real, error: real)
    requires n > 0.0 && overall == a / n
    requires n * spread == terms + 2.0 * overall * a - n * Square(overall)
    requires error == terms + a
    ensures spread + overall * (1.0 - overall) == error / n
  {
    assert a == n * overall;
    assert 2.0 * overall * a == 2.0 * (n * Square(overall));
    assert n * (spread + overall * (1.0 - overall)) == error;
  }

  // ---------------------------------------------------------------- with the bin means rounded

  ghost predicate Within(round: real -> real, eps: real) { forall x :: x - eps <= round(x) <= x + eps }

  /** What rounding both means of a bin by at most `eps` can do to its term. */
  function Slack(eps: real): real { 4.0 * eps + 3.0 * Square(eps) }

  function Times(x: real, y: real): real { x * y }

  lemma {:induction false} SpreadMoves(m: real, o: real, overall: real, dm: real, dr: real, eps: real)
    requires 0.0 <= m <= 1.0 && 0.0 <= o <= 1.0 && 0.0 <= overall <= 1.0 && eps >= 0.0
    requires -eps <= dm <= eps && -eps <= dr <= eps
    ensures -Slack(eps) <= Spread(m + dm, o + dr, overall) - Spread(m, o, overall) <= Slack(eps)
  {
    hide Times, Square, Spread;
    SpreadDifference(m, o, overall, dm, dr);
    Small(dm, m - o, eps, 1.0);
    Small(dr, overall - m, eps, 1.0);
    Small(dm, dr, eps, eps);
    Small(dm, dm, eps, eps);
    SquareSign(dm);
    Products(eps, dm);
  }

  lemma {:induction false} SpreadDifference(m: real, o: real, overall: real, dm: real, dr: real)
    ensures Spread(m + dm, o + dr, overall) - Spread(m, o, overall)
         == 2.0 * Times(dm, m - o) + Square(dm) + 2.0 * Times(dr, overall - m) - 2.0 * Times(dm, dr)
  {
  }

  lemma {:induction false} Products(eps: real, dm: real)
    ensures Times(eps, 1.0) == eps && Times(eps, eps) == Square(eps) && Times(dm, dm) == Square(dm)
  {
  }

  lemma {:induction false} SquareSign(x: real)
    ensures Square(x) >= 0.0
  {
  }

  lemma {:induction false} Small(x: real, y: real, a: real, b: real)
    requires -a <= x <= a && -b <= y <= b
    ensures -Times(a, b) <= Times(x, y) <= Times(a, b)
  {
    if y >= 0.0 {
      assert x * y <= a * y <= a * b;
      assert x * y >= -a * y >= -(a * b);
    } else {
      assert x * y <= -a * y <= a * b;
      assert x * y >= a * y >= -(a * b);
    }
  }

  lemma {:induction false} SumRange(values: seq<Observation>, f: Observation -> real)
    requires forall i | 0 <= i < |values| :: 0.0 <= f(values[i]) <= 1.0
    ensures 0.0 <= Sum(values, f) <= |values| as real
  {
    if values != [] { SumRange(values[..|values| - 1], f); }
  }

  lemma {:induction false} MeanRange(values: seq<Observation>, f: Observation -> real)
    requires forall i | 0 <= i < |values| :: 0.0 <= f(values[i]) <= 1.0
    ensures 0.0 <= Mean(values, f) <= 1.0
  {
    SumRange(values, f);
    if values != [] { Fraction(Sum(values, f), |values| as real); }
  }

  lemma {:induction false} Fraction(x: real, n: real)
    requires n > 0.0 && 0.0 <= x <= n
    ensures 0.0 <= x / n <= 1.0
  {
  }

  lemma {:induction false} BinMeans(observations: seq<Observation>, index: nat)
    requires Scored(observations) && index < BINS
    ensures 0.0 <= Mean(BinValues(observations, index), PROBABILITY) <= 1.0
    ensures 0.0 <= Mean(BinValues(observations, index), ACTUAL) <= 1.0
  {
    hide BinOf, Mean;
    var values := BinValues(observations, index);
    forall i | 0 <= i < |values| ensures 0.0 <= PROBABILITY(values[i]) <= 1.0 && 0.0 <= ACTUAL(values[i]) <= 1.0 {
      InItsBin(observations, index, i);
    }
    MeanRange(values, PROBABILITY);
    MeanRange(values, ACTUAL);
  }

  /** Rounding the bin means moves the gain by at most the slack per observation. */
  lemma {:induction false} RoundedGain(observations: seq<Observation>, overall: real, round: real -> real, eps: real,
                                       k: nat)
    requires Scored(observations) && observations != [] && 0.0 <= overall <= 1.0 && Within(round, eps) && eps >= 0.0
             && k <= BINS
    ensures var n := |observations|;
      var moved := Gain(Bins(observations, k, round), n, overall) - Gain(Bins(observations, k, EXACT), n, overall);
      -Times(SumOfBins(observations, ONE, k), Slack(eps)) <= moved <= Times(SumOfBins(observations, ONE, k), Slack(eps))
  {
    hide BinValues, Gain, Spread, Square, Sum, Mean, Slack, Scored, Within, Times;
    if k == 0 {
      MoreSlack(0.0, 0.0, Slack(eps));
    } else {
      RoundedGain(observations, overall, round, eps, k - 1);
      var values := BinValues(observations, k - 1);
      CountInBin(values);
      MoreSlack(SumOfBins(observations, ONE, k - 1), Sum(values, ONE), Slack(eps));
      if values == [] {
        assert Bins(observations, k, EXACT) == Bins(observations, k - 1, EXACT);
        assert Bins(observations, k, round) == Bins(observations, k - 1, round);
        MoreSlack(0.0, 0.0, Slack(eps));
      } else {
        var bin, exact := MakeBin(values, k - 1, round), MakeBin(values, k - 1, EXACT);
        assert Bins(observations, k, EXACT) == Bins(observations, k - 1, EXACT) + [exact];
        assert Bins(observations, k, round) == Bins(observations, k - 1, round) + [bin];
        TwoLastBins(Bins(observations, k - 1, EXACT), exact, Bins(observations, k - 1, round), bin, |observations|,
                    overall);
        BinMoves(observations, overall, round, eps, k - 1);
      }
    }
  }

  lemma {:induction false} MoreSlack(a: real, b: real, slack: real)
    ensures Times(a + b, slack) == Times(a, slack) + Times(b, slack)
  {
  }

  lemma {:induction false} TwoLastBins(exact: seq<Bin>, e: Bin, rounded: seq<Bin>, r: Bin, n: nat, overall: real)
    requires n > 0 && e.sampleSize == r.sampleSize
    ensures Gain(rounded + [r], n, overall) - Gain(exact + [e], n, overall)
         == Gain(rounded, n, overall) - Gain(exact, n, overall)
            + Times(r.sampleSize as real, Spread(r.meanPredicted, r.observedRate, overall))
            - Times(e.sampleSize as real, Spread(e.meanPredicted, e.observedRate, overall))
  {
    hide Gain, Spread;
    LastBin(exact, e, n, overall);
    LastBin(rounded, r, n, overall);
  }

  lemma {:induction false} BinMoves(observations: seq<Observation>, overall: real, round: real -> real, eps: real,
                                    index: nat)
    requires Scored(observations) && 0.0 <= overall <= 1.0 && Within(round, eps) && eps >= 0.0 && index < BINS
    ensures var values := BinValues(observations, index);
      var bin, exact := MakeBin(values, index, round), MakeBin(values, index, EXACT);
      var moved := Times(|values| as real, Spread(bin.meanPredicted, bin.observedRate, overall))
                   - Times(|values| as real, Spread(exact.meanPredicted, exact.observedRate, overall));
      -Times(|values| as real, Slack(eps)) <= moved <= Times(|values| as real, Slack(eps))
  {
    hide BinValues, Spread, Mean, Slack, Times;
    BinMeans(observations, index);
    var values := BinValues(observations, index);
    var m, o := Mean(values, PROBABILITY), Mean(values, ACTUAL);
    assert m - eps <= round(m) <= m + eps && o - eps <= round(o) <= o + eps;
    SpreadMoves(m, o, overall, round(m) - m, round(o) - o, eps);
    Scaled(|values| as real, Spread(round(m), round(o), overall), Spread(m, o, overall), Slack(eps));
  }

  lemma {:induction false} Scaled(c: real, x: real, y: real, slack: real)
    requires c >= 0.0 && -slack <= x - y <= slack
    ensures -Times(c, slack) <= Times(c, x) - Times(c, y) <= Times(c, slack)
  {
    assert c * x - c * y == c * (x - y);
    assert c * (x - y) <= c * slack && c * (x - y) >= c * -slack;
  }

  /** With the bin means rounded to within `eps`, the recomposed score is off by at most `4 eps + 3 eps^2`. */
  lemma {:induction false} RoundedDecomposition(observations: seq<Observation>, round: real -> real, eps: real)
    requires Scored(observations) && observations != [] && Within(round, eps) && eps >= 0.0
    ensures
      var off := Decompose(observations, Bins(observations, BINS, round)).recomposed
                 - Mean(observations, BinnedError(observations));
      -Slack(eps) <= off <= Slack(eps)
  {
    hide SumOfBins, Bins, Reliability, Resolution, BinnedError, Sum, Within, Slack, Mean, Times, Gain;
    var n, overall := |observations|, Mean(observations, ACTUAL);
    MeanRange(observations, ACTUAL);
    BrierDecompositionIsExact(observations);
    RoundedGain(observations, overall, round, eps, BINS);
    BinsPartition(observations, ONE);
    CountInBin(observations);
    var bins, exact := Bins(observations, BINS, round), Bins(observations, BINS, EXACT);
    GainIsScaled(bins, n, overall);
    GainIsScaled(exact, n, overall);
    Unscale(n as real, Reliability(bins, n) - Resolution(bins, n, overall),
            Reliability(exact, n) - Resolution(exact, n, overall), Slack(eps));
  }

  lemma {:induction false} GainIsScaled(bins: seq<Bin>, n: nat, overall: real)
    requires n > 0
    ensures Gain(bins, n, overall) == Times(n as real, Reliability(bins, n) - Resolution(bins, n, overall))
  {
    hide Reliability, Resolution;
  }

  lemma {:induction false} Unscale(n: real, x: real, y: real, slack: real)
    requires n > 0.0 && -Times(n, slack) <= Times(n, x) - Times(n, y) <= Times(n, slack)
    ensures -slack <= x - y <= slack
  {
    if x - y > slack {
      Grow(n, x - y, slack);
    } else if y - x > slack {
      Grow(n, y - x, slack);
    }
  }

  lemma {:induction false} Grow(n: real, d: real, slack: real)
    requires n > 0.0 && d > slack
    ensures n * d > n * slack
  {
  }

  /** `round(value, 4)`. */
  const ROUND4: real -> real := (x: real) => (x * 10000.0 + 0.5).Floor as real / 10000.0

  /** For the four digits that bins and score carry, the reported score is within 0.00026 of the binned error. */
  lemma {:induction false} FourDigits(observations: seq<Observation>)
    requires Scored(observations) && observations != []
    ensures
      var recomposed := Decompose(observations, Bins(observations, BINS, ROUND4)).recomposed;
      var error := Mean(observations, BinnedError(observations));
      -0.00021 <= recomposed - error <= 0.00021 && -0.00026 <= ROUND4(recomposed) - error <= 0.00026
  {
    hide Bins, Decompose, BinnedError, Mean;
    forall x ensures x - 0.00005 <= ROUND4(x) <= x + 0.00005 { RoundError(x); }
    RoundedDecomposition(observations, ROUND4, 0.00005);
    RoundError(Decompose(observations, Bins(observations, BINS, ROUND4)).recomposed);
  }

  lemma {:induction false} RoundError(x: real)
    ensures x - 0.00005 <= ROUND4(x) <= x + 0.00005
  {
    var y := x * 10000.0 + 0.5;
    assert y - 1.0 <= y.Floor as real <= y;
  }
}
