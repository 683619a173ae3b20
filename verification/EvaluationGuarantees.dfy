/** What each number of the evaluation says about the observations (backend/src/evaluation.ts). */
module EvaluationGuarantees {
  import opened Sorting
  import opened Evaluation

  // ---------------------------------------------------------------- the bins

  /** The tenth of the unit interval an observation falls in; one itself is in the last. */
  function InTenth(index: nat): Observation -> bool {
    (o: Observation) =>
      (index as real <= 10.0 * o.probability < index as real + 1.0) || (index == 9 && o.probability == 1.0)
  }

  /** A quantity added up over the observations with a property. */
  function SumIf(observations: seq<Observation>, p: Observation -> bool, f: Observation -> real): real {
    if observations == [] then 0.0
    else
      var o := observations[|observations| - 1];
      SumIf(observations[..|observations| - 1], p, f) + (if p(o) then f(o) else 0.0)
  }

  /** `x` is the mean of what adds up to `total` over `n`. */
  predicate IsMean(x: real, total: real, n: nat) { n > 0 && x * n as real == total }

  lemma {:induction false} ValuesOfTenth(observations: seq<Observation>, index: nat, f: Observation -> real)
    requires index < 10
    ensures |BinValues(observations, index)| == CountIf(observations, InTenth(index))
    ensures Sum(BinValues(observations, index), f) == SumIf(observations, InTenth(index), f)
  {
    hide InBin, InTenth;
    if observations != [] {
      var n := |observations| - 1;
      var before := BinValues(observations[..n], index);
      ValuesOfTenth(observations[..n], index, f);
      SameTenth(index, observations[n]);
      assert before + [] == before;
      SumSnoc(before, observations[n], f);
    }
  }

  lemma {:induction false} SameTenth(index: nat, o: Observation)
    requires index < 10
    ensures InBin(index, o.probability) <==> InTenth(index)(o)
  {
    assert index as real / 10.0 <= o.probability <==> index as real <= 10.0 * o.probability;
    assert o.probability < (index + 1) as real / 10.0 <==> 10.0 * o.probability < index as real + 1.0;
    assert o.probability <= (index + 1) as real / 10.0 <==> 10.0 * o.probability <= index as real + 1.0;
  }

  lemma {:induction false} MeanMeans(values: seq<Observation>, f: Observation -> real)
    requires values != []
    ensures IsMean(Mean(values, f), Sum(values, f), |values|)
  {
    Quotient(Sum(values, f), |values| as real);
  }

  lemma {:induction false} Quotient(x: real, n: real)
    requires n > 0.0
    ensures x / n * n == x
  {
  }

  /** A bin describes one tenth: its bounds, how many observations it has, and their rounded means. */
  ghost predicate Describes(bin: Bin, observations: seq<Observation>, index: nat, round: real -> real) {
    var inside := InTenth(index);
    && 10.0 * bin.lower == index as real && 10.0 * bin.upper == index as real + 1.0
    && bin.sampleSize == CountIf(observations, inside) > 0
    && (exists m :: bin.meanPredicted == round(m)
                    && IsMean(m, SumIf(observations, inside, PROBABILITY), bin.sampleSize))
    && (exists m :: bin.observedRate == round(m)
                    && IsMean(m, SumIf(observations, inside, ACTUAL), bin.sampleSize))
  }

  lemma {:induction false} MadeBin(observations: seq<Observation>, index: nat, round: real -> real)
    requires index < 10 && BinValues(observations, index) != []
    ensures Describes(MakeBin(BinValues(observations, index), index, round), observations, index, round)
  {
    hide InTenth, Sum, IsMean, Mean, SumIf, CountIf;
    var values := BinValues(observations, index);
    ValuesOfTenth(observations, index, PROBABILITY);
    ValuesOfTenth(observations, index, ACTUAL);
    MeanMeans(values, PROBABILITY);
    MeanMeans(values, ACTUAL);
  }

  /** How many of the first `k` tenths hold observations. */
  function Occupied(observations: seq<Observation>, k: nat): nat {
    if k == 0 then 0
    else Occupied(observations, k - 1) + (if CountIf(observations, InTenth(k - 1)) > 0 then 1 else 0)
  }

  /** The bins are the tenths that hold observations, in order. */
  lemma {:induction false} BinsMean(observations: seq<Observation>, k: nat, round: real -> real, index: nat)
    requires k <= 10
    ensures |Bins(observations, k, round)| == Occupied(observations, k)
    ensures index < k && CountIf(observations, InTenth(index)) > 0 ==>
              && Occupied(observations, index) < |Bins(observations, k, round)|
              && Describes(Bins(observations, k, round)[Occupied(observations, index)], observations, index, round)
  {
    hide Describes, MakeBin, InTenth, CountIf;
    if k > 0 {
      BinsMean(observations, k - 1, round, index);
      ValuesOfTenth(observations, k - 1, ONE);
      if BinValues(observations, k - 1) != [] { MadeBin(observations, k - 1, round); }
    }
  }

  // ---------------------------------------------------------------- the three components

  ghost predicate Sized(bins: seq<Bin>) { forall i | 0 <= i < |bins| :: bins[i].sampleSize > 0 }

  lemma {:induction false} WeightedSquare(size: nat, n: nat, x: real)
    requires size > 0 && n > 0
    ensures size as real / n as real * Square(x) >= 0.0
    ensures size as real / n as real * Square(x) == 0.0 <==> x == 0.0
  {
    var w := size as real / n as real;
    assert w * n as real == size as real;
    assert w > 0.0;
    SquareSigned(x);
    ProductSigned(w, Square(x));
  }

  lemma {:induction false} SquareSigned(x: real)
    ensures Square(x) >= 0.0 && (Square(x) == 0.0 <==> x == 0.0)
  {
    if x > 0.0 { ProductSigned(x, x); } else { ProductSigned(-x, -x); }
    assert x * x == -x * -x;
  }

  lemma {:induction false} ProductSigned(w: real, x: real)
    requires w >= 0.0 && x >= 0.0
    ensures w * x >= 0.0 && (w * x == 0.0 <==> w == 0.0 || x == 0.0)
  {
  }

  /** Reliability is zero exactly for a forecast whose every bin is borne out, and positive otherwise. */
  lemma {:induction false} ReliabilityMeans(bins: seq<Bin>, n: nat)
    requires n > 0 && Sized(bins)
    ensures Reliability(bins, n) >= 0.0
    ensures Reliability(bins, n) == 0.0 <==> forall i | 0 <= i < |bins| :: bins[i].meanPredicted == bins[i].observedRate
  {
    hide Square;
    if bins != [] {
      var k := |bins| - 1;
      ReliabilityMeans(bins[..k], n);
      WeightedSquare(bins[k].sampleSize, n, bins[k].meanPredicted - bins[k].observedRate);
      ReliabilityStep(bins, n);
      assert forall i | 0 <= i < k :: bins[..k][i] == bins[i];
    }
  }

  lemma {:induction false} ReliabilityStep(bins: seq<Bin>, n: nat)
    requires n > 0 && bins != []
    ensures
      var k := |bins| - 1;
      Reliability(bins, n)
      == Reliability(bins[..k], n)
         + bins[k].sampleSize as real / n as real * Square(bins[k].meanPredicted - bins[k].observedRate)
  {
  }

  /** Resolution is zero exactly for a forecast whose bins all come out at the overall rate, and positive otherwise. */
  lemma {:induction false} ResolutionMeans(bins: seq<Bin>, n: nat, overall: real)
    requires n > 0 && Sized(bins)
    ensures Resolution(bins, n, overall) >= 0.0
    ensures Resolution(bins, n, overall) == 0.0 <==> forall i | 0 <= i < |bins| :: bins[i].observedRate == overall
  {
    hide Square;
    if bins != [] {
      var k := |bins| - 1;
      ResolutionMeans(bins[..k], n, overall);
      WeightedSquare(bins[k].sampleSize, n, bins[k].observedRate - overall);
      assert forall i | 0 <= i < k :: bins[..k][i] == bins[i];
    }
  }

  /** The squared error of always forecasting `rate`. */
  function BaselineError(rate: real): Observation -> real { (o: Observation) => (o.actual - rate) * (o.actual - rate) }

  /** Uncertainty is the mean squared error of always forecasting the overall rate. */
  lemma {:induction false} UncertaintyMeans(observations: seq<Observation>, bins: seq<Bin>)
    requires Scored(observations) && observations != []
    ensures
      var rate := Mean(observations, ACTUAL);
      IsMean(Decompose(observations, bins).uncertainty, Sum(observations, BaselineError(rate)), |observations|)
  {
    hide Reliability, Resolution;
    var n, total, rate := |observations| as real, Sum(observations, ACTUAL), Mean(observations, ACTUAL);
    BaselineSum(observations, rate);
    Quotient(total, n);
    VarianceOfBits(n, total, rate);
  }

  lemma {:induction false} BaselineSum(observations: seq<Observation>, rate: real)
    requires Scored(observations)
    ensures Sum(observations, BaselineError(rate))
         == Sum(observations, ACTUAL) - 2.0 * (rate * Sum(observations, ACTUAL))
            + |observations| as real * (rate * rate)
  {
    if observations != [] {
      var k := |observations| - 1;
      BaselineSum(observations[..k], rate);
      BaselineTerm(Sum(observations[..k], ACTUAL), observations[k].actual, rate, k as real);
    }
  }

  lemma {:induction false} BaselineTerm(before: real, actual: real, rate: real, k: real)
    requires actual == 0.0 || actual == 1.0
    ensures before - 2.0 * (rate * before) + k * (rate * rate) + (actual - rate) * (actual - rate)
         == before + actual - 2.0 * (rate * (before + actual)) + (k + 1.0) * (rate * rate)
  {
  }

  lemma {:induction false} VarianceOfBits(n: real, total: real, rate: real)
    requires rate * n == total
    ensures rate * (1.0 - rate) * n == total - 2.0 * (rate * total) + n * (rate * rate)
  {
  }
}
