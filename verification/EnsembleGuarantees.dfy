/** What scoring and averaging mean (backend/src/models/ensemble.ts, backend/src/models/foldScoring.ts). */
module EnsembleGuarantees {
  import opened Sorting
  import opened Records
  import opened Rounding
  import opened Markets
  import opened Ensemble
  import opened EnsembleLearning
  import opened TrainingGuarantees

  // ---------------------------------------------------------------- what came out

  /** The result of a match as the scoring sees it. */
  function TruthOf(r: Match): Truth {
    Truth(r.outcome, r.totalGoals, r.homeGoals >= 1 && r.awayGoals >= 1)
  }

  /** A selection is scored against one exactly when the event it bets on occurred, as in training. */
  lemma {:induction false} ActualMeans(r: Match, m: Market, key: string)
    requires m in COMPARISON
    ensures Actual(m, TruthOf(r), key) == if key in Bets(m) && Occurred(Bets(m)[key], r) then 1.0 else 0.0
  {
    BetsDiffer(m);
  }

  // ---------------------------------------------------------------- the Brier score

  /** A certain forecast: what came out at its greatest value, everything else at its smallest. */
  predicate SaysTruth(values: map<string, real>, m: Market, truth: Truth, key: string) {
    ClampProbability(Lookup(values, key)) == if Actual(m, truth, key) == 1.0 then 0.999999 else 0.000001
  }

  lemma {:induction false} ActualIsBit(m: Market, truth: Truth, key: string)
    ensures Actual(m, truth, key) == 0.0 || Actual(m, truth, key) == 1.0
  {
  }

  const LEAST := 0.000000000001
  const GREATEST := 0.999998000001

  lemma {:induction false} ErrorRange(values: map<string, real>, m: Market, truth: Truth, key: string)
    ensures LEAST <= SquaredError(values, m, truth, key) <= GREATEST
    ensures SquaredError(values, m, truth, key) == LEAST <==> SaysTruth(values, m, truth, key)
  {
    hide Actual;
    ActualIsBit(m, truth, key);
    var c := ClampProbability(Lookup(values, key));
    SquareOfDistance(c);
    SquareOfDistance(1.0 - c);
    assert (c - 1.0) * (c - 1.0) == (1.0 - c) * (1.0 - c);
  }

  lemma {:induction false} SquareOfDistance(d: real)
    requires 0.000001 <= d <= 0.999999
    ensures LEAST <= d * d <= GREATEST
    ensures d * d == LEAST <==> d == 0.000001
  {
    Grows(0.000001, d);
    Grows(d, 0.999999);
  }

  lemma {:induction false} Grows(x: real, y: real)
    requires 0.0 < x <= y
    ensures x * x <= y * y && (x < y ==> x * x < y * y)
  {
    assert y * y - x * x == (y - x) * (y + x);
    if x < y { assert (y - x) * (y + x) > 0.0; }
  }

  lemma {:induction false} ErrorsRange(values: map<string, real>, m: Market, truth: Truth, keys: seq<string>)
    ensures |keys| as real * LEAST <= MarketError(values, m, truth, keys) <= |keys| as real * GREATEST
    ensures MarketError(values, m, truth, keys) == |keys| as real * LEAST
       <==> forall k | 0 <= k < |keys| :: SaysTruth(values, m, truth, keys[k])
  {
    hide SquaredError, SaysTruth;
    if keys != [] {
      var n := |keys| - 1;
      ErrorsRange(values, m, truth, keys[..n]);
      ErrorRange(values, m, truth, keys[n]);
      assert forall k | 0 <= k < n :: keys[..n][k] == keys[k];
    }
  }

  /**
   * The score of a market is a mean of squared errors: it is least exactly for the certain forecast of
   * what came out, and never leaves the range of one squared error.
   */
  lemma {:induction false} BrierMeans(p: Prediction, m: Market, truth: Truth)
    requires m in p
    ensures LEAST <= MarketBrier(p, m, truth) <= GREATEST
    ensures MarketBrier(p, m, truth) == LEAST <==> forall key | key in Selections(m) :: SaysTruth(p[m], m, truth, key)
  {
    hide SaysTruth, MarketError, Selections;
    var keys := Selections(m);
    ErrorsRange(p[m], m, truth, keys);
    MeanBounds(MarketError(p[m], m, truth, keys), |keys| as real);
    if forall k | 0 <= k < |keys| :: SaysTruth(p[m], m, truth, keys[k]) {
      assert forall key | key in keys :: SaysTruth(p[m], m, truth, key);
    }
    forall k | 0 <= k < |keys| ensures keys[k] in keys {}
  }

  lemma {:induction false} MeanBounds(x: real, n: real)
    requires n > 0.0 && n * LEAST <= x <= n * GREATEST
    ensures LEAST <= x / n <= GREATEST
    ensures x / n == LEAST <==> x == n * LEAST
  {
    MeanAgainst(x, n, LEAST);
    MeanAgainst(x, n, GREATEST);
  }

  lemma {:induction false} MeanAgainst(x: real, n: real, bound: real)
    requires n > 0.0
    ensures x / n <= bound <==> x <= n * bound
    ensures x / n == bound <==> x == n * bound
  {
    var q := x / n;
    Quotient(x, n);
    Ordered(q, bound, n);
    Ordered(bound, q, n);
  }

  lemma {:induction false} Quotient(x: real, n: real)
    requires n > 0.0
    ensures x / n * n == x
  {
  }

  lemma {:induction false} Ordered(x: real, y: real, n: real)
    requires n > 0.0
    ensures x * n >= y * n <==> x >= y
    ensures x * n == y * n <==> x == y
  {
    if x > y { assert (x - y) * n > 0.0; }
    if x < y { assert (y - x) * n > 0.0; }
  }

  /** The markets a prediction is scored on. */
  function PricedIn(p: Prediction): Market -> bool { (m: Market) => m in p }

  /** A prediction is scored once on each market it prices, at the price of that market. */
  lemma {:induction false} ScoreMeans(p: Prediction, truth: Truth, markets: seq<Market>)
    ensures ScoreOf(p, truth, markets).count == CountIf(markets, PricedIn(p))
    ensures CountIf(markets, PricedIn(p)) as real * LEAST <= ScoreOf(p, truth, markets).sum
    ensures ScoreOf(p, truth, markets).sum <= CountIf(markets, PricedIn(p)) as real * GREATEST
    ensures ScoreOf(p, truth, markets).sum == CountIf(markets, PricedIn(p)) as real * LEAST
       <==> forall k | 0 <= k < |markets| && markets[k] in p :: MarketBrier(p, markets[k], truth) == LEAST
  {
    hide MarketBrier;
    if markets != [] {
      var n := |markets| - 1;
      ScoreMeans(p, truth, markets[..n]);
      if markets[n] in p { BrierMeans(p, markets[n], truth); }
      assert forall k | 0 <= k < n :: markets[..n][k] == markets[k];
    }
  }

  // ---------------------------------------------------------------- averages

  lemma {:induction false} WeightedWithin(results: seq<Prediction>, weights: seq<real>, m: Market, key: string,
                                          low: real, high: real)
    requires |results| == |weights| && forall i | 0 <= i < |weights| :: weights[i] >= 0.0
    requires forall i | 0 <= i < |results| && Has(results[i], m, key) :: low <= results[i][m][key] <= high
    ensures WeightSum(results, weights, m, key) >= 0.0
    ensures Scaled(WeightSum(results, weights, m, key), low) <= Weighted(results, weights, m, key)
    ensures Weighted(results, weights, m, key) <= Scaled(WeightSum(results, weights, m, key), high)
  {
    hide Scaled;
    if results == [] {
      NothingScaled(low);
      NothingScaled(high);
    } else {
      var n := |results| - 1;
      WeightedWithin(results[..n], weights[..n], m, key, low, high);
      ShareWithin(results[n], weights[n], m, key, low, high);
      AddScaled(WeightSum(results[..n], weights[..n], m, key), weights[n], low);
      AddScaled(WeightSum(results[..n], weights[..n], m, key), weights[n], high);
    }
  }

  function Scaled(w: real, x: real): real { w * x }

  lemma {:induction false} NothingScaled(x: real)
    ensures Scaled(0.0, x) == 0.0
  {
  }

  lemma {:induction false} AddScaled(v: real, w: real, x: real)
    ensures Scaled(v + w, x) == Scaled(v, x) + Scaled(w, x)
  {
  }

  lemma {:induction false} ShareWithin(p: Prediction, weight: real, m: Market, key: string, low: real, high: real)
    requires weight >= 0.0 && (Has(p, m, key) ==> low <= p[m][key] <= high)
    ensures if Has(p, m, key) then Scaled(weight, low) <= Share(p, weight, m, key) <= Scaled(weight, high)
            else Share(p, weight, m, key) == 0.0
  {
  }

  /**
   * The average of a selection lies within the prices of the components that price it, the others not
   * counting; it is zero when those carry no weight.
   */
  lemma {:induction false} AverageMeans(results: seq<Prediction>, weights: seq<real>, m: Market, key: string,
                                        low: real, high: real)
    requires |results| == |weights| && forall i | 0 <= i < |weights| :: weights[i] >= 0.0
    requires forall i | 0 <= i < |results| && Has(results[i], m, key) :: low <= results[i][m][key] <= high
    ensures (exists i | 0 <= i < |results| :: Has(results[i], m, key) && weights[i] > 0.0)
            ==> low <= Average(results, weights, m, key) <= high
    ensures (forall i | 0 <= i < |results| && Has(results[i], m, key) :: weights[i] == 0.0)
            ==> Average(results, weights, m, key) == 0.0
  {
    hide Weighted, WeightSum, Scaled, Has;
    WeightedWithin(results, weights, m, key, low, high);
    SomeWeight(results, weights, m, key);
    var w := WeightSum(results, weights, m, key);
    if w > 0.0 { WithinQuotient(Weighted(results, weights, m, key), w, low, high); }
  }

  lemma {:induction false} SomeWeight(results: seq<Prediction>, weights: seq<real>, m: Market, key: string)
    requires |results| == |weights| && forall i | 0 <= i < |weights| :: weights[i] >= 0.0
    ensures WeightSum(results, weights, m, key) >= 0.0
    ensures WeightSum(results, weights, m, key) > 0.0
       <==> exists i | 0 <= i < |results| :: Has(results[i], m, key) && weights[i] > 0.0
  {
    hide Has;
    if results != [] {
      var n := |results| - 1;
      SomeWeight(results[..n], weights[..n], m, key);
      if i :| 0 <= i < n && Has(results[..n][i], m, key) && weights[..n][i] > 0.0 {
        assert Has(results[i], m, key) && weights[i] > 0.0;
      }
      if i :| 0 <= i < |results| && Has(results[i], m, key) && weights[i] > 0.0 {
        if i < n { assert Has(results[..n][i], m, key) && weights[..n][i] > 0.0; }
      }
    }
  }

  lemma {:induction false} WithinQuotient(x: real, w: real, low: real, high: real)
    requires w > 0.0 && Scaled(w, low) <= x <= Scaled(w, high)
    ensures low <= x / w <= high
  {
    var q := x / w;
    assert q * w == x;
    Ordered(q, low, w);
    Ordered(high, q, w);
  }

  /** The weights of the components that price a selection, from the first component on. */
  function PricingWeight(results: seq<Prediction>, weights: seq<real>, m: Market, key: string): real
    requires |results| == |weights|
  {
    if results == [] then 0.0
    else
      (if m in results[0] && key in results[0][m] then weights[0] else 0.0)
      + PricingWeight(results[1..], weights[1..], m, key)
  }

  /** Their prices times their weights. */
  function PricedWeight(results: seq<Prediction>, weights: seq<real>, m: Market, key: string): real
    requires |results| == |weights|
  {
    if results == [] then 0.0
    else
      (if m in results[0] && key in results[0][m] then Scaled(weights[0], results[0][m][key]) else 0.0)
      + PricedWeight(results[1..], weights[1..], m, key)
  }

  lemma {:induction false} PricedSnoc(results: seq<Prediction>, weights: seq<real>, p: Prediction, w: real, m: Market,
                                      key: string)
    requires |results| == |weights|
    ensures PricingWeight(results + [p], weights + [w], m, key)
         == PricingWeight(results, weights, m, key) + (if m in p && key in p[m] then w else 0.0)
    ensures PricedWeight(results + [p], weights + [w], m, key)
         == PricedWeight(results, weights, m, key) + (if m in p && key in p[m] then Scaled(w, p[m][key]) else 0.0)
  {
    hide Scaled;
    if results == [] {
      assert [p][1..] == [] && [w][1..] == [];
    } else {
      PricedSnoc(results[1..], weights[1..], p, w, m, key);
      assert (results + [p])[1..] == results[1..] + [p] && (weights + [w])[1..] == weights[1..] + [w];
    }
  }

  lemma {:induction false} SumsMean(results: seq<Prediction>, weights: seq<real>, m: Market, key: string)
    requires |results| == |weights|
    ensures WeightSum(results, weights, m, key) == PricingWeight(results, weights, m, key)
    ensures Weighted(results, weights, m, key) == PricedWeight(results, weights, m, key)
  {
    hide Scaled, Share;
    if results != [] {
      var n := |results| - 1;
      SumsMean(results[..n], weights[..n], m, key);
      assert results == results[..n] + [results[n]] && weights == weights[..n] + [weights[n]];
      PricedSnoc(results[..n], weights[..n], results[n], weights[n], m, key);
      ShareMeans(results[n], weights[n], m, key);
    }
  }

  lemma {:induction false} ShareMeans(p: Prediction, w: real, m: Market, key: string)
    ensures Share(p, w, m, key) == if m in p && key in p[m] then Scaled(w, p[m][key]) else 0.0
  {
  }

  /** The average times the weight of the pricing components is what they add up to with their weights. */
  lemma {:induction false} AverageIsWeighted(results: seq<Prediction>, weights: seq<real>, m: Market, key: string)
    requires |results| == |weights|
    ensures
      var w := PricingWeight(results, weights, m, key);
      if w > 0.0 then Scaled(w, Average(results, weights, m, key)) == PricedWeight(results, weights, m, key)
      else Average(results, weights, m, key) == 0.0
  {
    hide Weighted, WeightSum, PricedWeight, PricingWeight;
    SumsMean(results, weights, m, key);
    var w := WeightSum(results, weights, m, key);
    if w > 0.0 { BackFromQuotient(Weighted(results, weights, m, key), w); }
  }

  lemma {:induction false} BackFromQuotient(x: real, w: real)
    requires w > 0.0
    ensures Scaled(w, x / w) == x
  {
  }

  // ---------------------------------------------------------------- coherence

  predicate InRange(x: real) { 0.000001 <= x <= 0.999999 }

  /** Clamping moves a value to the nearest one in the range, so a value in the range not at all. */
  lemma {:induction false} ClampMeans(x: real, y: real)
    ensures InRange(ClampProbability(x)) && (InRange(x) ==> ClampProbability(x) == x)
    ensures InRange(y) ==> Distance(x, ClampProbability(x)) <= Distance(x, y)
  {
  }

  /** Home and draw keep their share of the averaged total; a total of zero counts as one. */
  lemma {:induction false} ResultsMean(x2: map<string, real>)
    ensures
      var h, d, a := Lookup(x2, "home_win"), Lookup(x2, "draw"), Lookup(x2, "away_win");
      var r, total := Results(x2), if h + d + a == 0.0 then 1.0 else h + d + a;
      && InRange(r.0) && InRange(r.1) && InRange(r.2)
      && (InRange(h / total) ==> Scaled(r.0, total) == h) && (InRange(d / total) ==> Scaled(r.1, total) == d)
      && (r.0 + r.1 <= 0.999999 ==> r.0 + r.1 + r.2 == 1.0)
      && (r.0 + r.1 > 0.999999 ==> r.2 == 0.000001)
  {
    var h, d, a := Lookup(x2, "home_win"), Lookup(x2, "draw"), Lookup(x2, "away_win");
    var total := if h + d + a == 0.0 then 1.0 else h + d + a;
    var r := Results(x2);
    hide Lookup;
    Undivided(h, total);
    Undivided(d, total);
    assert r == Triple(h / total, d / total);
  }

  lemma {:induction false} Undivided(x: real, total: real)
    requires total != 0.0
    ensures Scaled(x / total, total) == x
  {
  }

  /** What a coherent prediction says of every market, from the averages of its base. */
  lemma {:induction false} EntriesMean(averaged: Prediction, m: Market)
    requires m in COMPARISON && BaseOf(m) in averaged
    ensures
      var e, base := Entries(averaged, m), averaged[BaseOf(m)];
      match m
      case ResultMarket =>
        var r := Results(base);
        e == map["home_win" := r.0, "draw" := r.1, "away_win" := r.2]
      case DoubleChance =>
        var r := Results(base);
        e == map["1x" := ClampProbability(r.0 + r.1), "12" := ClampProbability(r.0 + r.2),
                 "x2" := ClampProbability(r.1 + r.2)]
      case Over15 => IsBinary(e, "over_1_5", "under_or_equal_1_5", Lookup(base, "over_1_5"))
      case Over25 => IsBinary(e, "over_2_5", "under_or_equal_2_5", Lookup(base, "over_2_5"))
      case Over35 => IsBinary(e, "over_3_5", "under_or_equal_3_5", Lookup(base, "over_3_5"))
      case BothTeamsScore => IsBinary(e, "btts_yes", "btts_no", Lookup(base, "btts_yes"))
      case Under25 => IsBinary(e, "over_or_equal_2_5", "under_2_5", Lookup(base, "over_2_5"))
      case Under35 => IsBinary(e, "over_or_equal_3_5", "under_3_5", Lookup(base, "over_3_5"))
  {
    hide Lookup, Results;
    BetsDiffer(m);
  }

  /** A clamped probability and its exact complement, and nothing else. */
  predicate IsBinary(e: map<string, real>, positive: string, negative: string, probability: real) {
    && e.Keys == {positive, negative}
    && e[positive] == ClampProbability(probability) && e[positive] + e[negative] == 1.0
  }

  /** The base of a market: Under markets are read off their Over markets, double chance off the result. */
  lemma {:induction false} CoherentMarkets(averaged: Prediction, m: Market)
    ensures m in Coherent(averaged)
       <==> match m
            case ResultMarket | DoubleChance => ResultMarket in averaged
            case Over15 => Over15 in averaged
            case Over25 | Under25 => Over25 in averaged
            case Over35 | Under35 => Over35 in averaged
            case BothTeamsScore => BothTeamsScore in averaged
            case Cards | Corners => false
  {
    hide Entries;
    Comparisons(m);
  }

  lemma {:induction false} Comparisons(m: Market)
    ensures m in COMPARISON <==> m != Cards && m != Corners
  {
    assert COMPARISON[0] == ResultMarket && COMPARISON[1] == Over15 && COMPARISON[2] == Over25;
    assert COMPARISON[3] == Over35 && COMPARISON[4] == Under25 && COMPARISON[5] == Under35;
    assert COMPARISON[6] == BothTeamsScore && COMPARISON[7] == DoubleChance;
  }

  // ---------------------------------------------------------------- what learning compares

  /** How many markets are scored over all items. */
  function ScoredMarkets(pooled: seq<Item>, weights: seq<real>): nat
    requires EnsembleLearning.Rectangular(pooled, |weights|)
  {
    if pooled == [] then 0
    else
      var n := |pooled| - 1;
      ScoredMarkets(pooled[..n], weights) + CountIf(COMPARISON, PricedIn(Combined(pooled[n].perModel, weights)))
  }

  /** The combination says the truth on every market it prices. */
  ghost predicate AllTrue(item: Item, weights: seq<real>)
    requires |item.perModel| == |weights|
  {
    var p := Combined(item.perModel, weights);
    forall k | 0 <= k < |COMPARISON| && COMPARISON[k] in p :: MarketBrier(p, COMPARISON[k], item.truth) == LEAST
  }

  /** The scores `x` of `n` markets: never below the least, and that exactly when `perfect`. */
  predicate Bounds(x: real, n: nat, perfect: bool) {
    n as real * LEAST <= x <= n as real * GREATEST && (x == n as real * LEAST <==> perfect)
  }

  lemma {:induction false} AddBounds(x: real, n: nat, p: bool, y: real, m: nat, q: bool)
    requires Bounds(x, n, p) && Bounds(y, m, q)
    ensures Bounds(x + y, n + m, p && q)
  {
  }

  lemma {:induction false} ItemBounds(item: Item, weights: seq<real>)
    requires |item.perModel| == |weights|
    ensures
      var p := Combined(item.perModel, weights);
      var score, n := ScoreOf(p, item.truth, COMPARISON), CountIf(COMPARISON, PricedIn(p));
      score.count == n && Bounds(score.sum, n, AllTrue(item, weights))
  {
    hide Combined, ScoreOf, MarketBrier, CountIf;
    ScoreMeans(Combined(item.perModel, weights), item.truth, COMPARISON);
  }

  ghost predicate AlwaysTrue(pooled: seq<Item>, weights: seq<real>)
    requires EnsembleLearning.Rectangular(pooled, |weights|)
  {
    forall i | 0 <= i < |pooled| :: AllTrue(pooled[i], weights)
  }

  lemma {:induction false} AlwaysTrueStep(pooled: seq<Item>, weights: seq<real>)
    requires EnsembleLearning.Rectangular(pooled, |weights|) && pooled != []
    ensures
      var n := |pooled| - 1;
      AlwaysTrue(pooled, weights) <==> AlwaysTrue(pooled[..n], weights) && AllTrue(pooled[n], weights)
  {
    hide AllTrue;
    var n := |pooled| - 1;
    assert forall i | 0 <= i < n :: pooled[..n][i] == pooled[i];
  }

  /** The pooled score of a weighting. */
  function PooledOf(pooled: seq<Item>, weights: seq<real>): Score
    requires EnsembleLearning.Rectangular(pooled, |weights|)
  {
    PredictionsLength(pooled, weights);
    PooledScore(Predictions(pooled, weights), Truths(pooled))
  }

  lemma {:induction false} PooledUnfolds(pooled: seq<Item>, weights: seq<real>)
    requires EnsembleLearning.Rectangular(pooled, |weights|) && pooled != []
    ensures
      var n := |pooled| - 1;
      var before := PooledOf(pooled[..n], weights);
      var last := ScoreOf(Combined(pooled[n].perModel, weights), pooled[n].truth, COMPARISON);
      && PooledOf(pooled, weights) == Score(before.sum + last.sum, before.count + last.count)
      && ScoredMarkets(pooled, weights)
         == ScoredMarkets(pooled[..n], weights) + CountIf(COMPARISON, PricedIn(Combined(pooled[n].perModel, weights)))
  {
    hide Combined, ScoreOf, CountIf, PooledScore, PricedIn;
    var n := |pooled| - 1;
    PredictionsLength(pooled, weights);
    PredictionsLength(pooled[..n], weights);
    PooledSnoc(Predictions(pooled[..n], weights), Truths(pooled[..n]), Combined(pooled[n].perModel, weights),
               pooled[n].truth);
  }

  lemma {:induction false} PooledMeans(pooled: seq<Item>, weights: seq<real>)
    requires EnsembleLearning.Rectangular(pooled, |weights|)
    ensures PooledOf(pooled, weights).count == ScoredMarkets(pooled, weights)
    ensures Bounds(PooledOf(pooled, weights).sum, ScoredMarkets(pooled, weights), AlwaysTrue(pooled, weights))
  {
    if pooled == [] {
      NothingPooled(weights);
    } else {
      hide Combined, ScoreOf, CountIf, AllTrue, Bounds, AlwaysTrue, PooledOf, ScoredMarkets, PricedIn;
      var n := |pooled| - 1;
      var last := pooled[n];
      var p := Combined(last.perModel, weights);
      PooledMeans(pooled[..n], weights);
      ItemBounds(last, weights);
      AlwaysTrueStep(pooled, weights);
      PooledUnfolds(pooled, weights);
      AddBounds(PooledOf(pooled[..n], weights).sum, ScoredMarkets(pooled[..n], weights),
                AlwaysTrue(pooled[..n], weights), ScoreOf(p, last.truth, COMPARISON).sum,
                CountIf(COMPARISON, PricedIn(p)), AllTrue(last, weights));
    }
  }

  lemma {:induction false} NothingPooled(weights: seq<real>)
    ensures Bounds(0.0, 0, AlwaysTrue([], weights))
  {
  }

  /**
   * What learning minimises is the mean score over all items and scored markets: least exactly for a
   * weighting that says the truth everywhere.
   */
  lemma {:induction false} PooledBrierMeans(pooled: seq<Item>, weights: seq<real>)
    requires EnsembleLearning.Rectangular(pooled, |weights|)
    ensures Brier(pooled, weights).None? <==> ScoredMarkets(pooled, weights) == 0
    ensures Brier(pooled, weights).Some? ==>
              && LEAST <= Brier(pooled, weights).value <= GREATEST
              && (Brier(pooled, weights).value == LEAST
                  <==> forall i | 0 <= i < |pooled| :: AllTrue(pooled[i], weights))
  {
    hide AllTrue, PooledScore, Predictions, Truths, ScoredMarkets;
    PooledMeans(pooled, weights);
    var score := PooledOf(pooled, weights);
    if score.count > 0 { MeanBounds(score.sum, score.count as real); }
  }

  /** Without anything to score the weights are equal and add up to one. */
  lemma {:induction false} UniformMeans(count: nat, i: nat, j: nat)
    requires i < count && j < count
    ensures |Uniform(count)| == count && Uniform(count)[i] == Uniform(count)[j]
    ensures Scaled(count as real, Uniform(count)[i]) == 1.0
  {
    BackFromQuotient(1.0, count as real);
  }
}
