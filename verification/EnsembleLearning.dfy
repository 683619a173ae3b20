/**
 * Scoring predictions and learning the ensemble weights
 * (backend/src/models/ensemble.ts, backend/src/models/foldScoring.ts).
 */
module EnsembleLearning {
  import opened Records
  import opened Markets
  import opened SimplexGrid
  import opened Ensemble

  datatype Truth = Truth(outcome: Outcome, totalGoals: int, bothTeamsScored: bool)

  datatype Item = Item(perModel: seq<Prediction>, truth: Truth)

  function Bit(value: bool): real { if value then 1.0 else 0.0 }

  /** `actualOutcomes`: 1 for the selections that came out. */
  function Actual(m: Market, truth: Truth, key: string): real {
    match m
    case ResultMarket =>
      Bit((key == "home_win" && truth.outcome == HomeWin) || (key == "draw" && truth.outcome == Draw)
          || (key == "away_win" && truth.outcome == AwayWin))
    case DoubleChance =>
      Bit((key == "1x" && truth.outcome != AwayWin) || (key == "12" && truth.outcome != Draw)
          || (key == "x2" && truth.outcome != HomeWin))
    case Over15 => Bit((key == "over_1_5" && truth.totalGoals > 1)
                       || (key == "under_or_equal_1_5" && truth.totalGoals <= 1))
    case Over25 => Bit((key == "over_2_5" && truth.totalGoals > 2)
                       || (key == "under_or_equal_2_5" && truth.totalGoals <= 2))
    case Over35 => Bit((key == "over_3_5" && truth.totalGoals > 3)
                       || (key == "under_or_equal_3_5" && truth.totalGoals <= 3))
    case Under25 => Bit((key == "under_2_5" && truth.totalGoals <= 2)
                        || (key == "over_or_equal_2_5" && truth.totalGoals > 2))
    case Under35 => Bit((key == "under_3_5" && truth.totalGoals <= 3)
                        || (key == "over_or_equal_3_5" && truth.totalGoals > 3))
    case BothTeamsScore => Bit((key == "btts_yes" && truth.bothTeamsScored)
                               || (key == "btts_no" && !truth.bothTeamsScored))
    case _ => 0.0
  }

  function SquaredError(values: map<string, real>, m: Market, truth: Truth, key: string): real {
    var d := ClampProbability(Lookup(values, key)) - Actual(m, truth, key);
    d * d
  }

  function MarketError(values: map<string, real>, m: Market, truth: Truth, keys: seq<string>): real {
    if keys == [] then 0.0
    else MarketError(values, m, truth, keys[..|keys| - 1]) + SquaredError(values, m, truth, keys[|keys| - 1])
  }

  /** The Brier score of one market: the mean over its selections. */
  function MarketBrier(p: Prediction, m: Market, truth: Truth): real
    requires m in p
  {
    MarketError(p[m], m, truth, Selections(m)) / |Selections(m)| as real
  }

  datatype Score = Score(sum: real, count: nat)

  function ScoreOf(p: Prediction, truth: Truth, markets: seq<Market>): Score {
    if markets == [] then Score(0.0, 0)
    else
      var n := |markets| - 1;
      var before := ScoreOf(p, truth, markets[..n]);
      if markets[n] in p then Score(before.sum + MarketBrier(p, markets[n], truth), before.count + 1) else before
  }

  method ScoreMarket(values: map<string, real>, m: Market, truth: Truth) returns (brier: real)
    ensures brier == MarketError(values, m, truth, Selections(m)) / |Selections(m)| as real
  {
    hide SquaredError, Selections;
    var keys := Selections(m);
    brier := 0.0;
    for k := 0 to |keys|
      invariant brier == MarketError(values, m, truth, keys[..k])
    {
      assert keys[..k + 1][..k] == keys[..k];
      brier := brier + SquaredError(values, m, truth, keys[k]);
    }
    assert keys[..|keys|] == keys;
    brier := brier / |keys| as real;
  }

  method ScorePrediction(p: Prediction, truth: Truth) returns (score: Score)
    ensures score == ScoreOf(p, truth, COMPARISON)
  {
    hide MarketError, Selections;
    var sum, count := 0.0, 0;
    for n := 0 to |COMPARISON|
      invariant Score(sum, count) == ScoreOf(p, truth, COMPARISON[..n])
    {
      assert COMPARISON[..n + 1][..n] == COMPARISON[..n];
      if COMPARISON[n] in p {
        var brier := ScoreMarket(p[COMPARISON[n]], COMPARISON[n], truth);
        sum := sum + brier;
        count := count + 1;
      }
    }
    assert COMPARISON[..|COMPARISON|] == COMPARISON;
    score := Score(sum, count);
  }

  // ---------------------------------------------------------------- the pooled Brier score

  predicate Rectangular(pooled: seq<Item>, count: nat) {
    forall i | 0 <= i < |pooled| :: |pooled[i].perModel| == count
  }

  /** The predictions of a weighting for every item. */
  function Predictions(pooled: seq<Item>, weights: seq<real>): seq<Prediction>
    requires Rectangular(pooled, |weights|)
  {
    if pooled == [] then []
    else Predictions(pooled[..|pooled| - 1], weights) + [Combined(pooled[|pooled| - 1].perModel, weights)]
  }

  function Truths(pooled: seq<Item>): seq<Truth> {
    if pooled == [] then [] else Truths(pooled[..|pooled| - 1]) + [pooled[|pooled| - 1].truth]
  }

  lemma {:induction false} PredictionsLength(pooled: seq<Item>, weights: seq<real>)
    requires Rectangular(pooled, |weights|)
    ensures |Predictions(pooled, weights)| == |Truths(pooled)| == |pooled|
  {
    if pooled != [] { PredictionsLength(pooled[..|pooled| - 1], weights); }
  }

  function PooledScore(predictions: seq<Prediction>, truths: seq<Truth>): Score
    requires |predictions| == |truths|
  {
    if predictions == [] then Score(0.0, 0)
    else
      var n := |predictions| - 1;
      var before, last := PooledScore(predictions[..n], truths[..n]), ScoreOf(predictions[n], truths[n], COMPARISON);
      Score(before.sum + last.sum, before.count + last.count)
  }

  function Mean(score: Score): Option<real> {
    if score.count > 0 then Some(score.sum / score.count as real) else None
  }

  /** The pooled Brier score of a weighting; `None` is positive infinity. */
  function Brier(pooled: seq<Item>, weights: seq<real>): Option<real>
    requires Rectangular(pooled, |weights|)
  {
    PredictionsLength(pooled, weights);
    Mean(PooledScore(Predictions(pooled, weights), Truths(pooled)))
  }

  /** `<` with `None` as positive infinity. */
  predicate Less(a: Option<real>, b: Option<real>) {
    a.Some? && (b.None? || a.value < b.value)
  }

  function Uniform(count: nat): seq<real>
    requires count > 0
  {
    seq(count, k => 1.0 / count as real)
  }

  method PooledBrier(pooled: seq<Item>, weights: seq<real>) returns (brier: Option<real>)
    requires Rectangular(pooled, |weights|)
    ensures brier == Brier(pooled, weights)
  {
    hide ScoreOf, Combined;
    var score := Score(0.0, 0);
    for i := 0 to |pooled|
      invariant |Predictions(pooled[..i], weights)| == |Truths(pooled[..i])|
      invariant score == PooledScore(Predictions(pooled[..i], weights), Truths(pooled[..i]))
    {
      assert pooled[..i + 1][..i] == pooled[..i];
      var prediction := CombineCoherent(pooled[i].perModel, weights);
      var found := ScorePrediction(prediction, pooled[i].truth);
      PooledSnoc(Predictions(pooled[..i], weights), Truths(pooled[..i]), prediction, pooled[i].truth);
      score := Score(score.sum + found.sum, score.count + found.count);
    }
    assert pooled[..|pooled|] == pooled;
    brier := if score.count > 0 then Some(score.sum / score.count as real) else None;
  }

  lemma {:induction false} PooledSnoc(predictions: seq<Prediction>, truths: seq<Truth>, p: Prediction, truth: Truth)
    requires |predictions| == |truths|
    ensures PooledScore(predictions + [p], truths + [truth])
         == Score(PooledScore(predictions, truths).sum + ScoreOf(p, truth, COMPARISON).sum,
                  PooledScore(predictions, truths).count + ScoreOf(p, truth, COMPARISON).count)
  {
    hide ScoreOf;
    assert (predictions + [p])[..|predictions|] == predictions && (truths + [truth])[..|truths|] == truths;
  }

  // ---------------------------------------------------------------- which markets are scored

  lemma {:induction false} AveragedMembers(results: seq<Prediction>, weights: seq<real>, markets: seq<Market>,
        m: Market)
    requires |results| == |weights|
    ensures m in Averaged(results, weights, markets) <==> m in markets && Present(results, m, Selections(m))
    ensures m in Averaged(results, weights, markets) ==>
              Averaged(results, weights, markets)[m] == Averages(results, weights, m, Selections(m))
  {
    hide Present, Averages, Selections;
    if markets != [] {
      var n := |markets| - 1;
      AveragedMembers(results, weights, markets[..n], m);
      assert m in markets <==> m in markets[..n] || m == markets[n];
    }
  }

  lemma {:induction false} Bases(m: Market)
    ensures m in COMPARISON ==> IsBase(BaseOf(m))
    ensures IsBase(m) ==> m in COMPARISON && BaseOf(m) == m
  {
    assert COMPARISON[0] == ResultMarket && COMPARISON[1] == Over15 && COMPARISON[2] == Over25
           && COMPARISON[3] == Over35;
    assert COMPARISON[6] == BothTeamsScore;
  }

  /** Which markets a combination prices depends on the components, not on the weights. */
  lemma {:induction false} CombinedMembers(results: seq<Prediction>, weights: seq<real>, m: Market)
    requires |results| == |weights|
    ensures m in Combined(results, weights) <==> m in COMPARISON && Present(results, BaseOf(m), Selections(BaseOf(m)))
  {
    hide Averaged, Present, Selections, Entries;
    AveragedMembers(results, weights, COMPARISON, BaseOf(m));
    Bases(m);
    if m in COMPARISON { Bases(BaseOf(m)); }
  }

  lemma {:induction false} ScoreCount(p: Prediction, truth: Truth, markets: seq<Market>)
    ensures ScoreOf(p, truth, markets).count > 0 <==> exists k | 0 <= k < |markets| :: markets[k] in p
  {
    hide MarketBrier;
    if markets != [] {
      var n := |markets| - 1;
      ScoreCount(p, truth, markets[..n]);
      if k :| 0 <= k < |markets| && markets[k] in p && markets[n] !in p { assert markets[..n][k] in p; }
    }
  }

  /** Some component prices some base market of the item. */
  predicate Scorable(item: Item) {
    exists k | 0 <= k < |COMPARISON| ::
      IsBase(COMPARISON[k]) && Present(item.perModel, COMPARISON[k], Selections(COMPARISON[k]))
  }

  lemma {:induction false} ScorableItem(item: Item, weights: seq<real>)
    requires |item.perModel| == |weights|
    ensures ScoreOf(Combined(item.perModel, weights), item.truth, COMPARISON).count > 0 <==> Scorable(item)
  {
    hide Combined, Present, Selections, ScoreOf;
    var p := Combined(item.perModel, weights);
    ScoreCount(p, item.truth, COMPARISON);
    if k :| 0 <= k < |COMPARISON| && COMPARISON[k] in p {
      CombinedMembers(item.perModel, weights, COMPARISON[k]);
      Bases(COMPARISON[k]);
      Bases(BaseOf(COMPARISON[k]));
      var j :| 0 <= j < |COMPARISON| && COMPARISON[j] == BaseOf(COMPARISON[k]);
    }
    if k :|
      0 <= k < |COMPARISON| && IsBase(COMPARISON[k])
      && Present(item.perModel, COMPARISON[k], Selections(COMPARISON[k]))
    {
      Bases(COMPARISON[k]);
      CombinedMembers(item.perModel, weights, COMPARISON[k]);
    }
  }

  predicate HasScore(pooled: seq<Item>) { exists i | 0 <= i < |pooled| :: Scorable(pooled[i]) }

  lemma {:induction false} HasScoreStep(pooled: seq<Item>)
    requires pooled != []
    ensures HasScore(pooled) <==> HasScore(pooled[..|pooled| - 1]) || Scorable(pooled[|pooled| - 1])
  {
    hide Scorable;
    var n := |pooled| - 1;
    if i :| 0 <= i < |pooled| && Scorable(pooled[i]) {
      if i < n { assert Scorable(pooled[..n][i]); }
    }
    if i :| 0 <= i < n && Scorable(pooled[..n][i]) { assert Scorable(pooled[i]); }
  }

  lemma {:induction false} PooledCount(pooled: seq<Item>, weights: seq<real>)
    requires Rectangular(pooled, |weights|)
    ensures |Predictions(pooled, weights)| == |Truths(pooled)|
    ensures PooledScore(Predictions(pooled, weights), Truths(pooled)).count > 0 <==> HasScore(pooled)
  {
    PredictionsLength(pooled, weights);
    if pooled != [] {
      var n := |pooled| - 1;
      PooledCount(pooled[..n], weights);
      ScorableItem(pooled[n], weights);
      HasScoreStep(pooled);
      hide Scorable, ScoreOf, Combined, HasScore, PooledScore;
      PooledSnoc(Predictions(pooled[..n], weights), Truths(pooled[..n]), Combined(pooled[n].perModel, weights),
                 pooled[n].truth);
    }
  }

  /** The pooled score is finite exactly when something can be scored, for every weighting. */
  lemma {:induction false} FiniteBrier(pooled: seq<Item>, weights: seq<real>)
    requires Rectangular(pooled, |weights|)
    ensures Brier(pooled, weights).Some? <==> HasScore(pooled)
  {
    hide PooledScore, HasScore, Predictions, Truths;
    PooledCount(pooled, weights);
  }

  // ---------------------------------------------------------------- learning

  /** `k` is the first grid point with the smallest score. */
  ghost predicate FirstBest(pooled: seq<Item>, grid: seq<seq<real>>, k: nat, count: nat)
    requires Rectangular(pooled, count) && forall i | 0 <= i < |grid| :: |grid[i]| == count
  {
    && k < |grid|
    && (forall i | 0 <= i < |grid| :: !Less(Brier(pooled, grid[i]), Brier(pooled, grid[k])))
    && (forall i | 0 <= i < k :: Less(Brier(pooled, grid[k]), Brier(pooled, grid[i])))
  }

  /** The first grid point with the smallest score, or uniform weights when nothing can be scored. */
  method LearnEnsembleWeights(pooled: seq<Item>, count: nat, step: real) returns (best: seq<real>)
    requires count >= 1 && step > 0.0 && Steps(step) >= 1 && Rectangular(pooled, count)
    ensures |best| == count && forall i | 0 <= i < |Grid(count, Steps(step))| :: |Grid(count, Steps(step))[i]| == count
    ensures if HasScore(pooled)
            then exists k: nat ::
                  FirstBest(pooled, Grid(count, Steps(step)), k, count) && best == Grid(count, Steps(step))[k]
            else best == Uniform(count)
  {
    hide Brier, Grid, HasScore;
    best := Uniform(count);
    var bestBrier: Option<real> := None;
    var grid := BuildSimplexGrid(count, step);
    forall i | 0 <= i < |grid| ensures |grid[i]| == count { GridOnSimplex(count, Steps(step), i); }
    ghost var k := 0;
    for i := 0 to |grid|
      invariant |best| == count
      invariant bestBrier.Some? ==> k < i && best == grid[k] && bestBrier == Brier(pooled, best)
      invariant bestBrier.None? ==> best == Uniform(count)
      invariant forall j | 0 <= j < i :: !Less(Brier(pooled, grid[j]), bestBrier)
      invariant bestBrier.Some? ==> forall j | 0 <= j < k :: Less(bestBrier, Brier(pooled, grid[j]))
    {
      var brier := PooledBrier(pooled, grid[i]);
      if Less(brier, bestBrier) {
        bestBrier := brier;
        best := grid[i];
        k := i;
      }
    }
    GridHoldsUnits(count, Steps(step), 0);
    var unit :| 0 <= unit < |grid| && grid[unit] == Unit(count, 0);
    FiniteBrier(pooled, grid[unit]);
    if bestBrier.Some? {
      FiniteBrier(pooled, best);
      assert FirstBest(pooled, grid, k, count);
    }
  }

  // ---------------------------------------------------------------- components as grid points

  lemma {:induction false} UnitSums(results: seq<Prediction>, i: nat, k: nat, m: Market, key: string)
    requires i < |results| && k <= |results|
    ensures |Unit(|results|, i)| == |results|
    ensures WeightSum(results[..k], Unit(|results|, i)[..k], m, key)
            == if i < k && Has(results[i], m, key) then 1.0 else 0.0
    ensures Weighted(results[..k], Unit(|results|, i)[..k], m, key)
            == if i < k && Has(results[i], m, key) then results[i][m][key] else 0.0
  {
    if k > 0 {
      UnitSums(results, i, k - 1, m, key);
      assert results[..k][..k - 1] == results[..k - 1];
      assert Unit(|results|, i)[..k][..k - 1] == Unit(|results|, i)[..k - 1];
    }
  }

  /** The coherent projection of one component. */
  function Projection(p: Prediction): Prediction { Combined([p], [1.0]) }

  lemma {:induction false} UnitAverage(results: seq<Prediction>, i: nat, m: Market, key: string)
    requires i < |results|
    ensures Average(results, Unit(|results|, i), m, key) == Average([results[i]], [1.0], m, key)
  {
    hide Has, Share;
    var n := |results|;
    UnitSums(results, i, n, m, key);
    assert results[..n] == results && Unit(n, i)[..n] == Unit(n, i);
    UnitSums([results[i]], 0, 1, m, key);
    assert Unit(1, 0) == [1.0] && [results[i]][..1] == [results[i]] && Unit(1, 0)[..1] == Unit(1, 0);
  }

  lemma {:induction false} UnitAverages(results: seq<Prediction>, i: nat, m: Market, keys: seq<string>)
    requires i < |results|
    ensures |Unit(|results|, i)| == |results|
    ensures Averages(results, Unit(|results|, i), m, keys) == Averages([results[i]], [1.0], m, keys)
  {
    hide Average;
    if keys != [] {
      UnitAverages(results, i, m, keys[..|keys| - 1]);
      UnitAverage(results, i, m, keys[|keys| - 1]);
    }
  }

  /** Component `i` prices every base market that some component prices. */
  predicate Covers(results: seq<Prediction>, i: nat)
    requires i < |results|
  {
    forall k | 0 <= k < |COMPARISON| && IsBase(COMPARISON[k]) ::
      Present(results, COMPARISON[k], Selections(COMPARISON[k])) ==>
        Present([results[i]], COMPARISON[k], Selections(COMPARISON[k]))
  }

  lemma {:induction false} PresentInOne(results: seq<Prediction>, i: nat, m: Market, keys: seq<string>)
    requires i < |results| && Present([results[i]], m, keys)
    ensures Present(results, m, keys)
  {
    var k :| 0 <= k < |keys| && Priced([results[i]], m, keys[k]);
    assert Has(results[i], m, keys[k]);
  }

  lemma {:induction false} CoveredBase(results: seq<Prediction>, i: nat, m: Market)
    requires i < |results| && Covers(results, i) && IsBase(m)
    ensures Present(results, m, Selections(m)) <==> Present([results[i]], m, Selections(m))
  {
    hide Present, Selections;
    Bases(m);
    var k :| 0 <= k < |COMPARISON| && COMPARISON[k] == m;
    if Present([results[i]], m, Selections(m)) { PresentInOne(results, i, m, Selections(m)); }
  }

  /** All the weight on a component gives its coherent projection exactly when it covers the priced markets. */
  lemma {:induction false} UnitWeightIsProjection(results: seq<Prediction>, i: nat)
    requires i < |results|
    ensures |Unit(|results|, i)| == |results|
    ensures Combined(results, Unit(|results|, i)) == Projection(results[i]) <==> Covers(results, i)
  {
    hide Averaged, Present, Selections, Entries, Combined, Averages;
    var w := Unit(|results|, i);
    if Covers(results, i) {
      forall m: Market
        ensures m in Combined(results, w) <==> m in Projection(results[i])
        ensures m in Combined(results, w) ==> Combined(results, w)[m] == Projection(results[i])[m]
      {
        CombinedMembers(results, w, m);
        CombinedMembers([results[i]], [1.0], m);
        Bases(m);
        if m in COMPARISON { CoveredBase(results, i, BaseOf(m)); }
        if m in Combined(results, w) { UnitEntries(results, i, m); }
      }
    } else {
      var k :| 0 <= k < |COMPARISON| && IsBase(COMPARISON[k])
        && Present(results, COMPARISON[k], Selections(COMPARISON[k]))
               && !Present([results[i]], COMPARISON[k], Selections(COMPARISON[k]));
      Bases(COMPARISON[k]);
      CombinedMembers(results, w, COMPARISON[k]);
      CombinedMembers([results[i]], [1.0], COMPARISON[k]);
      assert COMPARISON[k] in Combined(results, w) && COMPARISON[k] !in Projection(results[i]);
    }
  }

  lemma {:induction false} UnitEntries(results: seq<Prediction>, i: nat, m: Market)
    requires i < |results| && |Unit(|results|, i)| == |results|
    requires m in Combined(results, Unit(|results|, i)) && m in Projection(results[i])
    ensures Combined(results, Unit(|results|, i))[m] == Projection(results[i])[m]
  {
    hide Averaged, Present, Selections, Averages;
    var b := BaseOf(m);
    var w := Unit(|results|, i);
    AveragedMembers(results, w, COMPARISON, b);
    AveragedMembers([results[i]], [1.0], COMPARISON, b);
    UnitAverages(results, i, b, Selections(b));
    SameEntries(Averaged(results, w, COMPARISON), Averaged([results[i]], [1.0], COMPARISON), m);
  }

  lemma {:induction false} SameEntries(a: Prediction, b: Prediction, m: Market)
    requires BaseOf(m) in a && BaseOf(m) in b && a[BaseOf(m)] == b[BaseOf(m)]
    ensures Entries(a, m) == Entries(b, m)
  {
    hide ResultEntries, DoubleChanceEntries, Complement, Mirror;
  }

  /** The projections of component `i` for every item. */
  function Projections(pooled: seq<Item>, count: nat, i: nat): seq<Prediction>
    requires Rectangular(pooled, count) && i < count
  {
    if pooled == [] then []
    else Projections(pooled[..|pooled| - 1], count, i) + [Projection(pooled[|pooled| - 1].perModel[i])]
  }

  lemma {:induction false} UnitPredictions(pooled: seq<Item>, count: nat, i: nat)
    requires Rectangular(pooled, count) && i < count
    requires forall j | 0 <= j < |pooled| :: Covers(pooled[j].perModel, i)
    ensures |Unit(count, i)| == count
    ensures Predictions(pooled, Unit(count, i)) == Projections(pooled, count, i)
  {
    hide Combined, Covers, Projection;
    if pooled != [] {
      UnitPredictions(pooled[..|pooled| - 1], count, i);
      UnitWeightIsProjection(pooled[|pooled| - 1].perModel, i);
    }
  }

  /**
   * The learnt weights are on the learning set never worse than the coherent projection of any
   * component that prices every base market the items price.
   */
  lemma {:induction false} NeverWorseThanComponent(pooled: seq<Item>, count: nat, steps: nat, i: nat, k: nat)
    requires steps >= 1 && Rectangular(pooled, count) && i < count && HasScore(pooled)
    requires forall j | 0 <= j < |pooled| :: Covers(pooled[j].perModel, i)
    requires forall j | 0 <= j < |Grid(count, steps)| :: |Grid(count, steps)[j]| == count
    requires FirstBest(pooled, Grid(count, steps), k, count)
    ensures |Projections(pooled, count, i)| == |Truths(pooled)|
    ensures var component := Mean(PooledScore(Projections(pooled, count, i), Truths(pooled)));
            var learnt := Brier(pooled, Grid(count, steps)[k]);
            component.Some? && learnt.Some? && learnt.value <= component.value
  {
    hide Grid, HasScore, Covers, Projection, PooledScore, Predictions, Projections;
    GridHoldsUnits(count, steps, i);
    var j :| 0 <= j < |Grid(count, steps)| && Grid(count, steps)[j] == Unit(count, i);
    UnitPredictions(pooled, count, i);
    PredictionsLength(pooled, Unit(count, i));
    FiniteBrier(pooled, Grid(count, steps)[k]);
    FiniteBrier(pooled, Grid(count, steps)[j]);
    assert !Less(Brier(pooled, Grid(count, steps)[j]), Brier(pooled, Grid(count, steps)[k]));
  }

  // ---------------------------------------------------------------- coherence of the combination

  lemma {:induction false} ClampRange(v: real)
    ensures 0.000001 <= ClampProbability(v) <= 0.999999
    ensures 0.000001 <= v <= 0.999999 ==> ClampProbability(v) == v
  {
  }

  lemma {:induction false} PairCoherent(values: map<string, real>, positive: string, negative: string, up: string,
                                        down: string)
    requires positive != negative && up != down
    ensures
      var pair, mirrored := Complement(values, positive, negative), Mirror(values, positive, up, down);
      && positive in pair && negative in pair && up in mirrored && down in mirrored
      && pair[positive] + pair[negative] == 1.0 && mirrored[up] + mirrored[down] == 1.0
      && mirrored[up] == pair[negative] && mirrored[down] == pair[positive]
  {
    hide ClampProbability;
    var p := Bound(values, positive);
    ClampRange(Lookup(values, positive));
    ClampRange(1.0 - p);
    ClampRange(p);
  }

  /** The Over market that an Under market mirrors. */
  function MirrorOf(m: Market): Market {
    match m
    case Under25 => Over25
    case Under35 => Over35
    case _ => m
  }

  /**
   * In every combination a binary market adds up to exactly one, and an Under market comes with its
   * Over market and mirrors it.
   */
  lemma {:induction false} BinaryMarketsCoherent(results: seq<Prediction>, weights: seq<real>, m: Market)
    requires |results| == |weights| && m in Combined(results, weights) && BaseOf(m) != ResultMarket
    ensures
      var combined, keys := Combined(results, weights), Selections(m);
      && |keys| == 2 && keys[0] in combined[m] && keys[1] in combined[m]
      && combined[m][keys[0]] + combined[m][keys[1]] == 1.0
      && (MirrorOf(m) != m ==>
            var over, overKeys := MirrorOf(m), Selections(MirrorOf(m));
            && over in combined && |overKeys| == 2 && overKeys[0] in combined[over] && overKeys[1] in combined[over]
            && combined[m][keys[0]] == combined[over][overKeys[1]]
            && combined[m][keys[1]] == combined[over][overKeys[0]])
  {
    hide Averaged, Entries;
    if MirrorOf(m) == m {
      OverCoherent(Averaged(results, weights, COMPARISON), m);
    } else {
      UnderCoherent(Averaged(results, weights, COMPARISON), m);
    }
  }

  lemma {:induction false} OverCoherent(averaged: Prediction, m: Market)
    requires BaseOf(m) in averaged && m in COMPARISON && BaseOf(m) == m != ResultMarket
    ensures
      var entry, keys := Entries(averaged, m), Selections(m);
      |keys| == 2 && keys[0] in entry && keys[1] in entry && entry[keys[0]] + entry[keys[1]] == 1.0
  {
    hide Complement, Mirror;
    assert "over_1_5"[0] != "under_or_equal_1_5"[0] && "over_2_5"[0] != "under_or_equal_2_5"[0];
    assert "over_3_5"[0] != "under_or_equal_3_5"[0] && "btts_yes"[5] != "btts_no"[5];
    PairCoherent(averaged[m], Selections(m)[0], Selections(m)[1], "", "x");
  }

  lemma {:induction false} UnderCoherent(averaged: Prediction, m: Market)
    requires (m == Under25 || m == Under35) && BaseOf(m) in averaged
    ensures
      var over := MirrorOf(m);
      var entry, keys, above, overKeys :=
        Entries(averaged, m), Selections(m), Entries(averaged, over), Selections(over);
      && |keys| == 2 && keys[0] in entry && keys[1] in entry && entry[keys[0]] + entry[keys[1]] == 1.0
      && |overKeys| == 2 && overKeys[0] in above && overKeys[1] in above
      && entry[keys[0]] == above[overKeys[1]] && entry[keys[1]] == above[overKeys[0]]
  {
    hide Complement, Mirror;
    assert "over_2_5"[0] != "under_or_equal_2_5"[0] && "over_3_5"[0] != "under_or_equal_3_5"[0];
    assert "under_2_5"[0] != "over_or_equal_2_5"[0] && "under_3_5"[0] != "over_or_equal_3_5"[0];
    var keys, overKeys := Selections(m), Selections(MirrorOf(m));
    PairCoherent(averaged[BaseOf(m)], overKeys[0], overKeys[1], keys[0], keys[1]);
  }

  /** The combined 1X2 adds up to one exactly when home and draw leave room for away; else it is a millionth off. */
  lemma {:induction false} ResultsCoherent(x2: map<string, real>)
    requires Lookup(x2, "home_win") >= 0.0 && Lookup(x2, "draw") >= 0.0 && Lookup(x2, "away_win") >= 0.0
    ensures var r := Results(x2);
            && (r.0 + r.1 + r.2 == 1.0 <==> r.0 + r.1 <= 0.999999)
            && 1.0 <= r.0 + r.1 + r.2 <= 1.000001
  {
    hide Triple, Lookup;
    var h, d, a := Lookup(x2, "home_win"), Lookup(x2, "draw"), Lookup(x2, "away_win");
    var total := if h + d + a == 0.0 then 1.0 else h + d + a;
    Shares(h, d, total);
    TripleCoherent(h / total, d / total);
  }

  lemma {:induction false} Shares(h: real, d: real, total: real)
    requires h >= 0.0 && d >= 0.0 && total > 0.0 && h + d <= total
    ensures 0.0 <= h / total && 0.0 <= d / total && h / total + d / total <= 1.0
  {
    assert h / total + d / total == (h + d) / total;
  }

  lemma {:induction false} TripleCoherent(home: real, draw: real)
    requires home >= 0.0 && draw >= 0.0 && home + draw <= 1.0
    ensures var r := Triple(home, draw);
            && (r.0 + r.1 + r.2 == 1.0 <==> r.0 + r.1 <= 0.999999)
            && 1.0 <= r.0 + r.1 + r.2 <= 1.000001
  {
  }

  ghost predicate Probabilities(results: seq<Prediction>) {
    forall i, m: Market, key: string | 0 <= i < |results| && Has(results[i], m, key) :: results[i][m][key] >= 0.0
  }

  lemma {:induction false} AverageNonNegative(results: seq<Prediction>, weights: seq<real>, m: Market, key: string)
    requires |results| == |weights| && Probabilities(results) && forall i | 0 <= i < |weights| :: weights[i] >= 0.0
    ensures Weighted(results, weights, m, key) >= 0.0 && Average(results, weights, m, key) >= 0.0
  {
    hide Share, Has;
    if results != [] {
      var n := |results| - 1;
      AverageNonNegative(results[..n], weights[..n], m, key);
      ShareNonNegative(results[n], weights[n], m, key);
    }
    if WeightSum(results, weights, m, key) > 0.0 {
      QuotientNonNegative(Weighted(results, weights, m, key), WeightSum(results, weights, m, key));
    }
  }

  lemma {:induction false} ShareNonNegative(p: Prediction, weight: real, m: Market, key: string)
    requires weight >= 0.0 && (Has(p, m, key) ==> p[m][key] >= 0.0)
    ensures Share(p, weight, m, key) >= 0.0
  {
  }

  lemma {:induction false} QuotientNonNegative(x: real, y: real)
    requires x >= 0.0 && y > 0.0
    ensures x / y >= 0.0
  {
  }

  lemma {:induction false} LookupAverages(results: seq<Prediction>, weights: seq<real>, m: Market, keys: seq<string>,
                                          key: string)
    requires |results| == |weights|
    ensures Lookup(Averages(results, weights, m, keys), key)
            == if key in keys then Average(results, weights, m, key) else 0.0
  {
    hide Average;
    if keys != [] {
      LookupAverages(results, weights, m, keys[..|keys| - 1], key);
      assert key in keys <==> key in keys[..|keys| - 1] || key == keys[|keys| - 1];
    }
  }

  /** The 1X2 of every combination of probabilities is coherent up to the clamp. */
  lemma {:induction false} CombinedResultsCoherent(results: seq<Prediction>, weights: seq<real>)
    requires |results| == |weights| && Probabilities(results) && forall i | 0 <= i < |weights| :: weights[i] >= 0.0
    requires ResultMarket in Combined(results, weights)
    ensures var entry := Combined(results, weights)[ResultMarket];
            var home, draw, away := Lookup(entry, "home_win"), Lookup(entry, "draw"), Lookup(entry, "away_win");
            (home + draw + away == 1.0 <==> home + draw <= 0.999999) && 1.0 <= home + draw + away <= 1.000001
  {
    hide Averaged, Averages, Average, Present, Results, Selections, Probabilities;
    AveragedMembers(results, weights, COMPARISON, ResultMarket);
    var keys := Selections(ResultMarket);
    var x2 := Averages(results, weights, ResultMarket, keys);
    LookupAverages(results, weights, ResultMarket, keys, "home_win");
    LookupAverages(results, weights, ResultMarket, keys, "draw");
    LookupAverages(results, weights, ResultMarket, keys, "away_win");
    AverageNonNegative(results, weights, ResultMarket, "home_win");
    AverageNonNegative(results, weights, ResultMarket, "draw");
    AverageNonNegative(results, weights, ResultMarket, "away_win");
    ResultsCoherent(x2);
    assert Combined(results, weights)[ResultMarket] == ResultEntries(x2);
  }

  // ---------------------------------------------------------------- coherent predictions are fixed points

  /** The selection a binary base market is bound by. */
  function Leading(m: Market): string { Selections(m)[0] }

  lemma {:induction false} SingleLookup(q: Prediction, m: Market, key: string)
    requires Has(q, m, key) && key in Selections(m)
    ensures Lookup(Averages([q], [1.0], m, Selections(m)), key) == q[m][key]
  {
    hide Averages, Selections;
    LookupAverages([q], [1.0], m, Selections(m), key);
    UnitSums([q], 0, 1, m, key);
    assert Unit(1, 0) == [1.0] && [q][..1] == [q] && Unit(1, 0)[..1] == Unit(1, 0);
  }

  /** The entries of a coherent base market: its selections, and the bounds they came from. */
  lemma {:induction false} BaseEntries(averaged: Prediction, m: Market)
    requires m in averaged && IsBase(m)
    ensures var entries := Entries(averaged, m);
            && (forall k | 0 <= k < |Selections(m)| :: Selections(m)[k] in entries)
            && (m != ResultMarket ==> entries[Leading(m)] == Bound(averaged[m], Leading(m)))
            && (m == ResultMarket
                ==> (entries["home_win"], entries["draw"], entries["away_win"]) == Results(averaged[m]))
  {
    hide Bound, Results, ClampProbability;
    assert "over_1_5"[0] != "under_or_equal_1_5"[0] && "over_2_5"[0] != "under_or_equal_2_5"[0];
    assert "over_3_5"[0] != "under_or_equal_3_5"[0] && "btts_yes"[5] != "btts_no"[5];
    assert "home_win"[0] != "draw"[0] && "home_win"[0] != "away_win"[0] && "draw"[0] != "away_win"[0];
  }

  /** Normalising and clamping results that add up to one changes nothing. */
  lemma {:induction false} ResultsFixed(x2: map<string, real>, again: map<string, real>)
    requires (Lookup(again, "home_win"), Lookup(again, "draw"), Lookup(again, "away_win")) == Results(x2)
    requires Results(x2).0 + Results(x2).1 + Results(x2).2 == 1.0
    ensures Results(again) == Results(x2)
  {
    hide Lookup;
    var sum := Lookup(x2, "home_win") + Lookup(x2, "draw") + Lookup(x2, "away_win");
    var total := if sum == 0.0 then 1.0 else sum;
    var h, d, a := Results(x2).0, Results(x2).1, Results(x2).2;
    ClampRange(Lookup(x2, "home_win") / total);
    ClampRange(Lookup(x2, "draw") / total);
    ClampRange(1.0 - h - d);
    assert h / 1.0 == h && d / 1.0 == d;
    ClampRange(h);
    ClampRange(d);
  }

  lemma {:induction false} BoundFixed(values: map<string, real>, again: map<string, real>, key: string)
    requires Lookup(again, key) == Bound(values, key)
    ensures Bound(again, key) == Bound(values, key)
  {
    hide Lookup;
    ClampRange(Lookup(values, key));
    ClampRange(Bound(values, key));
  }

  /** The 1X2 of a prediction, if priced, adds up to one. */
  predicate SumsToOne(q: Prediction) {
    ResultMarket in q ==>
      Lookup(q[ResultMarket], "home_win") + Lookup(q[ResultMarket], "draw") + Lookup(q[ResultMarket], "away_win") == 1.0
  }

  /** Deriving from what was derived gives the same entries. */
  lemma {:induction false} EntriesFixed(averaged: Prediction, again: Prediction, m: Market)
    requires BaseOf(m) in averaged && BaseOf(m) in again && IsBase(BaseOf(m))
    requires forall k | 0 <= k < |Selections(BaseOf(m))| && Selections(BaseOf(m))[k] in Entries(averaged, BaseOf(m)) ::
               Lookup(again[BaseOf(m)], Selections(BaseOf(m))[k])
                 == Entries(averaged, BaseOf(m))[Selections(BaseOf(m))[k]]
    requires BaseOf(m) == ResultMarket ==>
               Results(averaged[ResultMarket]).0 + Results(averaged[ResultMarket]).1 + Results(averaged[ResultMarket]).2
                 == 1.0
    ensures Entries(again, m) == Entries(averaged, m)
  {
    hide Bound, Results, ClampProbability, Entries, Lookup;
    var b := BaseOf(m);
    BaseEntries(averaged, b);
    if b == ResultMarket {
      var keys := Selections(ResultMarket);
      assert keys[0] == "home_win" && keys[1] == "draw" && keys[2] == "away_win";
      ResultsFixed(averaged[b], again[b]);
    } else {
      BoundFixed(averaged[b], again[b], Leading(b));
    }
    SameDerived(averaged, again, m);
  }

  lemma {:induction false} SameDerived(averaged: Prediction, again: Prediction, m: Market)
    requires BaseOf(m) in averaged && BaseOf(m) in again && IsBase(BaseOf(m))
    requires if BaseOf(m) == ResultMarket then Results(again[ResultMarket]) == Results(averaged[ResultMarket])
             else Bound(again[BaseOf(m)], Leading(BaseOf(m))) == Bound(averaged[BaseOf(m)], Leading(BaseOf(m)))
    ensures Entries(again, m) == Entries(averaged, m)
  {
    hide Bound, Results, ClampProbability;
  }

  /** A coherent prediction whose 1X2 adds up to one is left alone by the coherence step. */
  lemma {:induction false} ProjectionIsIdempotent(p: Prediction)
    requires SumsToOne(Projection(p))
    ensures Projection(Projection(p)) == Projection(p)
  {
    hide Averages, Averaged, Present, Selections, Entries, Results, Bound, Combined, Lookup;
    var q := Projection(p);
    forall m: Market ensures m in Projection(q) <==> m in q
                     ensures m in q ==> Projection(q)[m] == q[m]
    {
      Bases(m);
      CombinedMembers([p], [1.0], m);
      CombinedMembers([q], [1.0], m);
      if m in q {
        Derived(p, m);
      } else if m in COMPARISON {
        NotDerived(p, m);
      }
    }
  }

  lemma {:induction false} NotDerived(p: Prediction, m: Market)
    requires m in COMPARISON && m !in Projection(p)
    ensures !Present([Projection(p)], BaseOf(m), Selections(BaseOf(m)))
  {
    hide Averages, Averaged, Present, Selections, Entries;
    Bases(m);
    Bases(BaseOf(m));
    CombinedMembers([p], [1.0], m);
    CombinedMembers([p], [1.0], BaseOf(m));
    assert BaseOf(m) !in Projection(p);
    NothingPriced(Projection(p), BaseOf(m));
  }

  lemma {:induction false} NothingPriced(q: Prediction, m: Market)
    requires m !in q
    ensures !Present([q], m, Selections(m))
  {
  }

  lemma {:induction false} Derived(p: Prediction, m: Market)
    requires m in Projection(p) && SumsToOne(Projection(p))
    ensures m in Projection(Projection(p)) && Projection(Projection(p))[m] == Projection(p)[m]
  {
    hide Averages, Averaged, Selections, Entries, Results, Bound, Present, Lookup;
    var q, b := Projection(p), BaseOf(m);
    var averaged, again := Averaged([p], [1.0], COMPARISON), Averaged([Projection(p)], [1.0], COMPARISON);
    Bases(m);
    Bases(b);
    AveragedMembers([p], [1.0], COMPARISON, b);
    BaseEntries(averaged, b);
    assert b in q && q[b] == Entries(averaged, b);
    FirstIsPriced(q, b);
    AveragedMembers([q], [1.0], COMPARISON, b);
    forall k | 0 <= k < |Selections(b)|
      ensures Lookup(again[b], Selections(b)[k]) == Entries(averaged, b)[Selections(b)[k]] {
      SingleLookup(q, b, Selections(b)[k]);
    }
    if b == ResultMarket { TotalOfResults(averaged, q); }
    EntriesFixed(averaged, again, m);
  }

  lemma {:induction false} FirstIsPriced(q: Prediction, m: Market)
    requires m in q && Selections(m)[0] in q[m]
    ensures Present([q], m, Selections(m))
  {
    assert Has([q][0], m, Selections(m)[0]);
    assert Priced([q], m, Selections(m)[0]);
  }

  lemma {:induction false} TotalOfResults(averaged: Prediction, q: Prediction)
    requires ResultMarket in averaged && ResultMarket in q && q[ResultMarket] == Entries(averaged, ResultMarket)
             && SumsToOne(q)
    ensures Results(averaged[ResultMarket]).0 + Results(averaged[ResultMarket]).1 + Results(averaged[ResultMarket]).2
            == 1.0
  {
    hide Results;
    BaseEntries(averaged, ResultMarket);
  }
}
