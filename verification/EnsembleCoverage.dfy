/**
 * When the learnt ensemble is never worse than one of its components
 * (backend/src/models/ensemble.ts:47-104): exactly when the component prices every base market that
 * some component prices.
 */
module EnsembleCoverage {
  import opened Records
  import opened Markets
  import opened SimplexGrid
  import opened Ensemble
  import opened EnsembleLearning

  // ---------------------------------------------------------------- bounds of a score

  lemma {:induction false} ErrorSign(values: map<string, real>, m: Market, truth: Truth, keys: seq<string>, k: nat)
    ensures MarketError(values, m, truth, keys) >= 0.0
    ensures k < |keys| ==> SquaredError(values, m, truth, keys[k]) <= MarketError(values, m, truth, keys)
  {
    hide SquaredError;
    if keys != [] {
      var n := |keys| - 1;
      ErrorSign(values, m, truth, keys[..n], k);
      SquaredErrorSign(values, m, truth, keys[n]);
    }
  }

  lemma {:induction false} SquaredErrorSign(values: map<string, real>, m: Market, truth: Truth, key: string)
    ensures SquaredError(values, m, truth, key) >= 0.0
  {
    SquareSign(ClampProbability(Lookup(values, key)) - Actual(m, truth, key));
  }

  lemma {:induction false} SquareSign(d: real)
    ensures d * d >= 0.0
  {
  }

  lemma {:induction false} BrierSign(p: Prediction, m: Market, truth: Truth)
    requires m in p
    ensures MarketBrier(p, m, truth) >= 0.0
  {
    hide MarketError;
    ErrorSign(p[m], m, truth, Selections(m), 0);
    QuotientNonNegative(MarketError(p[m], m, truth, Selections(m)), |Selections(m)| as real);
  }

  /** One badly priced market keeps the score up. */
  lemma {:induction false} ScoreAtLeast(p: Prediction, truth: Truth, markets: seq<Market>, m: Market)
    ensures ScoreOf(p, truth, markets).sum >= 0.0 && ScoreOf(p, truth, markets).count <= |markets|
    ensures m in markets && m in p ==> ScoreOf(p, truth, markets).sum >= MarketBrier(p, m, truth)
  {
    hide MarketBrier;
    if markets != [] {
      var n := |markets| - 1;
      ScoreAtLeast(p, truth, markets[..n], m);
      if markets[n] in p { BrierSign(p, markets[n], truth); }
      assert m in markets <==> m in markets[..n] || m == markets[n];
    }
  }

  /** If all the priced markets are priced well, so is the prediction. */
  lemma {:induction false} ScoreAtMost(p: Prediction, truth: Truth, markets: seq<Market>, bound: real)
    requires forall m: Market | m in markets && m in p :: MarketBrier(p, m, truth) <= bound
    ensures ScoreOf(p, truth, markets).sum <= bound * ScoreOf(p, truth, markets).count as real
  {
    hide MarketBrier;
    if markets != [] {
      var n := |markets| - 1;
      ScoreAtMost(p, truth, markets[..n], bound);
      var c := ScoreOf(p, truth, markets[..n]).count;
      assert bound * (c + 1) as real == bound * c as real + bound;
    }
  }

  lemma {:induction false} TwoKeys(values: map<string, real>, m: Market, truth: Truth, a: string, b: string)
    ensures MarketError(values, m, truth, [a, b])
            == SquaredError(values, m, truth, a) + SquaredError(values, m, truth, b)
  {
    hide SquaredError;
    assert [a, b][..1] == [a] && [a][..0] == [];
    assert MarketError(values, m, truth, [a]) == 0.0 + SquaredError(values, m, truth, a);
  }

  lemma {:induction false} ThreeKeys(values: map<string, real>, m: Market, truth: Truth, a: string, b: string,
                                     c: string)
    ensures MarketError(values, m, truth, [a, b, c])
         == SquaredError(values, m, truth, a) + SquaredError(values, m, truth, b) + SquaredError(values, m, truth, c)
  {
    hide SquaredError;
    assert [a, b, c][..2] == [a, b];
    TwoKeys(values, m, truth, a, b);
  }

  // ---------------------------------------------------------------- prices for any support

  /** Home win with many goals: the first selection of every base market comes out. */
  const HIGH_SCORING := Truth(HomeWin, 4, true)

  /** All selections of a base market, the first one at `lead`. */
  function Prices(m: Market, lead: real): map<string, real> {
    match m
    case ResultMarket => map["home_win" := lead, "draw" := (1.0 - lead) / 2.0, "away_win" := (1.0 - lead) / 2.0]
    case Over15 => map["over_1_5" := lead, "under_or_equal_1_5" := 1.0 - lead]
    case Over25 => map["over_2_5" := lead, "under_or_equal_2_5" := 1.0 - lead]
    case Over35 => map["over_3_5" := lead, "under_or_equal_3_5" := 1.0 - lead]
    case BothTeamsScore => map["btts_yes" := lead, "btts_no" := 1.0 - lead]
    case _ => map[]
  }

  /** The support has base markets only. */
  predicate AllBase(support: set<Market>) { forall m | m in support :: IsBase(m) }

  function Pricing(support: set<Market>, lead: real): Prediction {
    map m | m in support :: Prices(m, lead)
  }

  /** Component `i` is right about the markets it prices, the others are wrong about theirs. */
  function Opposed(supports: seq<set<Market>>, i: nat): (r: seq<Prediction>)
    ensures |r| == |supports|
  {
    seq(|supports|, k requires 0 <= k < |supports| => Pricing(supports[k], if k == i then 0.99 else 0.01))
  }

  /** The components price exactly the base markets of the pattern. */
  ghost predicate Fits(results: seq<Prediction>, supports: seq<set<Market>>) {
    && |results| == |supports|
    && forall k, m | 0 <= k < |results| && IsBase(m) :: Present([results[k]], m, Selections(m)) <==> m in supports[k]
  }

  predicate CoversPattern(supports: seq<set<Market>>, i: nat)
    requires i < |supports|
  {
    forall k | 0 <= k < |supports| :: supports[k] <= supports[i]
  }

  lemma {:induction false} PresentOnlyIn(results: seq<Prediction>, m: Market, keys: seq<string>)
    ensures Present(results, m, keys) <==> exists k | 0 <= k < |results| :: Present([results[k]], m, keys)
  {
    if Present(results, m, keys) {
      var x, k :| 0 <= x < |keys| && 0 <= k < |results| && Has(results[k], m, keys[x]);
      assert Has([results[k]][0], m, keys[x]);
      assert Priced([results[k]], m, keys[x]);
    }
    if k :| 0 <= k < |results| && Present([results[k]], m, keys) { PresentInOne(results, k, m, keys); }
  }

  /** Coverage of an item is a matter of its pattern. */
  lemma {:induction false} CoverageOfPattern(results: seq<Prediction>, supports: seq<set<Market>>, i: nat)
    requires Fits(results, supports) && i < |supports| && forall k | 0 <= k < |supports| :: AllBase(supports[k])
    ensures Covers(results, i) <==> CoversPattern(supports, i)
  {
    hide Present, Selections;
    forall m | IsBase(m)
      ensures Present(results, m, Selections(m)) <==> exists k | 0 <= k < |supports| :: m in supports[k]
      ensures exists x :: 0 <= x < |COMPARISON| && COMPARISON[x] == m
    {
      PresentOnlyIn(results, m, Selections(m));
      Bases(m);
      if k :| 0 <= k < |supports| && m in supports[k] { assert Present([results[k]], m, Selections(m)); }
    }
    if Covers(results, i) {
      forall k, m | 0 <= k < |supports| && m in supports[k] ensures m in supports[i] {
        assert Present(results, m, Selections(m));
        var x :| 0 <= x < |COMPARISON| && COMPARISON[x] == m;
        assert Present([results[i]], COMPARISON[x], Selections(COMPARISON[x]));
      }
    }
  }

  lemma {:induction false} OpposedFits(supports: seq<set<Market>>, i: nat)
    requires forall k | 0 <= k < |supports| :: AllBase(supports[k])
    ensures Fits(Opposed(supports, i), supports)
  {
    var results := Opposed(supports, i);
    forall k, m | 0 <= k < |results| && IsBase(m)
      ensures Present([results[k]], m, Selections(m)) <==> m in supports[k]
    {
      if m in supports[k] {
        PricesAll(m, if k == i then 0.99 else 0.01);
        assert Has([results[k]][0], m, Selections(m)[0]);
        assert Priced([results[k]], m, Selections(m)[0]);
      }
    }
  }

  lemma {:induction false} PricesAll(m: Market, lead: real)
    requires IsBase(m)
    ensures forall key :: key in Prices(m, lead) <==> key in Selections(m)
    ensures Prices(m, lead)[Selections(m)[0]] == lead
  {
    assert "home_win"[0] != "draw"[0] && "home_win"[0] != "away_win"[0] && "draw"[0] != "away_win"[0];
  }

  // ---------------------------------------------------------------- the component that is right

  /** The lookups of a market averaged from one fully priced component. */
  lemma {:induction false} OwnLookup(support: set<Market>, m: Market, key: string)
    requires m in support && IsBase(m) && key in Selections(m)
    ensures key in Prices(m, 0.99)
    ensures Lookup(Averages([Pricing(support, 0.99)], [1.0], m, Selections(m)), key) == Prices(m, 0.99)[key]
  {
    hide Selections, Prices;
    PricesAll(m, 0.99);
    SingleLookup(Pricing(support, 0.99), m, key);
  }

  lemma {:induction false} RightBinary(values: map<string, real>, m: Market, key: string, other: string)
    requires Lookup(values, key) == 0.99 && Lookup(values, other) == 0.01
    requires Actual(m, HIGH_SCORING, key) == 1.0 && Actual(m, HIGH_SCORING, other) == 0.0
    ensures MarketError(values, m, HIGH_SCORING, [key, other]) / 2.0 <= 0.001
    ensures MarketError(values, m, HIGH_SCORING, [other, key]) / 2.0 <= 0.001
  {
    hide Lookup, Actual;
    TwoKeys(values, m, HIGH_SCORING, key, other);
    TwoKeys(values, m, HIGH_SCORING, other, key);
  }

  /** A base market averaged from one component that is right about it. */
  ghost predicate RightBase(averaged: Prediction, b: Market) {
    && b in averaged
    && forall key | key in Selections(b) :: key in Prices(b, 0.99) && Lookup(averaged[b], key) == Prices(b, 0.99)[key]
  }

  /** The coherent entries of a market priced right are right. */
  lemma {:induction false} RightMarket(averaged: Prediction, m: Market)
    requires m in COMPARISON && RightBase(averaged, BaseOf(m))
    ensures MarketError(Entries(averaged, m), m, HIGH_SCORING, Selections(m)) / |Selections(m)| as real <= 0.001
  {
    hide MarketError, Lookup, Entries, Results, Prices, RightBase;
    if BaseOf(m) == ResultMarket {
      RightResults(averaged);
      RightThree(averaged, m);
    } else {
      RightLead(averaged, BaseOf(m));
      RightTwo(averaged, m);
    }
  }

  lemma {:induction false} RightLead(averaged: Prediction, b: Market)
    requires IsBase(b) && RightBase(averaged, b)
    ensures b in averaged && Lookup(averaged[b], Leading(b)) == 0.99
  {
    hide Lookup, Prices;
    PricesAll(b, 0.99);
    assert Leading(b) in Selections(b);
  }

  lemma {:induction false} RightThree(averaged: Prediction, m: Market)
    requires m == ResultMarket || m == DoubleChance
    requires ResultMarket in averaged && Results(averaged[ResultMarket]) == (0.99, 0.005, 0.005)
    ensures MarketError(Entries(averaged, m), m, HIGH_SCORING, Selections(m)) / 3.0 <= 0.001
  {
    hide MarketError, Results;
    var values, keys := Entries(averaged, m), Selections(m);
    ThreeKeys(values, m, HIGH_SCORING, keys[0], keys[1], keys[2]);
    assert "home_win"[0] != "draw"[0] && "home_win"[0] != "away_win"[0] && "draw"[0] != "away_win"[0];
    assert "1x"[1] != "12"[1] && "1x"[0] != "x2"[0] && "12"[0] != "x2"[0];
    assert SquaredError(values, m, HIGH_SCORING, keys[0]) <= 0.0001;
    assert SquaredError(values, m, HIGH_SCORING, keys[1]) <= 0.0001;
    assert SquaredError(values, m, HIGH_SCORING, keys[2]) <= 0.0001;
  }

  lemma {:induction false} RightTwo(averaged: Prediction, m: Market)
    requires m in COMPARISON && BaseOf(m) in averaged && BaseOf(m) != ResultMarket
    requires Lookup(averaged[BaseOf(m)], Leading(BaseOf(m))) == 0.99
    ensures |Selections(m)| == 2 && MarketError(Entries(averaged, m), m, HIGH_SCORING, Selections(m)) / 2.0 <= 0.001
  {
    hide MarketError, Lookup;
    var values, keys := Entries(averaged, m), Selections(m);
    assert Bound(averaged[BaseOf(m)], Leading(BaseOf(m))) == 0.99;
    RightEntries(averaged, m);
    if m == Under25 || m == Under35 {
      RightBinary(values, m, keys[1], keys[0]);
    } else {
      RightBinary(values, m, keys[0], keys[1]);
    }
  }

  lemma {:induction false} RightEntries(averaged: Prediction, m: Market)
    requires m in COMPARISON && BaseOf(m) in averaged && BaseOf(m) != ResultMarket
    requires Bound(averaged[BaseOf(m)], Leading(BaseOf(m))) == 0.99
    ensures
      var over := if m == Under25 || m == Under35 then 1 else 0;
      && |Selections(m)| == 2
      && Lookup(Entries(averaged, m), Selections(m)[over]) == 0.99
      && Lookup(Entries(averaged, m), Selections(m)[1 - over]) == 0.01
      && Actual(m, HIGH_SCORING, Selections(m)[over]) == 1.0 && Actual(m, HIGH_SCORING, Selections(m)[1 - over]) == 0.0
  {
    hide Bound;
    assert "over_1_5"[0] != "under_or_equal_1_5"[0] && "over_2_5"[0] != "under_or_equal_2_5"[0];
    assert "over_3_5"[0] != "under_or_equal_3_5"[0] && "btts_yes"[5] != "btts_no"[5];
    assert "under_2_5"[0] != "over_or_equal_2_5"[0] && "under_3_5"[0] != "over_or_equal_3_5"[0];
  }

  lemma {:induction false} RightResults(averaged: Prediction)
    requires RightBase(averaged, ResultMarket)
    ensures ResultMarket in averaged && Results(averaged[ResultMarket]) == (0.99, 0.005, 0.005)
  {
    hide Lookup;
    var keys := Selections(ResultMarket);
    assert keys[0] in keys && keys[1] in keys && keys[2] in keys;
    assert "home_win"[0] != "draw"[0] && "home_win"[0] != "away_win"[0] && "draw"[0] != "away_win"[0];
    var total := 0.99 + 0.005 + 0.005;
    assert total == 1.0 && 0.99 / total == 0.99 && 0.005 / total == 0.005;
  }

  /** On its own the component that is right scores well. */
  lemma {:induction false} RightOnItsOwn(support: set<Market>, m: Market)
    requires AllBase(support) && m in Projection(Pricing(support, 0.99))
    ensures MarketBrier(Projection(Pricing(support, 0.99)), m, HIGH_SCORING) <= 0.001
  {
    hide Averages, Averaged, MarketError, Selections, Entries, Prices, Lookup;
    var own, b := Pricing(support, 0.99), BaseOf(m);
    CombinedMembers([own], [1.0], m);
    Bases(m);
    AveragedMembers([own], [1.0], COMPARISON, b);
    assert b in support;
    forall key | key in Selections(b)
      ensures key in Prices(b, 0.99)
      ensures Lookup(Averaged([own], [1.0], COMPARISON)[b], key) == Prices(b, 0.99)[key]
    {
      OwnLookup(support, b, key);
    }
    RightMarket(Averaged([own], [1.0], COMPARISON), m);
  }

  // ---------------------------------------------------------------- the market it does not price

  /** If whoever prices a selection gives it one value, so does every weighting, unless it gives it nothing. */
  lemma {:induction false} AgreedAverage(results: seq<Prediction>, weights: seq<real>, m: Market, key: string, v: real)
    requires |results| == |weights|
    requires forall k | 0 <= k < |results| && Has(results[k], m, key) :: results[k][m][key] == v
    ensures Average(results, weights, m, key)
         == if WeightSum(results, weights, m, key) > 0.0 then v else 0.0
  {
    hide Weighted, WeightSum, Has;
    AgreedSum(results, weights, m, key, v);
    ScaledQuotient(Weighted(results, weights, m, key), v, WeightSum(results, weights, m, key));
  }

  lemma {:induction false} ScaledQuotient(x: real, v: real, w: real)
    requires x == v * w
    ensures w > 0.0 ==> x / w == v
  {
  }

  lemma {:induction false} AgreedSum(results: seq<Prediction>, weights: seq<real>, m: Market, key: string, v: real)
    requires |results| == |weights|
    requires forall k | 0 <= k < |results| && Has(results[k], m, key) :: results[k][m][key] == v
    ensures Weighted(results, weights, m, key) == v * WeightSum(results, weights, m, key)
  {
    if results != [] {
      var n := |results| - 1;
      AgreedSum(results[..n], weights[..n], m, key, v);
      SumScaled(v, WeightSum(results[..n], weights[..n], m, key), weights[n]);
    }
  }

  lemma {:induction false} SumScaled(v: real, w: real, x: real)
    ensures v * (w + x) == v * w + x * v
  {
  }

  /** All selections of a market are weighted alike if its components price all of them. */
  lemma {:induction false} SameWeights(results: seq<Prediction>, weights: seq<real>, m: Market, a: string, b: string)
    requires |results| == |weights|
    requires forall k | 0 <= k < |results| :: Has(results[k], m, a) <==> Has(results[k], m, b)
    ensures WeightSum(results, weights, m, a) == WeightSum(results, weights, m, b)
  {
    if results != [] {
      var n := |results| - 1;
      SameWeights(results[..n], weights[..n], m, a, b);
    }
  }

  /** Outside the support of component `i` everyone is wrong. */
  lemma {:induction false} OpposedPrices(supports: seq<set<Market>>, i: nat, m: Market, key: string)
    requires i < |supports| && IsBase(m) && m !in supports[i] && key in Selections(m)
    ensures key in Prices(m, 0.01)
    ensures forall k | 0 <= k < |supports| :: Has(Opposed(supports, i)[k], m, key) <==> m in supports[k]
    ensures forall k | 0 <= k < |supports| && Has(Opposed(supports, i)[k], m, key) ::
              Opposed(supports, i)[k][m][key] == Prices(m, 0.01)[key]
  {
    hide Selections, Prices;
    PricesAll(m, 0.01);
  }

  /** So every weighting is wrong: the first selection, which comes out, is priced at a hundredth at most. */
  lemma {:induction false} WrongLookup(supports: seq<set<Market>>, i: nat, weights: seq<real>, m: Market)
    requires i < |supports| == |weights| && IsBase(m) && m !in supports[i]
    ensures
      var values := Averages(Opposed(supports, i), weights, m, Selections(m));
      if m == ResultMarket then Results(values).0 <= 0.01 else Bound(values, Leading(m)) <= 0.01
  {
    hide Averages, Average, WeightSum, Opposed, Results, Prices;
    var results, keys := Opposed(supports, i), Selections(m);
    forall key | key in keys
      ensures Lookup(Averages(results, weights, m, keys), key) == Average(results, weights, m, key)
      ensures key in Prices(m, 0.01)
      ensures Average(results, weights, m, key)
           == if WeightSum(results, weights, m, keys[0]) > 0.0 then Prices(m, 0.01)[key] else 0.0
    {
      LookupAverages(results, weights, m, keys, key);
      OpposedPrices(supports, i, m, key);
      OpposedPrices(supports, i, m, keys[0]);
      AgreedAverage(results, weights, m, key, Prices(m, 0.01)[key]);
      SameWeights(results, weights, m, keys[0], key);
    }
    PricesAll(m, 0.01);
    var values := Averages(results, weights, m, keys);
    assert keys[0] in keys;
    if m == ResultMarket {
      assert keys[1] in keys && keys[2] in keys;
      WrongResults(values, WeightSum(results, weights, m, keys[0]) > 0.0);
    }
  }

  lemma {:induction false} WrongResults(x2: map<string, real>, weighted: bool)
    requires forall key | key in Selections(ResultMarket) :: key in Prices(ResultMarket, 0.01)
    requires forall key | key in Selections(ResultMarket) ::
               Lookup(x2, key) == if weighted then Prices(ResultMarket, 0.01)[key] else 0.0
    ensures Results(x2).0 <= 0.01
  {
    var keys := Selections(ResultMarket);
    assert keys[0] in keys && keys[1] in keys && keys[2] in keys;
    assert "home_win"[0] != "draw"[0] && "home_win"[0] != "away_win"[0] && "draw"[0] != "away_win"[0];
    if weighted {
      assert 0.01 + 0.495 + 0.495 == 1.0 && 0.01 / 1.0 == 0.01;
    } else {
      assert 0.0 / 1.0 == 0.0;
    }
  }

  /** An uncovered market keeps the score of every weighting up. */
  lemma {:induction false} WrongWhateverTheWeights(supports: seq<set<Market>>, i: nat, weights: seq<real>, k: nat,
                                                   m: Market)
    requires i < |supports| == |weights| && IsBase(m) && m !in supports[i]
    requires k < |supports| && m in supports[k] && forall k | 0 <= k < |supports| :: AllBase(supports[k])
    ensures m in Combined(Opposed(supports, i), weights)
    ensures MarketBrier(Combined(Opposed(supports, i), weights), m, HIGH_SCORING) >= 0.3
  {
    hide Averages, Averaged, MarketError, Selections, Entries, Combined, Opposed, Results, Bound;
    var results := Opposed(supports, i);
    OpposedFits(supports, i);
    assert Present([results[k]], m, Selections(m));
    PresentInOne(results, k, m, Selections(m));
    Bases(m);
    CombinedMembers(results, weights, m);
    AveragedMembers(results, weights, COMPARISON, m);
    WrongLookup(supports, i, weights, m);
    var averaged := Averaged(results, weights, COMPARISON);
    assert Combined(results, weights)[m] == Entries(averaged, m) by { CombinedEntry(results, weights, m); }
    WrongEntry(averaged, m);
    WrongBrier(Entries(averaged, m), m);
  }

  lemma {:induction false} CombinedEntry(results: seq<Prediction>, weights: seq<real>, m: Market)
    requires |results| == |weights| && m in Combined(results, weights)
    ensures BaseOf(m) in Averaged(results, weights, COMPARISON)
    ensures Combined(results, weights)[m] == Entries(Averaged(results, weights, COMPARISON), m)
  {
    hide Averaged, Entries;
  }

  lemma {:induction false} WrongEntry(averaged: Prediction, m: Market)
    requires IsBase(m) && m in averaged
    requires if m == ResultMarket then Results(averaged[m]).0 <= 0.01 else Bound(averaged[m], Leading(m)) <= 0.01
    ensures Lookup(Entries(averaged, m), Selections(m)[0]) <= 0.01
  {
    hide Results, Bound;
    BaseEntries(averaged, m);
    assert Selections(m)[0] in Entries(averaged, m);
  }

  lemma {:induction false} WrongBrier(values: map<string, real>, m: Market)
    requires IsBase(m) && Lookup(values, Selections(m)[0]) <= 0.01
    ensures MarketError(values, m, HIGH_SCORING, Selections(m)) / |Selections(m)| as real >= 0.3
  {
    hide MarketError;
    var keys := Selections(m);
    assert |keys| <= 3;
    ErrorSign(values, m, HIGH_SCORING, keys, 0);
    FarFromOne(ClampProbability(Lookup(values, keys[0])));
    assert SquaredError(values, m, HIGH_SCORING, keys[0]) >= 0.98;
  }

  lemma {:induction false} FarFromOne(x: real)
    requires x <= 0.01
    ensures (x - 1.0) * (x - 1.0) >= 0.98
  {
  }

  // ---------------------------------------------------------------- the promise and its exact condition

  /** The score of component `i` on its own, made coherent. */
  function OwnBrier(item: Item, i: nat): Option<real>
    requires i < |item.perModel|
  {
    Mean(ScoreOf(Projection(item.perModel[i]), item.truth, COMPARISON))
  }

  /** Whatever weights are learnt on the item, they score no worse than component `i`. */
  ghost predicate NeverWorse(item: Item, i: nat, steps: nat)
    requires i < |item.perModel| && steps >= 1
  {
    var n := |item.perModel|;
    forall weights | weights in Grid(n, steps) && |weights| == n
      && (forall other | other in Grid(n, steps) && |other| == n ::
                !Less(Brier([item], other), Brier([item], weights))) ::
      !Less(OwnBrier(item, i), Brier([item], weights))
  }

  /** This holds of all prices and outcomes of items that price the markets of the pattern. */
  ghost predicate Promised(supports: seq<set<Market>>, i: nat, steps: nat)
    requires i < |supports| && steps >= 1
  {
    forall item: Item | Fits(item.perModel, supports) :: NeverWorse(item, i, steps)
  }

  lemma {:induction false} OneItem(item: Item, weights: seq<real>)
    requires |item.perModel| == |weights|
    ensures Brier([item], weights) == Mean(ScoreOf(Combined(item.perModel, weights), item.truth, COMPARISON))
  {
    hide Combined, ScoreOf;
    var pooled := [item];
    assert pooled[..0] == [];
    assert Predictions(pooled[..0], weights) == [] && Truths(pooled[..0]) == [];
    assert Predictions(pooled, weights) == [] + [Combined(item.perModel, weights)]
           && Truths(pooled) == [] + [item.truth];
    PooledSnoc([], [], Combined(item.perModel, weights), item.truth);
  }

  /**
   * Where component `i` prices some base market but not every base market priced, there are prices
   * and an outcome for which it beats every weighting.
   */
  lemma {:induction false} FewerMarketsCanWin(supports: seq<set<Market>>, i: nat) returns (item: Item)
    requires i < |supports| && forall k | 0 <= k < |supports| :: AllBase(supports[k])
    requires supports[i] != {} && !CoversPattern(supports, i)
    ensures Fits(item.perModel, supports)
    ensures forall weights: seq<real> | |weights| == |supports| :: Less(OwnBrier(item, i), Brier([item], weights))
  {
    item := Item(Opposed(supports, i), HIGH_SCORING);
    OpposedFits(supports, i);
    var k :| 0 <= k < |supports| && !(supports[k] <= supports[i]);
    var m :| m in supports[k] && m !in supports[i];
    forall weights: seq<real> | |weights| == |supports| ensures Less(OwnBrier(item, i), Brier([item], weights)) {
      OwnBeatsWeights(supports, i, weights, k, m);
    }
  }

  lemma {:induction false} OwnBeatsWeights(supports: seq<set<Market>>, i: nat, weights: seq<real>, k: nat, m: Market)
    requires i < |supports| == |weights| && supports[i] != {} && k < |supports|
    requires m in supports[k] && m !in supports[i] && forall k | 0 <= k < |supports| :: AllBase(supports[k])
    ensures
      var item := Item(Opposed(supports, i), HIGH_SCORING);
      Less(OwnBrier(item, i), Brier([item], weights))
  {
    hide ScoreOf, Combined, Projection, MarketBrier, Selections, Mean, Brier, Pricing;
    var item := Item(Opposed(supports, i), HIGH_SCORING);
    var learnt, own := Combined(item.perModel, weights), Projection(Pricing(supports[i], 0.99));
    OneItem(item, weights);
    WrongWhateverTheWeights(supports, i, weights, k, m);
    Bases(m);
    ScoreAtLeast(learnt, HIGH_SCORING, COMPARISON, m);
    ScoreCount(learnt, HIGH_SCORING, COMPARISON);
    forall m: Market | m in COMPARISON && m in own ensures MarketBrier(own, m, HIGH_SCORING) <= 0.001 {
      RightOnItsOwn(supports[i], m);
    }
    ScoreAtMost(own, HIGH_SCORING, COMPARISON, 0.001);
    OwnIsScored(supports, i);
    ScoreCount(own, HIGH_SCORING, COMPARISON);
    MeansApart(ScoreOf(own, HIGH_SCORING, COMPARISON), ScoreOf(learnt, HIGH_SCORING, COMPARISON));
  }

  lemma {:induction false} OwnIsScored(supports: seq<set<Market>>, i: nat)
    requires i < |supports| && supports[i] != {} && AllBase(supports[i])
    ensures exists k | 0 <= k < |COMPARISON| :: COMPARISON[k] in Projection(Pricing(supports[i], 0.99))
  {
    hide Combined, Selections, Prices;
    var own := Pricing(supports[i], 0.99);
    var m :| m in supports[i];
    Bases(m);
    PricesAll(m, 0.99);
    assert Has([own][0], m, Selections(m)[0]);
    assert Priced([own], m, Selections(m)[0]);
    CombinedMembers([own], [1.0], m);
  }

  lemma {:induction false} MeansApart(low: Score, high: Score)
    requires low.count > 0 && low.sum <= 0.001 * low.count as real
    requires 0 < high.count <= 8 && high.sum >= 0.3
    ensures Less(Mean(low), Mean(high))
  {
    QuotientAtMost(low.sum, low.count as real, 0.001);
    QuotientAtLeast(high.sum, high.count as real, 0.03);
  }

  lemma {:induction false} QuotientAtMost(x: real, n: real, v: real)
    requires n > 0.0 && x <= v * n
    ensures x / n <= v
  {
    assert v * n / n == v;
  }

  lemma {:induction false} QuotientAtLeast(x: real, n: real, v: real)
    requires n > 0.0 && x >= v * n
    ensures x / n >= v
  {
    assert v * n / n == v;
  }

  /** Among the first points of a grid there is one of least score. */
  lemma {:induction false} LeastOnGrid(item: Item, grid: seq<seq<real>>, n: nat) returns (best: seq<real>)
    requires 0 < n <= |grid| && forall j | 0 <= j < |grid| :: |grid[j]| == |item.perModel|
    ensures best in grid && |best| == |item.perModel|
    ensures forall j | 0 <= j < n :: !Less(Brier([item], grid[j]), Brier([item], best))
  {
    hide Brier;
    best := grid[n - 1];
    if n > 1 {
      var before := LeastOnGrid(item, grid, n - 1);
      if !Less(Brier([item], grid[n - 1]), Brier([item], before)) { best := before; }
    }
  }

  /**
   * On items where component `i` prices some base market, the learnt ensemble is never worse than it,
   * for all prices and outcomes, exactly when it prices every base market that is priced.
   */
  lemma {:induction false} CoverageIsExact(supports: seq<set<Market>>, i: nat, steps: nat)
    requires i < |supports| && steps >= 1 && forall k | 0 <= k < |supports| :: AllBase(supports[k])
    requires supports[i] != {}
    ensures Promised(supports, i, steps) <==> CoversPattern(supports, i)
  {
    hide Brier, OwnBrier, Grid, CoversPattern;
    if CoversPattern(supports, i) {
      forall item: Item | Fits(item.perModel, supports) ensures NeverWorse(item, i, steps) {
        CoveredPromise(supports, i, steps, item);
      }
    } else {
      UncoveredPromise(supports, i, steps);
    }
  }

  lemma {:induction false} CoveredPromise(supports: seq<set<Market>>, i: nat, steps: nat, item: Item)
    requires i < |supports| && steps >= 1 && forall k | 0 <= k < |supports| :: AllBase(supports[k])
    requires CoversPattern(supports, i) && Fits(item.perModel, supports)
    ensures NeverWorse(item, i, steps)
  {
    var n := |item.perModel|;
    CoverageOfPattern(item.perModel, supports, i);
    UnitWeightIsProjection(item.perModel, i);
    hide Grid, Combined, Projection, Covers, CoversPattern, Brier;
    GridHoldsUnits(n, steps, i);
    OneItem(item, Unit(n, i));
    assert OwnBrier(item, i) == Brier([item], Unit(n, i));
  }

  lemma {:induction false} UncoveredPromise(supports: seq<set<Market>>, i: nat, steps: nat)
    requires i < |supports| && steps >= 1 && forall k | 0 <= k < |supports| :: AllBase(supports[k])
    requires supports[i] != {} && !CoversPattern(supports, i)
    ensures !Promised(supports, i, steps)
  {
    hide Grid, CoversPattern, Brier, OwnBrier;
    var item := FewerMarketsCanWin(supports, i);
    var n := |supports|;
    var grid := Grid(n, steps);
    forall j | 0 <= j < |grid| ensures |grid[j]| == n { GridOnSimplex(n, steps, j); }
    GridHoldsUnits(n, steps, i);
    var best := LeastOnGrid(item, grid, |grid|);
    assert !NeverWorse(item, i, steps);
  }
}
