/**
 * Coherent combination of component predictions and the weights learnt for it
 * (backend/src/models/ensemble.ts, backend/src/models/foldScoring.ts, backend/src/models/types.ts).
 */
module Ensemble {
  import opened Records
  import opened Markets
  import opened SimplexGrid

  /** A prediction: probabilities by market and selection, for the markets the component supports. */
  type Prediction = map<Market, map<string, real>>

  const COMPARISON: seq<Market> :=
    [ResultMarket, Over15, Over25, Over35, Under25, Under35, BothTeamsScore, DoubleChance]

  /** The markets the others are derived from. */
  predicate IsBase(m: Market) {
    m == ResultMarket || m == Over15 || m == Over25 || m == Over35 || m == BothTeamsScore
  }

  function ClampProbability(value: real): real {
    var low := if value < 0.999999 then value else 0.999999;
    if low > 0.000001 then low else 0.000001
  }

  function Lookup(values: map<string, real>, key: string): real {
    if key in values then values[key] else 0.0
  }

  // ---------------------------------------------------------------- the weighted average

  predicate Has(p: Prediction, m: Market, key: string) { m in p && key in p[m] }

  /** What one component adds to the weighted sum. */
  function Share(p: Prediction, weight: real, m: Market, key: string): real {
    if Has(p, m, key) then weight * p[m][key] else 0.0
  }

  function Weighted(results: seq<Prediction>, weights: seq<real>, m: Market, key: string): real
    requires |results| == |weights|
  {
    if results == [] then 0.0
    else
      var n := |results| - 1;
      Weighted(results[..n], weights[..n], m, key) + Share(results[n], weights[n], m, key)
  }

  function WeightSum(results: seq<Prediction>, weights: seq<real>, m: Market, key: string): real
    requires |results| == |weights|
  {
    if results == [] then 0.0
    else
      var n := |results| - 1;
      WeightSum(results[..n], weights[..n], m, key) + (if Has(results[n], m, key) then weights[n] else 0.0)
  }

  function Average(results: seq<Prediction>, weights: seq<real>, m: Market, key: string): real
    requires |results| == |weights|
  {
    if WeightSum(results, weights, m, key) > 0.0
    then Weighted(results, weights, m, key) / WeightSum(results, weights, m, key) else 0.0
  }

  predicate Priced(results: seq<Prediction>, m: Market, key: string) {
    exists i | 0 <= i < |results| :: Has(results[i], m, key)
  }

  predicate Present(results: seq<Prediction>, m: Market, keys: seq<string>) {
    exists k | 0 <= k < |keys| :: Priced(results, m, keys[k])
  }

  function Averages(results: seq<Prediction>, weights: seq<real>, m: Market, keys: seq<string>): map<string, real>
    requires |results| == |weights|
  {
    if keys == [] then map[]
    else
      var n := |keys| - 1;
      Averages(results, weights, m, keys[..n])[keys[n] := Average(results, weights, m, keys[n])]
  }

  function Averaged(results: seq<Prediction>, weights: seq<real>, markets: seq<Market>): Prediction
    requires |results| == |weights|
  {
    if markets == [] then map[]
    else
      var n := |markets| - 1;
      var before := Averaged(results, weights, markets[..n]);
      if Present(results, markets[n], Selections(markets[n]))
      then before[markets[n] := Averages(results, weights, markets[n], Selections(markets[n]))] else before
  }

  // ---------------------------------------------------------------- coherence

  function Triple(home: real, draw: real): (real, real, real) {
    var h, d := ClampProbability(home), ClampProbability(draw);
    (h, d, ClampProbability(1.0 - h - d))
  }

  /** Home, draw and away after normalising; a zero total counts as one. */
  function Results(x2: map<string, real>): (real, real, real) {
    var sum := Lookup(x2, "home_win") + Lookup(x2, "draw") + Lookup(x2, "away_win");
    var total := if sum == 0.0 then 1.0 else sum;
    Triple(Lookup(x2, "home_win") / total, Lookup(x2, "draw") / total)
  }

  function ResultEntries(x2: map<string, real>): map<string, real> {
    var r := Results(x2);
    map["home_win" := r.0, "draw" := r.1, "away_win" := r.2]
  }

  function DoubleChanceEntries(x2: map<string, real>): map<string, real> {
    var r := Results(x2);
    map["1x" := ClampProbability(r.0 + r.1), "12" := ClampProbability(r.0 + r.2), "x2" := ClampProbability(r.1 + r.2)]
  }

  function Bound(values: map<string, real>, positive: string): real { ClampProbability(Lookup(values, positive)) }

  function Complement(values: map<string, real>, positive: string, negative: string): map<string, real> {
    map[positive := Bound(values, positive), negative := ClampProbability(1.0 - Bound(values, positive))]
  }

  /** An Under market mirrors its Over market. */
  function Mirror(over: map<string, real>, overKey: string, positive: string, negative: string): map<string, real> {
    map[positive := ClampProbability(1.0 - Bound(over, overKey)), negative := ClampProbability(Bound(over, overKey))]
  }

  /** The base market a coherent market is derived from. */
  function BaseOf(m: Market): Market {
    match m
    case DoubleChance => ResultMarket
    case Under25 => Over25
    case Under35 => Over35
    case _ => m
  }

  function Entries(averaged: Prediction, m: Market): map<string, real>
    requires BaseOf(m) in averaged
  {
    var base := averaged[BaseOf(m)];
    match m
    case ResultMarket => ResultEntries(base)
    case DoubleChance => DoubleChanceEntries(base)
    case Over15 => Complement(base, "over_1_5", "under_or_equal_1_5")
    case Over25 => Complement(base, "over_2_5", "under_or_equal_2_5")
    case Over35 => Complement(base, "over_3_5", "under_or_equal_3_5")
    case BothTeamsScore => Complement(base, "btts_yes", "btts_no")
    case Under25 => Mirror(base, "over_2_5", "under_2_5", "over_or_equal_2_5")
    case Under35 => Mirror(base, "over_3_5", "under_3_5", "over_or_equal_3_5")
    case _ => map[]
  }

  /** Every comparison market whose base was averaged. */
  function Coherent(averaged: Prediction): Prediction {
    map m | m in COMPARISON && BaseOf(m) in averaged :: Entries(averaged, m)
  }

  /** The markets of `done` that can be derived are in the result, with their coherent entries. */
  ghost predicate Built(result: Prediction, averaged: Prediction, done: set<Market>) {
    && (forall m: Market :: m in result <==> m in done && BaseOf(m) in averaged)
    && (forall m: Market | m in result :: result[m] == Entries(averaged, m))
  }

  function Add(result: Prediction, averaged: Prediction, m: Market): Prediction {
    if BaseOf(m) in averaged then result[m := Entries(averaged, m)] else result
  }

  lemma {:induction false} AddBuilds(result: Prediction, averaged: Prediction, done: set<Market>, m: Market)
    requires Built(result, averaged, done)
    ensures Built(Add(result, averaged, m), averaged, done + {m})
  {
    hide Entries, BaseOf;
  }

  lemma {:induction false} BuiltIsCoherent(result: Prediction, averaged: Prediction, done: set<Market>)
    requires Built(result, averaged, done) && forall m: Market :: m in done <==> m in COMPARISON
    ensures result == Coherent(averaged)
  {
    hide Entries, BaseOf;
  }

  /** Adding the coherent markets one by one, in any order that covers them, gives the coherent prediction. */
  lemma {:induction false} AddAll(averaged: Prediction, result: Prediction)
    requires result == Add(Add(Add(Add(Add(Add(Add(Add(map[], averaged, ResultMarket), averaged, DoubleChance),
          averaged, Over15),
                               averaged, Over25), averaged, Over35), averaged, BothTeamsScore), averaged, Under25),
                                     averaged, Under35)
    ensures result == Coherent(averaged)
  {
    hide Add, Built, Coherent;
    var r: Prediction := map[];
    StartBuilt(averaged);
    AddBuilds(r, averaged, {}, ResultMarket);
    r := Add(r, averaged, ResultMarket);
    AddBuilds(r, averaged, {} + {ResultMarket}, DoubleChance);
    r := Add(r, averaged, DoubleChance);
    AddBuilds(r, averaged, {} + {ResultMarket} + {DoubleChance}, Over15);
    r := Add(r, averaged, Over15);
    AddBuilds(r, averaged, {} + {ResultMarket} + {DoubleChance} + {Over15}, Over25);
    r := Add(r, averaged, Over25);
    AddBuilds(r, averaged, {} + {ResultMarket} + {DoubleChance} + {Over15} + {Over25}, Over35);
    r := Add(r, averaged, Over35);
    AddBuilds(r, averaged, {} + {ResultMarket} + {DoubleChance} + {Over15} + {Over25} + {Over35}, BothTeamsScore);
    r := Add(r, averaged, BothTeamsScore);
    var most := {} + {ResultMarket} + {DoubleChance} + {Over15} + {Over25} + {Over35} + {BothTeamsScore};
    AddBuilds(r, averaged, most, Under25);
    r := Add(r, averaged, Under25);
    AddBuilds(r, averaged, most + {Under25}, Under35);
    r := Add(r, averaged, Under35);
    BuiltIsCoherent(r, averaged, most + {Under25} + {Under35});
  }

  lemma {:induction false} StartBuilt(averaged: Prediction)
    ensures Built(map[], averaged, {})
  {
    hide Entries, BaseOf;
  }

  /** `bindComplement`; `None` when the market was not averaged. */
  method BindComplement(result: Prediction, averaged: Prediction, m: Market, positive: string, negative: string)
    returns (next: Prediction, probability: Option<real>)
    ensures if m in averaged
            then next == result[m := Complement(averaged[m], positive, negative)]
              && probability == Some(Bound(averaged[m], positive))
            else next == result && probability == None
  {
    if m !in averaged { return result, None; }
    var p := ClampProbability(Lookup(averaged[m], positive));
    next := result[m := map[positive := p, negative := ClampProbability(1.0 - p)]];
    probability := Some(p);
  }

  method EnforceCoherence(averaged: Prediction) returns (result: Prediction)
    ensures result == Coherent(averaged)
  {
    hide ClampProbability, Complement, ResultEntries, DoubleChanceEntries, Results, Bound, Coherent, Built;
    result := map[];
    if ResultMarket in averaged {
      result := result[ResultMarket := ResultEntries(averaged[ResultMarket])];
      result := result[DoubleChance := DoubleChanceEntries(averaged[ResultMarket])];
    }
    var over15, over25, over35, btts;
    result, over15 := BindComplement(result, averaged, Over15, "over_1_5", "under_or_equal_1_5");
    result, over25 := BindComplement(result, averaged, Over25, "over_2_5", "under_or_equal_2_5");
    result, over35 := BindComplement(result, averaged, Over35, "over_3_5", "under_or_equal_3_5");
    result, btts := BindComplement(result, averaged, BothTeamsScore, "btts_yes", "btts_no");
    if over25.Some? {
      result :=
        result[Under25 := map["under_2_5" := ClampProbability(1.0 - over25.value),
                              "over_or_equal_2_5" := ClampProbability(over25.value)]];
    }
    if over35.Some? {
      result :=
        result[Under35 := map["under_3_5" := ClampProbability(1.0 - over35.value),
                              "over_or_equal_3_5" := ClampProbability(over35.value)]];
    }
    AddAll(averaged, result);
  }

  lemma {:induction false} NoShare(p: Prediction, weight: real, m: Market, key: string)
    requires !Has(p, m, key)
    ensures Share(p, weight, m, key) == 0.0
  {
  }

  method AverageSelection(results: seq<Prediction>, weights: seq<real>, m: Market, key: string)
    returns (value: real, present: bool)
    requires |results| == |weights|
    ensures value == Average(results, weights, m, key) && present == Priced(results, m, key)
  {
    hide Share;
    var weighted, weightSum := 0.0, 0.0;
    present := false;
    for i := 0 to |results|
      invariant weighted == Weighted(results[..i], weights[..i], m, key)
      invariant weightSum == WeightSum(results[..i], weights[..i], m, key)
      invariant present == exists j | 0 <= j < i :: Has(results[j], m, key)
    {
      assert results[..i + 1][..i] == results[..i] && weights[..i + 1][..i] == weights[..i];
      if Has(results[i], m, key) {
        weighted := weighted + Share(results[i], weights[i], m, key);
        weightSum := weightSum + weights[i];
        present := true;
      } else {
        NoShare(results[i], weights[i], m, key);
      }
    }
    assert results[..|results|] == results && weights[..|results|] == weights;
    value := if weightSum > 0.0 then weighted / weightSum else 0.0;
  }

  method AverageMarket(results: seq<Prediction>, weights: seq<real>, m: Market)
    returns (values: map<string, real>, present: bool)
    requires |results| == |weights|
    ensures values == Averages(results, weights, m, Selections(m)) && present == Present(results, m, Selections(m))
  {
    hide Average, Priced, Selections;
    var keys := Selections(m);
    values := map[];
    present := false;
    for k := 0 to |keys|
      invariant values == Averages(results, weights, m, keys[..k])
      invariant present == exists j | 0 <= j < k :: Priced(results, m, keys[j])
    {
      assert keys[..k + 1][..k] == keys[..k];
      var value, found := AverageSelection(results, weights, m, keys[k]);
      values := values[keys[k] := value];
      present := present || found;
    }
    assert keys[..|keys|] == keys;
  }

  function Combined(results: seq<Prediction>, weights: seq<real>): Prediction
    requires |results| == |weights|
  {
    Coherent(Averaged(results, weights, COMPARISON))
  }

  method CombineCoherent(results: seq<Prediction>, weights: seq<real>) returns (prediction: Prediction)
    requires |results| == |weights|
    ensures prediction == Combined(results, weights)
  {
    hide Averages, Present, Selections, Coherent;
    var averaged: Prediction := map[];
    for n := 0 to |COMPARISON|
      invariant averaged == Averaged(results, weights, COMPARISON[..n])
    {
      assert COMPARISON[..n + 1][..n] == COMPARISON[..n];
      var values, present := AverageMarket(results, weights, COMPARISON[n]);
      if present { averaged := averaged[COMPARISON[n] := values]; }
    }
    assert COMPARISON[..|COMPARISON|] == COMPARISON;
    prediction := EnforceCoherence(averaged);
  }
}
