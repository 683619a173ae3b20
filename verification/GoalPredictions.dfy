/**
 * The predictions of the two goal models (backend/src/models/poisson.ts:87-140): rates are clamped to
 * [0.15, 6] and rho is 0 or -0.05.
 */
module GoalPredictions {
  import opened GoalDistribution
  import opened GoalMarkets

  /** Predicting from two strengths, as the Poisson family of models does. */
  method PredictMatch(exp: real -> Positive, homeStrength: real, awayStrength: real, rho: real) returns (prices: Prices)
    ensures prices
            == MarketsOf(Normalised(Params(exp, ClampLambda(homeStrength), ClampLambda(awayStrength), rho)), SIZE, SIZE)
  {
    hide MarketsOf, Normalised;
    var p := Params(exp, ClampLambda(homeStrength), ClampLambda(awayStrength), rho);
    var expectedHome, expectedAway, homeMarginal, awayMarginal, matrix := ComputeDistribution(p);
    prices := MarketsFromDistribution(matrix, Normalised(p));
  }

  /** Every prediction of the family is coherent, whatever the strengths and rho. */
  lemma {:induction false} PredictionsAreCoherent(p: Params)
    ensures var m := MarketsOf(Normalised(p), SIZE, SIZE);
            && m.over15.positive >= m.over25.positive >= m.over35.positive
              && m.bothTeamsScore.positive <= m.over15.positive
            && 1.0 <= m.homeWin + m.draw + m.awayWin <= 1.000002
  {
    hide MarketsOf, Normalised;
    SumsToOne(p);
    MarketsAreCoherent(Normalised(p), SIZE, SIZE);
    OneXTwo(Normalised(p), SIZE, SIZE);
  }

  // ---------------------------------------------------------------- how small an away win can be

  /** Rates and rho between those of the two models. */
  predicate Configured(p: Params) {
    0.15 <= p.home <= 6.0 && 0.15 <= p.away <= 6.0 && DIXON_COLES_RHO <= p.rho <= 0.0
  }

  lemma {:induction false} ConfiguredUnclamped(p: Params)
    requires Configured(p)
    ensures Unclamped(p) && Tau(p, 0, 1) >= 0.7
  {
    Product(p.home, p.away);
    NotPositive(p.home * p.away, p.rho);
    SmallCorrection(p.home, p.rho);
    SmallCorrection(p.away, p.rho);
  }

  lemma {:induction false} NotPositive(x: real, rho: real)
    requires x >= 0.0 && rho <= 0.0
    ensures x * rho <= 0.0
  {
  }

  lemma {:induction false} SmallCorrection(x: real, rho: real)
    requires 0.0 <= x <= 6.0 && -0.05 <= rho <= 0.0
    ensures -0.3 <= x * rho <= 0.0
  {
    NotPositive(x, rho);
    NotPositive(x, -0.05 - rho);
    assert x * (-0.05 - rho) == -0.05 * x - x * rho;
  }

  /** One more goal is `lambda / (k + 1)` times as likely. */
  lemma {:induction false} NextGoal(exp: real -> Positive, lambda: real, k: nat)
    requires lambda >= MIN_RATE
    ensures Pmf(exp, lambda, k + 1) == lambda / (k + 1) as real * Pmf(exp, lambda, k)
  {
    var e, n := exp(-lambda), (k + 1) as real;
    assert Rate(lambda) == lambda;
    MoveFactor(lambda, Power(lambda, k), e, n, Factorial(k));
  }

  lemma {:induction false} MoveFactor(lambda: real, power: real, e: real, n: real, factorial: real)
    requires n > 0.0 && factorial > 0.0
    ensures factorial * n > 0.0 && lambda * power * e / (factorial * n) == lambda / n * (power * e / factorial)
  {
    Product(factorial, n);
    var q := power * e / factorial;
    assert q * factorial == power * e;
    assert lambda / n * n == lambda;
    calc {
      (lambda / n * q) * (factorial * n);
      (lambda / n * n) * (q * factorial);
      lambda * (power * e);
      lambda * power * e;
    }
    DivideOut(lambda * power * e, factorial * n, lambda / n * q);
  }

  lemma {:induction false} DivideOut(x: real, d: real, r: real)
    requires d > 0.0 && r * d == x
    ensures x / d == r
  {
  }

  /** Bounds of the likelihoods up to six expected goals, by the likelihood of no goal and of one goal. */
  function FromNone(k: nat): real { if k == 0 then 1.0 else FromNone(k - 1) * 6.0 / k as real }

  function FromOne(k: nat): real {
    if k == 0 then 20.0 / 3.0 else if k == 1 then 1.0 else FromOne(k - 1) * 6.0 / k as real
  }

  lemma {:induction false} Grows(x: real, lambda: real, n: real, bound: real, unit: real)
    requires 0.0 <= x <= bound * unit && 0.0 <= lambda <= 6.0 && n > 0.0
    ensures 0.0 <= lambda / n * x <= bound * 6.0 / n * unit
  {
    assert lambda / n <= 6.0 / n;
    assert lambda / n >= 0.0;
    assert lambda / n * x <= 6.0 / n * x <= 6.0 / n * (bound * unit);
    assert 6.0 / n * (bound * unit) == bound * 6.0 / n * unit;
  }

  lemma {:induction false} HomeBound(exp: real -> Positive, lambda: real, k: nat)
    requires 0.15 <= lambda <= 6.0
    ensures Pmf(exp, lambda, k) <= FromNone(k) * Pmf(exp, lambda, 0)
  {
    if k > 0 {
      hide Pmf;
      HomeBound(exp, lambda, k - 1);
      NextGoal(exp, lambda, k - 1);
      Grows(Pmf(exp, lambda, k - 1), lambda, k as real, FromNone(k - 1), Pmf(exp, lambda, 0));
    }
  }

  lemma {:induction false} AwayBound(exp: real -> Positive, mu: real, k: nat)
    requires 0.15 <= mu <= 6.0
    ensures Pmf(exp, mu, k) <= FromOne(k) * Pmf(exp, mu, 1)
  {
    hide Pmf;
    if k == 0 {
      FirstGoal(exp, mu);
      assert 20.0 / 3.0 * (mu * Pmf(exp, mu, 0)) == (20.0 / 3.0 * mu) * Pmf(exp, mu, 0);
      AtLeastOnce(20.0 / 3.0 * mu, Pmf(exp, mu, 0));
    } else if k > 1 {
      AwayBound(exp, mu, k - 1);
      NextGoal(exp, mu, k - 1);
      Grows(Pmf(exp, mu, k - 1), mu, k as real, FromOne(k - 1), Pmf(exp, mu, 1));
    }
  }

  lemma {:induction false} AtLeastOnce(c: real, x: real)
    requires c >= 1.0 && x >= 0.0
    ensures c * x >= x
  {
  }

  function SumFromNone(n: nat): real { if n == 0 then 0.0 else SumFromNone(n - 1) + FromNone(n - 1) }

  function SumFromOne(n: nat): real { if n == 0 then 0.0 else SumFromOne(n - 1) + FromOne(n - 1) }

  lemma {:induction false} Constants()
    ensures 0.0 <= SumFromNone(SIZE) <= 387.0 && 0.0 <= SumFromOne(SIZE) <= 71.0
  {
    assert FromNone(1) == 6.0 && FromNone(2) == 18.0 && FromNone(3) == 36.0 && FromNone(4) == 54.0;
    assert FromNone(5) == 64.8 && FromNone(6) == 64.8;
    assert 55.54 <= FromNone(7) <= 55.55 && 41.65 <= FromNone(8) <= 41.67;
    assert 27.7 <= FromNone(9) <= 27.8 && 16.6 <= FromNone(10) <= 16.7;
    assert FromOne(2) == 3.0 && FromOne(3) == 6.0 && FromOne(4) == 9.0 && FromOne(5) == 10.8 && FromOne(6) == 10.8;
    assert 9.25 <= FromOne(7) <= 9.26 && 6.9 <= FromOne(8) <= 6.95;
    assert 4.6 <= FromOne(9) <= 4.64 && 2.7 <= FromOne(10) <= 2.79;
    assert SumFromNone(3) == 25.0 && SumFromNone(6) == 179.8 && SumFromNone(8) <= 300.2;
    assert SumFromOne(3) == 20.0 / 3.0 + 4.0 && SumFromOne(6) == 20.0 / 3.0 + 29.8 && SumFromOne(8) <= 56.6;
  }

  lemma {:induction false} RowAtMost(p: Params, home: nat, n: nat)
    requires Configured(p) && p.rho == 0.0
    ensures RowMass(Raw(p), home, n) <= Pmf(p.exp, p.home, home) * (SumFromOne(n) * Pmf(p.exp, p.away, 1))
  {
    hide Pmf, FromOne;
    var x, unit := Pmf(p.exp, p.home, home), Pmf(p.exp, p.away, 1);
    if n > 0 {
      RowAtMost(p, home, n - 1);
      AwayBound(p.exp, p.away, n - 1);
      IndependentCell(p, home, n - 1);
      Widen(x, Pmf(p.exp, p.away, n - 1), FromOne(n - 1), SumFromOne(n - 1), unit);
    } else {
      Zero(x, unit);
    }
  }

  lemma {:induction false} Zero(x: real, unit: real)
    ensures x * (0.0 * unit) == 0.0 && 0.0 * unit == 0.0
  {
  }

  lemma {:induction false} IndependentCell(p: Params, home: nat, away: nat)
    requires p.rho == 0.0
    ensures Raw(p)(home, away) == Pmf(p.exp, p.home, home) * Pmf(p.exp, p.away, away)
  {
    hide Pmf;
    assert Tau(p, home, away) == 1.0;
  }

  lemma {:induction false} Widen(x: real, y: real, bound: real, sum: real, unit: real)
    requires x >= 0.0 && y <= bound * unit
    ensures x * y + x * (sum * unit) <= x * ((sum + bound) * unit)
  {
    assert x * y <= x * (bound * unit);
    assert (sum + bound) * unit == sum * unit + bound * unit;
  }

  lemma {:induction false} TotalAtMost(p: Params, rows: nat)
    requires Configured(p) && p.rho == 0.0
    ensures Mass(Raw(p), rows, SIZE)
         <= (SumFromOne(SIZE) * Pmf(p.exp, p.away, 1)) * (SumFromNone(rows) * Pmf(p.exp, p.home, 0))
  {
    hide Pmf, FromNone, FromOne, Raw, SumFromOne;
    var y, unit := SumFromOne(SIZE) * Pmf(p.exp, p.away, 1), Pmf(p.exp, p.home, 0);
    Constants();
    Product(Pmf(p.exp, p.away, 1), SumFromOne(SIZE));
    if rows > 0 {
      TotalAtMost(p, rows - 1);
      RowAtMost(p, rows - 1, SIZE);
      HomeBound(p.exp, p.home, rows - 1);
      Widen(y, Pmf(p.exp, p.home, rows - 1), FromNone(rows - 1), SumFromNone(rows - 1), unit);
      assert Pmf(p.exp, p.home, rows - 1) * y == y * Pmf(p.exp, p.home, rows - 1);
    } else {
      Zero(y, unit);
    }
  }

  /** The mass of an event is at least that of any score that it includes. */
  lemma {:induction false} RowAtLeast(e: Event, g: Grid, home: nat, away: nat, n: nat)
    requires NonNegative(g) && away < n && Occurs(e, home, away)
    ensures RowEventMass(e, g, home, n) >= g(home, away)
  {
    if n - 1 == away {
      RowImplies(e, e, g, home, n - 1);
    } else {
      RowAtLeast(e, g, home, away, n - 1);
    }
  }

  lemma {:induction false} EventAtLeast(e: Event, g: Grid, home: nat, away: nat, rows: nat, columns: nat)
    requires NonNegative(g) && home < rows && away < columns && Occurs(e, home, away)
    ensures EventMass(e, g, rows, columns) >= g(home, away)
  {
    if rows - 1 == home {
      MassImplies(e, e, g, rows - 1, columns);
      RowAtLeast(e, g, home, away, columns);
    } else {
      EventAtLeast(e, g, home, away, rows - 1, columns);
      RowImplies(e, e, g, rows - 1, columns);
    }
  }

  lemma {:induction false} CellOfOneNil(p: Params)
    requires Tau(p, 0, 1) >= 0.0
    ensures Raw(p)(0, 1) == Pmf(p.exp, p.home, 0) * Pmf(p.exp, p.away, 1) * Tau(p, 0, 1)
  {
    hide Pmf, Tau;
  }

  lemma {:induction false} ConfiguredTotal(p: Params)
    requires Configured(p)
    ensures Total(p) <= (SumFromOne(SIZE) * Pmf(p.exp, p.away, 1)) * (SumFromNone(SIZE) * Pmf(p.exp, p.home, 0))
  {
    hide Pmf, SumFromNone, SumFromOne, Mass, Raw, Tau;
    ConfiguredUnclamped(p);
    MarginalsOfPoisson(p, 0);
    TotalAtMost(Poisson(p), SIZE);
  }

  /** The share of the score 0-1. */
  lemma {:induction false} ShareOfOneNil(p: Params)
    requires Configured(p)
    ensures Normalised(p)(0, 1) >= 0.000002
  {
    hide Pmf, SumFromNone, SumFromOne, Total, Raw, Tau;
    TotalPositive(p);
    ConfiguredUnclamped(p);
    ConfiguredTotal(p);
    CellOfOneNil(p);
    Constants();
    ShareAtLeast(Total(p), Raw(p)(0, 1), Tau(p, 0, 1), SumFromNone(SIZE), SumFromOne(SIZE), Pmf(p.exp, p.home, 0),
                 Pmf(p.exp, p.away, 1));
  }

  lemma {:induction false} ShareAtLeast(total: real, cell: real, tau: real, rows: real, columns: real, x: real, y: real)
    requires total > 0.0 && x > 0.0 && y > 0.0 && tau >= 0.7
    requires 0.0 <= rows <= 387.0 && 0.0 <= columns <= 71.0
    requires total <= (columns * y) * (rows * x) && cell == x * y * tau
    ensures cell / total >= 0.000002
  {
    var unit := x * y;
    Product(x, y);
    assert (columns * y) * (rows * x) == (columns * rows) * unit;
    Factors(columns, rows);
    assert (columns * rows) * unit <= 30000.0 * unit;
    assert cell >= 0.7 * unit;
    assert 0.000002 * total <= cell;
    Ratio(cell, total, 0.000002);
  }

  lemma {:induction false} Factors(columns: real, rows: real)
    requires 0.0 <= rows <= 387.0 && 0.0 <= columns <= 71.0
    ensures columns * rows <= 30000.0
  {
    NotPositive(columns, rows - 387.0);
    assert columns * (rows - 387.0) == columns * rows - columns * 387.0;
  }

  lemma {:induction false} Ratio(x: real, t: real, v: real)
    requires t > 0.0 && v * t <= x
    ensures x / t >= v
  {
    assert v * t / t == v;
  }

  /**
   * Every prediction of the two models has a 1X2 that adds up to exactly one, and double chances that
   * are the exact complements of the third result.
   */
  lemma {:induction false} ConfiguredPredictionsSumToOne(exp: real -> Positive, homeStrength: real, awayStrength: real,
                                                         rho: real)
    requires rho == 0.0 || rho == DIXON_COLES_RHO
    ensures
      var p := Params(exp, ClampLambda(homeStrength), ClampLambda(awayStrength), rho);
      var m := MarketsOf(Normalised(p), SIZE, SIZE);
      && m.homeWin + m.draw + m.awayWin == 1.0
      && m.homeOrDraw == 1.0 - m.awayWin && m.homeOrAway == 1.0 - m.draw && m.drawOrAway == 1.0 - m.homeWin
  {
    hide Normalised, EventMass, Quantize, Mass;
    var p := Params(exp, ClampLambda(homeStrength), ClampLambda(awayStrength), rho);
    var g := Normalised(p);
    SumsToOne(p);
    ShareOfOneNil(p);
    EventAtLeast(AwayAhead, g, 0, 1, SIZE, SIZE);
    ResultsPartition(g, SIZE, SIZE);
    MassImplies(HomeAhead, Anything, g, SIZE, SIZE);
    MassImplies(Level, Anything, g, SIZE, SIZE);
    RoomForAway(EventMass(HomeAhead, g, SIZE, SIZE), EventMass(Level, g, SIZE, SIZE));
    OneXTwo(g, SIZE, SIZE);
    DoubleChanceComplements(g, SIZE, SIZE);
  }
}
