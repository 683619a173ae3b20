/**
 * What the goal distribution and its markets say about scores (backend/src/models/goalDistribution.ts),
 * cell by cell and price by price.
 */
module GoalGuarantees {
  import opened GoalDistribution
  import opened GoalMarkets
  import opened GoalPredictions
  import opened Rounding

  // ---------------------------------------------------------------- the cells

  function AtLeastMillionth(lambda: real): real { if lambda <= 1.0 / 1000000.0 then 1.0 / 1000000.0 else lambda }

  /** The Poisson probabilities by their recurrence: no goal, and one goal more. */
  lemma {:induction false} PoissonMeans(exp: real -> Positive, lambda: real, k: nat)
    ensures Pmf(exp, lambda, 0) == exp(-AtLeastMillionth(lambda))
    ensures Pmf(exp, lambda, k + 1) * (k + 1) as real == AtLeastMillionth(lambda) * Pmf(exp, lambda, k)
  {
    var safe := AtLeastMillionth(lambda);
    SameRate(exp, lambda, k);
    SameRate(exp, lambda, k + 1);
    SameRate(exp, lambda, 0);
    NoGoal(exp, safe);
    NextGoal(exp, safe, k);
    Undivide(safe, (k + 1) as real, Pmf(exp, safe, k));
  }

  lemma {:induction false} SameRate(exp: real -> Positive, lambda: real, k: nat)
    ensures Pmf(exp, lambda, k) == Pmf(exp, AtLeastMillionth(lambda), k)
  {
    assert Rate(lambda) == Rate(AtLeastMillionth(lambda));
  }

  lemma {:induction false} NoGoal(exp: real -> Positive, lambda: real)
    requires lambda >= MIN_RATE
    ensures Pmf(exp, lambda, 0) == exp(-lambda)
  {
    assert Power(Rate(lambda), 0) == 1.0 && Factorial(0) == 1.0;
  }

  lemma {:induction false} Undivide(lambda: real, n: real, x: real)
    requires n > 0.0
    ensures (lambda / n * x) * n == lambda * x
  {
    assert lambda / n * n == lambda;
  }

  /** A score is a low one when neither side has more than one goal: only there does the correction act. */
  predicate LowScore(home: nat, away: nat) { home <= 1 && away <= 1 }

  lemma {:induction false} HighScoreRaw(p: Params, home: nat, away: nat)
    requires !LowScore(home, away)
    ensures Raw(p)(home, away) == Pmf(p.exp, p.home, home) * Pmf(p.exp, p.away, away)
  {
    hide Pmf;
    assert Tau(p, home, away) == 1.0 && Clamped(1.0) == 1.0;
  }

  function Prod(x: real, y: real): real { x * y }

  lemma {:induction false} CrossScaled(x: real, y: real, t: real)
    requires t > 0.0
    ensures Prod(x / t, y) == Prod(y / t, x)
  {
    assert x / t * y * t == x * y && y / t * x * t == x * y;
  }

  /** Any two cells of the distribution stand to each other as their raw masses do. */
  lemma {:induction false} CellsKeepRatio(p: Params, home: nat, away: nat, home': nat, away': nat)
    ensures Prod(Normalised(p)(home, away), Raw(p)(home', away'))
         == Prod(Normalised(p)(home', away'), Raw(p)(home, away))
  {
    hide Raw, Total, Prod;
    TotalPositive(p);
    NormalisedCell(p, home, away);
    NormalisedCell(p, home', away');
    CrossScaled(Raw(p)(home, away), Raw(p)(home', away'), Total(p));
  }

  /** The factor the correction puts on a low score. */
  function LowFactor(p: Params, home: nat, away: nat): real
    requires LowScore(home, away)
  {
    if home == 0 then (if away == 0 then 1.0 - p.home * p.away * p.rho else 1.0 + p.home * p.rho)
    else (if away == 0 then 1.0 + p.away * p.rho else 1.0 - p.rho)
  }

  lemma {:induction false} LowScoreRaw(p: Params, home: nat, away: nat)
    requires LowScore(home, away)
    ensures Raw(p)(home, away)
         == (Pmf(p.exp, p.home, home) * Pmf(p.exp, p.away, away))
            * (if LowFactor(p, home, away) > 0.0 then LowFactor(p, home, away) else 0.0)
  {
    hide Pmf;
  }

  // ---------------------------------------------------------------- what rho does

  /**
   * The sign of rho is the sign of the dependence: with no factor clamped, 0-0 and 1-1 together are less
   * likely than 0-1 and 1-0 together, in the sense of their products, exactly for a positive rho, and
   * as likely exactly for rho zero.
   */
  lemma {:induction false} RhoMeans(p: Params)
    requires p.home >= MIN_RATE && p.away >= MIN_RATE && Unclamped(p)
    ensures
      var n := Normalised(p);
      && (Prod(n(0, 0), n(1, 1)) < Prod(n(0, 1), n(1, 0)) <==> p.rho > 0.0)
      && (Prod(n(0, 0), n(1, 1)) == Prod(n(0, 1), n(1, 0)) <==> p.rho == 0.0)
  {
    FactorsCompare(p.home, p.away, p.rho);
    FactorsRead(p);
    hide Pmf, Prod, Raw, Total, Normalised, Tau, Part;
    UnclampedCell(p, 0, 0);
    UnclampedCell(p, 0, 1);
    UnclampedCell(p, 1, 0);
    UnclampedCell(p, 1, 1);
    Scaling(Pmf(p.exp, p.home, 0), Pmf(p.exp, p.home, 1), Pmf(p.exp, p.away, 0), Pmf(p.exp, p.away, 1), Total(p),
            Tau(p, 0, 0), Tau(p, 0, 1), Tau(p, 1, 0), Tau(p, 1, 1));
  }

  lemma {:induction false} FactorsRead(p: Params)
    ensures Tau(p, 0, 0) == 1.0 - p.home * p.away * p.rho && Tau(p, 1, 1) == 1.0 - p.rho
    ensures Tau(p, 0, 1) == 1.0 + p.home * p.rho && Tau(p, 1, 0) == 1.0 + p.away * p.rho
  {
  }

  /** Two probabilities with a factor, as a part of the total. */
  function Part(x: real, y: real, factor: real, total: real): real
    requires total > 0.0
  {
    x * y * factor / total
  }

  lemma {:induction false} UnclampedCell(p: Params, home: nat, away: nat)
    requires Tau(p, home, away) >= 0.0
    ensures Total(p) > 0.0
    ensures Normalised(p)(home, away)
         == Part(Pmf(p.exp, p.home, home), Pmf(p.exp, p.away, away), Tau(p, home, away), Total(p))
  {
    hide Pmf, Tau, Total;
    TotalPositive(p);
    NormalisedCell(p, home, away);
  }

  /** The two products of factors, by the sign of rho. */
  lemma {:induction false} FactorsCompare(l: real, m: real, rho: real)
    requires l > 0.0 && m > 0.0
    requires 1.0 - l * m * rho >= 0.0 && 1.0 + l * rho >= 0.0 && 1.0 + m * rho >= 0.0 && 1.0 - rho >= 0.0
    ensures Prod(1.0 - l * m * rho, 1.0 - rho) < Prod(1.0 + l * rho, 1.0 + m * rho) <==> rho > 0.0
    ensures Prod(1.0 - l * m * rho, 1.0 - rho) == Prod(1.0 + l * rho, 1.0 + m * rho) <==> rho == 0.0
  {
    Product(l, m);
    SignOf(l * m, rho);
    SignOf(l, rho);
    SignOf(m, rho);
    var a, b, c, d := l * m * rho, rho, l * rho, m * rho;
    BelowOne(a, b);
    BelowOne(-c, -d);
  }

  lemma {:induction false} SignOf(x: real, rho: real)
    requires x > 0.0
    ensures x * rho > 0.0 <==> rho > 0.0
    ensures x * rho == 0.0 <==> rho == 0.0
  {
  }

  lemma {:induction false} BelowOne(a: real, b: real)
    requires 1.0 - a >= 0.0 && 1.0 - b >= 0.0
    ensures a > 0.0 && b > 0.0 ==> Prod(1.0 - a, 1.0 - b) < 1.0
    ensures a < 0.0 && b < 0.0 ==> Prod(1.0 - a, 1.0 - b) > 1.0
    ensures a == 0.0 && b == 0.0 ==> Prod(1.0 - a, 1.0 - b) == 1.0
  {
    ExpandBoth(a, b);
    if a > 0.0 && b > 0.0 {
      Shrinks(1.0 - a, b);
    } else if a < 0.0 && b < 0.0 {
      SignOf(-a, -b);
    }
  }

  lemma {:induction false} ExpandBoth(a: real, b: real)
    ensures Prod(1.0 - a, 1.0 - b) == 1.0 - a - b + -a * -b == 1.0 - a - (1.0 - a) * b
  {
  }

  lemma {:induction false} Shrinks(x: real, b: real)
    requires x >= 0.0 && b > 0.0
    ensures x * b >= 0.0
  {
  }

  lemma {:induction false} Scaling(h0: real, h1: real, a0: real, a1: real, t: real, t00: real, t01: real, t10: real,
                                   t11: real)
    requires h0 > 0.0 && h1 > 0.0 && a0 > 0.0 && a1 > 0.0 && t > 0.0
    ensures
      var even := Prod(Part(h0, a0, t00, t), Part(h1, a1, t11, t));
      var odd := Prod(Part(h0, a1, t01, t), Part(h1, a0, t10, t));
      && (even < odd <==> Prod(t00, t11) < Prod(t01, t10))
      && (even == odd <==> Prod(t00, t11) == Prod(t01, t10))
  {
    var c := h0 * a0 * (h1 * a1) / (t * t);
    PositiveFactor(h0, h1, a0, a1, t);
    Pairs(h0, a0, h1, a1, t, t00, t11);
    Pairs(h0, a1, h1, a0, t, t01, t10);
    assert h0 * a1 * (h1 * a0) == h0 * a0 * (h1 * a1);
    hide Prod, Part;
    OrderKept(c, Prod(t00, t11), Prod(t01, t10));
  }

  lemma {:induction false} PositiveFactor(h0: real, h1: real, a0: real, a1: real, t: real)
    requires h0 > 0.0 && h1 > 0.0 && a0 > 0.0 && a1 > 0.0 && t > 0.0
    ensures h0 * a0 * (h1 * a1) / (t * t) > 0.0
  {
    SignOf(h0, a0);
    SignOf(h1, a1);
    SignOf(h0 * a0, h1 * a1);
    SignOf(t, t);
    PositiveQuotient(h0 * a0 * (h1 * a1), t * t);
  }

  lemma {:induction false} PositiveQuotient(x: real, y: real)
    requires x > 0.0 && y > 0.0
    ensures x / y > 0.0
  {
  }

  lemma {:induction false} Pairs(x0: real, y0: real, x1: real, y1: real, t: real, u: real, v: real)
    requires t > 0.0
    ensures Prod(Part(x0, y0, u, t), Part(x1, y1, v, t)) == x0 * y0 * (x1 * y1) / (t * t) * Prod(u, v)
  {
    var x, y := x0 * y0, x1 * y1;
    var p, q, c := Part(x0, y0, u, t), Part(x1, y1, v, t), x * y / (t * t);
    Undone(x * u, t, p);
    Undone(y * v, t, q);
    SignOf(t, t);
    Undone(x * y, t * t, c);
    SquareTogether(p, q, t, x, y, u, v);
    Spread(c, t * t, x, y, u, v);
    SameScaled(p * q, c * (u * v), t * t, x * u * (y * v));
  }

  lemma {:induction false} Undone(x: real, t: real, q: real)
    requires t > 0.0 && q == x / t
    ensures q * t == x
  {
  }

  lemma {:induction false} SquareTogether(p: real, q: real, t: real, x: real, y: real, u: real, v: real)
    requires p * t == x * u && q * t == y * v
    ensures p * q * (t * t) == x * u * (y * v)
  {
    assert p * q * (t * t) == p * t * (q * t);
  }

  lemma {:induction false} Spread(c: real, s: real, x: real, y: real, u: real, v: real)
    requires c * s == x * y
    ensures c * (u * v) * s == x * u * (y * v)
  {
    assert c * (u * v) * s == c * s * (u * v);
    assert x * y * (u * v) == x * u * (y * v);
  }

  lemma {:induction false} SameScaled(a: real, b: real, s: real, z: real)
    requires s > 0.0 && a * s == z && b * s == z
    ensures a == b
  {
    assert (a - b) * s == 0.0;
  }

  lemma {:induction false} OrderKept(c: real, x: real, y: real)
    requires c > 0.0
    ensures c * x < c * y <==> x < y
    ensures c * x == c * y <==> x == y
  {
    SignOf(c, y - x);
    assert c * (y - x) == c * y - c * x;
  }

  // ---------------------------------------------------------------- expected goals

  /** The probability of at least `k` goals. */
  function AtLeast(marginal: seq<real>, k: nat): real
    decreases |marginal| - k
  {
    if k >= |marginal| then 0.0 else marginal[k] + AtLeast(marginal, k + 1)
  }

  /** The probabilities of at least one goal, at least two and so on, added up. */
  function TailSum(marginal: seq<real>, k: nat): real
    decreases |marginal| - k
  {
    if k >= |marginal| then 0.0 else AtLeast(marginal, k) + TailSum(marginal, k + 1)
  }

  lemma {:induction false} TailSnoc(marginal: seq<real>, x: real, k: nat)
    requires 1 <= k <= |marginal| + 1
    ensures k <= |marginal| ==> AtLeast(marginal + [x], k) == AtLeast(marginal, k) + x
    ensures TailSum(marginal + [x], k) == TailSum(marginal, k) + x * (|marginal| + 1 - k) as real
    decreases |marginal| - k
  {
    if k <= |marginal| {
      TailSnoc(marginal, x, k + 1);
      OneMoreShare(x, (|marginal| - k) as real);
    }
  }

  lemma {:induction false} OneMoreShare(x: real, n: real)
    ensures x * (n + 1.0) == x * n + x
  {
  }

  /** Expected goals are the probabilities of at least one, two, ... goals, added up. */
  lemma {:induction false} ExpectationMeans(marginal: seq<real>)
    ensures Expectation(marginal) == TailSum(marginal, 1)
  {
    if marginal != [] {
      var n := |marginal| - 1;
      ExpectationMeans(marginal[..n]);
      TailSnoc(marginal[..n], marginal[n], 1);
      assert marginal == marginal[..n] + [marginal[n]];
    }
  }

  /** They are reported to the nearest thousandth, upwards from the middle. */
  lemma {:induction false} RoundGoalsMeans(value: real)
    ensures NearestThousandth(RoundGoals(value), value)
  {
    RoundedIsNearest(RoundGoals(value), value);
  }

  // ---------------------------------------------------------------- prices

  function Millionths(k: int): real { k as real / 1000000.0 }

  /** The nearest whole millionth, from one to a million less one. */
  ghost predicate IsPrice(price: real, value: real) {
    exists k: int ::
      && 1 <= k <= 999_999 && price == Millionths(k)
      && (k > 1 ==> Millionths(k) - 0.0000005 <= value) && (k < 999_999 ==> value < Millionths(k) + 0.0000005)
  }

  lemma {:induction false} QuantizeMeans(value: real)
    ensures IsPrice(Quantize(value), value)
  {
    var k, rounded := Micros(value), (value * 1000000.0 + 0.5).Floor;
    QuantizeIsMicros(value);
    assert rounded as real <= value * 1000000.0 + 0.5 < rounded as real + 1.0;
    assert Quantize(value) == Millionths(k);
    assert k > 1 ==> k <= rounded;
    assert k < 999_999 ==> k >= rounded;
    assert k > 1 ==> Millionths(k) - 0.0000005 <= value;
    assert k < 999_999 ==> value < Millionths(k) + 0.0000005;
  }

  /** The grid that keeps the scores with a property and empties all others. */
  function Only(g: Grid, scores: (nat, nat) -> bool): Grid {
    (home: nat, away: nat) => if scores(home, away) then g(home, away) else 0.0
  }

  function HomeWins(): (nat, nat) -> bool { (home: nat, away: nat) => home > away }

  function Draws(): (nat, nat) -> bool { (home: nat, away: nat) => home == away }

  function GoalsOver(line: real): (nat, nat) -> bool { (home: nat, away: nat) => (home + away) as real > line }

  function BothTeams(): (nat, nat) -> bool { (home: nat, away: nat) => home != 0 && away != 0 }

  ghost predicate SameScores(e: Event, scores: (nat, nat) -> bool) {
    forall home: nat, away: nat :: Occurs(e, home, away) <==> scores(home, away)
  }

  lemma {:induction false} RowMeans(e: Event, g: Grid, scores: (nat, nat) -> bool, home: nat, n: nat)
    requires SameScores(e, scores)
    ensures RowEventMass(e, g, home, n) == RowMass(Only(g, scores), home, n)
  {
    hide Occurs;
    if n > 0 { RowMeans(e, g, scores, home, n - 1); }
  }

  lemma {:induction false} EventMeans(e: Event, g: Grid, scores: (nat, nat) -> bool, rows: nat, columns: nat)
    requires SameScores(e, scores)
    ensures EventMass(e, g, rows, columns) == Mass(Only(g, scores), rows, columns)
  {
    hide Occurs, RowEventMass, RowMass;
    if rows > 0 {
      EventMeans(e, g, scores, rows - 1, columns);
      RowMeans(e, g, scores, rows - 1, columns);
    }
  }

  /** A price and its exact complement. */
  ghost predicate IsPair(pair: Pair, value: real) {
    IsPrice(pair.positive, value) && pair.negative == 1.0 - pair.positive
  }

  lemma {:induction false} PairMeans(value: real)
    ensures IsPair(ComplementaryPair(Quantize(value)), value)
    ensures ComplementaryPair(Quantize(1.0 - Quantize(value)))
         == Pair(1.0 - Quantize(value), Quantize(value))
  {
    hide Quantize, IsPrice;
    QuantizeMeans(value);
    ExactPair(value);
  }

  /** What every market is priced from: the mass of its scores, to the nearest millionth. */
  lemma {:induction false} PricesMean(g: Grid, rows: nat, columns: nat)
    ensures
      var m := MarketsOf(g, rows, columns);
      var mass := (scores: (nat, nat) -> bool) => Mass(Only(g, scores), rows, columns);
      && IsPrice(m.homeWin, mass(HomeWins())) && IsPrice(m.draw, mass(Draws()))
      && IsPrice(m.awayWin, 1.0 - m.homeWin - m.draw)
      && IsPrice(m.homeOrDraw, m.homeWin + m.draw) && IsPrice(m.homeOrAway, m.homeWin + m.awayWin)
      && IsPrice(m.drawOrAway, m.draw + m.awayWin)
      && IsPair(m.over15, mass(GoalsOver(1.5))) && IsPair(m.over25, mass(GoalsOver(2.5)))
      && IsPair(m.over35, mass(GoalsOver(3.5))) && IsPair(m.bothTeamsScore, mass(BothTeams()))
      && m.under25 == Pair(m.over25.negative, m.over25.positive)
      && m.under35 == Pair(m.over35.negative, m.over35.positive)
  {
    EventMeans(HomeAhead, g, HomeWins(), rows, columns);
    EventMeans(Level, g, Draws(), rows, columns);
    EventMeans(MoreThan(1), g, GoalsOver(1.5), rows, columns);
    EventMeans(MoreThan(2), g, GoalsOver(2.5), rows, columns);
    EventMeans(MoreThan(3), g, GoalsOver(3.5), rows, columns);
    EventMeans(BothScore, g, BothTeams(), rows, columns);
    hide EventMass, Mass, Quantize, IsPrice, ComplementaryPair, IsPair, Only;
    PricesOfMasses(EventMass(HomeAhead, g, rows, columns), EventMass(Level, g, rows, columns),
                   EventMass(MoreThan(1), g, rows, columns), EventMass(MoreThan(2), g, rows, columns),
                   EventMass(MoreThan(3), g, rows, columns), EventMass(BothScore, g, rows, columns));
  }

  lemma {:induction false} PricesOfMasses(home: real, draw: real, over15: real, over25: real, over35: real, btts: real)
    ensures
      var m := Price(home, draw, over15, over25, over35, btts);
      && IsPrice(m.homeWin, home) && IsPrice(m.draw, draw) && IsPrice(m.awayWin, 1.0 - m.homeWin - m.draw)
      && IsPrice(m.homeOrDraw, m.homeWin + m.draw) && IsPrice(m.homeOrAway, m.homeWin + m.awayWin)
      && IsPrice(m.drawOrAway, m.draw + m.awayWin)
      && IsPair(m.over15, over15) && IsPair(m.over25, over25) && IsPair(m.over35, over35)
      && IsPair(m.bothTeamsScore, btts)
      && m.under25 == Pair(m.over25.negative, m.over25.positive)
      && m.under35 == Pair(m.over35.negative, m.over35.positive)
  {
    hide Quantize, IsPrice, ComplementaryPair, IsPair;
    var m := Price(home, draw, over15, over25, over35, btts);
    QuantizeMeans(home);
    QuantizeMeans(draw);
    QuantizeMeans(1.0 - m.homeWin - m.draw);
    QuantizeMeans(m.homeWin + m.draw);
    QuantizeMeans(m.homeWin + m.awayWin);
    QuantizeMeans(m.draw + m.awayWin);
    PairMeans(over15);
    PairMeans(over25);
    PairMeans(over35);
    PairMeans(btts);
    ExactPair(over25);
    ExactPair(over35);
  }

  // ---------------------------------------------------------------- the inputs of a prediction

  /** A strength is moved to the nearest rate between 0.15 and 6. */
  lemma {:induction false} ClampLambdaMeans(value: real, rate: real)
    requires 0.15 <= rate <= 6.0
    ensures 0.15 <= ClampLambda(value) <= 6.0 && Distance(value, ClampLambda(value)) <= Distance(value, rate)
  {
  }

  /** The table goes from no goal to ten on either side, and adds up to one. */
  lemma {:induction false} TableMeans(p: Params)
    ensures Mass(Normalised(p), 11, 11) == 1.0
    ensures MarketsOf(Normalised(p), SIZE, SIZE) == MarketsOf(Normalised(p), 11, 11)
  {
    hide MarketsOf, Normalised, Mass;
    SumsToOne(p);
  }
}
