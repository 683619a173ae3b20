/**
 * The Dixon-Coles goal distribution and the markets derived from it
 * (backend/src/models/goalDistribution.ts, backend/src/models/poisson.ts).
 */
module GoalDistribution {

  type Positive = x: real | x > 0.0 witness 1.0

  const MAX_GOALS := 10
  const SIZE := MAX_GOALS + 1
  const MIN_RATE := 0.000001

  /** `exp` stands for the exponential function: only its sign is known. */
  datatype Params = Params(exp: real -> Positive, home: real, away: real, rho: real)

  /** A table of masses, by home and away goals. */
  type Grid = (nat, nat) -> real

  function Factorial(n: nat): Positive { if n == 0 then 1.0 else Scaled(Factorial(n - 1), n) }

  function Scaled(x: Positive, n: nat): Positive
    requires n > 0
  {
    Times(x, n as real)
  }

  function Times(x: Positive, y: Positive): Positive { x * y }

  function Power(x: Positive, k: nat): Positive { if k == 0 then 1.0 else Times(x, Power(x, k - 1)) }

  function Rate(lambda: real): Positive { if lambda > MIN_RATE then lambda else MIN_RATE }

  function Over(x: Positive, y: Positive): Positive {
    Fraction(x, y);
    x / y
  }

  function Pmf(exp: real -> Positive, lambda: real, k: nat): Positive {
    var safe: real := Rate(lambda);
    Over(Times(Power(safe, k), exp(-safe)), Factorial(k))
  }

  function Tau(p: Params, home: nat, away: nat): real {
    if home == 0 && away == 0 then 1.0 - p.home * p.away * p.rho
    else if home == 0 && away == 1 then 1.0 + p.home * p.rho
    else if home == 1 && away == 0 then 1.0 + p.away * p.rho
    else if home == 1 && away == 1 then 1.0 - p.rho
    else 1.0
  }

  function Clamped(x: real): real { if x > 0.0 then x else 0.0 }

  function Independent(p: Params, home: nat, away: nat): Positive {
    Times(Pmf(p.exp, p.home, home), Pmf(p.exp, p.away, away))
  }

  /** The unnormalised mass of a score. */
  function Raw(p: Params): Grid {
    (home: nat, away: nat) => Independent(p, home, away) * Clamped(Tau(p, home, away))
  }

  function RowMass(g: Grid, home: nat, n: nat): real {
    if n == 0 then 0.0 else RowMass(g, home, n - 1) + g(home, n - 1)
  }

  function ColumnMass(g: Grid, away: nat, n: nat): real {
    if n == 0 then 0.0 else ColumnMass(g, away, n - 1) + g(n - 1, away)
  }

  function Mass(g: Grid, rows: nat, columns: nat): real {
    if rows == 0 then 0.0 else Mass(g, rows - 1, columns) + RowMass(g, rows - 1, columns)
  }

  function Total(p: Params): real { Mass(Raw(p), SIZE, SIZE) }

  function Normalised(p: Params): Grid {
    (home: nat, away: nat) => if Total(p) > 0.0 then Raw(p)(home, away) / Total(p) else Raw(p)(home, away)
  }

  function Expectation(marginal: seq<real>): real {
    if marginal == [] then 0.0
    else Expectation(marginal[..|marginal| - 1]) + marginal[|marginal| - 1] * (|marginal| - 1) as real
  }

  function RoundGoals(value: real): real { (value * 1000.0 + 0.5).Floor as real / 1000.0 }

  // ---------------------------------------------------------------- the matrix

  ghost predicate Square(matrix: array2<real>) { matrix.Length0 == SIZE && matrix.Length1 == SIZE }

  /** The cells before (home, away) in reading order hold `g`. */
  ghost predicate Filled(matrix: array2<real>, g: Grid, home: nat, away: nat)
    requires Square(matrix)
    reads matrix
  {
    && (forall h, a | 0 <= h < home && h < SIZE && 0 <= a < SIZE :: matrix[h, a] == g(h, a))
    && (forall a | 0 <= a < away && a < SIZE && home < SIZE :: matrix[home, a] == g(home, a))
  }

  method FillRow(p: Params, matrix: array2<real>, home: nat, before: real) returns (total: real)
    requires Square(matrix) && home < SIZE && Filled(matrix, Raw(p), home, 0)
    modifies matrix
    ensures Filled(matrix, Raw(p), home + 1, 0) && total == before + RowMass(Raw(p), home, SIZE)
  {
    hide Independent, Tau, Clamped;
    total := before;
    for away := 0 to SIZE
      invariant Filled(matrix, Raw(p), home, away) && total == before + RowMass(Raw(p), home, away)
    {
      var probability := Independent(p, home, away) * Clamped(Tau(p, home, away));
      matrix[home, away] := probability;
      total := total + probability;
    }
  }

  method FillMatrix(p: Params, matrix: array2<real>) returns (total: real)
    requires Square(matrix)
    modifies matrix
    ensures Filled(matrix, Raw(p), SIZE, 0) && total == Total(p)
  {
    hide Raw, RowMass;
    total := 0.0;
    for home := 0 to SIZE
      invariant Filled(matrix, Raw(p), home, 0) && total == Mass(Raw(p), home, SIZE)
    {
      total := FillRow(p, matrix, home, total);
    }
  }

  /** Cells from (home, away) on still hold the raw mass. */
  ghost predicate Pending(matrix: array2<real>, g: Grid, home: nat, away: nat)
    requires Square(matrix)
    reads matrix
  {
    && (forall h, a | home < h < SIZE && 0 <= a < SIZE :: matrix[h, a] == g(h, a))
    && (forall a | away <= a < SIZE && home < SIZE :: matrix[home, a] == g(home, a))
  }

  lemma {:induction false} NormalisedCell(p: Params, home: nat, away: nat)
    ensures Normalised(p)(home, away) == Raw(p)(home, away) / (if Total(p) > 0.0 then Total(p) else 1.0)
  {
    hide Raw, Total;
  }

  method NormaliseRow(p: Params, matrix: array2<real>, safeTotal: real, homeMarginal: array<real>,
                      awayMarginal: array<real>, home: nat)
    requires Square(matrix) && home < SIZE && safeTotal == if Total(p) > 0.0 then Total(p) else 1.0
    requires Filled(matrix, Normalised(p), home, 0) && Pending(matrix, Raw(p), home, 0)
    requires homeMarginal.Length == SIZE && awayMarginal.Length == SIZE && homeMarginal != awayMarginal
    requires homeMarginal[home] == 0.0
    requires forall k | 0 <= k < SIZE :: awayMarginal[k] == ColumnMass(Normalised(p), k, home)
    modifies matrix, homeMarginal, awayMarginal
    ensures Filled(matrix, Normalised(p), home + 1, 0) && Pending(matrix, Raw(p), home + 1, 0)
    ensures homeMarginal[home] == RowMass(Normalised(p), home, SIZE)
    ensures forall k | 0 <= k < SIZE && k != home :: homeMarginal[k] == old(homeMarginal[k])
    ensures forall k | 0 <= k < SIZE :: awayMarginal[k] == ColumnMass(Normalised(p), k, home + 1)
  {
    hide Raw, Total, Normalised;
    for away := 0 to SIZE
      invariant Filled(matrix, Normalised(p), home, away) && Pending(matrix, Raw(p), home, away)
      invariant homeMarginal[home] == RowMass(Normalised(p), home, away)
      invariant forall k | 0 <= k < SIZE && k != home :: homeMarginal[k] == old(homeMarginal[k])
      invariant forall k | 0 <= k < away :: awayMarginal[k] == ColumnMass(Normalised(p), k, home + 1)
      invariant forall k | away <= k < SIZE :: awayMarginal[k] == ColumnMass(Normalised(p), k, home)
    {
      var probability := matrix[home, away] / safeTotal;
      NormalisedCell(p, home, away);
      matrix[home, away] := probability;
      homeMarginal[home] := homeMarginal[home] + probability;
      awayMarginal[away] := awayMarginal[away] + probability;
    }
  }

  method Normalise(p: Params, matrix: array2<real>, total: real, homeMarginal: array<real>, awayMarginal: array<real>)
    requires Square(matrix) && Filled(matrix, Raw(p), SIZE, 0) && total == Total(p)
    requires homeMarginal.Length == SIZE && awayMarginal.Length == SIZE && homeMarginal != awayMarginal
    requires forall k | 0 <= k < SIZE :: homeMarginal[k] == 0.0 && awayMarginal[k] == 0.0
    modifies matrix, homeMarginal, awayMarginal
    ensures Filled(matrix, Normalised(p), SIZE, 0)
    ensures forall k | 0 <= k < SIZE :: homeMarginal[k] == RowMass(Normalised(p), k, SIZE)
    ensures forall k | 0 <= k < SIZE :: awayMarginal[k] == ColumnMass(Normalised(p), k, SIZE)
  {
    hide Raw, Total, Normalised, RowMass;
    var safeTotal := if total > 0.0 then total else 1.0;
    for home := 0 to SIZE
      invariant Filled(matrix, Normalised(p), home, 0) && Pending(matrix, Raw(p), home, 0)
      invariant forall k | 0 <= k < home :: homeMarginal[k] == RowMass(Normalised(p), k, SIZE)
      invariant forall k | home <= k < SIZE :: homeMarginal[k] == 0.0
      invariant forall k | 0 <= k < SIZE :: awayMarginal[k] == ColumnMass(Normalised(p), k, home)
    {
      NormaliseRow(p, matrix, safeTotal, homeMarginal, awayMarginal, home);
    }
  }

  method ExpectedGoals(marginal: array<real>) returns (expected: real)
    ensures expected == RoundGoals(Expectation(marginal[..]))
  {
    hide RoundGoals;
    var sum := 0.0;
    for goals := 0 to marginal.Length
      invariant sum == Expectation(marginal[..goals])
    {
      assert marginal[..goals + 1][..goals] == marginal[..goals];
      sum := sum + marginal[goals] * goals as real;
    }
    assert marginal[..marginal.Length] == marginal[..];
    expected := RoundGoals(sum);
  }

  method ComputeDistribution(p: Params)
    returns (expectedHome: real, expectedAway: real, homeMarginal: array<real>, awayMarginal: array<real>,
             matrix: array2<real>)
    ensures fresh(homeMarginal) && fresh(awayMarginal) && fresh(matrix)
    ensures Square(matrix) && Filled(matrix, Normalised(p), SIZE, 0)
    ensures homeMarginal.Length == SIZE
            && forall k | 0 <= k < SIZE :: homeMarginal[k] == RowMass(Normalised(p), k, SIZE)
    ensures awayMarginal.Length == SIZE
            && forall k | 0 <= k < SIZE :: awayMarginal[k] == ColumnMass(Normalised(p), k, SIZE)
    ensures expectedHome == RoundGoals(Expectation(homeMarginal[..]))
            && expectedAway == RoundGoals(Expectation(awayMarginal[..]))
  {
    hide RowMass, ColumnMass, RoundGoals, Raw, Normalised, Total;
    matrix := new real[SIZE, SIZE];
    var total := FillMatrix(p, matrix);
    homeMarginal := new real[SIZE](_ => 0.0);
    awayMarginal := new real[SIZE](_ => 0.0);
    Normalise(p, matrix, total, homeMarginal, awayMarginal);
    expectedHome := ExpectedGoals(homeMarginal);
    expectedAway := ExpectedGoals(awayMarginal);
  }

  // ---------------------------------------------------------------- the distribution is a distribution

  lemma {:induction false} RowNonNegative(g: Grid, home: nat, n: nat)
    requires forall a: nat :: g(home, a) >= 0.0
    ensures RowMass(g, home, n) >= 0.0
  {
    if n > 0 { RowNonNegative(g, home, n - 1); }
  }

  lemma {:induction false} MassNonNegative(g: Grid, rows: nat, columns: nat)
    requires forall h: nat, a: nat :: g(h, a) >= 0.0
    ensures Mass(g, rows, columns) >= 0.0
  {
    if rows > 0 {
      MassNonNegative(g, rows - 1, columns);
      RowNonNegative(g, rows - 1, columns);
    }
  }

  lemma {:induction false} Product(x: real, y: real)
    requires x > 0.0 && y >= 0.0
    ensures x * y >= 0.0 && (y > 0.0 ==> x * y > 0.0)
  {
  }

  lemma {:induction false} RawNonNegative(p: Params, home: nat, away: nat)
    ensures Raw(p)(home, away) >= 0.0
    ensures home >= 2 ==> Raw(p)(home, away) > 0.0
  {
    hide Pmf;
    Product(Independent(p, home, away), Clamped(Tau(p, home, away)));
  }

  /** The correction never empties the matrix, so the division by the total is always taken. */
  lemma {:induction false} TotalPositive(p: Params)
    ensures Total(p) > 0.0
  {
    hide Raw;
    forall h: nat, a: nat ensures Raw(p)(h, a) >= 0.0 { RawNonNegative(p, h, a); }
    RawNonNegative(p, SIZE - 1, SIZE - 1);
    MassNonNegative(Raw(p), SIZE - 1, SIZE);
    RowNonNegative(Raw(p), SIZE - 1, SIZE - 1);
  }

  lemma {:induction false} RowScaled(g: Grid, f: Grid, t: real, home: nat, n: nat)
    requires t > 0.0 && forall h: nat, a: nat :: f(h, a) == g(h, a) / t
    ensures RowMass(f, home, n) == RowMass(g, home, n) / t
  {
    if n > 0 { RowScaled(g, f, t, home, n - 1); }
  }

  lemma {:induction false} ColumnScaled(g: Grid, f: Grid, t: real, away: nat, n: nat)
    requires t > 0.0 && forall h: nat, a: nat :: f(h, a) == g(h, a) / t
    ensures ColumnMass(f, away, n) == ColumnMass(g, away, n) / t
  {
    if n > 0 { ColumnScaled(g, f, t, away, n - 1); }
  }

  lemma {:induction false} MassScaled(g: Grid, f: Grid, t: real, rows: nat, columns: nat)
    requires t > 0.0 && forall h: nat, a: nat :: f(h, a) == g(h, a) / t
    ensures Mass(f, rows, columns) == Mass(g, rows, columns) / t
  {
    if rows > 0 {
      MassScaled(g, f, t, rows - 1, columns);
      RowScaled(g, f, t, rows - 1, columns);
    }
  }

  lemma {:induction false} Fraction(x: real, t: real)
    requires t > 0.0 && x >= 0.0
    ensures x / t >= 0.0 && (x > 0.0 ==> x / t > 0.0) && t / t == 1.0
  {
  }

  /** The normalised matrix is a probability distribution whatever the rates and rho are. */
  lemma {:induction false} SumsToOne(p: Params)
    ensures Mass(Normalised(p), SIZE, SIZE) == 1.0
    ensures forall h: nat, a: nat :: Normalised(p)(h, a) >= 0.0
  {
    TotalPositive(p);
    MassScaled(Raw(p), Normalised(p), Total(p), SIZE, SIZE);
    Fraction(0.0, Total(p));
    forall h: nat, a: nat ensures Normalised(p)(h, a) >= 0.0 {
      RawNonNegative(p, h, a);
      Fraction(Raw(p)(h, a), Total(p));
    }
  }

  // ---------------------------------------------------------------- the correction keeps the marginals

  /** The independent Poisson model with the same rates. */
  function Poisson(p: Params): Params { p.(rho := 0.0) }

  /** No factor of the correction is clamped. */
  predicate Unclamped(p: Params) {
    Tau(p, 0, 0) >= 0.0 && Tau(p, 0, 1) >= 0.0 && Tau(p, 1, 0) >= 0.0 && Tau(p, 1, 1) >= 0.0
  }

  /** What the clamp adds to a cell. */
  function Excess(p: Params, home: nat, away: nat): real {
    Independent(p, home, away) * (Clamped(Tau(p, home, away)) - Tau(p, home, away))
  }

  lemma {:induction false} ExcessSign(p: Params, home: nat, away: nat)
    ensures Excess(p, home, away) >= 0.0
    ensures Excess(p, home, away) == 0.0 <==> Tau(p, home, away) >= 0.0
  {
    hide Pmf, Tau;
    Product(Independent(p, home, away), Clamped(Tau(p, home, away)) - Tau(p, home, away));
  }

  /** A cell is the independent mass, the correction, and what the clamp adds. */
  lemma {:induction false} CellSplit(p: Params, home: nat, away: nat)
    ensures Raw(p)(home, away) == Raw(Poisson(p))(home, away)
                                + Independent(p, home, away) * (Tau(p, home, away) - 1.0) + Excess(p, home, away)
  {
    hide Pmf, Independent;
    assert Independent(Poisson(p), home, away) == Independent(p, home, away) by { SameIndependent(p, home, away); }
    assert Tau(Poisson(p), home, away) == 1.0;
    Distribute(Independent(p, home, away), Clamped(Tau(p, home, away)), Tau(p, home, away));
  }

  lemma {:induction false} SameIndependent(p: Params, home: nat, away: nat)
    ensures Independent(Poisson(p), home, away) == Independent(p, home, away)
  {
  }

  lemma {:induction false} Distribute(x: real, c: real, t: real)
    ensures x * c == x * 1.0 + x * (t - 1.0) + x * (c - t)
  {
  }

  /** One goal is `lambda` times as likely as none. */
  lemma {:induction false} FirstGoal(exp: real -> Positive, lambda: real)
    requires lambda >= MIN_RATE
    ensures Pmf(exp, lambda, 1) == lambda * Pmf(exp, lambda, 0)
  {
    var r := Rate(lambda);
    assert Power(r, 0) == 1.0 && Power(r, 1) == r;
    assert Factorial(0) == 1.0 && Factorial(1) == 1.0;
  }

  /** The four corrections cancel in the first two rows and columns. */
  lemma {:induction false} Cancel(p0: real, p1: real, q0: real, q1: real, lambda: real, mu: real, rho: real)
    requires p1 == lambda * p0 && q1 == mu * q0
    ensures (p0 * q0) * (-(lambda * mu * rho)) + (p0 * q1) * (lambda * rho) == 0.0
    ensures (p1 * q0) * (mu * rho) + (p1 * q1) * (-rho) == 0.0
    ensures (p0 * q0) * (-(lambda * mu * rho)) + (p1 * q0) * (mu * rho) == 0.0
    ensures (p0 * q1) * (lambda * rho) + (p1 * q1) * (-rho) == 0.0
  {
    CancelPair(p0, q0, q1, mu, lambda * rho);
    CancelPair(p1, q0, q1, mu, rho);
    CancelPair(q0, p0, p1, lambda, mu * rho);
    CancelPair(q1, p0, p1, lambda, rho);
    assert lambda * mu * rho == mu * (lambda * rho) == lambda * (mu * rho);
    assert p0 * q0 == q0 * p0 && p1 * q0 == q0 * p1 && p0 * q1 == q1 * p0 && p1 * q1 == q1 * p1;
  }

  lemma {:induction false} CancelPair(x: real, y0: real, y1: real, m: real, c: real)
    requires y1 == m * y0
    ensures (x * y0) * (-(m * c)) + (x * y1) * c == 0.0
    ensures (x * y0) * (m * c) + (x * y1) * (-c) == 0.0
  {
    calc {
      (x * y1) * c;
      (x * (m * y0)) * c;
      (x * y0) * (m * c);
    }
  }

  /** The change in a row beyond the first two columns is nil. */
  lemma {:induction false} RowChange(p: Params, home: nat, n: nat)
    requires n >= 2
    ensures RowMass(Raw(p), home, n) - RowMass(Raw(Poisson(p)), home, n)
         == RowMass(Raw(p), home, 2) - RowMass(Raw(Poisson(p)), home, 2)
  {
    hide Independent;
    if n > 2 {
      RowChange(p, home, n - 1);
      SameIndependent(p, home, n - 1);
    }
  }

  lemma {:induction false} ColumnChange(p: Params, away: nat, n: nat)
    requires n >= 2
    ensures ColumnMass(Raw(p), away, n) - ColumnMass(Raw(Poisson(p)), away, n)
         == ColumnMass(Raw(p), away, 2) - ColumnMass(Raw(Poisson(p)), away, 2)
  {
    hide Independent;
    if n > 2 {
      ColumnChange(p, away, n - 1);
      SameIndependent(p, n - 1, away);
    }
  }

  lemma {:induction false} FirstTwo(g: Grid, k: nat)
    ensures RowMass(g, k, 2) == g(k, 0) + g(k, 1)
    ensures ColumnMass(g, k, 2) == g(0, k) + g(1, k)
  {
    assert RowMass(g, k, 1) == RowMass(g, k, 0) + g(k, 0);
    assert ColumnMass(g, k, 1) == ColumnMass(g, k, 0) + g(0, k);
  }

  /** A row or column changes exactly by what the clamp adds to its corner cells. */
  lemma {:induction false} MarginalChange(p: Params, k: nat)
    requires p.home >= MIN_RATE && p.away >= MIN_RATE
    ensures RowMass(Raw(p), k, SIZE) - RowMass(Raw(Poisson(p)), k, SIZE)
            == if k < 2 then Excess(p, k, 0) + Excess(p, k, 1) else 0.0
    ensures ColumnMass(Raw(p), k, SIZE) - ColumnMass(Raw(Poisson(p)), k, SIZE)
            == if k < 2 then Excess(p, 0, k) + Excess(p, 1, k) else 0.0
  {
    hide Raw, Excess, Independent, RowMass, ColumnMass;
    RowChange(p, k, SIZE);
    ColumnChange(p, k, SIZE);
    FirstTwo(Raw(p), k);
    FirstTwo(Raw(Poisson(p)), k);
    CellSplit(p, k, 0);
    CellSplit(p, k, 1);
    CellSplit(p, 0, k);
    CellSplit(p, 1, k);
    if k < 2 {
      Corrections(p);
    } else {
      NoExcess(p, k, 0);
      NoExcess(p, k, 1);
      NoExcess(p, 0, k);
      NoExcess(p, 1, k);
    }
  }

  lemma {:induction false} NoExcess(p: Params, home: nat, away: nat)
    requires Tau(p, home, away) == 1.0
    ensures Excess(p, home, away) == 0.0 && Independent(p, home, away) * (Tau(p, home, away) - 1.0) == 0.0
  {
    hide Independent;
  }

  lemma {:induction false} Corrections(p: Params)
    requires p.home >= MIN_RATE && p.away >= MIN_RATE
    ensures Independent(p, 0, 0) * (Tau(p, 0, 0) - 1.0) + Independent(p, 0, 1) * (Tau(p, 0, 1) - 1.0) == 0.0
    ensures Independent(p, 1, 0) * (Tau(p, 1, 0) - 1.0) + Independent(p, 1, 1) * (Tau(p, 1, 1) - 1.0) == 0.0
    ensures Independent(p, 0, 0) * (Tau(p, 0, 0) - 1.0) + Independent(p, 1, 0) * (Tau(p, 1, 0) - 1.0) == 0.0
    ensures Independent(p, 0, 1) * (Tau(p, 0, 1) - 1.0) + Independent(p, 1, 1) * (Tau(p, 1, 1) - 1.0) == 0.0
  {
    hide Pmf;
    FirstGoal(p.exp, p.home);
    FirstGoal(p.exp, p.away);
    Cancel(Pmf(p.exp, p.home, 0), Pmf(p.exp, p.home, 1), Pmf(p.exp, p.away, 0), Pmf(p.exp, p.away, 1), p.home, p.away,
           p.rho);
  }

  ghost predicate SameMarginals(p: Params, q: Params) {
    forall k | 0 <= k < SIZE ::
      RowMass(Raw(p), k, SIZE) == RowMass(Raw(q), k, SIZE) && ColumnMass(Raw(p), k, SIZE) == ColumnMass(Raw(q), k, SIZE)
  }

  /** The correction keeps both marginals exactly when no factor is clamped. */
  lemma {:induction false} CorrectionKeepsMarginals(p: Params)
    requires p.home >= MIN_RATE && p.away >= MIN_RATE
    ensures SameMarginals(p, Poisson(p)) <==> Unclamped(p)
  {
    hide Raw, RowMass, ColumnMass, Excess, Tau;
    forall home: nat, away: nat
      ensures Excess(p, home, away) >= 0.0 && (Excess(p, home, away) == 0.0 <==> Tau(p, home, away) >= 0.0)
    {
      ExcessSign(p, home, away);
    }
    forall k | 0 <= k < SIZE
      ensures RowMass(Raw(p), k, SIZE) - RowMass(Raw(Poisson(p)), k, SIZE)
              == if k < 2 then Excess(p, k, 0) + Excess(p, k, 1) else 0.0
      ensures ColumnMass(Raw(p), k, SIZE) - ColumnMass(Raw(Poisson(p)), k, SIZE)
              == if k < 2 then Excess(p, 0, k) + Excess(p, 1, k) else 0.0
    {
      MarginalChange(p, k);
    }
    if SameMarginals(p, Poisson(p)) {
      assert RowMass(Raw(p), 0, SIZE) == RowMass(Raw(Poisson(p)), 0, SIZE);
      assert RowMass(Raw(p), 1, SIZE) == RowMass(Raw(Poisson(p)), 1, SIZE);
    }
  }

  lemma {:induction false} SameRowsSameMass(f: Grid, g: Grid, rows: nat, columns: nat)
    requires forall k | 0 <= k < rows :: RowMass(f, k, columns) == RowMass(g, k, columns)
    ensures Mass(f, rows, columns) == Mass(g, rows, columns)
  {
    if rows > 0 { SameRowsSameMass(f, g, rows - 1, columns); }
  }

  /** Without clamping, the normalised marginals and the total are those of the independent model, for any rho. */
  lemma {:induction false} MarginalsOfPoisson(p: Params, k: nat)
    requires p.home >= MIN_RATE && p.away >= MIN_RATE && Unclamped(p) && k < SIZE
    ensures Total(p) == Total(Poisson(p))
    ensures RowMass(Normalised(p), k, SIZE) == RowMass(Normalised(Poisson(p)), k, SIZE)
    ensures ColumnMass(Normalised(p), k, SIZE) == ColumnMass(Normalised(Poisson(p)), k, SIZE)
  {
    hide Raw, RowMass, ColumnMass, Tau, Mass;
    CorrectionKeepsMarginals(p);
    var q := Poisson(p);
    SameRowsSameMass(Raw(p), Raw(q), SIZE, SIZE);
    TotalPositive(p);
    TotalPositive(q);
    RowScaled(Raw(p), Normalised(p), Total(p), k, SIZE);
    RowScaled(Raw(q), Normalised(q), Total(q), k, SIZE);
    ColumnScaled(Raw(p), Normalised(p), Total(p), k, SIZE);
    ColumnScaled(Raw(q), Normalised(q), Total(q), k, SIZE);
  }

  /** `clampLambda` for finite values. */
  function ClampLambda(value: real): (lambda: real)
    ensures 0.15 <= lambda <= 6.0
  {
    var low := if value < 6.0 then value else 6.0;
    if low > 0.15 then low else 0.15
  }

  const DIXON_COLES_RHO := -0.05

  /** With the configured rho the clamp is inert exactly up to twenty expected goals. */
  lemma {:induction false} ConfiguredRho(p: Params)
    requires p.home > 0.0 && p.away > 0.0 && p.rho == DIXON_COLES_RHO
    ensures Unclamped(p) <==> p.home <= 20.0 && p.away <= 20.0
  {
    Product(p.home, p.away);
    assert p.home * p.away * p.rho == p.rho * (p.home * p.away);
  }

  /** The Dixon-Coles model therefore has the marginals of the Poisson model for all team strengths. */
  lemma {:induction false} DixonColesKeepsMarginals(exp: real -> Positive, home: real, away: real, k: nat)
    requires k < SIZE
    ensures var p := Params(exp, ClampLambda(home), ClampLambda(away), DIXON_COLES_RHO);
            && RowMass(Normalised(p), k, SIZE) == RowMass(Normalised(Poisson(p)), k, SIZE)
            && ColumnMass(Normalised(p), k, SIZE) == ColumnMass(Normalised(Poisson(p)), k, SIZE)
  {
    hide Normalised, RowMass, ColumnMass, ClampLambda;
    var p := Params(exp, ClampLambda(home), ClampLambda(away), DIXON_COLES_RHO);
    ConfiguredRho(p);
    MarginalsOfPoisson(p, k);
  }
}
