/** Markets derived from one goal matrix, quantised to a grid (backend/src/models/goalDistribution.ts). */
module GoalMarkets {
  import opened GoalDistribution

  const PRECISION := 1_000_000

  // ---------------------------------------------------------------- quantising

  /** Millionths, kept strictly between nothing and everything. */
  function Micros(value: real): (m: int)
    ensures 1 <= m <= PRECISION - 1
  {
    var rounded := (value * PRECISION as real + 0.5).Floor;
    if rounded < 1 then 1 else if rounded > PRECISION - 1 then PRECISION - 1 else rounded
  }

  function Quantize(value: real): real {
    var rounded := (value * PRECISION as real + 0.5).Floor as real / PRECISION as real;
    var low := if rounded < 1.0 - 1.0 / PRECISION as real then rounded else 1.0 - 1.0 / PRECISION as real;
    if low > 1.0 / PRECISION as real then low else 1.0 / PRECISION as real
  }

  /** Quantised values are whole millionths. */
  lemma {:induction false} QuantizeIsMicros(value: real)
    ensures Quantize(value) == Micros(value) as real / 1_000_000.0
  {
  }

  /** Whole millionths inside the grid are left alone. */
  lemma {:induction false} QuantizeOnGrid(m: int)
    ensures Micros(m as real / 1_000_000.0) == if m < 1 then 1 else if m > 999_999 then 999_999 else m
  {
    assert (m as real / 1_000_000.0) * 1_000_000.0 + 0.5 == m as real + 0.5;
    assert (m as real + 0.5).Floor == m;
  }

  lemma {:induction false} QuantizeMonotone(x: real, y: real)
    requires x <= y
    ensures Micros(x) <= Micros(y) && Quantize(x) <= Quantize(y)
  {
    QuantizeIsMicros(x);
    QuantizeIsMicros(y);
    assert x * 1_000_000.0 <= y * 1_000_000.0;
  }

  /** Quantising the complement of a quantised value gives the exact complement. */
  lemma {:induction false} QuantizeComplement(value: real)
    ensures Quantize(1.0 - Quantize(value)) == 1.0 - Quantize(value)
    ensures Quantize(Quantize(value)) == Quantize(value)
  {
    hide Quantize;
    var m := Micros(value);
    QuantizeIsMicros(value);
    QuantizeOnGrid(PRECISION - m);
    QuantizeOnGrid(m);
    assert 1.0 - Quantize(value) == (PRECISION - m) as real / 1_000_000.0;
    QuantizeIsMicros(1.0 - Quantize(value));
    QuantizeIsMicros(Quantize(value));
  }

  // ---------------------------------------------------------------- events of the matrix

  datatype Event = HomeAhead | Level | AwayAhead | MoreThan(goals: nat) | BothScore | Anything

  predicate Occurs(e: Event, home: nat, away: nat) {
    match e
    case HomeAhead => home > away
    case Level => home == away
    case AwayAhead => home < away
    case MoreThan(goals) => home + away > goals
    case BothScore => home >= 1 && away >= 1
    case Anything => true
  }

  function CellMass(e: Event, g: Grid, home: nat, away: nat): real {
    if Occurs(e, home, away) then g(home, away) else 0.0
  }

  function RowEventMass(e: Event, g: Grid, home: nat, n: nat): real {
    if n == 0 then 0.0 else RowEventMass(e, g, home, n - 1) + CellMass(e, g, home, n - 1)
  }

  /** The mass of an event. */
  function EventMass(e: Event, g: Grid, rows: nat, columns: nat): real {
    if rows == 0 then 0.0 else EventMass(e, g, rows - 1, columns) + RowEventMass(e, g, rows - 1, columns)
  }

  datatype Pair = Pair(positive: real, negative: real)

  datatype Prices = Prices(
    homeWin: real, draw: real, awayWin: real, homeOrDraw: real, homeOrAway: real, drawOrAway: real,
    over15: Pair, over25: Pair, over35: Pair, under25: Pair, under35: Pair, bothTeamsScore: Pair)

  function ComplementaryPair(positive: real): Pair { Pair(positive, Quantize(1.0 - positive)) }

  /** The markets from the masses of the six accumulated events. */
  function Price(home: real, draw: real, over15: real, over25: real, over35: real, bttsYes: real): Prices {
    var homeWin, drawProb := Quantize(home), Quantize(draw);
    var awayWin := Quantize(1.0 - homeWin - drawProb);
    var over15q, over25q, over35q, bttsq := Quantize(over15), Quantize(over25), Quantize(over35), Quantize(bttsYes);
    Prices(homeWin, drawProb, awayWin,
           Quantize(homeWin + drawProb), Quantize(homeWin + awayWin), Quantize(drawProb + awayWin),
           ComplementaryPair(over15q), ComplementaryPair(over25q), ComplementaryPair(over35q),
           ComplementaryPair(Quantize(1.0 - over25q)), ComplementaryPair(Quantize(1.0 - over35q)),
             ComplementaryPair(bttsq))
  }

  function MarketsOf(g: Grid, rows: nat, columns: nat): Prices {
    Price(EventMass(HomeAhead, g, rows, columns), EventMass(Level, g, rows, columns),
          EventMass(MoreThan(1), g, rows, columns), EventMass(MoreThan(2), g, rows, columns),
          EventMass(MoreThan(3), g, rows, columns), EventMass(BothScore, g, rows, columns))
  }

  /** The six running totals. */
  datatype Totals = Totals(home: real, draw: real, over15: real, over25: real, over35: real, bttsYes: real)

  function TotalsAt(g: Grid, rows: nat, columns: nat, extra: nat): Totals {
    Totals(EventMass(HomeAhead, g, rows, columns) + RowEventMass(HomeAhead, g, rows, extra),
           EventMass(Level, g, rows, columns) + RowEventMass(Level, g, rows, extra),
           EventMass(MoreThan(1), g, rows, columns) + RowEventMass(MoreThan(1), g, rows, extra),
           EventMass(MoreThan(2), g, rows, columns) + RowEventMass(MoreThan(2), g, rows, extra),
           EventMass(MoreThan(3), g, rows, columns) + RowEventMass(MoreThan(3), g, rows, extra),
           EventMass(BothScore, g, rows, columns) + RowEventMass(BothScore, g, rows, extra))
  }

  lemma {:induction false} NextRow(g: Grid, rows: nat, columns: nat)
    ensures TotalsAt(g, rows, columns, columns) == TotalsAt(g, rows + 1, columns, 0)
  {
    hide CellMass;
  }

  method AccumulateRow(matrix: array2<real>, ghost g: Grid, h: nat, before: Totals) returns (t: Totals)
    requires h < matrix.Length0 && forall a | 0 <= a < matrix.Length1 :: matrix[h, a] == g(h, a)
    requires before == TotalsAt(g, h, matrix.Length1, 0)
    ensures t == TotalsAt(g, h, matrix.Length1, matrix.Length1)
  {
    hide EventMass;
    var home, draw, over15, over25, over35, bttsYes :=
      before.home, before.draw, before.over15, before.over25, before.over35, before.bttsYes;
    for a := 0 to matrix.Length1
      invariant Totals(home, draw, over15, over25, over35, bttsYes) == TotalsAt(g, h, matrix.Length1, a)
    {
      var probability := matrix[h, a];
      if h > a { home := home + probability; } else if h == a { draw := draw + probability; }
      var total := h + a;
      if total > 1 { over15 := over15 + probability; }
      if total > 2 { over25 := over25 + probability; }
      if total > 3 { over35 := over35 + probability; }
      if h >= 1 && a >= 1 { bttsYes := bttsYes + probability; }
    }
    t := Totals(home, draw, over15, over25, over35, bttsYes);
  }

  method MarketsFromDistribution(matrix: array2<real>, ghost g: Grid) returns (prices: Prices)
    requires forall h, a | 0 <= h < matrix.Length0 && 0 <= a < matrix.Length1 :: matrix[h, a] == g(h, a)
    ensures prices == MarketsOf(g, matrix.Length0, matrix.Length1)
  {
    hide EventMass, RowEventMass, Quantize, ComplementaryPair;
    var t := Totals(0.0, 0.0, 0.0, 0.0, 0.0, 0.0);
    Start(g, matrix.Length1);
    for h := 0 to matrix.Length0
      invariant t == TotalsAt(g, h, matrix.Length1, 0)
    {
      t := AccumulateRow(matrix, g, h, t);
      NextRow(g, h, matrix.Length1);
    }
    NothingMore(g, matrix.Length0);
    var homeWin := Quantize(t.home);
    var drawProb := Quantize(t.draw);
    var awayWin := Quantize(1.0 - homeWin - drawProb);
    var over15q := Quantize(t.over15);
    var over25q := Quantize(t.over25);
    var over35q := Quantize(t.over35);
    var bttsq := Quantize(t.bttsYes);
    prices := Prices(homeWin, drawProb, awayWin,
                     Quantize(homeWin + drawProb), Quantize(homeWin + awayWin), Quantize(drawProb + awayWin),
                     ComplementaryPair(over15q), ComplementaryPair(over25q), ComplementaryPair(over35q),
                     ComplementaryPair(Quantize(1.0 - over25q)), ComplementaryPair(Quantize(1.0 - over35q)),
                     ComplementaryPair(bttsq));
  }

  lemma {:induction false} Start(g: Grid, columns: nat)
    ensures TotalsAt(g, 0, columns, 0) == Totals(0.0, 0.0, 0.0, 0.0, 0.0, 0.0)
  {
  }

  lemma {:induction false} NothingMore(g: Grid, rows: nat)
    ensures forall e :: RowEventMass(e, g, rows, 0) == 0.0
  {
  }

  // ---------------------------------------------------------------- coherence

  ghost predicate NonNegative(g: Grid) { forall h: nat, a: nat :: g(h, a) >= 0.0 }

  ghost predicate Implies(d: Event, e: Event) { forall h: nat, a: nat :: Occurs(d, h, a) ==> Occurs(e, h, a) }

  lemma {:induction false} RowImplies(d: Event, e: Event, g: Grid, home: nat, n: nat)
    requires NonNegative(g) && Implies(d, e)
    ensures 0.0 <= RowEventMass(d, g, home, n) <= RowEventMass(e, g, home, n)
  {
    if n > 0 { RowImplies(d, e, g, home, n - 1); }
  }

  /** A more demanding event has less mass. */
  lemma {:induction false} MassImplies(d: Event, e: Event, g: Grid, rows: nat, columns: nat)
    requires NonNegative(g) && Implies(d, e)
    ensures 0.0 <= EventMass(d, g, rows, columns) <= EventMass(e, g, rows, columns)
  {
    if rows > 0 {
      MassImplies(d, e, g, rows - 1, columns);
      RowImplies(d, e, g, rows - 1, columns);
    }
  }

  lemma {:induction false} RowPartition(g: Grid, home: nat, n: nat)
    ensures RowEventMass(HomeAhead, g, home, n) + RowEventMass(Level, g, home, n) + RowEventMass(AwayAhead, g, home, n)
         == RowEventMass(Anything, g, home, n) == RowMass(g, home, n)
  {
    if n > 0 { RowPartition(g, home, n - 1); }
  }

  /** The three results share out the whole mass. */
  lemma {:induction false} ResultsPartition(g: Grid, rows: nat, columns: nat)
    ensures EventMass(HomeAhead, g, rows, columns) + EventMass(Level, g, rows, columns)
            + EventMass(AwayAhead, g, rows, columns)
         == EventMass(Anything, g, rows, columns) == Mass(g, rows, columns)
  {
    if rows > 0 {
      ResultsPartition(g, rows - 1, columns);
      RowPartition(g, rows - 1, columns);
    }
  }

  /**
   * Overs are nested, both teams scoring implies more than one goal, and every binary pair is an
   * exact complement, as is every Under market of its Over market.
   */
  lemma {:induction false} MarketsAreCoherent(g: Grid, rows: nat, columns: nat)
    requires NonNegative(g)
    ensures var m := MarketsOf(g, rows, columns);
            && m.over15.positive >= m.over25.positive >= m.over35.positive
            && m.bothTeamsScore.positive <= m.over15.positive
            && (forall pair | pair in [m.over15, m.over25, m.over35, m.under25, m.under35, m.bothTeamsScore] ::
                pair.positive + pair.negative == 1.0)
            && m.under25 == Pair(m.over25.negative, m.over25.positive)
            && m.under35 == Pair(m.over35.negative, m.over35.positive)
  {
    hide Quantize, EventMass;
    MassImplies(MoreThan(3), MoreThan(2), g, rows, columns);
    MassImplies(MoreThan(2), MoreThan(1), g, rows, columns);
    MassImplies(BothScore, MoreThan(1), g, rows, columns);
    QuantizeMonotone(EventMass(MoreThan(3), g, rows, columns), EventMass(MoreThan(2), g, rows, columns));
    QuantizeMonotone(EventMass(MoreThan(2), g, rows, columns), EventMass(MoreThan(1), g, rows, columns));
    QuantizeMonotone(EventMass(BothScore, g, rows, columns), EventMass(MoreThan(1), g, rows, columns));
    ExactPair(EventMass(MoreThan(1), g, rows, columns));
    ExactPair(EventMass(MoreThan(2), g, rows, columns));
    ExactPair(EventMass(MoreThan(3), g, rows, columns));
    ExactPair(EventMass(BothScore, g, rows, columns));
  }

  lemma {:induction false} ExactPair(value: real)
    ensures var q := Quantize(value);
            && ComplementaryPair(q) == Pair(q, 1.0 - q)
            && ComplementaryPair(Quantize(1.0 - q)) == Pair(1.0 - q, q)
  {
    hide Quantize;
    var q := Quantize(value);
    QuantizeComplement(value);
    assert 1.0 - (1.0 - q) == q;
  }

  /**
   * The quantised 1X2 adds up to exactly one exactly when home and draw leave a millionth for away;
   * otherwise the total exceeds one by at most two millionths.
   */
  lemma {:induction false} OneXTwo(g: Grid, rows: nat, columns: nat)
    requires NonNegative(g) && Mass(g, rows, columns) == 1.0
    ensures var m := MarketsOf(g, rows, columns);
            && (m.homeWin + m.draw + m.awayWin == 1.0 <==> m.homeWin + m.draw <= 0.999999)
            && 1.0 <= m.homeWin + m.draw + m.awayWin <= 1.000002
  {
    hide Quantize, EventMass, ComplementaryPair;
    ResultsPartition(g, rows, columns);
    MassImplies(HomeAhead, Anything, g, rows, columns);
    MassImplies(Level, Anything, g, rows, columns);
    MassImplies(AwayAhead, Anything, g, rows, columns);
    OneXTwoMicros(EventMass(HomeAhead, g, rows, columns), EventMass(Level, g, rows, columns));
  }

  lemma {:induction false} OneXTwoMicros(home: real, draw: real)
    requires home >= 0.0 && draw >= 0.0 && home + draw <= 1.0
    ensures var h, d := Quantize(home), Quantize(draw);
            var a := Quantize(1.0 - h - d);
            (h + d + a == 1.0 <==> h + d <= 0.999999) && 1.0 <= h + d + a <= 1.000002
  {
    hide Quantize;
    var h, d := Micros(home), Micros(draw);
    QuantizeIsMicros(home);
    QuantizeIsMicros(draw);
    MicrosOfTwo(home, draw);
    assert 1.0 - Quantize(home) - Quantize(draw) == (PRECISION - h - d) as real / 1_000_000.0;
    QuantizeOnGrid(PRECISION - h - d);
    QuantizeIsMicros(1.0 - Quantize(home) - Quantize(draw));
  }

  lemma {:induction false} MicrosOfTwo(home: real, draw: real)
    requires home >= 0.0 && draw >= 0.0 && home + draw <= 1.0
    ensures Micros(home) + Micros(draw) <= PRECISION + 1
  {
    var h, d := home * 1_000_000.0 + 0.5, draw * 1_000_000.0 + 0.5;
    assert h + d <= 1_000_001.0;
    assert h.Floor as real + d.Floor as real <= 1_000_001.0;
  }

  /** Two millionths below one, home and draw always leave room. */
  lemma {:induction false} RoomForAway(home: real, draw: real)
    requires home >= 0.0 && draw >= 0.0 && home + draw <= 0.999998
    ensures Quantize(home) + Quantize(draw) <= 0.999999
  {
    hide Quantize;
    QuantizeIsMicros(home);
    QuantizeIsMicros(draw);
    var h, d := home * 1_000_000.0 + 0.5, draw * 1_000_000.0 + 0.5;
    assert h + d <= 999_999.0;
    assert h.Floor as real + d.Floor as real <= 999_999.0;
  }

  /** Mass `v` on 1-0 and mass `w` on 0-0. */
  ghost predicate TwoScores(g: Grid, v: real, w: real) {
    forall h: nat, a: nat :: g(h, a) == if a > 0 then 0.0 else if h == 0 then w else if h == 1 then v else 0.0
  }

  lemma {:induction false} TwoScoresRow(e: Event, g: Grid, v: real, w: real, home: nat, n: nat)
    requires TwoScores(g, v, w)
    ensures RowEventMass(e, g, home, n) == if n > 0 then CellMass(e, g, home, 0) else 0.0
  {
    if n > 0 { TwoScoresRow(e, g, v, w, home, n - 1); }
  }

  lemma {:induction false} TwoScoresMass(e: Event, g: Grid, v: real, w: real, rows: nat, columns: nat)
    requires TwoScores(g, v, w) && columns > 0
    ensures EventMass(e, g, rows, columns)
         == (if rows > 0 && Occurs(e, 0, 0) then w else 0.0) + (if rows > 1 && Occurs(e, 1, 0) then v else 0.0)
  {
    if rows > 0 {
      TwoScoresMass(e, g, v, w, rows - 1, columns);
      TwoScoresRow(e, g, v, w, rows - 1, columns);
    }
  }

  /** The two millionths are reached by a matrix: both halves round up and away still gets one. */
  lemma {:induction false} OneXTwoCanExceed(g: Grid, rows: nat, columns: nat)
    requires TwoScores(g, 0.5000005, 0.4999995) && rows > 1 && columns > 0
    ensures NonNegative(g) && Mass(g, rows, columns) == 1.0
    ensures
      var m := MarketsOf(g, rows, columns);
      m.homeWin + m.draw + m.awayWin == 1.000002
  {
    hide EventMass, Quantize, Mass;
    ResultsPartition(g, rows, columns);
    TwoScoresMass(Anything, g, 0.5000005, 0.4999995, rows, columns);
    TwoScoresMass(HomeAhead, g, 0.5000005, 0.4999995, rows, columns);
    TwoScoresMass(Level, g, 0.5000005, 0.4999995, rows, columns);
    HalvesExceed();
  }

  lemma {:induction false} HalvesExceed()
    ensures
      var h, d := Quantize(0.5000005), Quantize(0.4999995);
      h + d + Quantize(1.0 - h - d) == 1.000002
  {
    assert (0.5000005 * 1_000_000.0 + 0.5) == 500001.0;
    assert (0.4999995 * 1_000_000.0 + 0.5) == 500000.0;
    var h, d := Quantize(0.5000005), Quantize(0.4999995);
    assert h == 0.500001 && d == 0.5;
    assert ((1.0 - h - d) * 1_000_000.0 + 0.5) == -0.5;
    assert (-0.5).Floor == -1;
  }

  /** When the 1X2 adds up to one, every double chance is exactly the complement of the third result. */
  lemma {:induction false} DoubleChanceComplements(g: Grid, rows: nat, columns: nat)
    requires var m := MarketsOf(g, rows, columns); m.homeWin + m.draw + m.awayWin == 1.0
    ensures var m := MarketsOf(g, rows, columns);
            m.homeOrDraw == 1.0 - m.awayWin && m.homeOrAway == 1.0 - m.draw && m.drawOrAway == 1.0 - m.homeWin
  {
    hide Quantize, EventMass, ComplementaryPair;
    var home, draw := EventMass(HomeAhead, g, rows, columns), EventMass(Level, g, rows, columns);
    var m := MarketsOf(g, rows, columns);
    QuantizeComplement(home);
    QuantizeComplement(draw);
    QuantizeComplement(1.0 - Quantize(home) - Quantize(draw));
  }

  /** All the mass on one score. */
  ghost predicate Certain(g: Grid, home: nat, away: nat) {
    forall h: nat, a: nat :: g(h, a) == if h == home && a == away then 1.0 else 0.0
  }

  lemma {:induction false} CertainRow(e: Event, g: Grid, home: nat, away: nat, h: nat, n: nat)
    requires Certain(g, home, away)
    ensures RowEventMass(e, g, h, n) == if h == home && away < n && Occurs(e, home, away) then 1.0 else 0.0
  {
    hide Occurs;
    if n > 0 { CertainRow(e, g, home, away, h, n - 1); }
  }

  lemma {:induction false} CertainMass(e: Event, g: Grid, home: nat, away: nat, rows: nat, columns: nat)
    requires Certain(g, home, away)
    ensures EventMass(e, g, rows, columns)
            == if home < rows && away < columns && Occurs(e, home, away) then 1.0 else 0.0
  {
    hide Occurs, RowEventMass;
    if rows > 0 {
      CertainMass(e, g, home, away, rows - 1, columns);
      CertainRow(e, g, home, away, rows - 1, columns);
    }
  }

  /** The price of a certain event, and of an impossible one. */
  function Settled(outcome: bool): real { if outcome then 0.999999 else 0.000001 }

  lemma {:induction false} QuantizeSettled()
    ensures Quantize(1.0) == 0.999999 && Quantize(0.0) == 0.000001
    ensures Quantize(0.000001) == 0.000001 && Quantize(0.999999) == 0.999999
  {
    QuantizeIsMicros(1.0);
    QuantizeIsMicros(0.0);
    QuantizeOnGrid(1);
    QuantizeOnGrid(999_999);
    QuantizeIsMicros(0.000001);
    QuantizeIsMicros(0.999999);
    assert (1.0 * 1_000_000.0 + 0.5).Floor == 1_000_000 && (0.0 * 1_000_000.0 + 0.5).Floor == 0;
  }

  /** With a certain score every market says what that score means. */
  lemma {:induction false} CertainScore(g: Grid, home: nat, away: nat, rows: nat, columns: nat)
    requires Certain(g, home, away) && home < rows && away < columns
    ensures var m := MarketsOf(g, rows, columns);
            && m.homeWin == Settled(home > away) && m.draw == Settled(home == away)
            && (home < away ==> m.awayWin == 0.999998) && (home >= away ==> m.awayWin == 0.000001)
            && m.over15.positive == Settled(home + away > 1)
            && m.over25.positive == m.under25.negative == Settled(home + away > 2)
            && m.over35.positive == m.under35.negative == Settled(home + away > 3)
            && m.bothTeamsScore.positive == Settled(home > 0 && away > 0)
  {
    hide EventMass, Quantize;
    CertainMass(HomeAhead, g, home, away, rows, columns);
    CertainMass(Level, g, home, away, rows, columns);
    CertainMass(MoreThan(1), g, home, away, rows, columns);
    CertainMass(MoreThan(2), g, home, away, rows, columns);
    CertainMass(MoreThan(3), g, home, away, rows, columns);
    CertainMass(BothScore, g, home, away, rows, columns);
    QuantizeSettled();
    SettledAway(home, away);
    ExactPair(EventMass(MoreThan(2), g, rows, columns));
    ExactPair(EventMass(MoreThan(3), g, rows, columns));
  }

  lemma {:induction false} SettledAway(home: nat, away: nat)
    ensures Quantize(1.0 - Settled(home > away) - Settled(home == away)) == if home < away then 0.999998 else 0.000001
  {
    QuantizeOnGrid(999_998);
    QuantizeOnGrid(0);
    QuantizeIsMicros(0.999998);
    QuantizeIsMicros(0.0);
    assert 999_998 as real / 1_000_000.0 == 0.999998 && 0 as real / 1_000_000.0 == 0.0;
  }
}
