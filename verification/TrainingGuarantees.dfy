/**
 * What a trained frequency model says about the records (backend/src/training.ts, backend/src/markets.ts):
 * every number of it as a count of matches, in goals, corners, cards and results.
 */
module TrainingGuarantees {
  import opened Sorting
  import opened Records
  import opened Markets
  import opened Training
  import opened TeamProfiles
  import opened StringOrder

  // ---------------------------------------------------------------- what a selection is about

  /** What may come out in a match; a line of 1.5 goals is passed by two. */
  datatype Event =
    | Ended(outcome: Outcome) | NotEnded(outcome: Outcome) | GoalsOver(line: real) | GoalsUnder(line: real)
    | BothScored | SomeoneBlank | CornersOver(line: real) | CardsOver(line: real)

  predicate Occurred(e: Event, r: Match) {
    match e
    case Ended(outcome) => r.outcome == outcome
    case NotEnded(outcome) => r.outcome != outcome
    case GoalsOver(line) => r.totalGoals as real > line
    case GoalsUnder(line) => (r.totalGoals as real) < line
    case BothScored => r.homeGoals >= 1 && r.awayGoals >= 1
    case SomeoneBlank => r.homeGoals <= 0 || r.awayGoals <= 0
    case CornersOver(line) => r.totalCorners.Some? && r.totalCorners.value as real > line
    case CardsOver(line) => r.totalCards.Some? && r.totalCards.value as real > line
  }

  /** The selections of a market and what each of them bets on. */
  function Bets(m: Market): map<string, Event> {
    match m
    case ResultMarket => map["home_win" := Ended(HomeWin), "draw" := Ended(Draw), "away_win" := Ended(AwayWin)]
    case DoubleChance => map["1x" := NotEnded(AwayWin), "12" := NotEnded(Draw), "x2" := NotEnded(HomeWin)]
    case Over15 => map["over_1_5" := GoalsOver(1.5), "under_or_equal_1_5" := GoalsUnder(1.5)]
    case Over25 => map["over_2_5" := GoalsOver(2.5), "under_or_equal_2_5" := GoalsUnder(2.5)]
    case Over35 => map["over_3_5" := GoalsOver(3.5), "under_or_equal_3_5" := GoalsUnder(3.5)]
    case Under25 => map["under_2_5" := GoalsUnder(2.5), "over_or_equal_2_5" := GoalsOver(2.5)]
    case Under35 => map["under_3_5" := GoalsUnder(3.5), "over_or_equal_3_5" := GoalsOver(3.5)]
    case BothTeamsScore => map["btts_yes" := BothScored, "btts_no" := SomeoneBlank]
    case Corners => map["corners_over_8_5" := CornersOver(8.5), "corners_over_9_5" := CornersOver(9.5)]
    case Cards =>
      map["cards_over_3_5" := CardsOver(3.5), "cards_over_4_5" := CardsOver(4.5), "cards_over_5_5" := CardsOver(5.5)]
  }

  /** A match counts for a market when its record has the columns: corners and cards may be missing. */
  predicate Counts(m: Market, r: Match) {
    (m == Corners ==> r.totalCorners.Some?) && (m == Cards ==> r.totalCards.Some?)
  }

  predicate UsesColumn(m: Market, r: Match, column: string) {
    match m
    case Corners => r.totalCorners.Some? && (column == "HC" || column == "AC")
    case Cards =>
      && r.totalCards.Some?
      && (|| (column == "HY" && r.homeYellowCards.Some?) || (column == "AY" && r.awayYellowCards.Some?)
          || (column == "HR" && r.homeRedCards.Some?) || (column == "AR" && r.awayRedCards.Some?))
    case _ => column == "FTHG" || column == "FTAG"
  }

  lemma {:induction false} BetsDiffer(m: Market)
    ensures
      match m
      case ResultMarket => "home_win" != "draw" && "home_win" != "away_win" && "draw" != "away_win"
      case DoubleChance => "1x" != "12" && "1x" != "x2" && "12" != "x2"
      case Over15 => "over_1_5" != "under_or_equal_1_5"
      case Over25 => "over_2_5" != "under_or_equal_2_5"
      case Over35 => "over_3_5" != "under_or_equal_3_5"
      case Under25 => "under_2_5" != "over_or_equal_2_5"
      case Under35 => "under_3_5" != "over_or_equal_3_5"
      case BothTeamsScore => "btts_yes" != "btts_no"
      case Corners => "corners_over_8_5" != "corners_over_9_5"
      case Cards =>
        && "cards_over_3_5" != "cards_over_4_5" && "cards_over_3_5" != "cards_over_5_5"
        && "cards_over_4_5" != "cards_over_5_5"
  {
    assert "home_win"[0] != "draw"[0] && "home_win"[0] != "away_win"[0] && "draw"[0] != "away_win"[0];
    assert "1x"[1] != "12"[1] && "1x"[0] != "x2"[0] && "12"[0] != "x2"[0];
    assert "over_1_5"[0] != "under_or_equal_1_5"[0] && "over_2_5"[0] != "under_or_equal_2_5"[0];
    assert "over_3_5"[0] != "under_or_equal_3_5"[0] && "under_2_5"[0] != "over_or_equal_2_5"[0];
    assert "under_3_5"[0] != "over_or_equal_3_5"[0] && "btts_yes"[5] != "btts_no"[5];
    assert "corners_over_8_5"[13] != "corners_over_9_5"[13];
    assert "cards_over_3_5"[11] != "cards_over_4_5"[11] && "cards_over_3_5"[11] != "cards_over_5_5"[11];
    assert "cards_over_4_5"[11] != "cards_over_5_5"[11];
  }

  /** The labels of a match say of every selection whether its event occurred. */
  lemma {:induction false} LabelsMean(r: Match, m: Market, s: string)
    ensures DeriveLabels(r, m).Some? <==> Counts(m, r)
    ensures DeriveLabels(r, m).Some? ==> (s in DeriveLabels(r, m).value.labels <==> s in Bets(m))
    ensures DeriveLabels(r, m).Some?
            ==> (Happened(DeriveLabels(r, m).value, s) <==> s in Bets(m) && Occurred(Bets(m)[s], r))
    ensures s in Bets(m) && Occurred(Bets(m)[s], r) ==> Counts(m, r)
  {
    BetsDiffer(m);
  }

  lemma {:induction false} ColumnsMean(r: Match, m: Market, column: string)
    requires DeriveLabels(r, m).Some?
    ensures column in DeriveLabels(r, m).value.columnsUsed <==> UsesColumn(m, r, column)
  {
    if m == Cards {
      CardColumnsMean(r, column);
    } else {
      hide CardColumns;
    }
  }

  lemma {:induction false} CardColumnsMean(r: Match, column: string)
    ensures column in CardColumns(r)
       <==> || (column == "HY" && r.homeYellowCards.Some?) || (column == "AY" && r.awayYellowCards.Some?)
            || (column == "HR" && r.homeRedCards.Some?) || (column == "AR" && r.awayRedCards.Some?)
  {
  }

  lemma {:induction false} SelectionsMean(m: Market, s: string)
    ensures s in Selections(m) <==> s in Bets(m)
  {
  }

  // ---------------------------------------------------------------- counting matches

  function HappensIn(e: Event): Match -> bool { (r: Match) => Occurred(e, r) }

  function CountsFor(m: Market): Match -> bool { (r: Match) => Counts(m, r) }

  /** How often the matches with property `p` count in a segment. */
  function InSegment(records: seq<Match>, p: Match -> bool, key: string, withGlobal: bool): nat {
    if records == [] then 0
    else
      var n := |records| - 1;
      InSegment(records[..n], p, key, withGlobal)
      + (if p(records[n]) then Occurrences(SegmentKeys(records[n], withGlobal), key) else 0)
  }

  lemma {:induction false} OneMoreEntry(entries: seq<Entry>, e: Entry, key: string, s: string, withGlobal: bool)
    ensures Sample(entries + [e], key, withGlobal)
         == Sample(entries, key, withGlobal) + Occurrences(SegmentKeys(e.record, withGlobal), key)
    ensures Positive(entries + [e], key, s, withGlobal)
         == Positive(entries, key, s, withGlobal)
            + (if Happened(e.labels, s) then Occurrences(SegmentKeys(e.record, withGlobal), key) else 0)
    ensures PositiveCount(entries + [e], s) == PositiveCount(entries, s) + (if Happened(e.labels, s) then 1 else 0)
    ensures Columns(entries + [e]) == Columns(entries) + e.labels.columnsUsed
  {
    hide Occurrences, SegmentKeys, Happened;
    assert (entries + [e])[..|entries|] == entries;
  }

  /** What a selection counts, in any segment and overall: the matches in which its event occurred. */
  lemma {:induction false} PositivesMean(records: seq<Match>, m: Market, s: string, key: string, withGlobal: bool)
    requires s in Bets(m)
    ensures Positive(Labelled(records, m), key, s, withGlobal)
         == InSegment(records, HappensIn(Bets(m)[s]), key, withGlobal)
    ensures PositiveCount(Labelled(records, m), s) == CountIf(records, HappensIn(Bets(m)[s]))
  {
    hide Occurrences, SegmentKeys, Happened, DeriveLabels, Bets, Counts;
    if records != [] {
      var n := |records| - 1;
      var r, before := records[n], Labelled(records[..n], m);
      PositivesMean(records[..n], m, s, key, withGlobal);
      LabelsMean(r, m, s);
      assert before + [] == before;
      if DeriveLabels(r, m).Some? { OneMoreEntry(before, Entry(r, DeriveLabels(r, m).value), key, s, withGlobal); }
    }
  }

  /** The sample of a market, in any segment and overall: the matches that have its columns. */
  lemma {:induction false} SampleMeans(records: seq<Match>, m: Market, key: string, withGlobal: bool)
    ensures Sample(Labelled(records, m), key, withGlobal) == InSegment(records, CountsFor(m), key, withGlobal)
    ensures |Labelled(records, m)| == CountIf(records, CountsFor(m))
  {
    hide Occurrences, SegmentKeys, Happened, DeriveLabels, Counts;
    if records != [] {
      var n := |records| - 1;
      var r, before := records[n], Labelled(records[..n], m);
      SampleMeans(records[..n], m, key, withGlobal);
      LabelsMean(r, m, "");
      assert before + [] == before;
      if DeriveLabels(r, m).Some? { OneMoreEntry(before, Entry(r, DeriveLabels(r, m).value), key, "", withGlobal); }
    }
  }

  /** The three double chances pay on two results each. */
  lemma {:induction false} DoubleChanceAddsUp(records: seq<Match>, key: string, withGlobal: bool)
    ensures
      var double := (s: string) => Positive(Labelled(records, DoubleChance), key, s, withGlobal);
      var single := (s: string) => Positive(Labelled(records, ResultMarket), key, s, withGlobal);
      && double("1x") == single("home_win") + single("draw")
      && double("12") == single("home_win") + single("away_win")
      && double("x2") == single("draw") + single("away_win")
  {
    hide Positive, Labelled;
    BetsDiffer(ResultMarket);
    BetsDiffer(DoubleChance);
    PositivesMean(records, DoubleChance, "1x", key, withGlobal);
    PositivesMean(records, DoubleChance, "12", key, withGlobal);
    PositivesMean(records, DoubleChance, "x2", key, withGlobal);
    PositivesMean(records, ResultMarket, "home_win", key, withGlobal);
    PositivesMean(records, ResultMarket, "draw", key, withGlobal);
    PositivesMean(records, ResultMarket, "away_win", key, withGlobal);
    TwoOfThree(records, AwayWin, HomeWin, Draw, key, withGlobal);
    TwoOfThree(records, Draw, HomeWin, AwayWin, key, withGlobal);
    TwoOfThree(records, HomeWin, Draw, AwayWin, key, withGlobal);
  }

  lemma {:induction false} TwoOfThree(records: seq<Match>, a: Outcome, b: Outcome, c: Outcome, key: string,
                                      withGlobal: bool)
    requires a != b && a != c && b != c
    ensures InSegment(records, HappensIn(NotEnded(a)), key, withGlobal)
         == InSegment(records, HappensIn(Ended(b)), key, withGlobal)
            + InSegment(records, HappensIn(Ended(c)), key, withGlobal)
  {
    hide Occurrences, SegmentKeys;
    if records != [] { TwoOfThree(records[..|records| - 1], a, b, c, key, withGlobal); }
  }

  function Bit(b: bool): nat { if b then 1 else 0 }

  function LeagueName(r: Match): string { if r.league.Some? then r.league.value else "unknown" }

  /** The segments a match counts in: its league, season and competition, and their combinations. */
  lemma {:induction false} ContextMeans(r: Match, key: string)
    ensures Occurrences(SegmentKeys(r, false), key)
         == Bit(key == LeagueName(r))
            + (if r.season.Some? && r.season.value != "" then
                 Bit(key == "season:" + r.season.value) + Bit(key == LeagueName(r) + "::" + r.season.value)
               else 0)
            + (if r.competition.Some? && r.competition.value != "" then
                 Bit(key == r.competition.value) + Bit(key == "competition:" + r.competition.value)
                 + (if r.season.Some? && r.season.value != "" then
                      Bit(key == r.competition.value + "::" + r.season.value)
                    else 0)
               else 0)
    ensures Occurrences(SegmentKeys(r, true), key) == Bit(key == "global") + Occurrences(SegmentKeys(r, false), key)
  {
    hide Occurrences;
    OccurrencesConcat(["global"], ContextKeys(r), key);
    OccursOnce("global", key);
    assert SegmentKeys(r, false) == ContextKeys(r);
    ContextCounts(r, key);
  }

  lemma {:induction false} OccurrencesConcat(a: seq<string>, b: seq<string>, key: string)
    ensures Occurrences(a + b, key) == Occurrences(a, key) + Occurrences(b, key)
  {
    if b == [] {
      assert a + b == a;
    } else {
      OccurrencesConcat(a, b[..|b| - 1], key);
      assert (a + b)[..|a + b| - 1] == a + b[..|b| - 1];
    }
  }

  lemma {:induction false} OccursOnce(k: string, key: string)
    ensures Occurrences([k], key) == Bit(k == key)
  {
    assert [k][..0] == [];
  }

  lemma {:induction false} OccurTwice(k: string, l: string, key: string)
    ensures Occurrences([k, l], key) == Bit(k == key) + Bit(l == key)
  {
    assert [k, l] == [k] + [l];
    OccurrencesConcat([k], [l], key);
    OccursOnce(k, key);
    OccursOnce(l, key);
  }

  lemma {:induction false} ContextCounts(r: Match, key: string)
    ensures Occurrences(ContextKeys(r), key)
         == Bit(key == LeagueName(r))
            + (if r.season.Some? && r.season.value != "" then
                 Bit(key == "season:" + r.season.value) + Bit(key == LeagueName(r) + "::" + r.season.value)
               else 0)
            + (if r.competition.Some? && r.competition.value != "" then
                 Bit(key == r.competition.value) + Bit(key == "competition:" + r.competition.value)
                 + (if r.season.Some? && r.season.value != "" then
                      Bit(key == r.competition.value + "::" + r.season.value)
                    else 0)
               else 0)
  {
    var league, seasoned, named := LeagueName(r), Truthy(r.season), Truthy(r.competition);
    var both: seq<string> := if seasoned && named then [r.competition.value + "::" + r.season.value] else [];
    var inSeason: seq<string> :=
      if seasoned then ["season:" + r.season.value, league + "::" + r.season.value] + both else [];
    var inCompetition: seq<string> :=
      if named then [r.competition.value, "competition:" + r.competition.value] else [];
    assert ContextKeys(r) == [league] + inSeason + inCompetition;
    OccursOnce(league, key);
    OccurrencesConcat([league], inSeason, key);
    OccurrencesConcat([league] + inSeason, inCompetition, key);
    if seasoned {
      OccurTwice("season:" + r.season.value, league + "::" + r.season.value, key);
      OccurrencesConcat(["season:" + r.season.value, league + "::" + r.season.value], both, key);
      if named { OccursOnce(r.competition.value + "::" + r.season.value, key); }
    }
    if named { OccurTwice(r.competition.value, "competition:" + r.competition.value, key); }
  }

  // ---------------------------------------------------------------- the trained model

  /** The share in percent, to the nearest tenth and upwards from the middle; nothing of nothing is zero. */
  ghost predicate IsPercentage(p: real, positive: nat, sample: nat) {
    if sample == 0 then p == 0.0
    else exists tenths: int :: p * 10.0 == tenths as real && RoundsTo(positive, sample, tenths)
  }

  predicate RoundsTo(positive: nat, sample: nat, tenths: int) {
    2 * tenths * sample - sample <= 2000 * positive < 2 * tenths * sample + sample
  }

  lemma {:induction false} PercentageMeans(positive: nat, sample: nat)
    ensures IsPercentage(Percentage(positive, sample), positive, sample)
  {
    if sample > 0 {
      var q := positive as real / sample as real;
      var tenths := (q * 1000.0 + 0.5).Floor;
      NearestTenth(positive, sample, q, tenths);
      assert Percentage(positive, sample) * 10.0 == tenths as real;
    }
  }

  function Times(x: real, n: real): real { x * n }

  lemma {:induction false} NearestTenth(positive: nat, sample: nat, q: real, tenths: int)
    requires sample > 0 && q == positive as real / sample as real && tenths == (q * 1000.0 + 0.5).Floor
    ensures RoundsTo(positive, sample, tenths)
  {
    hide Times;
    var n, t, w := sample as real, tenths as real, tenths * sample;
    ThousandTimes(q, n, positive as real);
    TimesIncreases(t - 0.5, q * 1000.0, t + 0.5, n);
    HalfSteps(t, n);
    WholeProduct(tenths, sample);
    WholeBounds(w, sample, positive);
  }

  lemma {:induction false} ThousandTimes(q: real, n: real, x: real)
    requires n > 0.0 && q == x / n
    ensures Times(q * 1000.0, n) == 1000.0 * x
  {
    assert q * n == x;
  }

  lemma {:induction false} HalfSteps(t: real, n: real)
    ensures Times(t - 0.5, n) == Times(t, n) - 0.5 * n && Times(t + 0.5, n) == Times(t, n) + 0.5 * n
  {
  }

  lemma {:induction false} TimesIncreases(low: real, x: real, high: real, n: real)
    requires low <= x < high && n > 0.0
    ensures Times(low, n) <= Times(x, n) < Times(high, n)
  {
  }

  lemma {:induction false} WholeProduct(a: int, b: int)
    ensures Times(a as real, b as real) == (a * b) as real && 2 * a * b == 2 * (a * b)
  {
  }

  lemma {:induction false} WholeBounds(w: int, sample: int, positive: int)
    requires w as real - 0.5 * sample as real <= 1000.0 * positive as real < w as real + 0.5 * sample as real
    ensures 2 * w - sample <= 2000 * positive < 2 * w + sample
  {
    assert (2 * w - sample) as real == 2.0 * w as real - sample as real;
    assert (2 * w + sample) as real == 2.0 * w as real + sample as real;
    assert (2000 * positive) as real == 2000.0 * positive as real;
  }

  lemma {:induction false} Scale(low: real, x: real, high: real, n: real)
    requires low <= x < high && n > 0.0
    ensures low * n <= x * n < high * n
  {
  }

  /** A segment model read back: its sample, and for every bet the count and the percentage. */
  ghost predicate SegmentReads(segment: SegmentModel, key: string, m: Market, minRows: nat, sample: nat,
                               count: string -> nat)
  {
    && segment.segmentKey == key && segment.sampleSize == sample && (segment.available <==> sample >= minRows)
    && segment.probabilities.Keys == segment.positiveCounts.Keys == segment.totalCounts.Keys == Bets(m).Keys
    && forall s | s in Bets(m) ::
         && segment.totalCounts[s] == sample && segment.positiveCounts[s] == count(s)
         && IsPercentage(segment.probabilities[s], count(s), sample)
  }

  function OverallCount(records: seq<Match>, m: Market): string -> nat {
    (s: string) => if s in Bets(m) then CountIf(records, HappensIn(Bets(m)[s])) else 0
  }

  function SegmentCount(records: seq<Match>, m: Market, key: string): string -> nat {
    (s: string) => if s in Bets(m) then InSegment(records, HappensIn(Bets(m)[s]), key, false) else 0
  }

  lemma {:induction false} SegmentMeans(key: string, m: Market, minRows: nat, sample: nat, positive: map<string, nat>,
                                        count: string -> nat)
    requires positive.Keys == set s | s in Selections(m)
    requires forall s | s in Bets(m) && s in positive :: positive[s] == count(s)
    ensures SegmentReads(Segment(key, sample, positive, Selections(m), minRows), key, m, minRows, sample, count)
  {
    hide Selections, Bets, Percentage, IsPercentage;
    forall s ensures s in Selections(m) <==> s in Bets(m) { SelectionsMean(m, s); }
    forall s | s in Bets(m) ensures IsPercentage(Percentage(positive[s], sample), count(s), sample) {
      PercentageMeans(positive[s], sample);
    }
  }

  lemma {:induction false} SegmentsMean(records: seq<Match>, m: Market, key: string)
    ensures key in SegmentsOf(Labelled(records, m), false)
       <==> exists i | 0 <= i < |records| :: Counts(m, records[i]) && key in ContextKeys(records[i])
  {
    hide DeriveLabels, Counts, ContextKeys;
    if records != [] {
      var n := |records| - 1;
      var r, before := records[n], Labelled(records[..n], m);
      SegmentsMean(records[..n], m, key);
      LabelsMean(r, m, "");
      if DeriveLabels(r, m).Some? {
        assert Labelled(records, m)[..|before|] == before;
        assert SegmentKeys(r, false) == ContextKeys(r);
      } else {
        assert Labelled(records, m) == before;
      }
      if i :| 0 <= i < n && Counts(m, records[..n][i]) && key in ContextKeys(records[..n][i]) {
        assert Counts(m, records[i]) && key in ContextKeys(records[i]);
      }
      if i :| 0 <= i < n && Counts(m, records[i]) && key in ContextKeys(records[i]) {
        assert Counts(m, records[..n][i]) && key in ContextKeys(records[..n][i]);
      }
    }
  }

  lemma {:induction false} ColumnsUsedMean(records: seq<Match>, m: Market, column: string)
    ensures column in Columns(Labelled(records, m))
       <==> exists i | 0 <= i < |records| :: Counts(m, records[i]) && UsesColumn(m, records[i], column)
  {
    hide DeriveLabels, Counts, UsesColumn;
    if records != [] {
      var n := |records| - 1;
      var r, before := records[n], Labelled(records[..n], m);
      ColumnsUsedMean(records[..n], m, column);
      LabelsMean(r, m, "");
      if DeriveLabels(r, m).Some? {
        OneMoreEntry(before, Entry(r, DeriveLabels(r, m).value), "", "", false);
        ColumnsMean(r, m, column);
        assert column in Columns(Labelled(records, m)) <==> column in Columns(before) || UsesColumn(m, r, column);
      } else {
        assert Labelled(records, m) == before;
      }
      if i :| 0 <= i < n && Counts(m, records[..n][i]) && UsesColumn(m, records[..n][i], column) {
        assert Counts(m, records[i]) && UsesColumn(m, records[i], column);
      }
      if i :| 0 <= i < n && Counts(m, records[i]) && UsesColumn(m, records[i], column) {
        assert Counts(m, records[..n][i]) && UsesColumn(m, records[..n][i], column);
      }
    }
  }

  /** The model of a market, number by number, in counts of matches. */
  lemma {:induction false} MarketMeans(records: seq<Match>, m: Market, minRows: nat)
    ensures
      var model, rows := BatchMarket(records, m, minRows), CountIf(records, CountsFor(m));
      && model.usableRows == rows && (model.available <==> rows >= minRows)
      && SegmentReads(model.global, "global", m, minRows, rows, OverallCount(records, m))
      && forall column ::
           column in model.columnsUsed
           <==> exists i | 0 <= i < |records| :: Counts(m, records[i]) && UsesColumn(m, records[i], column)
  {
    var entries := Labelled(records, m);
    hide Labelled, PositiveCount, Selections, Bets, Columns, Counts, UsesColumn, SegmentReads, Segment;
    SampleMeans(records, m, "", false);
    forall column
      ensures column in Columns(entries)
         <==> exists i | 0 <= i < |records| :: Counts(m, records[i]) && UsesColumn(m, records[i], column)
    {
      ColumnsUsedMean(records, m, column);
    }
    forall s | s in Bets(m) ensures PositiveCount(entries, s) == OverallCount(records, m)(s) {
      PositivesMean(records, m, s, "", false);
      assert OverallCount(records, m)(s) == CountIf(records, HappensIn(Bets(m)[s]));
    }
    SegmentMeans("global", m, minRows, |entries|, PositiveCounts(entries, Selections(m)), OverallCount(records, m));
    GlobalReads(entries, Selections(m), minRows);
  }

  lemma {:induction false} GlobalReads(entries: seq<Entry>, selections: seq<string>, minRows: nat)
    ensures BatchGlobal(entries, selections, minRows).available <==> |entries| >= minRows
  {
  }

  /** Every context of a counted match has a segment, and no other key has; it counts the matches of that context. */
  lemma {:induction false} SegmentModelMeans(records: seq<Match>, m: Market, minRows: nat, key: string)
    ensures
      var segments := BatchMarket(records, m, minRows).segments;
      && (key in segments
          <==> exists i | 0 <= i < |records| :: Counts(m, records[i]) && key in ContextKeys(records[i]))
      && (key in segments ==>
            SegmentReads(segments[key], key, m, minRows, InSegment(records, CountsFor(m), key, false),
                         SegmentCount(records, m, key)))
  {
    var entries := Labelled(records, m);
    hide Labelled, Positive, Sample, Selections, Bets, Counts, ContextKeys, SegmentReads, Segment, BatchGlobal, Columns;
    SampleMeans(records, m, key, false);
    SegmentsMean(records, m, key);
    forall s | s in Bets(m) ensures Positive(entries, key, s, false) == SegmentCount(records, m, key)(s) {
      PositivesMean(records, m, s, key, false);
    }
    SegmentMeans(key, m, minRows, Sample(entries, key, false), Positives(entries, key, Selections(m), false),
                 SegmentCount(records, m, key));
  }

  // ---------------------------------------------------------------- the header

  /** String order is decided at the first difference, and a prefix comes first. */
  lemma {:induction false} FirstDifferenceDecides(p: string, x: char, s: string, y: char, t: string)
    requires x != y
    ensures Le(p + [x] + s, p + [y] + t) <==> x < y
    ensures Le(p, p + s) && (Le(p + s, p) ==> s == "")
  {
    PrefixFirst(p, s);
    if p == "" {
      assert p + [x] + s == [x] + s && p + [y] + t == [y] + t;
    } else {
      FirstDifferenceDecides(p[1..], x, s, y, t);
      SameHead(p[0], p[1..] + [x] + s, p[1..] + [y] + t);
      assert p + [x] + s == [p[0]] + (p[1..] + [x] + s) && p + [y] + t == [p[0]] + (p[1..] + [y] + t);
    }
  }

  lemma {:induction false} SameHead(c: char, a: string, b: string)
    ensures Le([c] + a, [c] + b) <==> Le(a, b)
  {
    assert ([c] + a)[1..] == a && ([c] + b)[1..] == b;
  }

  lemma {:induction false} PrefixFirst(p: string, s: string)
    ensures Le(p, p + s) && (Le(p + s, p) ==> s == "")
  {
    if p == "" {
      assert p + s == s;
    } else {
      PrefixFirst(p[1..], s);
      SameHead(p[0], p[1..], p[1..] + s);
      SameHead(p[0], p[1..] + s, p[1..]);
      assert p == [p[0]] + p[1..] && p + s == [p[0]] + (p[1..] + s);
    }
  }

  predicate Provides(r: Match, field: Match -> Option<string>, value: string) {
    field(r) == Some(value) && value != ""
  }

  lemma {:induction false} PresentMeans(records: seq<Match>, field: Match -> Option<string>, value: string)
    ensures value in Present(records, field) <==> exists i | 0 <= i < |records| :: Provides(records[i], field, value)
  {
    if records != [] {
      var n := |records| - 1;
      PresentMeans(records[..n], field, value);
      if i :| 0 <= i < n && Provides(records[..n][i], field, value) { assert Provides(records[i], field, value); }
      if i :| 0 <= i < n && Provides(records[i], field, value) { assert Provides(records[..n][i], field, value); }
      assert value in Present(records, field)
        <==> value in Present(records[..n], field) || Provides(records[n], field, value);
    }
  }

  /** The provider, the competition or else the league, the date and the time of the last update. */
  function ProviderOf(r: Match): Option<string> { r.sourceProvider }

  function CompetitionOf(r: Match): Option<string> { if r.competition == None then r.league else r.competition }

  function DateOf(r: Match): Option<string> { r.date }

  function UpdatedAtOf(r: Match): Option<string> { r.updatedAt }

  /** The values are exactly those some record provides, without repetition. */
  ghost predicate Collects(values: seq<string>, records: seq<Match>, field: Match -> Option<string>) {
    && (forall i, j | 0 <= i < j < |values| :: values[i] != values[j])
    && (forall x :: x in values <==> exists i | 0 <= i < |records| :: Provides(records[i], field, x))
  }

  /** The smallest or the greatest of the values the records provide; none without values. */
  ghost predicate IsLeast(best: Option<string>, records: seq<Match>, field: Match -> Option<string>) {
    match best
    case None => forall i, x | 0 <= i < |records| :: !Provides(records[i], field, x)
    case Some(b) =>
      && (exists i | 0 <= i < |records| :: Provides(records[i], field, b))
      && forall i, x | 0 <= i < |records| && Provides(records[i], field, x) :: Le(b, x)
  }

  ghost predicate IsGreatest(best: Option<string>, records: seq<Match>, field: Match -> Option<string>) {
    match best
    case None => forall i, x | 0 <= i < |records| :: !Provides(records[i], field, x)
    case Some(b) =>
      && (exists i | 0 <= i < |records| :: Provides(records[i], field, b))
      && forall i, x | 0 <= i < |records| && Provides(records[i], field, x) :: Le(x, b)
  }

  lemma {:induction false} ExtremesMean(records: seq<Match>, field: Match -> Option<string>)
    ensures IsLeast(Least(Present(records, field)), records, field)
    ensures IsGreatest(Greatest(Present(records, field)), records, field)
  {
    hide Le, Least, Greatest;
    var values := Present(records, field);
    NothingExtreme();
    forall i, x | 0 <= i < |records| && Provides(records[i], field, x) ensures x in values {
      PresentMeans(records, field, x);
    }
    if values == [] {
      forall i, x | 0 <= i < |records| ensures !Provides(records[i], field, x) {
        if Provides(records[i], field, x) { PresentMeans(records, field, x); }
      }
    } else {
      Extremes(values);
      PresentMeans(records, field, Least(values).value);
      PresentMeans(records, field, Greatest(values).value);
    }
  }

  lemma {:induction false} NothingExtreme()
    ensures Least([]) == None && Greatest([]) == None
  {
  }

  lemma {:induction false} CollectsPresent(records: seq<Match>, field: Match -> Option<string>)
    ensures Collects(Unique(Present(records, field)), records, field)
  {
    hide Unique;
    forall x ensures x in Present(records, field) <==> exists i | 0 <= i < |records| :: Provides(records[i], field, x) {
      PresentMeans(records, field, x);
    }
  }

  /** The same field by another name. */
  ghost predicate SameField(f: Match -> Option<string>, g: Match -> Option<string>) { forall r: Match :: f(r) == g(r) }

  lemma {:induction false} SamePresent(records: seq<Match>, f: Match -> Option<string>, g: Match -> Option<string>)
    requires SameField(f, g)
    ensures Present(records, f) == Present(records, g)
  {
    if records != [] { SamePresent(records[..|records| - 1], f, g); }
  }

  /** The header of a trained model, and that it has a model for every market. */
  lemma {:induction false} HeaderMeans(records: seq<Match>, minRows: nat, teamKey: string -> string)
    ensures
      var model := Batch(records, minRows, teamKey);
      && model.minRows == minRows && model.trainingRows == |records|
      && Collects(model.sourceProviders, records, ProviderOf)
      && Collects(model.competitions, records, CompetitionOf)
      && IsLeast(model.earliestDate, records, DateOf) && IsGreatest(model.latestDate, records, DateOf)
      && IsGreatest(model.latestUpdatedAt, records, UpdatedAtOf)
      && forall m: Market :: m in model.markets && model.markets[m] == BatchMarket(records, m, minRows)
  {
    hide Present, Unique, Least, Greatest, BatchMarket, Collects, IsLeast, IsGreatest, ProfilesOf;
    SamePresent(records, PROVIDER, ProviderOf);
    SamePresent(records, COMPETITION, CompetitionOf);
    SamePresent(records, DATE, DateOf);
    SamePresent(records, UPDATED_AT, UpdatedAtOf);
    CollectsPresent(records, ProviderOf);
    CollectsPresent(records, CompetitionOf);
    ExtremesMean(records, DateOf);
    ExtremesMean(records, UpdatedAtOf);
    forall m: Market ensures m in MARKET_IDS { EveryMarket(m); }
  }

  lemma {:induction false} EveryMarket(m: Market)
    ensures m in MARKET_IDS
  {
    assert MARKET_IDS[0] == ResultMarket && MARKET_IDS[1] == Market.Over15 && MARKET_IDS[2] == Market.Over25;
    assert MARKET_IDS[3] == Market.Over35 && MARKET_IDS[4] == Under25 && MARKET_IDS[5] == Under35;
    assert MARKET_IDS[6] == Market.BothTeamsScore && MARKET_IDS[7] == DoubleChance;
    assert MARKET_IDS[8] == Cards && MARKET_IDS[9] == Corners;
  }

  // ---------------------------------------------------------------- team profiles

  /** What a profile counter looks for in a match. */
  datatype Fact = Never | Always | HomeAhead | AwayAhead | Level | Bet(event: Event) | Recorded(market: Market)

  predicate Holds(fact: Fact, r: Match) {
    match fact
    case Never => false
    case Always => true
    case HomeAhead => r.homeGoals > r.awayGoals
    case AwayAhead => r.awayGoals > r.homeGoals
    case Level => r.homeGoals == r.awayGoals
    case Bet(event) => Occurred(event, r)
    case Recorded(market) => Counts(market, r)
  }

  /** What a counter counts among the matches a team hosts, and among those it visits. */
  function AtHome(c: Counter): Fact {
    match c
    case Matches | HomeMatches => Always
    case Wins | HomeWins => HomeAhead
    case Draws | HomeDraws => Level
    case Losses | HomeLosses => AwayAhead
    case AwayMatches | AwayWins | AwayDraws | AwayLosses => Never
    case _ => Anywhere(c)
  }

  function AtAway(c: Counter): Fact {
    match c
    case Matches | AwayMatches => Always
    case Wins | AwayWins => AwayAhead
    case Draws | AwayDraws => Level
    case Losses | AwayLosses => HomeAhead
    case HomeMatches | HomeWins | HomeDraws | HomeLosses => Never
    case _ => Anywhere(c)
  }

  function Anywhere(c: Counter): Fact {
    match c
    case Over15 => Bet(GoalsOver(1.5))
    case Over25 => Bet(GoalsOver(2.5))
    case Over35 => Bet(GoalsOver(3.5))
    case BothTeamsScore => Bet(BothScored)
    case CornersRows => Recorded(Corners)
    case CornersOver85 => Bet(CornersOver(8.5))
    case CornersOver95 => Bet(CornersOver(9.5))
    case CardsRows => Recorded(Cards)
    case CardsOver35 => Bet(CardsOver(3.5))
    case CardsOver45 => Bet(CardsOver(4.5))
    case CardsOver55 => Bet(CardsOver(5.5))
    case _ => Never
  }

  predicate CountsGoals(c: Counter) {
    c in {GoalsFor, GoalsAgainst, HomeGoalsFor, HomeGoalsAgainst, AwayGoalsFor, AwayGoalsAgainst}
  }

  function Hosting(key: string, teamKey: string -> string, fact: Fact): Match -> bool {
    (r: Match) => Hosts(r, key, teamKey) && Holds(fact, r)
  }

  function Visiting(key: string, teamKey: string -> string, fact: Fact): Match -> bool {
    (r: Match) => Visits(r, key, teamKey) && Holds(fact, r)
  }

  predicate Given(text: Option<string>) { text.Some? && |text.value| > 0 }

  /** A team hosts or visits a match when both teams are named and it is the one named there. */
  lemma {:induction false} PlaysMean(r: Match, key: string, teamKey: string -> string)
    ensures
      var named := Given(r.homeTeam) && Given(r.awayTeam);
      && (Hosts(r, key, teamKey) <==> named && teamKey(r.homeTeam.value) == key)
      && (Visits(r, key, teamKey) <==> named && teamKey(r.awayTeam.value) == key)
  {
  }

  lemma {:induction false} AddsMean(c: Counter, r: Match)
    requires !CountsGoals(c)
    ensures Adds(c, r, Home) == Bit(Holds(AtHome(c), r)) && Adds(c, r, Away) == Bit(Holds(AtAway(c), r))
  {
  }

  /** Every counter of a team but the goals: the matches it hosts or visits in which the fact holds. */
  lemma {:induction false} CountersMean(records: seq<Match>, key: string, teamKey: string -> string, c: Counter)
    requires !CountsGoals(c)
    ensures Reads(ProfilesOf(records, teamKey), key, c)
         == CountIf(records, Hosting(key, teamKey, AtHome(c))) + CountIf(records, Visiting(key, teamKey, AtAway(c)))
  {
    hide Adds, Reads, ProfilesOf;
    ProfileIsTotal(records, key, teamKey, c);
    TotalMeans(records, key, teamKey, c);
  }

  lemma {:induction false} TotalMeans(records: seq<Match>, key: string, teamKey: string -> string, c: Counter)
    requires !CountsGoals(c)
    ensures TeamProfiles.Total(c, records, key, teamKey)
         == CountIf(records, Hosting(key, teamKey, AtHome(c))) + CountIf(records, Visiting(key, teamKey, AtAway(c)))
  {
    hide Adds, AtHome, AtAway, Holds, Hosts, Visits;
    if records != [] {
      TotalMeans(records[..|records| - 1], key, teamKey, c);
      AddsMean(c, records[|records| - 1]);
    }
  }

  /** The goals of either side over the matches a team hosts, or visits. */
  function GoalSum(records: seq<Match>, key: string, teamKey: string -> string, hosted: bool, byHome: bool): int {
    if records == [] then 0
    else
      var r := records[|records| - 1];
      GoalSum(records[..|records| - 1], key, teamKey, hosted, byHome)
      + (if (if hosted then Hosts(r, key, teamKey) else Visits(r, key, teamKey))
         then (if byHome then r.homeGoals else r.awayGoals) else 0)
  }

  /** Goals for are the home goals of hosted and the away goals of visited matches; goals against the others. */
  lemma {:induction false} GoalsMean(records: seq<Match>, key: string, teamKey: string -> string)
    ensures
      var profiles := ProfilesOf(records, teamKey);
      var goals := (hosted: bool, byHome: bool) => GoalSum(records, key, teamKey, hosted, byHome);
      && Reads(profiles, key, HomeGoalsFor) == goals(true, true)
      && Reads(profiles, key, HomeGoalsAgainst) == goals(true, false)
      && Reads(profiles, key, AwayGoalsFor) == goals(false, false)
      && Reads(profiles, key, AwayGoalsAgainst) == goals(false, true)
      && Reads(profiles, key, GoalsFor) == goals(true, true) + goals(false, false)
      && Reads(profiles, key, GoalsAgainst) == goals(true, false) + goals(false, true)
  {
    hide Reads, ProfilesOf;
    forall c: Counter | CountsGoals(c)
      ensures Reads(ProfilesOf(records, teamKey), key, c) == TeamProfiles.Total(c, records, key, teamKey)
    {
      ProfileIsTotal(records, key, teamKey, c);
    }
    GoalTotals(records, key, teamKey);
    GoalsBalance(records, key, teamKey);
  }

  lemma {:induction false} GoalTotals(records: seq<Match>, key: string, teamKey: string -> string)
    ensures TeamProfiles.Total(HomeGoalsFor, records, key, teamKey) == GoalSum(records, key, teamKey, true, true)
    ensures TeamProfiles.Total(HomeGoalsAgainst, records, key, teamKey) == GoalSum(records, key, teamKey, true, false)
    ensures TeamProfiles.Total(AwayGoalsFor, records, key, teamKey) == GoalSum(records, key, teamKey, false, false)
    ensures TeamProfiles.Total(AwayGoalsAgainst, records, key, teamKey) == GoalSum(records, key, teamKey, false, true)
  {
    hide Hosts, Visits;
    if records != [] { GoalTotals(records[..|records| - 1], key, teamKey); }
  }

  /** A profile keeps the name under which its team first appeared; the home side comes first. */
  lemma {:induction false} FirstNameKept(records: seq<Match>, key: string, teamKey: string -> string, i: nat)
    requires i < |records| && (Hosts(records[i], key, teamKey) || Visits(records[i], key, teamKey))
    requires forall j | 0 <= j < i :: !Hosts(records[j], key, teamKey) && !Visits(records[j], key, teamKey)
    ensures key in ProfilesOf(records, teamKey)
    ensures
      var profile, first := ProfilesOf(records, teamKey)[key], records[i];
      && profile.key == key
      && Some(profile.name) == if Hosts(first, key, teamKey) then first.homeTeam else first.awayTeam
  {
    hide Adds, Plus, Contribution;
    var n := |records| - 1;
    if i < n {
      FirstNameKept(records[..n], key, teamKey, i);
    } else {
      ProfileExists(records[..n], key, teamKey);
    }
  }

  /** A list without repetition keeps the order of first occurrences. */
  lemma {:induction false} UniqueKeepsOrder(values: seq<string>, value: string)
    ensures Unique([]) == []
    ensures value in values ==> Unique(values + [value]) == Unique(values)
    ensures value !in values ==> Unique(values + [value]) == Unique(values) + [value]
  {
    UniqueSnoc(values, value);
  }
}
