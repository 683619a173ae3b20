/** What the pre-match features say about the matches before (backend/src/preMatchFeatures.ts). */
module FormGuarantees {
  import opened Sorting
  import opened Records
  import opened Rounding
  import opened PreMatchFeatures
  import opened FeatureGeneration
  import FeatureGuarantees

  // ---------------------------------------------------------------- rounding

  lemma {:induction false} RoundMeans(value: real)
    ensures NearestThousandth(Round(value), value)
  {
    RoundedIsNearest(Round(value), value);
  }

  // ---------------------------------------------------------------- one match

  /** A summary holds the match as one team saw it; a line of 1.5 goals is passed by two. */
  lemma {:induction false} SummaryMeans(r: Match, side: Venue, timestamp: Option<int>, opponentElo: real)
    ensures
      var m := SummaryOf(r, side, timestamp, opponentElo);
      && m.goalsFor + m.goalsAgainst == r.homeGoals + r.awayGoals
      && m.goalsFor == (if side.Home? then r.homeGoals else r.awayGoals)
      && m.points == (if m.goalsFor > m.goalsAgainst then 3 else if m.goalsFor < m.goalsAgainst then 0 else 1)
      && (m.over15 <==> r.totalGoals as real > 1.5) && (m.over25 <==> r.totalGoals as real > 2.5)
      && (m.over35 <==> r.totalGoals as real > 3.5) && (m.btts <==> r.homeGoals >= 1 && r.awayGoals >= 1)
      && m.timestamp == timestamp && m.opponentElo == opponentElo
  {
  }

  /** The match as the team `key` saw it: its venue, its goals, and both ratings from before the match. */
  ghost predicate SeenBy(s: Setup, before: seq<Match>, r: Match, key: string, e: Entry) {
    var home := e.venue.Home?;
    var opponent := if home then s.AwayKey(r) else s.HomeKey(r);
    && key == (if home then s.HomeKey(r) else s.AwayKey(r))
    && e.eloBefore == Rating(s, before, key) && e.summary.opponentElo == Rating(s, before, opponent)
    && e.summary.goalsFor == (if home then r.homeGoals else r.awayGoals)
    && e.summary.goalsAgainst == (if home then r.awayGoals else r.homeGoals)
    && e.summary.timestamp == s.TimestampOf(r)
  }

  /** The history of a team grows by one entry with every usable match it plays, and by nothing else. */
  lemma {:induction false} HistoryGrows(s: Setup, before: seq<Match>, r: Match, key: string)
    requires s.Regular(r)
    ensures
      var old_, now := Entries(s, before, key), Entries(s, before + [r], key);
      if Usable(r) && (key == s.HomeKey(r) || key == s.AwayKey(r))
      then |now| == |old_| + 1 && now[..|old_|] == old_ && SeenBy(s, before, r, key, now[|old_|])
      else now == old_
  {
    hide Rating;
    assert (before + [r])[..|before|] == before;
  }

  // ---------------------------------------------------------------- windows

  function Having(flag: Flag): Summary -> bool {
    (m: Summary) =>
      match flag
      case Won => m.points == 3
      case Drew => m.points == 1
      case Lost => m.points != 3 && m.points != 1
      case IsOver15 => m.over15
      case IsOver25 => m.over25
      case IsOver35 => m.over35
      case IsBtts => m.btts
      case CleanSheet => m.goalsAgainst == 0
      case Blank => m.goalsFor == 0
  }

  lemma {:induction false} TallyCounts(flag: Flag, window: seq<Summary>)
    ensures Tally(flag, window) == CountIf(window, Having(flag))
  {
    if window != [] { TallyCounts(flag, window[..|window| - 1]); }
  }

  /** The sum of a window, from its first match on. */
  function Added(window: seq<Summary>, value: Summary -> int): int {
    if window == [] then 0 else value(window[0]) + Added(window[1..], value)
  }

  function GoalsScored(): Summary -> int { (m: Summary) => m.goalsFor }

  function GoalsConceded(): Summary -> int { (m: Summary) => m.goalsAgainst }

  function PointsWon(): Summary -> int { (m: Summary) => m.points }

  function Reader(pick: Pick): Summary -> int {
    match pick
    case Scored => GoalsScored()
    case Conceded => GoalsConceded()
    case Points => PointsWon()
  }

  lemma {:induction false} AddedSnoc(window: seq<Summary>, m: Summary, value: Summary -> int)
    ensures Added(window + [m], value) == Added(window, value) + value(m)
  {
    if window == [] {
      assert [m][1..] == [];
    } else {
      AddedSnoc(window[1..], m, value);
      assert (window + [m])[1..] == window[1..] + [m];
    }
  }

  lemma {:induction false} SumAdds(pick: Pick, window: seq<Summary>)
    ensures Sum(pick, window) == Added(window, Reader(pick))
  {
    if window != [] {
      var n := |window| - 1;
      SumAdds(pick, window[..n]);
      assert window == window[..n] + [window[n]];
      AddedSnoc(window[..n], window[n], Reader(pick));
    }
  }

  /** The mean of `total` over `n` matches, to the nearest thousandth; zero without matches. */
  ghost predicate IsMean(x: real, total: int, n: nat) {
    if n == 0 then x == 0.0 else NearestThousandth(x, total as real / n as real)
  }

  lemma {:induction false} ShareMeans(total: int, n: nat)
    requires n > 0
    ensures IsMean(Share(total, n), total, n)
  {
    RoundMeans(total as real / n as real);
  }

  /** The form of a window, number by number. */
  lemma {:induction false} FormMeans(window: seq<Summary>)
    ensures
      var f, n := FormOf(window), |window|;
      var count := (flag: Flag) => CountIf(window, Having(flag));
      && f.sampleSize == n && f.wins == count(Won) && f.draws == count(Drew) && f.losses == count(Lost)
      && f.goalsFor == Added(window, GoalsScored()) && f.goalsAgainst == Added(window, GoalsConceded())
      && f.goalDiff == f.goalsFor - f.goalsAgainst
      && IsMean(f.pointsPerGame, 3 * f.wins + f.draws, n)
      && IsMean(f.avgGoalsFor, f.goalsFor, n) && IsMean(f.avgGoalsAgainst, f.goalsAgainst, n)
      && IsMean(f.over15Pct, count(IsOver15), n) && IsMean(f.over25Pct, count(IsOver25), n)
      && IsMean(f.over35Pct, count(IsOver35), n) && IsMean(f.bttsPct, count(IsBtts), n)
      && IsMean(f.cleanSheetPct, count(CleanSheet), n) && IsMean(f.failedToScorePct, count(Blank), n)
  {
    hide Tally, Sum, Share, IsMean, Having, CountIf;
    forall flag ensures Tally(flag, window) == CountIf(window, Having(flag)) { TallyCounts(flag, window); }
    SumAdds(Scored, window);
    SumAdds(Conceded, window);
    if window == [] {
      NoMean(window);
    } else {
      forall total: int ensures IsMean(Share(total, |window|), total, |window|) { ShareMeans(total, |window|); }
    }
  }

  lemma {:induction false} NoMean(window: seq<Summary>)
    requires window == []
    ensures IsMean(0.0, 0, 0) && forall flag :: CountIf(window, Having(flag)) == 0
    ensures Sum(Scored, window) == 0 == Sum(Conceded, window)
  {
  }

  /** Where points are three, one or none, points per game is the mean of the points. */
  lemma {:induction false} PointsAddUp(window: seq<Summary>)
    requires forall i | 0 <= i < |window| :: window[i].points in {0, 1, 3}
    ensures 3 * FormOf(window).wins + FormOf(window).draws == Added(window, PointsWon())
  {
    hide Share;
    SumAdds(Points, window);
    PointsOfResults(window);
  }

  lemma {:induction false} PointsOfResults(window: seq<Summary>)
    requires forall i | 0 <= i < |window| :: window[i].points in {0, 1, 3}
    ensures 3 * Tally(Won, window) + Tally(Drew, window) == Sum(Points, window)
  {
    if window != [] { PointsOfResults(window[..|window| - 1]); }
  }

  // ---------------------------------------------------------------- the features of a team

  function Smaller(a: nat, b: nat): nat { if a <= b then a else b }

  /** The summaries of the last `k` entries, oldest first. */
  function Latest(entries: seq<Entry>, k: nat): (r: seq<Summary>)
    ensures |r| == Smaller(k, |entries|)
  {
    var n := Smaller(k, |entries|);
    seq(n, i requires 0 <= i < n => entries[|entries| - n + i].summary)
  }

  lemma {:induction false} SummariesByIndex(entries: seq<Entry>, i: nat)
    ensures |Summaries(entries)| == |entries|
    ensures i < |entries| ==> Summaries(entries)[i] == entries[i].summary
  {
    if entries != [] { SummariesByIndex(entries[..|entries| - 1], i); }
  }

  lemma {:induction false} LatestIsLast(entries: seq<Entry>, k: nat)
    ensures LastN(Summaries(entries), k) == Latest(entries, k)
  {
    SummariesByIndex(entries, 0);
    forall i | 0 <= i < |entries| ensures Summaries(entries)[i] == entries[i].summary { SummariesByIndex(entries, i); }
  }

  /** The entries at one venue, oldest first. */
  function AtVenue(entries: seq<Entry>, side: Venue): seq<Entry> {
    if entries == [] then []
    else (if entries[0].venue == side then [entries[0]] else []) + AtVenue(entries[1..], side)
  }

  lemma {:induction false} AtVenueSnoc(entries: seq<Entry>, e: Entry, side: Venue)
    ensures AtVenue(entries + [e], side) == AtVenue(entries, side) + (if e.venue == side then [e] else [])
  {
    if entries == [] {
      assert [e][1..] == [];
    } else {
      AtVenueSnoc(entries[1..], e, side);
      assert (entries + [e])[1..] == entries[1..] + [e];
    }
  }

  lemma {:induction false} SummariesAtVenue(entries: seq<Entry>, side: Venue)
    ensures SummariesAt(entries, side) == Summaries(AtVenue(entries, side))
  {
    if entries != [] {
      var n := |entries| - 1;
      var before := AtVenue(entries[..n], side);
      SummariesAtVenue(entries[..n], side);
      assert entries == entries[..n] + [entries[n]];
      AtVenueSnoc(entries[..n], entries[n], side);
      assert (before + [entries[n]])[..|before|] == before && before + [] == before;
    }
  }

  /** The known kick-offs of the entries, oldest first. */
  function KickOffs(entries: seq<Entry>): seq<int> {
    if entries == [] then []
    else
      (if entries[0].summary.timestamp.Some? then [entries[0].summary.timestamp.value] else []) + KickOffs(entries[1..])
  }

  lemma {:induction false} KickOffsSnoc(entries: seq<Entry>, e: Entry)
    ensures KickOffs(entries + [e])
         == KickOffs(entries) + (if e.summary.timestamp.Some? then [e.summary.timestamp.value] else [])
  {
    if entries == [] {
      assert [e][1..] == [];
    } else {
      KickOffsSnoc(entries[1..], e);
      assert (entries + [e])[1..] == entries[1..] + [e];
    }
  }

  lemma {:induction false} DatesAreKickOffs(entries: seq<Entry>)
    ensures Dates(entries) == KickOffs(entries)
  {
    if entries != [] {
      var n := |entries| - 1;
      DatesAreKickOffs(entries[..n]);
      assert entries == entries[..n] + [entries[n]];
      KickOffsSnoc(entries[..n], entries[n]);
    }
  }

  /** Less than `days` days of 24 hours before `now`, or that long exactly, and not at `now` itself. */
  function WithinDays(now: int, days: nat): int -> bool {
    (t: int) => 0 < now - t <= days * 24 * 60 * 60 * 1000
  }

  lemma {:induction false} GamesMean(dates: seq<int>, now: int, days: nat)
    ensures GamesWithin(dates, Some(now), days) == CountIf(dates, WithinDays(now, days))
    ensures GamesWithin(dates, None, days) == 0
  {
    CountMeans(dates, now, days);
  }

  lemma {:induction false} CountMeans(dates: seq<int>, now: int, days: nat)
    ensures CountWithin(dates, now - days * DAY, now) == CountIf(dates, WithinDays(now, days))
  {
    if dates != [] {
      CountMeans(dates[..|dates| - 1], now, days);
      assert days * 24 * 60 * 60 * 1000 == days * DAY;
    }
  }

  /** The number of days nearest to a span of milliseconds. */
  predicate NearestDay(days: int, span: int) { 2 * days * DAY - DAY <= 2 * span < 2 * days * DAY + DAY }

  lemma {:induction false} RestMeans(last: int, now: int)
    ensures RestDays(Some(last), Some(now)).Some? && NearestDay(RestDays(Some(last), Some(now)).value, now - last)
    ensures RestDays(None, Some(now)) == RestDays(Some(last), None) == RestDays(None, None) == None
  {
    var span := now - last;
    var q := span as real / DAY as real;
    assert q * DAY as real == span as real;
    var d := (q + 0.5).Floor;
    assert d as real <= q + 0.5 < d as real + 1.0;
    assert (d * DAY) as real - 0.5 * DAY as real <= span as real < (d * DAY) as real + 0.5 * DAY as real;
  }

  /** The ratings of the opponents of a window, added up from its first match on. */
  function OpponentRatings(window: seq<Summary>): real {
    if window == [] then 0.0 else window[0].opponentElo + OpponentRatings(window[1..])
  }

  lemma {:induction false} OpponentRatingsSnoc(window: seq<Summary>, m: Summary)
    ensures OpponentRatings(window + [m]) == OpponentRatings(window) + m.opponentElo
  {
    if window == [] {
      assert [m][1..] == [];
    } else {
      OpponentRatingsSnoc(window[1..], m);
      assert (window + [m])[1..] == window[1..] + [m];
    }
  }

  lemma {:induction false} FacedIsSum(window: seq<Summary>)
    ensures ElosFaced(window) == OpponentRatings(window)
  {
    if window != [] {
      var n := |window| - 1;
      FacedIsSum(window[..n]);
      assert window == window[..n] + [window[n]];
      OpponentRatingsSnoc(window[..n], window[n]);
    }
  }

  /** The mean rating of the opponents of a window, to the nearest thousandth; none without matches. */
  ghost predicate IsMeanRating(mean: Option<real>, window: seq<Summary>) {
    match mean
    case None => window == []
    case Some(x) => window != [] && NearestThousandth(x, OpponentRatings(window) / |window| as real)
  }

  lemma {:induction false} MeanEloMeans(window: seq<Summary>)
    ensures IsMeanRating(MeanElo(window), window)
  {
    hide Round, NearestThousandth;
    FacedIsSum(window);
    if window != [] { RoundMeans(ElosFaced(window) / |window| as real); }
  }

  /** The windows of the features: the last 5, 10 and 20 matches, and the last 10 at today's venue. */
  lemma {:induction false} WindowsMean(s: Setup, entries: seq<Entry>, elo: real, side: Venue, timestamp: Option<int>)
    ensures
      var f := HistoryFeatures(s, entries, elo, side, timestamp);
      && f.played == |entries| && (f.hasHistory <==> |entries| >= 1)
      && f.form5 == FormOf(Latest(entries, 5)) && f.form10 == FormOf(Latest(entries, 10))
      && f.form20 == FormOf(Latest(entries, 20)) && f.venueForm10 == FormOf(Latest(AtVenue(entries, side), 10))
      && IsMeanRating(f.recentOpponentElo, Latest(entries, 5))
      && f.expWeightedGoalsFor == Round(WeightedMean(s, Latest(entries, 20), timestamp, Scored))
      && f.expWeightedGoalsAgainst == Round(WeightedMean(s, Latest(entries, 20), timestamp, Conceded))
      && f.expWeightedPoints == Round(WeightedMean(s, Latest(entries, 20), timestamp, Points))
  {
    hide FormOf, WeightedMean, MeanElo, Round, GamesWithin, RestDays, LastN, IsMeanRating, Latest, Summaries;
    LatestIsLast(entries, 5);
    LatestIsLast(entries, 10);
    LatestIsLast(entries, 20);
    SummariesAtVenue(entries, side);
    LatestIsLast(AtVenue(entries, side), 10);
    MeanEloMeans(Latest(entries, 5));
  }

  /** The rest of the features: ratings, days of rest, recent games and the streak at today's venue. */
  lemma {:induction false} HistoryMeans(s: Setup, entries: seq<Entry>, elo: real, side: Venue, now: int)
    ensures
      var f, n := HistoryFeatures(s, entries, elo, side, Some(now)), |entries|;
      && NearestThousandth(f.eloBefore, elo)
      && NearestThousandth(f.eloRecentChange, if n == 0 then 0.0 else elo - entries[n - Smaller(n, 6)].eloBefore)
      && (match f.restDays
          case None => n == 0 || entries[n - 1].summary.timestamp.None?
          case Some(days) =>
            && n > 0 && entries[n - 1].summary.timestamp.Some?
            && NearestDay(days, now - entries[n - 1].summary.timestamp.value))
      && f.games7 == CountIf(LastN(KickOffs(entries), 40), WithinDays(now, 7))
      && f.games14 == CountIf(LastN(KickOffs(entries), 40), WithinDays(now, 14))
      && (f.venueStreak > 0 <==> n > 0 && entries[n - 1].venue == side)
      && f.venueStreak <= n
      && (forall i | n - f.venueStreak <= i < n :: entries[i].venue == side)
      && (0 < f.venueStreak < n ==> entries[n - f.venueStreak - 1].venue != side)
  {
    hide FormOf, WeightedMean, MeanElo, Round, GamesWithin, RestDays, LastN, NearestDay, NearestThousandth, KickOffs;
    RoundMeans(elo);
    RoundMeans(RecentChange(entries, elo));
    DatesAreKickOffs(entries);
    GamesMean(LastN(KickOffs(entries), 40), now, 7);
    GamesMean(LastN(KickOffs(entries), 40), now, 14);
    if entries != [] { FeatureGuarantees.StreakIsLongestRun(entries); }
    RestMeans(0, now);
    if entries != [] && entries[|entries| - 1].summary.timestamp.Some? {
      RestMeans(entries[|entries| - 1].summary.timestamp.value, now);
    }
  }

  /** A team without history has nothing but its rating: no matches, no means, no rest, no recent games. */
  lemma {:induction false} NoHistoryMeans(s: Setup, elo: real, side: Venue, timestamp: Option<int>)
    ensures
      var f := HistoryFeatures(s, [], elo, side, timestamp);
      && f.played == 0 && !f.hasHistory && f.venueStreak == 0 && f.games7 == 0 && f.games14 == 0
      && f.restDays.None? && f.recentOpponentElo.None? && f.eloRecentChange == 0.0
      && f.form5.sampleSize == f.form10.sampleSize == f.form20.sampleSize == f.venueForm10.sampleSize == 0
      && f.expWeightedGoalsFor == f.expWeightedGoalsAgainst == f.expWeightedPoints == 0.0
  {
  }

  // ---------------------------------------------------------------- recency

  /** A match `k` days ago weighs `exp(-decay * k)`; one at no known distance in the past weighs `exp(0)`. */
  lemma {:induction false} WeightByAge(s: Setup, m: Summary, timestamp: Option<int>, k: nat)
    ensures timestamp.None? || m.timestamp.None? || timestamp.value <= m.timestamp.value
            ==> Weight(s, m, timestamp) == s.exp(0.0)
    ensures timestamp.Some? && m.timestamp.Some? && timestamp.value == m.timestamp.value + k * 24 * 60 * 60 * 1000
            ==> Weight(s, m, timestamp) == s.exp(-(s.decay * k as real))
  {
    assert -s.decay * 0.0 == 0.0;
    if timestamp.Some? && m.timestamp.Some? && timestamp.value == m.timestamp.value + k * 24 * 60 * 60 * 1000 {
      assert k * 24 * 60 * 60 * 1000 == k * DAY;
      DaysOfMillis(k);
      assert -s.decay * k as real == -(s.decay * k as real);
      assert k == 0 ==> s.decay * k as real == 0.0;
    }
  }

  lemma {:induction false} DaysOfMillis(k: nat)
    ensures (k * DAY) as real / DAY as real == k as real
  {
    assert (k * DAY) as real == k as real * DAY as real;
  }

  /** With a positive decay and an increasing exponential, the older of two matches weighs less. */
  lemma {:induction false} OlderWeighsLess(s: Setup, older: Summary, newer: Summary, now: int)
    requires s.decay > 0.0 && forall x, y | x < y :: s.exp(x) < s.exp(y)
    requires older.timestamp.Some? && newer.timestamp.Some?
    requires older.timestamp.value < newer.timestamp.value && older.timestamp.value < now
    ensures Weight(s, older, Some(now)) < Weight(s, newer, Some(now))
  {
    var a := (now - older.timestamp.value) as real / DAY as real;
    var b := if now > newer.timestamp.value then (now - newer.timestamp.value) as real / DAY as real else 0.0;
    assert a > b;
    TimesSmaller(s.decay, b, a);
  }

  lemma {:induction false} TimesSmaller(decay: real, b: real, a: real)
    requires decay > 0.0 && a > b
    ensures -decay * a < -decay * b
  {
    assert decay * (a - b) > 0.0;
  }

  // ---------------------------------------------------------------- the match

  /** The last meeting of a pair: no later match of the past is one. */
  lemma {:induction false} LastMeetingMeans(s: Setup, past: seq<Match>, a: string, b: string)
    ensures
      match LastMeeting(s, past, a, b)
      case None => forall i | 0 <= i < |past| :: !Pairs(s, past[i], a, b)
      case Some(m) => exists i | 0 <= i < |past| ::
                        past[i] == m && Pairs(s, m, a, b) && forall j | i < j < |past| :: !Pairs(s, past[j], a, b)
  {
    hide Pairs;
    if past != [] {
      var n := |past| - 1;
      LastMeetingMeans(s, past[..n], a, b);
      if !Pairs(s, past[n], a, b) && LastMeeting(s, past, a, b).Some? {
        var m := LastMeeting(s, past, a, b).value;
        var i :| 0 <= i < n && past[..n][i] == m && forall j | i < j < n :: !Pairs(s, past[..n][j], a, b);
        forall j | i < j < |past| ensures !Pairs(s, past[j], a, b) {
          if j < n { assert past[..n][j] == past[j]; }
        }
        assert past[i] == m;
      } else if !Pairs(s, past[n], a, b) {
        forall i | 0 <= i < |past| ensures !Pairs(s, past[i], a, b) { if i < n { assert past[..n][i] == past[i]; } }
      }
    }
  }

  /** The features of the match itself: rating gap, home advantage of sixty points, and the last meeting. */
  lemma {:induction false} MatchMeans(s: Setup, past: seq<Match>, r: Match)
    requires Usable(r)
    ensures
      var f, home, away := FeaturesAt(s, past, r), s.HomeKey(r), s.AwayKey(r);
      var gap := Rating(s, past, home) - Rating(s, past, away);
      && NearestThousandth(f.eloDiff, gap) && NearestThousandth(f.homeAdvantageAdjustedElo, gap + 60.0)
      && f.competition == (match r.competition
                           case Some(name) => name
                           case None => match r.league case Some(name) => name case None => "sem-competicao")
      && f.season == r.season && (f.corners <==> r.totalCorners != None) && (f.cards <==> r.totalCards != None)
      && f.h2hMatches == Meetings(s, past, home, away)
  {
    hide HistoryFeatures, Rating, Entries, Round, NearestThousandth, Meetings, WinsOver, DrawsBetween, LastMeeting;
    var a, b := Rating(s, past, s.HomeKey(r)), Rating(s, past, s.AwayKey(r));
    RoundMeans(a - b);
    RoundMeans(a + 60.0 - b);
    assert a + 60.0 - b == a - b + 60.0;
  }

  /** The season changed exactly when the pair has met and its last meeting was in another season. */
  lemma {:induction false} LastMeetingRead(s: Setup, past: seq<Match>, r: Match)
    requires Usable(r)
    ensures
      var f, last := FeaturesAt(s, past, r), LastMeeting(s, past, s.HomeKey(r), s.AwayKey(r));
      && (f.h2hSeasonChanged <==> last.Some? && last.value.season != r.season)
      && (f.h2hMatches == 0 <==> last.None?)
      && (match f.h2hRecencyDays
          case Some(days) =>
            && last.Some? && s.TimestampOf(last.value).Some? && s.TimestampOf(r).Some?
            && NearestDay(days, s.TimestampOf(r).value - s.TimestampOf(last.value).value)
          case None =>
            last.None? || s.TimestampOf(last.value) in {None, Some(0)} || s.TimestampOf(r) in {None, Some(0)})
  {
    hide HistoryFeatures, Rating, Entries, Round, WinsOver, DrawsBetween, LastMeeting, Meetings;
    hide NearestDay, DaysBetween;
    var last := LastMeeting(s, past, s.HomeKey(r), s.AwayKey(r));
    MetBefore(s, past, s.HomeKey(r), s.AwayKey(r));
    if last.Some? && s.TimestampOf(last.value).Some? && s.TimestampOf(r).Some? {
      RestMeans(s.TimestampOf(last.value).value, s.TimestampOf(r).value);
    }
  }

  lemma {:induction false} MetBefore(s: Setup, past: seq<Match>, a: string, b: string)
    ensures LastMeeting(s, past, a, b).Some? <==> Meetings(s, past, a, b) > 0
  {
    hide Pairs;
    if past != [] { MetBefore(s, past[..|past| - 1], a, b); }
  }

  /** A match between the two teams, at either venue, with a usable record. */
  function Between(s: Setup, a: string, b: string): Match -> bool {
    (r: Match) =>
      && Truthy(r.homeTeam) && Truthy(r.awayTeam) && Truthy(r.date)
      && {s.HomeKey(r), s.AwayKey(r)} == {a, b}
  }

  /** A win of `a` over `b`, at home or away. */
  function WinOf(s: Setup, a: string, b: string): Match -> bool {
    (r: Match) =>
      && Truthy(r.homeTeam) && Truthy(r.awayTeam) && Truthy(r.date)
      && (|| (s.HomeKey(r) == a && s.AwayKey(r) == b && r.outcome == HomeWin)
          || (s.HomeKey(r) == b && s.AwayKey(r) == a && r.outcome == AwayWin))
  }

  lemma {:induction false} MeetingsCount(s: Setup, past: seq<Match>, a: string, b: string)
    requires a != b
    ensures Meetings(s, past, a, b) == CountIf(past, Between(s, a, b))
    ensures WinsOver(s, past, a, b) == CountIf(past, WinOf(s, a, b))
  {
    if past != [] {
      MeetingsCount(s, past[..|past| - 1], a, b);
      PairOfTeams(s, past[|past| - 1], a, b);
    }
  }

  lemma {:induction false} PairOfTeams(s: Setup, r: Match, a: string, b: string)
    requires a != b
    ensures Pairs(s, r, a, b) <==> Between(s, a, b)(r)
    ensures Pairs(s, r, a, b) && WonBy(s, r, a) <==> WinOf(s, a, b)(r)
  {
    var teams := {s.HomeKey(r), s.AwayKey(r)};
    assert s.HomeKey(r) in teams && s.AwayKey(r) in teams;
    if teams == {a, b} { assert a in teams && b in teams; }
  }

  /** The home team's share of the meetings before today, to the nearest thousandth. */
  lemma {:induction false} HeadToHeadMeans(s: Setup, past: seq<Match>, r: Match)
    requires s.AllRegular(past) && Usable(r) && s.Regular(r)
    ensures
      var f, home, away := FeaturesAt(s, past, r), s.HomeKey(r), s.AwayKey(r);
      var met := CountIf(past, Between(s, home, away));
      && f.h2hMatches == met
      && (match f.h2hHomeWinRate
          case None => met == 0
          case Some(rate) =>
            met > 0 && NearestThousandth(rate, CountIf(past, WinOf(s, home, away)) as real / met as real))
  {
    hide FeaturesAt, NearestThousandth, Round;
    MeetingsCount(s, past, s.HomeKey(r), s.AwayKey(r));
    MeetingsFeature(s, past, r);
    FeatureGuarantees.HeadToHeadConserved(s, past, r);
    var met := Meetings(s, past, s.HomeKey(r), s.AwayKey(r));
    if met > 0 { RoundMeans(WinsOver(s, past, s.HomeKey(r), s.AwayKey(r)) as real / met as real); }
  }

  lemma {:induction false} MeetingsFeature(s: Setup, past: seq<Match>, r: Match)
    ensures FeaturesAt(s, past, r).h2hMatches == Meetings(s, past, s.HomeKey(r), s.AwayKey(r))
  {
  }

  // ---------------------------------------------------------------- the two sides

  /** A match with both teams and a date that the team `key` hosts. */
  function HostedBy(s: Setup, key: string): Match -> bool {
    (r: Match) => Truthy(r.homeTeam) && Truthy(r.awayTeam) && Truthy(r.date) && s.HomeKey(r) == key
  }

  /** A match with both teams and a date that the team `key` visits. */
  function VisitedBy(s: Setup, key: string): Match -> bool {
    (r: Match) => Truthy(r.homeTeam) && Truthy(r.awayTeam) && Truthy(r.date) && s.AwayKey(r) == key
  }

  lemma {:induction false} NoneAtVenue(side: Venue)
    ensures AtVenue([], side) == []
  {
  }

  /** The history of a team holds the matches it hosted and those it visited. */
  lemma {:induction false} EntriesCounted(s: Setup, past: seq<Match>, key: string)
    requires s.AllRegular(past)
    ensures |AtVenue(Entries(s, past, key), Home)| == CountIf(past, HostedBy(s, key))
    ensures |AtVenue(Entries(s, past, key), Away)| == CountIf(past, VisitedBy(s, key))
    ensures |Entries(s, past, key)| == CountIf(past, HostedBy(s, key)) + CountIf(past, VisitedBy(s, key))
  {
    hide Rating, SummaryOf, AtVenue;
    if past == [] {
      NoneAtVenue(Home);
      NoneAtVenue(Away);
    } else {
      var n := |past| - 1;
      var before, more := Entries(s, past[..n], key), EntryOf(s, past[..n], past[n], key);
      EntriesCounted(s, past[..n], key);
      assert Entries(s, past, key) == before + more;
      if more == [] {
        assert before + more == before;
      } else {
        assert more == [more[0]];
        AtVenueSnoc(before, more[0], Home);
        AtVenueSnoc(before, more[0], Away);
      }
    }
  }

  /** The home side of the features is about the host of today, its rating and its matches at home; so is the other. */
  lemma {:induction false} SidesMean(s: Setup, past: seq<Match>, r: Match)
    requires s.AllRegular(past) && Usable(r)
    ensures
      var f, host, guest := FeaturesAt(s, past, r), s.HomeKey(r), s.AwayKey(r);
      && f.home == HistoryFeatures(s, Entries(s, past, host), Rating(s, past, host), Home, s.TimestampOf(r))
      && f.away == HistoryFeatures(s, Entries(s, past, guest), Rating(s, past, guest), Away, s.TimestampOf(r))
      && f.home.played == CountIf(past, HostedBy(s, host)) + CountIf(past, VisitedBy(s, host))
      && f.away.played == CountIf(past, HostedBy(s, guest)) + CountIf(past, VisitedBy(s, guest))
      && NearestThousandth(f.home.eloBefore, Rating(s, past, host))
      && NearestThousandth(f.away.eloBefore, Rating(s, past, guest))
      && f.home.venueForm10.sampleSize == Smaller(10, CountIf(past, HostedBy(s, host)))
      && f.away.venueForm10.sampleSize == Smaller(10, CountIf(past, VisitedBy(s, guest)))
  {
    hide FeaturesAt, HistoryFeatures, Rating, Entries, CountIf, NearestThousandth, HostedBy, VisitedBy;
    var host, guest, now := s.HomeKey(r), s.AwayKey(r), s.TimestampOf(r);
    SideFeatures(s, past, r);
    SideMeans(s, past, host, Home, now);
    SideMeans(s, past, guest, Away, now);
  }

  lemma {:induction false} SideFeatures(s: Setup, past: seq<Match>, r: Match)
    ensures
      var f, host, guest := FeaturesAt(s, past, r), s.HomeKey(r), s.AwayKey(r);
      && f.home == HistoryFeatures(s, Entries(s, past, host), Rating(s, past, host), Home, s.TimestampOf(r))
      && f.away == HistoryFeatures(s, Entries(s, past, guest), Rating(s, past, guest), Away, s.TimestampOf(r))
  {
    hide HistoryFeatures, Rating, Entries, PairAfter, Round;
  }

  /** Rating, matches played and matches at the venue, of one side. */
  lemma {:induction false} SideMeans(s: Setup, past: seq<Match>, key: string, side: Venue, timestamp: Option<int>)
    requires s.AllRegular(past)
    ensures
      var f := HistoryFeatures(s, Entries(s, past, key), Rating(s, past, key), side, timestamp);
      var hosted, visited := CountIf(past, HostedBy(s, key)), CountIf(past, VisitedBy(s, key));
      && f.played == hosted + visited && NearestThousandth(f.eloBefore, Rating(s, past, key))
      && f.venueForm10.sampleSize == Smaller(10, if side == Home then hosted else visited)
  {
    hide Rating, Entries, CountIf, NearestThousandth, HostedBy, VisitedBy, FormOf, Round, AtVenue, WeightedMean;
    var entries, elo := Entries(s, past, key), Rating(s, past, key);
    EntriesCounted(s, past, key);
    WindowsMean(s, entries, elo, side, timestamp);
    FormMeans(Latest(AtVenue(entries, side), 10));
    RoundMeans(elo);
  }

  // ---------------------------------------------------------------- the examples

  function HasTeamsAndDate(): Match -> bool {
    (r: Match) =>
      && r.homeTeam !in {None, Some("")} && r.awayTeam !in {None, Some("")} && r.date !in {None, Some("")}
  }

  lemma {:induction false} UsableMeans(r: Match)
    ensures Usable(r) <==> HasTeamsAndDate()(r)
  {
  }

  /** One example for each record with both teams and a date, in order, with the features of all records before it. */
  lemma {:induction false} ExamplesMean(s: Setup, ordered: seq<Match>, n: nat, i: nat)
    requires n <= |ordered|
    ensures |ExamplesOf(s, ordered, n)| == CountIf(ordered[..n], HasTeamsAndDate())
    ensures i < n && HasTeamsAndDate()(ordered[i]) ==>
              var k := CountIf(ordered[..i], HasTeamsAndDate());
              && k < |ExamplesOf(s, ordered, n)|
              && ExamplesOf(s, ordered, n)[k] == Example(ordered[i], FeaturesAt(s, ordered[..i], ordered[i]))
  {
    hide FeaturesAt, Usable, HasTeamsAndDate;
    if n > 0 {
      ExamplesMean(s, ordered, n - 1, i);
      UsableMeans(ordered[n - 1]);
      assert ordered[..n][..n - 1] == ordered[..n - 1];
    }
  }
}
