/**
 * `generateSequentialFeatures` (backend/src/preMatchFeatures.ts) against a recomputation from the
 * full list of earlier matches: no caps, no running state.
 */
module FeatureGeneration {
  import opened Records
  import opened StringOrder
  import opened PreMatchFeatures

  // ---------------------------------------------------------------- the full past

  /** One earlier match of a team, with the rating it entered with. */
  datatype Entry = Entry(venue: Venue, summary: Summary, eloBefore: real)

  /** The rating of a team after the matches of `past`. */
  function Rating(s: Setup, past: seq<Match>, key: string): real
    decreases |past|
  {
    if past == [] then ELO_START
    else
      var before, r := past[..|past| - 1], past[|past| - 1];
      if !Usable(r) then Rating(s, before, key)
      else if key == s.HomeKey(r) then HomeElo(s, r, Rating(s, before, s.HomeKey(r)), Rating(s, before, s.AwayKey(r)))
      else if key == s.AwayKey(r) then AwayElo(s, r, Rating(s, before, s.HomeKey(r)), Rating(s, before, s.AwayKey(r)))
      else Rating(s, before, key)
  }

  /** Every match of a team in `past`. */
  function Entries(s: Setup, past: seq<Match>, key: string): seq<Entry> {
    if past == [] then []
    else
      var before, r := past[..|past| - 1], past[|past| - 1];
      Entries(s, before, key) + EntryOf(s, before, r, key)
  }

  function EntryOf(s: Setup, before: seq<Match>, r: Match, key: string): seq<Entry> {
    if !Usable(r) then []
    else if key == s.HomeKey(r) then
      [Entry(Home, SummaryOf(r, Home, s.TimestampOf(r), Rating(s, before, s.AwayKey(r))), Rating(s, before, key))]
    else if key == s.AwayKey(r) then
      [Entry(Away, SummaryOf(r, Away, s.TimestampOf(r), Rating(s, before, s.HomeKey(r))), Rating(s, before, key))]
    else []
  }

  function Summaries(entries: seq<Entry>): seq<Summary> {
    if entries == [] then [] else Summaries(entries[..|entries| - 1]) + [entries[|entries| - 1].summary]
  }

  function SummariesAt(entries: seq<Entry>, venue: Venue): seq<Summary> {
    if entries == [] then []
    else
      var e := entries[|entries| - 1];
      SummariesAt(entries[..|entries| - 1], venue) + (if e.venue == venue then [e.summary] else [])
  }

  function Dates(entries: seq<Entry>): seq<int> {
    if entries == [] then []
    else
      var t := entries[|entries| - 1].summary.timestamp;
      Dates(entries[..|entries| - 1]) + (if t.Some? then [t.value] else [])
  }

  function Befores(entries: seq<Entry>): seq<real> {
    if entries == [] then [] else Befores(entries[..|entries| - 1]) + [entries[|entries| - 1].eloBefore]
  }

  function LastTimestamp(entries: seq<Entry>): Option<int> {
    if entries == [] then None else entries[|entries| - 1].summary.timestamp
  }

  function LastVenue(entries: seq<Entry>): Option<Venue> {
    if entries == [] then None else Some(entries[|entries| - 1].venue)
  }

  /** How many of the last matches were at the last venue, without interruption. */
  function Streak(entries: seq<Entry>): nat {
    if entries == [] then 0
    else
      var n := |entries| - 1;
      if LastVenue(entries[..n]) == LastVenue(entries) then Streak(entries[..n]) + 1 else 1
  }

  /** The state a team should be in after `past`. */
  function TeamAfter(s: Setup, past: seq<Match>, key: string): Team {
    Cut(Entries(s, past, key), Rating(s, past, key))
  }

  function Cut(entries: seq<Entry>, elo: real): Team {
    Team(|entries|, elo, LastN(Befores(entries), ELO_CAP), LastN(Summaries(entries), HISTORY_CAP),
         LastN(SummariesAt(entries, Home), HISTORY_CAP), LastN(SummariesAt(entries, Away), HISTORY_CAP),
         LastN(Dates(entries), DATES_CAP), LastTimestamp(entries), LastVenue(entries), Streak(entries))
  }

  lemma {:induction false} SummaryTimestamp(r: Match, side: Venue, timestamp: Option<int>, opponentElo: real)
    ensures SummaryOf(r, side, timestamp, opponentElo).timestamp == timestamp
  {
  }

  /** One more match: the capped update is the cut of the longer history. */
  lemma {:induction false} CutStep(entries: seq<Entry>, elo: real, r: Match, side: Venue, timestamp: Option<int>,
                                   opponentElo: real, after: real)
    ensures Rated(Played(Cut(entries, elo), r, side, timestamp, opponentElo), after)
         == Cut(entries + [Entry(side, SummaryOf(r, side, timestamp, opponentElo), elo)], after)
  {
    hide SummaryOf, LastN, Push;
    var m := SummaryOf(r, side, timestamp, opponentElo);
    var longer := entries + [Entry(side, m, elo)];
    SummaryTimestamp(r, side, timestamp, opponentElo);
    assert longer[..|longer| - 1] == entries;
    PushKeepsLast(Befores(entries), elo, ELO_CAP);
    PushKeepsLast(Summaries(entries), m, HISTORY_CAP);
    PushKeepsLast(SummariesAt(entries, side), m, HISTORY_CAP);
    if timestamp.Some? { PushKeepsLast(Dates(entries), timestamp.value, DATES_CAP); }
    assert SummariesAt(entries, Home) + [] == SummariesAt(entries, Home);
    assert SummariesAt(entries, Away) + [] == SummariesAt(entries, Away);
    assert Dates(entries) + [] == Dates(entries);
  }

  /** What one match does to the state of every team. */
  lemma {:induction false} TeamStep(s: Setup, past: seq<Match>, r: Match, key: string)
    requires Usable(r) && s.Regular(r)
    ensures TeamAfter(s, past + [r], key)
            == Next(s, r, TeamAfter(s, past, s.HomeKey(r)), TeamAfter(s, past, s.AwayKey(r)), TeamAfter(s, past, key),
                    key)
  {
    hide HomeElo, AwayElo, SummaryOf, Played, Rated, Cut;
    var all := past + [r];
    assert all[..|all| - 1] == past && all[|all| - 1] == r;
    CutElo(s, past, s.HomeKey(r));
    CutElo(s, past, s.AwayKey(r));
    var home, away := Rating(s, past, s.HomeKey(r)), Rating(s, past, s.AwayKey(r));
    if key == s.HomeKey(r) {
      CutStep(Entries(s, past, key), home, r, Home, s.TimestampOf(r), away, HomeElo(s, r, home, away));
    } else if key == s.AwayKey(r) {
      CutStep(Entries(s, past, key), away, r, Away, s.TimestampOf(r), home, AwayElo(s, r, home, away));
    } else {
      assert Entries(s, past, key) + [] == Entries(s, past, key);
    }
  }

  lemma {:induction false} CutElo(s: Setup, past: seq<Match>, key: string)
    ensures TeamAfter(s, past, key).elo == Rating(s, past, key)
  {
  }

  /** The state of `key` after `r`, from the states of the two teams before it. */
  function Next(s: Setup, r: Match, home: Team, away: Team, other: Team, key: string): Team {
    if key == s.HomeKey(r) then
      Rated(Played(home, r, Home, s.TimestampOf(r), away.elo), HomeElo(s, r, home.elo, away.elo))
    else if key == s.AwayKey(r) then
      Rated(Played(away, r, Away, s.TimestampOf(r), home.elo), AwayElo(s, r, home.elo, away.elo))
    else other
  }

  lemma {:induction false} TeamSkip(s: Setup, past: seq<Match>, r: Match, key: string)
    requires !Usable(r)
    ensures TeamAfter(s, past + [r], key) == TeamAfter(s, past, key)
  {
    var all := past + [r];
    assert all[..|all| - 1] == past && all[|all| - 1] == r;
    assert Entries(s, past, key) + [] == Entries(s, past, key);
  }

  // ---------------------------------------------------------------- meetings of a pair

  predicate Pairs(s: Setup, r: Match, a: string, b: string) {
    Usable(r) && ((s.HomeKey(r) == a && s.AwayKey(r) == b) || (s.HomeKey(r) == b && s.AwayKey(r) == a))
  }

  predicate WonBy(s: Setup, r: Match, key: string) {
    (r.outcome == HomeWin && s.HomeKey(r) == key) || (r.outcome == AwayWin && s.AwayKey(r) == key)
  }

  function Meetings(s: Setup, past: seq<Match>, a: string, b: string): nat {
    if past == [] then 0
    else Meetings(s, past[..|past| - 1], a, b) + (if Pairs(s, past[|past| - 1], a, b) then 1 else 0)
  }

  /** The meetings of the pair won by `a`, at either venue. */
  function WinsOver(s: Setup, past: seq<Match>, a: string, b: string): nat {
    if past == [] then 0
    else
      var r := past[|past| - 1];
      WinsOver(s, past[..|past| - 1], a, b) + (if Pairs(s, r, a, b) && WonBy(s, r, a) then 1 else 0)
  }

  function DrawsBetween(s: Setup, past: seq<Match>, a: string, b: string): nat {
    if past == [] then 0
    else
      var r := past[|past| - 1];
      DrawsBetween(s, past[..|past| - 1], a, b) + (if Pairs(s, r, a, b) && r.outcome == Draw then 1 else 0)
  }

  function LastMeeting(s: Setup, past: seq<Match>, a: string, b: string): Option<Match> {
    if past == [] then None
    else if Pairs(s, past[|past| - 1], a, b) then Some(past[|past| - 1])
    else LastMeeting(s, past[..|past| - 1], a, b)
  }

  function First(a: string, b: string): string { if Le(a, b) then a else b }

  function Second(a: string, b: string): string { if Le(a, b) then b else a }

  /** The head-to-head record a pair should have after `past`. */
  function PairAfter(s: Setup, past: seq<Match>, a: string, b: string): H2H {
    var last := LastMeeting(s, past, a, b);
    H2H(Meetings(s, past, a, b), WinsOver(s, past, First(a, b), Second(a, b)),
          WinsOver(s, past, Second(a, b), First(a, b)),
        DrawsBetween(s, past, a, b),
        if last.Some? then s.TimestampOf(last.value) else None, if last.Some? then last.value.season else None)
  }

  lemma {:induction false} PairStep(s: Setup, past: seq<Match>, r: Match, a: string, b: string)
    requires s.Regular(r) && a != b
    ensures PairAfter(s, past + [r], a, b)
         == if Pairs(s, r, a, b)
           then Met(PairAfter(s, past, a, b), Le(s.HomeKey(r), s.AwayKey(r)), r.outcome, s.TimestampOf(r), r.season)
            else PairAfter(s, past, a, b)
  {
    var all := past + [r];
    assert all[..|all| - 1] == past && all[|all| - 1] == r;
    Total(a, b);
  }

  lemma {:induction false} PairSymmetric(s: Setup, past: seq<Match>, a: string, b: string)
    ensures PairAfter(s, past, a, b) == PairAfter(s, past, b, a)
  {
    Total(a, b);
    if past != [] {
      PairSymmetric(s, past[..|past| - 1], a, b);
    }
  }

  // ---------------------------------------------------------------- features

  datatype TeamFeatures = TeamFeatures(
    played: nat, hasHistory: bool, eloBefore: real, eloRecentChange: real, restDays: Option<int>,
    games7: nat, games14: nat, venueStreak: nat, recentOpponentElo: Option<real>,
    form5: WindowForm, form10: WindowForm, form20: WindowForm, venueForm10: WindowForm,
    expWeightedGoalsFor: real, expWeightedGoalsAgainst: real, expWeightedPoints: real)

  /** What the source reads off the capped state. */
  function StateFeatures(s: Setup, t: Team, side: Venue, timestamp: Option<int>): TeamFeatures {
    TeamFeatures(
      t.played, t.played > 0, Round(t.elo), Round(t.elo - (if t.eloHistory != [] then t.eloHistory[0] else t.elo)),
      RestDays(t.lastTimestamp, timestamp),
      GamesWithin(t.matchDates, timestamp, 7), GamesWithin(t.matchDates, timestamp, 14),
      if t.lastVenue == Some(side) then t.venueStreak else 0, MeanElo(LastN(t.recent, 5)),
      FormOf(LastN(t.recent, 5)), FormOf(LastN(t.recent, 10)), FormOf(LastN(t.recent, 20)),
      FormOf(LastN(if side == Home then t.homeRecent else t.awayRecent, 10)),
      Round(WeightedMean(s, t.recent, timestamp, Scored)), Round(WeightedMean(s, t.recent, timestamp, Conceded)),
      Round(WeightedMean(s, t.recent, timestamp, Points)))
  }

  /** The same features computed from every earlier match of the team. */
  function HistoryFeatures(s: Setup, entries: seq<Entry>, elo: real, side: Venue,
        timestamp: Option<int>): TeamFeatures {
    var all := Summaries(entries);
    TeamFeatures(
      |entries|, entries != [], Round(elo), Round(RecentChange(entries, elo)),
      RestDays(LastTimestamp(entries), timestamp),
      GamesWithin(LastN(Dates(entries), DATES_CAP), timestamp, 7),
        GamesWithin(LastN(Dates(entries), DATES_CAP), timestamp, 14),
      if LastVenue(entries) == Some(side) then Streak(entries) else 0, MeanElo(LastN(all, 5)),
      FormOf(LastN(all, 5)), FormOf(LastN(all, 10)), FormOf(LastN(all, 20)),
        FormOf(LastN(SummariesAt(entries, side), 10)),
      Round(WeightedMean(s, LastN(all, 20), timestamp, Scored)),
        Round(WeightedMean(s, LastN(all, 20), timestamp, Conceded)),
      Round(WeightedMean(s, LastN(all, 20), timestamp, Points)))
  }

  /** The rating against the one before the sixth-last match, or the first if there are fewer. */
  function RecentChange(entries: seq<Entry>, elo: real): real {
    if entries == [] then 0.0
    else if |entries| <= 6 then elo - entries[0].eloBefore
    else elo - entries[|entries| - 6].eloBefore
  }

  lemma {:induction false} BeforesAt(entries: seq<Entry>, k: nat)
    requires k < |entries|
    ensures |Befores(entries)| == |entries| && Befores(entries)[k] == entries[k].eloBefore
  {
    var n := |entries| - 1;
    if n > 0 { BeforesAt(entries[..n], if k < n then k else 0); }
  }

  /** The capped state yields the features of the full history. */
  lemma {:induction false} CappedStateSuffices(s: Setup, entries: seq<Entry>, elo: real, side: Venue,
                                               timestamp: Option<int>)
    ensures StateFeatures(s, Cut(entries, elo), side, timestamp) == HistoryFeatures(s, entries, elo, side, timestamp)
  {
    hide FormOf, WeightedMean, MeanElo, Round, GamesWithin, RestDays;
    LastOfLast(Summaries(entries), HISTORY_CAP, 5);
    LastOfLast(Summaries(entries), HISTORY_CAP, 10);
    LastOfLast(Summaries(entries), HISTORY_CAP, 20);
    LastOfLast(SummariesAt(entries, side), HISTORY_CAP, 10);
    if entries != [] { BeforesAt(entries, if |entries| <= 6 then 0 else |entries| - 6); }
  }

  datatype Features = Features(
    competition: string, season: Option<string>, home: TeamFeatures, away: TeamFeatures,
    eloDiff: real, homeAdvantageAdjustedElo: real, h2hMatches: nat, h2hHomeWinRate: Option<real>,
    h2hRecencyDays: Option<int>, h2hSeasonChanged: bool, corners: bool, cards: bool)

  function HomeWinRate(h: H2H, homeIsFirst: bool): Option<real> {
    if h.meetings == 0 then None
    else Some(Round((if homeIsFirst then h.firstKeyWins else h.secondKeyWins) as real / h.meetings as real))
  }

  /** A timestamp of zero counts as missing here. */
  function RecencyDays(last: Option<int>, timestamp: Option<int>): Option<int> {
    if last.Some? && last.value != 0 && timestamp.Some? && timestamp.value != 0
      then Some(DaysBetween(last.value, timestamp.value))
    else None
  }

  function Assemble(s: Setup, r: Match, home: TeamFeatures, away: TeamFeatures, homeElo: real, awayElo: real,
        h: H2H): Features {
    var named := OrElse(r.competition, r.league);
    Features(if named.Some? then named.value else "sem-competicao", r.season, home, away,
             Round(homeElo - awayElo), Round(homeElo + ELO_HOME_ADVANTAGE - awayElo),
             h.meetings, HomeWinRate(h, Le(s.HomeKey(r), s.AwayKey(r))), RecencyDays(h.lastTimestamp, s.TimestampOf(r)),
             h.meetings > 0 && h.lastSeason != r.season, r.totalCorners.Some?, r.totalCards.Some?)
  }

  /** The features of a match, recomputed from all matches before it. */
  function FeaturesAt(s: Setup, past: seq<Match>, r: Match): Features {
    var home, away := s.HomeKey(r), s.AwayKey(r);
    Assemble(s, r, HistoryFeatures(s, Entries(s, past, home), Rating(s, past, home), Home, s.TimestampOf(r)),
             HistoryFeatures(s, Entries(s, past, away), Rating(s, past, away), Away, s.TimestampOf(r)),
             Rating(s, past, home), Rating(s, past, away), PairAfter(s, past, home, away))
  }

  datatype Example = Example(record: Match, features: Features)

  /** One example for each usable record among the first `n`. */
  function ExamplesOf(s: Setup, ordered: seq<Match>, n: nat): seq<Example>
    requires n <= |ordered|
  {
    if n == 0 then []
    else
      var r := ordered[n - 1];
      ExamplesOf(s, ordered, n - 1) + (if Usable(r) then [Example(r, FeaturesAt(s, ordered[..n - 1], r))] else [])
  }

  // ---------------------------------------------------------------- the generator

  function StateOf(teams: map<string, TeamState>, key: string): Team
    reads teams.Values
  {
    if key in teams then teams[key].View() else INITIAL
  }

  ghost predicate Tracks(s: Setup, past: seq<Match>, teams: map<string, TeamState>)
    reads teams.Values
  {
    && (forall j, k | j in teams && k in teams && j != k :: teams[j] != teams[k])
    && (forall key :: StateOf(teams, key) == TeamAfter(s, past, key))
  }

  function RecordOf(pairs: map<string, H2HState>, key: string): H2H
    reads pairs.Values
  {
    if key in pairs then pairs[key].View() else NEVER_MET
  }

  predicate Plain(a: string, b: string) { '|' !in a && '|' !in b && a != b }

  ghost predicate TracksPairs(s: Setup, past: seq<Match>, pairs: map<string, H2HState>)
    reads pairs.Values
  {
    && (forall j, k | j in pairs && k in pairs && j != k :: pairs[j] != pairs[k])
    && (forall k | k in pairs :: pairs[k].View().meetings > 0)
    && (forall a, b | Plain(a, b) :: RecordOf(pairs, PairKey(a, b)) == PairAfter(s, past, a, b))
  }

  lemma {:induction false} SplitAtBar(a: string, b: string, c: string, d: string)
    requires '|' !in a && '|' !in c && a + "|" + b == c + "|" + d
    ensures a == c && b == d
  {
    var t := a + "|" + b;
    assert t[|a|] == '|' && t[|c|] == '|';
    forall i | 0 <= i < |a| ensures t[i] != '|' { assert t[i] == a[i]; }
    forall i | 0 <= i < |c| ensures t[i] != '|' { assert t[i] == c[i]; }
    assert |a| == |c|;
    assert a == t[..|a|] == c;
    assert b == t[|a| + 1..] == d;
  }

  /** The key names the unordered pair, and no other pair shares it. */
  lemma {:induction false} PairKeyIsUnorderedPair(a: string, b: string, c: string, d: string)
    requires '|' !in a && '|' !in b && '|' !in c && '|' !in d
    ensures PairKey(a, b) == PairKey(c, d) <==> (a == c && b == d) || (a == d && b == c)
  {
    Total(a, b);
    if PairKey(a, b) == PairKey(c, d) { SplitAtBar(First(a, b), Second(a, b), First(c, d), Second(c, d)); }
  }

  method ComputeTeamFeatures(s: Setup, state: TeamState, side: Venue, timestamp: Option<int>) returns (f: TeamFeatures)
    ensures f == StateFeatures(s, state.View(), side, timestamp)
  {
    hide FormOf, WeightedMean, MeanElo, Round, GamesWithin, RestDays, LastN;
    var form5 := ComputeWindowForm(state.recent, 5);
    var form10 := ComputeWindowForm(state.recent, 10);
    var form20 := ComputeWindowForm(state.recent, 20);
    var venueForm10 := ComputeWindowForm(if side == Home then state.homeRecent else state.awayRecent, 10);
    var scored := ComputeExpWeighted(s, state.recent, timestamp, Scored);
    var conceded := ComputeExpWeighted(s, state.recent, timestamp, Conceded);
    var points := ComputeExpWeighted(s, state.recent, timestamp, Points);
    f := TeamFeatures(
      state.played, state.played > 0, Round(state.elo),
      Round(state.elo - (if state.eloHistory != [] then state.eloHistory[0] else state.elo)),
      RestDays(state.lastTimestamp, timestamp), GamesWithin(state.matchDates, timestamp, 7),
      GamesWithin(state.matchDates, timestamp, 14), if state.lastVenue == Some(side) then state.venueStreak else 0,
      MeanElo(LastN(state.recent, 5)), form5, form10, form20, venueForm10, Round(scored), Round(conceded),
        Round(points));
  }

  method StateFor(teams: map<string, TeamState>, key: string) returns (state: TeamState)
    ensures if key in teams then state == teams[key] else fresh(state) && state.View() == INITIAL
  {
    if key in teams { state := teams[key]; } else { state := new TeamState(); }
  }

  /** Steps 1 to 3 for one record: features from the state before it. */
  method Describe(s: Setup, ghost past: seq<Match>, r: Match, home: TeamState, away: TeamState,
                  pairs: map<string, H2HState>, h2hKey: string) returns (features: Features)
    requires s.PlainKeys() && Usable(r) && s.Regular(r) && TracksPairs(s, past, pairs)
    requires h2hKey == PairKey(s.HomeKey(r), s.AwayKey(r))
    requires home.View() == TeamAfter(s, past, s.HomeKey(r)) && away.View() == TeamAfter(s, past, s.AwayKey(r))
    ensures features == FeaturesAt(s, past, r)
  {
    hide StateFeatures, HistoryFeatures, Entries, Rating, PairAfter, PairKey;
    var homeKey, awayKey := s.HomeKey(r), s.AwayKey(r);
    var timestamp := s.TimestampOf(r);
    var homeFeatures := ComputeTeamFeatures(s, home, Home, timestamp);
    var awayFeatures := ComputeTeamFeatures(s, away, Away, timestamp);
    CappedStateSuffices(s, Entries(s, past, homeKey), Rating(s, past, homeKey), Home, timestamp);
    CappedStateSuffices(s, Entries(s, past, awayKey), Rating(s, past, awayKey), Away, timestamp);
    assert Plain(homeKey, awayKey);
    var h2h := if h2hKey in pairs then pairs[h2hKey].View() else NEVER_MET;
    features := Assemble(s, r, homeFeatures, awayFeatures, home.elo, away.elo, h2h);
  }

  /** Step 4 for the two teams: the new state becomes visible under both keys. */
  method Settle(s: Setup, ghost past: seq<Match>, r: Match, teams: map<string, TeamState>, home: TeamState,
                away: TeamState)
    returns (after: map<string, TeamState>)
    requires Usable(r) && s.Regular(r) && Tracks(s, past, teams) && home != away
    requires forall k | k in teams ::
             (teams[k] == home <==> k == s.HomeKey(r)) && (teams[k] == away <==> k == s.AwayKey(r))
    requires home.View() == TeamAfter(s, past, s.HomeKey(r)) && away.View() == TeamAfter(s, past, s.AwayKey(r))
    modifies home, away
    ensures Tracks(s, past + [r], after)
    ensures after.Values <= teams.Values + {home, away}
  {
    hide TeamAfter, Played, Rated, HomeElo, AwayElo;
    var homeKey, awayKey := s.HomeKey(r), s.AwayKey(r);
    var timestamp := s.TimestampOf(r);
    var homeBefore, awayBefore := home.elo, away.elo;
    ghost var homeView, awayView := home.View(), away.View();
    home.UpdateTeam(r, Home, timestamp, awayBefore);
    away.UpdateTeam(r, Away, timestamp, homeBefore);
    PlayedKeepsElo(homeView, r, Home, timestamp, awayBefore);
    PlayedKeepsElo(awayView, r, Away, timestamp, homeBefore);
    ApplyElo(s, home, away, r, homeBefore, awayBefore);
    after := teams[homeKey := home][awayKey := away];
    forall key ensures StateOf(after, key) == TeamAfter(s, past + [r], key) {
      TeamStep(s, past, r, key);
      assert old(StateOf(teams, key)) == TeamAfter(s, past, key);
    }
  }

  lemma {:induction false} PlayedKeepsElo(t: Team, r: Match, side: Venue, timestamp: Option<int>, opponentElo: real)
    ensures Played(t, r, side, timestamp, opponentElo).elo == t.elo
  {
  }

  /** Step 4 for the pair. */
  method SettlePair(s: Setup, ghost past: seq<Match>, r: Match, pairs: map<string, H2HState>)
    returns (after: map<string, H2HState>)
    requires s.PlainKeys() && Usable(r) && s.Regular(r) && TracksPairs(s, past, pairs)
    modifies pairs.Values
    ensures TracksPairs(s, past + [r], after)
    ensures forall k | k in after :: after[k] in pairs.Values || fresh(after[k])
  {
    hide PairAfter, PairKey;
    var homeKey, awayKey := s.HomeKey(r), s.AwayKey(r);
    var h2hKey := PairKey(homeKey, awayKey);
    var state: H2HState;
    if h2hKey in pairs { state := pairs[h2hKey]; } else { state := new H2HState(); }
    state.Update(homeKey, awayKey, r.outcome, s.TimestampOf(r), r.season);
    after := pairs[h2hKey := state];
    assert Plain(homeKey, awayKey);
    assert old(RecordOf(pairs, h2hKey)) == PairAfter(s, past, homeKey, awayKey);
    forall a, b | Plain(a, b) ensures RecordOf(after, PairKey(a, b)) == PairAfter(s, past + [r], a, b) {
      PairStep(s, past, r, a, b);
      PairKeyIsUnorderedPair(a, b, homeKey, awayKey);
      PairSymmetric(s, past, a, b);
      assert old(RecordOf(pairs, PairKey(a, b))) == PairAfter(s, past, a, b);
    }
  }

  lemma {:induction false} Skipped(s: Setup, past: seq<Match>, r: Match, teams: map<string, TeamState>,
                                   pairs: map<string, H2HState>)
    requires !Usable(r) && Tracks(s, past, teams) && TracksPairs(s, past, pairs)
    ensures Tracks(s, past + [r], teams) && TracksPairs(s, past + [r], pairs)
  {
    hide TeamAfter, PairAfter, PairKey;
    forall key ensures StateOf(teams, key) == TeamAfter(s, past + [r], key) {
      TeamSkip(s, past, r, key);
      assert StateOf(teams, key) == TeamAfter(s, past, key);
    }
    forall a, b | Plain(a, b) ensures RecordOf(pairs, PairKey(a, b)) == PairAfter(s, past + [r], a, b) {
      PairStep(s, past, r, a, b);
    }
  }

  /** One record: read the state before it, then add it. */
  method Advance(s: Setup, ghost past: seq<Match>, r: Match, teams: map<string, TeamState>, pairs: map<string,
        H2HState>)
    returns (found: seq<Example>, nextTeams: map<string, TeamState>, nextPairs: map<string, H2HState>)
    requires s.PlainKeys() && s.Regular(r) && Tracks(s, past, teams) && TracksPairs(s, past, pairs)
    modifies teams.Values, pairs.Values
    ensures found == if Usable(r) then [Example(r, FeaturesAt(s, past, r))] else []
    ensures Tracks(s, past + [r], nextTeams) && TracksPairs(s, past + [r], nextPairs)
    ensures forall o | o in nextTeams.Values :: o in teams.Values || fresh(o)
    ensures forall k | k in nextPairs :: nextPairs[k] in pairs.Values || fresh(nextPairs[k])
  {
    hide TeamAfter, PairAfter, FeaturesAt, PairKey;
    if !Usable(r) {
      Skipped(s, past, r, teams, pairs);
      return [], teams, pairs;
    }
    var homeKey, awayKey := s.HomeKey(r), s.AwayKey(r);
    var home := StateFor(teams, homeKey);
    var away := StateFor(teams, awayKey);
    assert home in teams.Values || fresh(home);
    assert away in teams.Values || fresh(away);
    assert StateOf(teams, homeKey) == TeamAfter(s, past, homeKey);
    assert StateOf(teams, awayKey) == TeamAfter(s, past, awayKey);
    var features := Describe(s, past, r, home, away, pairs, PairKey(homeKey, awayKey));
    found := [Example(r, features)];
    nextTeams := Settle(s, past, r, teams, home, away);
    nextPairs := SettlePair(s, past, r, pairs);
  }

  method GenerateSequentialFeatures(s: Setup, ordered: seq<Match>) returns (examples: seq<Example>)
    requires s.PlainKeys() && s.AllRegular(ordered)
    ensures examples == ExamplesOf(s, ordered, |ordered|)
  {
    hide TeamAfter, PairAfter, FeaturesAt, PairKey, Tracks, TracksPairs;
    var teams: map<string, TeamState> := map[];
    var pairs: map<string, H2HState> := map[];
    examples := [];
    Nothing(s, teams, pairs);
    for i := 0 to |ordered|
      invariant Tracks(s, ordered[..i], teams) && TracksPairs(s, ordered[..i], pairs)
      invariant fresh(teams.Values) && fresh(pairs.Values)
      invariant examples == ExamplesOf(s, ordered, i)
    {
      assert ordered[..i + 1] == ordered[..i] + [ordered[i]];
      var found;
      found, teams, pairs := Advance(s, ordered[..i], ordered[i], teams, pairs);
      examples := examples + found;
    }
  }

  lemma {:induction false} Nothing(s: Setup, teams: map<string, TeamState>, pairs: map<string, H2HState>)
    requires teams == map[] && pairs == map[]
    ensures Tracks(s, [], teams) && TracksPairs(s, [], pairs)
  {
  }
}
