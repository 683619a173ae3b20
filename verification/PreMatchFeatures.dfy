/**
 * Sequential pre-match features (backend/src/preMatchFeatures.ts): capped per-team state, updated
 * after every match, that must equal a recomputation from the whole past.
 */
module PreMatchFeatures {
  import opened Records
  import opened StringOrder

  type Positive = x: real | x > 0.0 witness 1.0

  const ELO_START := 1500.0
  const ELO_K := 20.0
  const ELO_HOME_ADVANTAGE := 60.0
  const HISTORY_CAP := 20
  const DATES_CAP := 40
  const ELO_CAP := 6
  const DAY := 86_400_000

  datatype Venue = Home | Away

  /** `exp` and `pow10` stand for the transcendental functions: all that is known is their sign. */
  datatype Setup = Setup(teamKey: string -> string, parse: string -> Option<int>,
                         exp: real -> Positive, pow10: real -> Positive, decay: real)
  {
    function HomeKey(r: Match): string { if r.homeTeam.Some? then teamKey(r.homeTeam.value) else "" }

    function AwayKey(r: Match): string { if r.awayTeam.Some? then teamKey(r.awayTeam.value) else "" }

    function TimestampOf(r: Match): Option<int> { if r.date.Some? then parse(r.date.value) else None }

    /** The source normalises names to letters, digits and spaces. */
    ghost predicate PlainKeys() { forall name :: '|' !in teamKey(name) }

    /** A team does not play itself. */
    predicate Regular(r: Match) { Usable(r) ==> HomeKey(r) != AwayKey(r) }

    predicate AllRegular(records: seq<Match>) { forall k | 0 <= k < |records| :: Regular(records[k]) }
  }

  /** Records without both teams and a date are skipped. */
  predicate Usable(r: Match) {
    Truthy(r.homeTeam) && Truthy(r.awayTeam) && Truthy(r.date)
  }

  datatype Summary = Summary(points: int, goalsFor: int, goalsAgainst: int,
                             over15: bool, over25: bool, over35: bool, btts: bool,
                             timestamp: Option<int>, opponentElo: real)

  function GoalsFor(r: Match, side: Venue): int { if side == Home then r.homeGoals else r.awayGoals }

  function GoalsAgainst(r: Match, side: Venue): int { if side == Home then r.awayGoals else r.homeGoals }

  function SummaryOf(r: Match, side: Venue, timestamp: Option<int>, opponentElo: real): Summary {
    var gf, ga := GoalsFor(r, side), GoalsAgainst(r, side);
    Summary(if gf > ga then 3 else if gf == ga then 1 else 0, gf, ga,
            r.totalGoals > 1, r.totalGoals > 2, r.totalGoals > 3, r.homeGoals > 0 && r.awayGoals > 0,
            timestamp, opponentElo)
  }

  /** `Math.round(value * 1000) / 1000`. */
  function Round(value: real): real { (value * 1000.0 + 0.5).Floor as real / 1000.0 }

  // ---------------------------------------------------------------- bounded lists

  /** `list.slice(-n)` for `n > 0`. */
  function LastN<T>(s: seq<T>, n: nat): seq<T> {
    if |s| <= n then s else s[|s| - n..]
  }

  /** Append, then drop the oldest entry beyond the cap. */
  function Push<T>(s: seq<T>, x: T, cap: nat): seq<T> {
    if |s| + 1 > cap then (s + [x])[1..] else s + [x]
  }

  lemma {:induction false} PushKeepsLast<T>(s: seq<T>, x: T, cap: nat)
    ensures Push(LastN(s, cap), x, cap) == LastN(s + [x], cap)
  {
    if |s| >= cap {
      assert (LastN(s, cap) + [x])[1..] == (s + [x])[|s| + 1 - cap..];
    }
  }

  lemma {:induction false} LastOfLast<T>(s: seq<T>, cap: nat, n: nat)
    requires n <= cap
    ensures LastN(LastN(s, cap), n) == LastN(s, n)
  {
  }

  // ---------------------------------------------------------------- window statistics

  datatype WindowForm = WindowForm(
    sampleSize: nat, wins: nat, draws: nat, losses: nat, pointsPerGame: real,
    goalsFor: int, goalsAgainst: int, goalDiff: int, avgGoalsFor: real, avgGoalsAgainst: real,
    over15Pct: real, over25Pct: real, over35Pct: real, bttsPct: real, cleanSheetPct: real, failedToScorePct: real)

  datatype Flag = Won | Drew | Lost | IsOver15 | IsOver25 | IsOver35 | IsBtts | CleanSheet | Blank

  predicate Holds(flag: Flag, m: Summary) {
    match flag
    case Won => m.points == 3
    case Drew => m.points == 1
    case Lost => m.points != 3 && m.points != 1
    case IsOver15 => m.over15
    case IsOver25 => m.over25
    case IsOver35 => m.over35
    case IsBtts => m.btts
    case CleanSheet => m.goalsAgainst == 0
    case Blank => m.goalsFor == 0
  }

  /** How many matches of the window carry the flag. */
  function Tally(flag: Flag, window: seq<Summary>): nat {
    if window == [] then 0
    else Tally(flag, window[..|window| - 1]) + (if Holds(flag, window[|window| - 1]) then 1 else 0)
  }

  datatype Pick = Scored | Conceded | Points

  function Value(pick: Pick, m: Summary): int {
    match pick
    case Scored => m.goalsFor
    case Conceded => m.goalsAgainst
    case Points => m.points
  }

  function Sum(pick: Pick, window: seq<Summary>): int {
    if window == [] then 0 else Sum(pick, window[..|window| - 1]) + Value(pick, window[|window| - 1])
  }

  function Share(count: int, n: nat): real
    requires n > 0
  {
    Round(count as real / n as real)
  }

  const EMPTY_FORM := WindowForm(0, 0, 0, 0, 0.0, 0, 0, 0, 0.0, 0.0, 0.0, 0.0, 0.0, 0.0, 0.0, 0.0)

  function FormOf(window: seq<Summary>): WindowForm {
    var n := |window|;
    if n == 0 then EMPTY_FORM
    else
      WindowForm(n, Tally(Won, window), Tally(Drew, window), Tally(Lost, window),
                 Share(Tally(Won, window) * 3 + Tally(Drew, window), n),
                 Sum(Scored, window), Sum(Conceded, window), Sum(Scored, window) - Sum(Conceded, window),
                 Share(Sum(Scored, window), n), Share(Sum(Conceded, window), n),
                 Share(Tally(IsOver15, window), n), Share(Tally(IsOver25, window), n),
                   Share(Tally(IsOver35, window), n),
                 Share(Tally(IsBtts, window), n), Share(Tally(CleanSheet, window), n), Share(Tally(Blank, window), n))
  }

  /** The counters of the loop. */
  datatype Counts = Counts(wins: nat, draws: nat, losses: nat, goalsFor: int, goalsAgainst: int, over15: nat,
                           over25: nat, over35: nat, btts: nat, cleanSheet: nat, failedToScore: nat)

  function CountsOf(window: seq<Summary>): Counts {
    Counts(Tally(Won, window), Tally(Drew, window), Tally(Lost, window), Sum(Scored, window), Sum(Conceded, window),
           Tally(IsOver15, window), Tally(IsOver25, window), Tally(IsOver35, window), Tally(IsBtts, window),
           Tally(CleanSheet, window), Tally(Blank, window))
  }

  lemma {:induction false} TallyNext(flag: Flag, before: seq<Summary>, m: Summary)
    ensures Tally(flag, before + [m]) == Tally(flag, before) + (if Holds(flag, m) then 1 else 0)
  {
    assert (before + [m])[..|before|] == before;
  }

  lemma {:induction false} SumNext(pick: Pick, before: seq<Summary>, m: Summary)
    ensures Sum(pick, before + [m]) == Sum(pick, before) + Value(pick, m)
  {
    assert (before + [m])[..|before|] == before;
  }

  /** The first tests of the loop: result and goals. */
  method CountResult(c: Counts, ghost before: seq<Summary>, m: Summary) returns (wins: nat, draws: nat, losses: nat)
    requires c == CountsOf(before)
    ensures wins == Tally(Won, before + [m]) && draws == Tally(Drew, before + [m])
            && losses == Tally(Lost, before + [m])
  {
    TallyNext(Won, before, m);
    TallyNext(Drew, before, m);
    TallyNext(Lost, before, m);
    hide Tally, Sum;
    wins, draws, losses := c.wins, c.draws, c.losses;
    if m.points == 3 { wins := wins + 1; } else if m.points == 1 { draws := draws + 1; } else { losses := losses + 1; }
  }

  /** The tests of the goal markets. */
  method CountMarkets(c: Counts, ghost before: seq<Summary>, m: Summary)
    returns (over15: nat, over25: nat, over35: nat, btts: nat)
    requires c == CountsOf(before)
    ensures over15 == Tally(IsOver15, before + [m]) && over25 == Tally(IsOver25, before + [m])
    ensures over35 == Tally(IsOver35, before + [m]) && btts == Tally(IsBtts, before + [m])
  {
    TallyNext(IsOver15, before, m);
    TallyNext(IsOver25, before, m);
    TallyNext(IsOver35, before, m);
    TallyNext(IsBtts, before, m);
    hide Tally, Sum;
    over15, over25, over35, btts := c.over15, c.over25, c.over35, c.btts;
    if m.over15 { over15 := over15 + 1; }
    if m.over25 { over25 := over25 + 1; }
    if m.over35 { over35 := over35 + 1; }
    if m.btts { btts := btts + 1; }
  }

  /** One turn of the loop. */
  method CountSummary(c: Counts, ghost before: seq<Summary>, m: Summary) returns (next: Counts)
    requires c == CountsOf(before)
    ensures next == CountsOf(before + [m])
  {
    var wins, draws, losses := CountResult(c, before, m);
    var over15, over25, over35, btts := CountMarkets(c, before, m);
    SumNext(Scored, before, m);
    SumNext(Conceded, before, m);
    TallyNext(CleanSheet, before, m);
    TallyNext(Blank, before, m);
    hide Tally, Sum;
    var cleanSheet, failedToScore := c.cleanSheet, c.failedToScore;
    if m.goalsAgainst == 0 { cleanSheet := cleanSheet + 1; }
    if m.goalsFor == 0 { failedToScore := failedToScore + 1; }
    next := Counts(wins, draws, losses, c.goalsFor + m.goalsFor, c.goalsAgainst + m.goalsAgainst,
                   over15, over25, over35, btts, cleanSheet, failedToScore);
  }

  method ComputeWindowForm(summaries: seq<Summary>, size: nat) returns (form: WindowForm)
    ensures form == FormOf(LastN(summaries, size))
  {
    hide Round;
    var window := LastN(summaries, size);
    var n := |window|;
    if n == 0 { return EMPTY_FORM; }
    var c := Counts(0, 0, 0, 0, 0, 0, 0, 0, 0, 0, 0);
    for i := 0 to n
      invariant c == CountsOf(window[..i])
    {
      assert window[..i + 1] == window[..i] + [window[i]];
      c := CountSummary(c, window[..i], window[i]);
    }
    assert window[..n] == window;
    form := WindowForm(n, c.wins, c.draws, c.losses, Share(c.wins * 3 + c.draws, n), c.goalsFor, c.goalsAgainst,
                       c.goalsFor - c.goalsAgainst, Share(c.goalsFor, n), Share(c.goalsAgainst, n),
                       Share(c.over15, n), Share(c.over25, n), Share(c.over35, n), Share(c.btts, n),
                       Share(c.cleanSheet, n), Share(c.failedToScore, n));
  }

  function Weight(s: Setup, m: Summary, timestamp: Option<int>): Positive {
    var daysAgo := if timestamp.Some? && m.timestamp.Some? && timestamp.value > m.timestamp.value
                   then (timestamp.value - m.timestamp.value) as real / DAY as real else 0.0;
    s.exp(-s.decay * daysAgo)
  }

  function Weights(s: Setup, window: seq<Summary>, timestamp: Option<int>): real {
    if window == [] then 0.0
    else Weights(s, window[..|window| - 1], timestamp) + Weight(s, window[|window| - 1], timestamp)
  }

  function WeightedSum(s: Setup, window: seq<Summary>, timestamp: Option<int>, pick: Pick): real {
    if window == [] then 0.0
    else
      WeightedSum(s, window[..|window| - 1], timestamp, pick)
      + Weight(s, window[|window| - 1], timestamp) * Value(pick, window[|window| - 1]) as real
  }

  function WeightedMean(s: Setup, window: seq<Summary>, timestamp: Option<int>, pick: Pick): real {
    if Weights(s, window, timestamp) > 0.0 then WeightedSum(s, window, timestamp, pick) / Weights(s, window, timestamp)
      else 0.0
  }

  method ComputeExpWeighted(s: Setup, summaries: seq<Summary>, timestamp: Option<int>, pick: Pick) returns (mean: real)
    ensures mean == WeightedMean(s, summaries, timestamp, pick)
  {
    hide Weight, Value;
    if |summaries| == 0 { return 0.0; }
    var weighted, weights := 0.0, 0.0;
    for i := 0 to |summaries|
      invariant weighted == WeightedSum(s, summaries[..i], timestamp, pick)
      invariant weights == Weights(s, summaries[..i], timestamp)
    {
      assert summaries[..i + 1][..i] == summaries[..i];
      var weight: real := Weight(s, summaries[i], timestamp);
      weighted := weighted + weight * Value(pick, summaries[i]) as real;
      weights := weights + weight;
    }
    assert summaries[..|summaries|] == summaries;
    mean := if weights > 0.0 then weighted / weights else 0.0;
  }

  function ElosFaced(window: seq<Summary>): real {
    if window == [] then 0.0 else ElosFaced(window[..|window| - 1]) + window[|window| - 1].opponentElo
  }

  function MeanElo(window: seq<Summary>): Option<real> {
    if window == [] then None else Some(Round(ElosFaced(window) / |window| as real))
  }

  function CountWithin(dates: seq<int>, from: int, until: int): nat {
    if dates == [] then 0
    else
      var n := |dates| - 1;
      CountWithin(dates[..n], from, until) + (if from <= dates[n] < until then 1 else 0)
  }

  function GamesWithin(dates: seq<int>, timestamp: Option<int>, days: nat): nat {
    if timestamp.None? then 0 else CountWithin(dates, timestamp.value - days * DAY, timestamp.value)
  }

  /** `Math.round` of the distance in days. */
  function DaysBetween(from: int, until: int): int { ((until - from) as real / DAY as real + 0.5).Floor }

  function RestDays(last: Option<int>, timestamp: Option<int>): Option<int> {
    if last.None? || timestamp.None? then None else Some(DaysBetween(last.value, timestamp.value))
  }

  // ---------------------------------------------------------------- team state

  /** The value of a team's state. */
  datatype Team = Team(played: nat, elo: real, eloHistory: seq<real>, recent: seq<Summary>,
                       homeRecent: seq<Summary>, awayRecent: seq<Summary>, matchDates: seq<int>,
                       lastTimestamp: Option<int>, lastVenue: Option<Venue>, venueStreak: nat)

  const INITIAL := Team(0, ELO_START, [], [], [], [], [], None, None, 0)

  /** What `updateTeam` makes of a state. */
  function Played(t: Team, r: Match, side: Venue, timestamp: Option<int>, opponentElo: real): Team {
    var m := SummaryOf(r, side, timestamp, opponentElo);
    t.(played := t.played + 1,
       recent := Push(t.recent, m, HISTORY_CAP),
       homeRecent := if side == Home then Push(t.homeRecent, m, HISTORY_CAP) else t.homeRecent,
       awayRecent := if side == Away then Push(t.awayRecent, m, HISTORY_CAP) else t.awayRecent,
       matchDates := if timestamp.Some? then Push(t.matchDates, timestamp.value, DATES_CAP) else t.matchDates,
       lastTimestamp := timestamp,
       lastVenue := Some(side),
       venueStreak := if t.lastVenue == Some(side) then t.venueStreak + 1 else 1)
  }

  function Rated(t: Team, elo: real): Team {
    t.(elo := elo, eloHistory := Push(t.eloHistory, t.elo, ELO_CAP))
  }

  function Expected(s: Setup, home: real, away: real): real {
    1.0 / (1.0 + s.pow10((away - home - ELO_HOME_ADVANTAGE) / 400.0))
  }

  function Score(r: Match): real {
    if r.homeGoals > r.awayGoals then 1.0 else if r.homeGoals == r.awayGoals then 0.5 else 0.0
  }

  function HomeElo(s: Setup, r: Match, home: real, away: real): real {
    home + ELO_K * (Score(r) - Expected(s, home, away))
  }

  function AwayElo(s: Setup, r: Match, home: real, away: real): real {
    away + ELO_K * ((1.0 - Score(r)) - (1.0 - Expected(s, home, away)))
  }

  class TeamState {
    var played: nat
    var elo: real
    var eloHistory: seq<real>
    var recent: seq<Summary>
    var homeRecent: seq<Summary>
    var awayRecent: seq<Summary>
    var matchDates: seq<int>
    var lastTimestamp: Option<int>
    var lastVenue: Option<Venue>
    var venueStreak: nat

    constructor ()
      ensures View() == INITIAL
    {
      played, elo, eloHistory, recent, homeRecent, awayRecent, matchDates := 0, ELO_START, [], [], [], [], [];
      lastTimestamp, lastVenue, venueStreak := None, None, 0;
    }

    function View(): Team
      reads this
    {
      Team(played, elo, eloHistory, recent, homeRecent, awayRecent, matchDates, lastTimestamp, lastVenue, venueStreak)
    }

    method UpdateTeam(r: Match, side: Venue, timestamp: Option<int>, opponentElo: real)
      modifies this
      ensures View() == Played(old(View()), r, side, timestamp, opponentElo)
    {
      hide SummaryOf, Push;
      var m := SummaryOf(r, side, timestamp, opponentElo);
      recent := Push(recent, m, HISTORY_CAP);
      if side == Home {
        homeRecent := Push(homeRecent, m, HISTORY_CAP);
      } else {
        awayRecent := Push(awayRecent, m, HISTORY_CAP);
      }
      if timestamp.Some? { matchDates := Push(matchDates, timestamp.value, DATES_CAP); }
      venueStreak := if lastVenue == Some(side) then venueStreak + 1 else 1;
      lastVenue := Some(side);
      lastTimestamp := timestamp;
      played := played + 1;
    }
  }

  method ApplyElo(s: Setup, home: TeamState, away: TeamState, r: Match, homeBefore: real, awayBefore: real)
    requires home != away && home.elo == homeBefore && away.elo == awayBefore
    modifies home, away
    ensures home.View() == Rated(old(home.View()), HomeElo(s, r, homeBefore, awayBefore))
    ensures away.View() == Rated(old(away.View()), AwayElo(s, r, homeBefore, awayBefore))
  {
    hide Push;
    var expectedHome := Expected(s, homeBefore, awayBefore);
    var scoreHome := Score(r);
    home.elo := homeBefore + ELO_K * (scoreHome - expectedHome);
    away.elo := awayBefore + ELO_K * ((1.0 - scoreHome) - (1.0 - expectedHome));
    home.eloHistory := Push(home.eloHistory, homeBefore, ELO_CAP);
    away.eloHistory := Push(away.eloHistory, awayBefore, ELO_CAP);
  }

  // ---------------------------------------------------------------- head to head

  datatype H2H = H2H(meetings: nat, firstKeyWins: nat, secondKeyWins: nat, draws: nat,
                     lastTimestamp: Option<int>, lastSeason: Option<string>)

  function PairKey(a: string, b: string): string {
    if Le(a, b) then a + "|" + b else b + "|" + a
  }

  function Met(h: H2H, homeIsFirst: bool, outcome: Outcome, timestamp: Option<int>, season: Option<string>): H2H {
    var firstWon := if homeIsFirst then outcome == HomeWin else outcome == AwayWin;
    h.(meetings := h.meetings + 1,
       draws := h.draws + (if outcome == Draw then 1 else 0),
       firstKeyWins := h.firstKeyWins + (if outcome != Draw && firstWon then 1 else 0),
       secondKeyWins := h.secondKeyWins + (if outcome != Draw && !firstWon then 1 else 0),
       lastTimestamp := timestamp, lastSeason := season)
  }

  const NEVER_MET := H2H(0, 0, 0, 0, None, None)

  class H2HState {
    var meetings: nat
    var firstKeyWins: nat
    var secondKeyWins: nat
    var draws: nat
    var lastTimestamp: Option<int>
    var lastSeason: Option<string>

    constructor ()
      ensures View() == NEVER_MET
    {
      meetings, firstKeyWins, secondKeyWins, draws, lastTimestamp, lastSeason := 0, 0, 0, 0, None, None;
    }

    function View(): H2H
      reads this
    {
      H2H(meetings, firstKeyWins, secondKeyWins, draws, lastTimestamp, lastSeason)
    }

    method Update(homeKey: string, awayKey: string, outcome: Outcome, timestamp: Option<int>, season: Option<string>)
      modifies this
      ensures View() == Met(old(View()), Le(homeKey, awayKey), outcome, timestamp, season)
    {
      meetings := meetings + 1;
      var homeIsFirst := Le(homeKey, awayKey);
      var homeWon, awayWon := outcome == HomeWin, outcome == AwayWin;
      if outcome == Draw {
        draws := draws + 1;
      } else if (homeWon && homeIsFirst) || (awayWon && !homeIsFirst) {
        firstKeyWins := firstKeyWins + 1;
      } else if homeWon || awayWon {
        secondKeyWins := secondKeyWins + 1;
      }
      lastTimestamp := timestamp;
      lastSeason := season;
    }
  }
}
