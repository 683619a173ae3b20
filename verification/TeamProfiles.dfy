/** Team profiles as live, shared objects (backend/src/training.ts, backend/src/incrementalModel.ts). */
module TeamProfiles {
  import opened Records
  import opened Training

  class TeamProfile {
    const key: string
    const name: string
    var matches: int
    var homeMatches: int
    var awayMatches: int
    var wins: int
    var draws: int
    var losses: int
    var homeWins: int
    var homeDraws: int
    var homeLosses: int
    var awayWins: int
    var awayDraws: int
    var awayLosses: int
    var goalsFor: int
    var goalsAgainst: int
    var homeGoalsFor: int
    var homeGoalsAgainst: int
    var awayGoalsFor: int
    var awayGoalsAgainst: int
    var over15: int
    var over25: int
    var over35: int
    var bothTeamsScore: int
    var cornersRows: int
    var cornersOver85: int
    var cornersOver95: int
    var cardsRows: int
    var cardsOver35: int
    var cardsOver45: int
    var cardsOver55: int

    constructor (key: string, name: string)
      ensures View() == Profile(key, name, Zeros())
    {
      this.key, this.name := key, name;
      matches, homeMatches, awayMatches, wins, draws, losses := 0, 0, 0, 0, 0, 0;
      homeWins, homeDraws, homeLosses, awayWins, awayDraws, awayLosses := 0, 0, 0, 0, 0, 0;
      goalsFor, goalsAgainst, homeGoalsFor, homeGoalsAgainst, awayGoalsFor, awayGoalsAgainst := 0, 0, 0, 0, 0, 0;
      over15, over25, over35, bothTeamsScore := 0, 0, 0, 0;
      cornersRows, cornersOver85, cornersOver95 := 0, 0, 0;
      cardsRows, cardsOver35, cardsOver45, cardsOver55 := 0, 0, 0, 0;
    }

    function Get(c: Counter): int
      reads this
    {
      match c
      case Matches => matches
      case HomeMatches => homeMatches
      case AwayMatches => awayMatches
      case Wins => wins
      case Draws => draws
      case Losses => losses
      case HomeWins => homeWins
      case HomeDraws => homeDraws
      case HomeLosses => homeLosses
      case AwayWins => awayWins
      case AwayDraws => awayDraws
      case AwayLosses => awayLosses
      case GoalsFor => goalsFor
      case GoalsAgainst => goalsAgainst
      case HomeGoalsFor => homeGoalsFor
      case HomeGoalsAgainst => homeGoalsAgainst
      case AwayGoalsFor => awayGoalsFor
      case AwayGoalsAgainst => awayGoalsAgainst
      case Over15 => over15
      case Over25 => over25
      case Over35 => over35
      case BothTeamsScore => bothTeamsScore
      case CornersRows => cornersRows
      case CornersOver85 => cornersOver85
      case CornersOver95 => cornersOver95
      case CardsRows => cardsRows
      case CardsOver35 => cardsOver35
      case CardsOver45 => cardsOver45
      case CardsOver55 => cardsOver55
    }

    function View(): Profile
      reads this
    {
      Profile(key, name, map c: Counter | IsCounter(c) :: Get(c))
    }

    method Update(r: Match, side: Side)
      modifies this
      ensures View() == old(View()).(counts := Plus(old(View()).counts, Contribution(r, side)))
    {
      hide Adds, PartOf, Get;
      UpdateResult(r, side);
      UpdateVenue(r, side);
      UpdateTotals(r, side);
      UpdateCorners(r, side);
      UpdateCards(r, side);
      assert forall c: Counter :: Get(c) == old(Get(c)) + Adds(c, r, side);
    }

    method UpdateResult(r: Match, side: Side)
      modifies this
      ensures forall c: Counter :: Get(c) == old(Get(c)) + if PartOf(c) == ResultPart then Adds(c, r, side) else 0
    {
      var scored := if side == Home then r.homeGoals else r.awayGoals;
      var conceded := if side == Home then r.awayGoals else r.homeGoals;
      matches := matches + 1;
      goalsFor := goalsFor + scored;
      goalsAgainst := goalsAgainst + conceded;
      if scored > conceded {
        wins := wins + 1;
      } else if scored == conceded {
        draws := draws + 1;
      } else {
        losses := losses + 1;
      }
    }

    method UpdateVenue(r: Match, side: Side)
      modifies this
      ensures forall c: Counter :: Get(c) == old(Get(c)) + if PartOf(c) == VenuePart then Adds(c, r, side) else 0
    {
      var scored := if side == Home then r.homeGoals else r.awayGoals;
      var conceded := if side == Home then r.awayGoals else r.homeGoals;
      if side == Home {
        homeMatches := homeMatches + 1;
        homeGoalsFor := homeGoalsFor + scored;
        homeGoalsAgainst := homeGoalsAgainst + conceded;
        if scored > conceded {
          homeWins := homeWins + 1;
        } else if scored == conceded {
          homeDraws := homeDraws + 1;
        } else {
          homeLosses := homeLosses + 1;
        }
      } else {
        awayMatches := awayMatches + 1;
        awayGoalsFor := awayGoalsFor + scored;
        awayGoalsAgainst := awayGoalsAgainst + conceded;
        if scored > conceded {
          awayWins := awayWins + 1;
        } else if scored == conceded {
          awayDraws := awayDraws + 1;
        } else {
          awayLosses := awayLosses + 1;
        }
      }
    }

    method UpdateTotals(r: Match, side: Side)
      modifies this
      ensures forall c: Counter :: Get(c) == old(Get(c)) + if PartOf(c) == TotalsPart then Adds(c, r, side) else 0
    {
      if r.totalGoals > 1 { over15 := over15 + 1; }
      if r.totalGoals > 2 { over25 := over25 + 1; }
      if r.totalGoals > 3 { over35 := over35 + 1; }
      if r.homeGoals > 0 && r.awayGoals > 0 { bothTeamsScore := bothTeamsScore + 1; }
    }

    method UpdateCorners(r: Match, side: Side)
      modifies this
      ensures forall c: Counter :: Get(c) == old(Get(c)) + if PartOf(c) == CornersPart then Adds(c, r, side) else 0
    {
      if r.totalCorners.Some? {
        cornersRows := cornersRows + 1;
        if r.totalCorners.value > 8 { cornersOver85 := cornersOver85 + 1; }
        if r.totalCorners.value > 9 { cornersOver95 := cornersOver95 + 1; }
      }
    }

    method UpdateCards(r: Match, side: Side)
      modifies this
      ensures forall c: Counter :: Get(c) == old(Get(c)) + if PartOf(c) == CardsPart then Adds(c, r, side) else 0
    {
      if r.totalCards.Some? {
        cardsRows := cardsRows + 1;
        if r.totalCards.value > 3 { cardsOver35 := cardsOver35 + 1; }
        if r.totalCards.value > 4 { cardsOver45 := cardsOver45 + 1; }
        if r.totalCards.value > 5 { cardsOver55 := cardsOver55 + 1; }
      }
    }
  }

  /** The stretches of `updateProfile`, by the counters they touch. */
  datatype Part = ResultPart | VenuePart | TotalsPart | CornersPart | CardsPart

  function PartOf(c: Counter): Part {
    match c
    case Matches | Wins | Draws | Losses | GoalsFor | GoalsAgainst => ResultPart
    case Over15 | Over25 | Over35 | BothTeamsScore => TotalsPart
    case CornersRows | CornersOver85 | CornersOver95 => CornersPart
    case CardsRows | CardsOver35 | CardsOver45 | CardsOver55 => CardsPart
    case _ => VenuePart
  }

  /** Different keys hold different objects. */
  ghost predicate Separate(profiles: map<string, TeamProfile>) {
    forall j, k | j in profiles && k in profiles && j != k :: profiles[j] != profiles[k]
  }

  function Views(profiles: map<string, TeamProfile>): map<string, Profile>
    reads profiles.Values
  {
    map k | k in profiles :: profiles[k].View()
  }

  /** Find or create the profile of a team, and add one match to it. */
  method Credit(profiles: map<string, TeamProfile>, teamKey: string -> string, name: string, r: Match, side: Side)
    returns (after: map<string, TeamProfile>)
    requires Separate(profiles)
    modifies profiles.Values
    ensures Separate(after)
    ensures Views(after) == Bump(old(Views(profiles)), teamKey(name), name, r, side)
    ensures forall k | k in profiles :: k in after && after[k] == profiles[k]
    ensures forall k | k in after && k !in profiles :: fresh(after[k])
  {
    hide TeamProfile.Get, TeamProfile.View, Adds, Plus, Contribution, At, Zeros;
    var key := teamKey(name);
    if key in profiles {
      after := profiles;
      profiles[key].Update(r, side);
    } else {
      var profile := new TeamProfile(key, name);
      after := profiles[key := profile];
      profile.Update(r, side);
    }
  }

  /** One match for both of its teams, when both are named. */
  method CreditMatch(profiles: map<string, TeamProfile>, teamKey: string -> string, r: Match)
    returns (after: map<string, TeamProfile>)
    requires Separate(profiles)
    modifies profiles.Values
    ensures Separate(after)
    ensures Views(after) == AddMatch(old(Views(profiles)), r, teamKey)
    ensures forall k | k in profiles :: k in after && after[k] == profiles[k]
    ensures forall k | k in after && k !in profiles :: fresh(after[k])
  {
    after := profiles;
    if Truthy(r.homeTeam) && Truthy(r.awayTeam) {
      after := Credit(after, teamKey, r.homeTeam.value, r, Home);
      after := Credit(after, teamKey, r.awayTeam.value, r, Away);
    }
  }

  // ---------------------------------------------------------------- what the counters mean

  predicate Hosts(r: Match, key: string, teamKey: string -> string) {
    NamesTeams(r) && teamKey(r.homeTeam.value) == key
  }

  predicate Visits(r: Match, key: string, teamKey: string -> string) {
    NamesTeams(r) && teamKey(r.awayTeam.value) == key
  }

  /** What all the matches of a team add up to in one counter: both sides when a team meets itself. */
  function Total(c: Counter, records: seq<Match>, key: string, teamKey: string -> string): int {
    if records == [] then 0
    else
      var n := |records| - 1;
      Total(c, records[..n], key, teamKey)
      + (if Hosts(records[n], key, teamKey) then Adds(c, records[n], Home) else 0)
      + (if Visits(records[n], key, teamKey) then Adds(c, records[n], Away) else 0)
  }

  /** A team has a profile exactly when it played. */
  lemma {:induction false} ProfileExists(records: seq<Match>, key: string, teamKey: string -> string)
    ensures key in ProfilesOf(records, teamKey)
       <==> exists i | 0 <= i < |records| :: Hosts(records[i], key, teamKey) || Visits(records[i], key, teamKey)
  {
    if records != [] {
      var n := |records| - 1;
      ProfileExists(records[..n], key, teamKey);
      if i :| 0 <= i < n && (Hosts(records[..n][i], key, teamKey) || Visits(records[..n][i], key, teamKey)) {
        assert Hosts(records[i], key, teamKey) || Visits(records[i], key, teamKey);
      }
      if i :| 0 <= i < n && (Hosts(records[i], key, teamKey) || Visits(records[i], key, teamKey)) {
        assert Hosts(records[..n][i], key, teamKey) || Visits(records[..n][i], key, teamKey);
      }
    }
  }

  /** A counter as a profile reads it; no profile reads zero. */
  function Reads(profiles: map<string, Profile>, key: string, c: Counter): int {
    if key in profiles then At(profiles[key].counts, c) else 0
  }

  /** The counters of a profile are the sums over the matches of its team. */
  lemma {:induction false} ProfileIsTotal(records: seq<Match>, key: string, teamKey: string -> string, c: Counter)
    ensures Total(c, records, key, teamKey) == Reads(ProfilesOf(records, teamKey), key, c)
  {
    hide Adds, Bump, At, Reads;
    if records == [] {
      ReadsNothing(key, c);
    } else {
      var n := |records| - 1;
      ProfileIsTotal(records[..n], key, teamKey, c);
      var before, r := ProfilesOf(records[..n], teamKey), records[n];
      if NamesTeams(r) {
        var home, away := r.homeTeam.value, r.awayTeam.value;
        BumpAt(before, teamKey(home), home, r, Home, key, c);
        BumpAt(Bump(before, teamKey(home), home, r, Home), teamKey(away), away, r, Away, key, c);
      }
    }
  }

  lemma {:induction false} ReadsNothing(key: string, c: Counter)
    ensures Reads(map[], key, c) == 0
  {
  }

  lemma {:induction false} BumpAt(profiles: map<string, Profile>, team: string, name: string, r: Match, side: Side,
                                  key: string, c: Counter)
    ensures Reads(Bump(profiles, team, name, r, side), key, c)
         == Reads(profiles, key, c) + (if key == team then Adds(c, r, side) else 0)
  {
  }

  /** The result and venue counters of a team agree with each other. */
  lemma {:induction false} ResultsBalance(records: seq<Match>, key: string, teamKey: string -> string)
    ensures
      var t := (c: Counter) => Total(c, records, key, teamKey);
      && t(Matches) == t(HomeMatches) + t(AwayMatches) == t(Wins) + t(Draws) + t(Losses)
      && t(Wins) == t(HomeWins) + t(AwayWins) && t(Draws) == t(HomeDraws) + t(AwayDraws)
      && t(Losses) == t(HomeLosses) + t(AwayLosses) && t(HomeMatches) == t(HomeWins) + t(HomeDraws) + t(HomeLosses)
  {
    hide Total;
    MatchesBalance(records, key, teamKey);
    VenuesBalance(records, key, teamKey);
  }

  lemma {:induction false} MatchesBalance(records: seq<Match>, key: string, teamKey: string -> string)
    ensures Total(Matches, records, key, teamKey)
         == Total(HomeMatches, records, key, teamKey) + Total(AwayMatches, records, key, teamKey)
    ensures Total(Matches, records, key, teamKey)
         == Total(Wins, records, key, teamKey) + Total(Draws, records, key, teamKey)
            + Total(Losses, records, key, teamKey)
    ensures Total(HomeMatches, records, key, teamKey)
         == Total(HomeWins, records, key, teamKey) + Total(HomeDraws, records, key, teamKey)
            + Total(HomeLosses, records, key, teamKey)
  {
    hide Adds;
    if records != [] {
      MatchesBalance(records[..|records| - 1], key, teamKey);
      AddedResults(records[|records| - 1], Home);
      AddedResults(records[|records| - 1], Away);
    }
  }

  lemma {:induction false} VenuesBalance(records: seq<Match>, key: string, teamKey: string -> string)
    ensures Total(Wins, records, key, teamKey)
         == Total(HomeWins, records, key, teamKey) + Total(AwayWins, records, key, teamKey)
    ensures Total(Draws, records, key, teamKey)
         == Total(HomeDraws, records, key, teamKey) + Total(AwayDraws, records, key, teamKey)
    ensures Total(Losses, records, key, teamKey)
         == Total(HomeLosses, records, key, teamKey) + Total(AwayLosses, records, key, teamKey)
  {
    hide Adds;
    if records != [] {
      VenuesBalance(records[..|records| - 1], key, teamKey);
      AddedResults(records[|records| - 1], Home);
      AddedResults(records[|records| - 1], Away);
    }
  }

  lemma {:induction false} AddedResults(r: Match, side: Side)
    ensures Adds(Matches, r, side) == Adds(HomeMatches, r, side) + Adds(AwayMatches, r, side)
    ensures Adds(Matches, r, side) == Adds(Wins, r, side) + Adds(Draws, r, side) + Adds(Losses, r, side)
    ensures Adds(Wins, r, side) == Adds(HomeWins, r, side) + Adds(AwayWins, r, side)
    ensures Adds(Draws, r, side) == Adds(HomeDraws, r, side) + Adds(AwayDraws, r, side)
    ensures Adds(Losses, r, side) == Adds(HomeLosses, r, side) + Adds(AwayLosses, r, side)
    ensures Adds(HomeMatches, r, side) == Adds(HomeWins, r, side) + Adds(HomeDraws, r, side) + Adds(HomeLosses, r, side)
  {
  }

  lemma {:induction false} GoalsBalance(records: seq<Match>, key: string, teamKey: string -> string)
    ensures
      var t := (c: Counter) => Total(c, records, key, teamKey);
      && t(GoalsFor) == t(HomeGoalsFor) + t(AwayGoalsFor)
        && t(GoalsAgainst) == t(HomeGoalsAgainst) + t(AwayGoalsAgainst)
  {
    if records != [] { GoalsBalance(records[..|records| - 1], key, teamKey); }
  }

  /** The threshold counters of a team are nested, and never exceed its matches. */
  lemma {:induction false} ThresholdsNest(records: seq<Match>, key: string, teamKey: string -> string)
    ensures
      var t := (c: Counter) => Total(c, records, key, teamKey);
      && 0 <= t(Over35) <= t(Over25) <= t(Over15) <= t(Matches) && 0 <= t(BothTeamsScore) <= t(Matches)
      && 0 <= t(CornersOver95) <= t(CornersOver85) <= t(CornersRows) <= t(Matches)
      && 0 <= t(CardsOver55) <= t(CardsOver45) <= t(CardsOver35) <= t(CardsRows) <= t(Matches)
  {
    hide Adds;
    if records != [] {
      ThresholdsNest(records[..|records| - 1], key, teamKey);
      AddedThresholds(records[|records| - 1], Home);
      AddedThresholds(records[|records| - 1], Away);
    }
  }

  lemma {:induction false} AddedThresholds(r: Match, side: Side)
    ensures 0 <= Adds(Over35, r, side) <= Adds(Over25, r, side) <= Adds(Over15, r, side) <= Adds(Matches, r, side)
    ensures 0 <= Adds(BothTeamsScore, r, side) <= Adds(Matches, r, side)
    ensures 0 <= Adds(CornersOver95, r, side) <= Adds(CornersOver85, r, side) <= Adds(CornersRows, r, side)
    ensures Adds(CornersRows, r, side) <= Adds(Matches, r, side)
    ensures 0 <= Adds(CardsOver55, r, side) <= Adds(CardsOver45, r, side) <= Adds(CardsOver35, r, side)
    ensures Adds(CardsOver35, r, side) <= Adds(CardsRows, r, side) <= Adds(Matches, r, side)
  {
    AddedGoals(r, side);
    AddedCorners(r, side);
    AddedCards(r, side);
    hide Adds;
  }

  lemma {:induction false} AddedGoals(r: Match, side: Side)
    ensures 0 <= Adds(Over35, r, side) <= Adds(Over25, r, side) <= Adds(Over15, r, side) <= Adds(Matches, r, side)
    ensures 0 <= Adds(BothTeamsScore, r, side) <= Adds(Matches, r, side)
  {
  }

  lemma {:induction false} AddedCorners(r: Match, side: Side)
    ensures 0 <= Adds(CornersOver95, r, side) <= Adds(CornersOver85, r, side) <= Adds(CornersRows, r, side)
    ensures Adds(CornersRows, r, side) <= Adds(Matches, r, side)
  {
  }

  lemma {:induction false} AddedCards(r: Match, side: Side)
    ensures 0 <= Adds(CardsOver55, r, side) <= Adds(CardsOver45, r, side) <= Adds(CardsOver35, r, side)
    ensures Adds(CardsOver35, r, side) <= Adds(CardsRows, r, side) <= Adds(Matches, r, side)
  {
  }
}
