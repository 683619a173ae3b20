/**
 * The frequency model: what training computes, and batch training (backend/src/training.ts).
 *
 * `Batch` specifies a trained model by counting over the labelled records.  `TrainModel` is the
 * source's batch training with its groups and tallies; IncrementalModel.dfy refines the same
 * specification one match at a time.
 */
module Training {
  import opened Records
  import opened Markets
  import StringOrder

  datatype SegmentModel = SegmentModel(
    segmentKey: string, available: bool, sampleSize: nat,
    probabilities: map<string, real>, positiveCounts: map<string, nat>, totalCounts: map<string, nat>)

  datatype MarketModel = MarketModel(
    available: bool, usableRows: nat, columnsUsed: seq<string>, global: SegmentModel, segments: map<string,
      SegmentModel>)

  datatype Model = Model(
    minRows: nat, trainingRows: nat, sourceProviders: seq<string>, competitions: seq<string>,
    latestUpdatedAt: Option<string>, earliestDate: Option<string>, latestDate: Option<string>,
    markets: map<Market, MarketModel>, teamProfiles: map<string, Profile>)

  // ---------------------------------------------------------------- labelled records and segments

  datatype Entry = Entry(record: Match, labels: Labels)

  function Labelled(records: seq<Match>, m: Market): seq<Entry> {
    if records == [] then []
    else
      var n := |records| - 1;
      var labels := DeriveLabels(records[n], m);
      Labelled(records[..n], m) + (if labels.Some? then [Entry(records[n], labels.value)] else [])
  }

  /** The context segments of a record; a league equal to its competition appears twice. */
  function ContextKeys(r: Match): (keys: seq<string>) {
    var league := if r.league.Some? then r.league.value else "unknown";
    [league]
    + (if Truthy(r.season) then
         ["season:" + r.season.value, league + "::" + r.season.value]
         + (if Truthy(r.competition) then [r.competition.value + "::" + r.season.value] else [])
       else [])
    + (if Truthy(r.competition) then [r.competition.value, "competition:" + r.competition.value] else [])
  }

  /** How often `key` occurs in `keys`. */
  function Occurrences(keys: seq<string>, key: string): nat {
    if keys == [] then 0 else Occurrences(keys[..|keys| - 1], key) + (if keys[|keys| - 1] == key then 1 else 0)
  }

  /** The segments an entry is counted in: its context, after the global segment when that is kept among them. */
  function SegmentKeys(r: Match, withGlobal: bool): seq<string> {
    (if withGlobal then ["global"] else []) + ContextKeys(r)
  }

  function Sample(entries: seq<Entry>, key: string, withGlobal: bool): nat {
    if entries == [] then 0
    else
      var n := |entries| - 1;
      Sample(entries[..n], key, withGlobal) + Occurrences(SegmentKeys(entries[n].record, withGlobal), key)
  }

  function Positive(entries: seq<Entry>, key: string, selection: string, withGlobal: bool): nat {
    if entries == [] then 0
    else
      var n := |entries| - 1;
      Positive(entries[..n], key, selection, withGlobal)
      + (if Happened(entries[n].labels, selection) then Occurrences(SegmentKeys(entries[n].record, withGlobal), key)
         else 0)
  }

  function SegmentsOf(entries: seq<Entry>, withGlobal: bool): set<string> {
    if entries == [] then {}
    else
      var n := |entries| - 1;
      SegmentsOf(entries[..n], withGlobal) + set key | key in SegmentKeys(entries[n].record, withGlobal)
  }

  function PositiveCount(entries: seq<Entry>, selection: string): nat {
    if entries == [] then 0
    else
      var n := |entries| - 1;
      PositiveCount(entries[..n], selection) + (if Happened(entries[n].labels, selection) then 1 else 0)
  }

  function Columns(entries: seq<Entry>): seq<string> {
    if entries == [] then [] else Columns(entries[..|entries| - 1]) + entries[|entries| - 1].labels.columnsUsed
  }

  /** `Math.round(x * 1000) / 10`, the percentage with one decimal. */
  function Percentage(positive: nat, sample: nat): real {
    if sample == 0 then 0.0
    else ((positive as real / sample as real) * 1000.0 + 0.5).Floor as real / 10.0
  }

  /** A segment model from its counters; `available` once `minRows` labelled rows were seen. */
  function Segment(key: string, sample: nat, positive: map<string, nat>, selections: seq<string>,
        minRows: nat): SegmentModel
    requires forall s | s in selections :: s in positive
  {
    SegmentModel(key, sample >= minRows, sample,
                 map s | s in selections :: Percentage(positive[s], sample),
                 map s | s in selections :: positive[s],
                 map s | s in selections :: sample)
  }

  function Positives(entries: seq<Entry>, key: string, selections: seq<string>, withGlobal: bool): (r: map<string, nat>)
    ensures forall s | s in selections :: s in r
  {
    map s | s in selections :: Positive(entries, key, s, withGlobal)
  }

  function PositiveCounts(entries: seq<Entry>, selections: seq<string>): (r: map<string, nat>)
    ensures forall s | s in selections :: s in r
  {
    map s | s in selections :: PositiveCount(entries, s)
  }

  function BatchGlobal(entries: seq<Entry>, selections: seq<string>, minRows: nat): SegmentModel {
    Segment("global", |entries|, PositiveCounts(entries, selections), selections, minRows)
  }

  function BatchSegments(entries: seq<Entry>, selections: seq<string>, minRows: nat): map<string, SegmentModel> {
    map key | key in SegmentsOf(entries, false) ::
      Segment(key, Sample(entries, key, false), Positives(entries, key, selections, false), selections, minRows)
  }

  function BatchMarket(records: seq<Match>, m: Market, minRows: nat): MarketModel {
    var entries := Labelled(records, m);
    var global := BatchGlobal(entries, Selections(m), minRows);
    MarketModel(global.available, |entries|, Unique(Columns(entries)), global,
                BatchSegments(entries, Selections(m), minRows))
  }

  function BatchMarkets(ids: seq<Market>, records: seq<Match>, minRows: nat): map<Market, MarketModel> {
    map m: Market | m in ids :: BatchMarket(records, m, minRows)
  }

  // ---------------------------------------------------------------- providers, competitions, dates

  /** The truthy values of one field over the records. */
  function Present(records: seq<Match>, field: Match -> Option<string>): seq<string> {
    if records == [] then []
    else
      var n := |records| - 1;
      Present(records[..n], field) + (if Truthy(field(records[n])) then [field(records[n]).value] else [])
  }

  const PROVIDER: Match -> Option<string> := (r: Match) => r.sourceProvider
  const COMPETITION: Match -> Option<string> := (r: Match) => OrElse(r.competition, r.league)
  const DATE: Match -> Option<string> := (r: Match) => r.date
  const UPDATED_AT: Match -> Option<string> := (r: Match) => r.updatedAt

  // ---------------------------------------------------------------- team profiles

  datatype Side = Home | Away

  /** The counters of a team profile. */
  datatype Counter =
    | Matches | HomeMatches | AwayMatches | Wins | Draws | Losses | HomeWins | HomeDraws | HomeLosses |
      AwayWins | AwayDraws | AwayLosses | GoalsFor | GoalsAgainst | HomeGoalsFor | HomeGoalsAgainst |
      AwayGoalsFor | AwayGoalsAgainst | Over15 | Over25 | Over35 | BothTeamsScore | CornersRows |
      CornersOver85 | CornersOver95 | CardsRows | CardsOver35 | CardsOver45 | CardsOver55

  type Counts = map<Counter, int>

  datatype Profile = Profile(key: string, name: string, counts: Counts)

  /** Every counter; the comprehensions below range over it. */
  predicate IsCounter(c: Counter) { true }

  function Zeros(): Counts { map c: Counter | IsCounter(c) :: 0 }

  function At(counts: Counts, c: Counter): int { if c in counts then counts[c] else 0 }

  function Plus(a: Counts, b: Counts): Counts { map c: Counter | IsCounter(c) :: At(a, c) + At(b, c) }

  function Bit(b: bool): int { if b then 1 else 0 }

  function Exceeds(x: Option<int>, bound: int): int { Bit(x.Some? && x.value > bound) }

  /** What one match adds to one counter of the team on one side. */
  function Adds(c: Counter, r: Match, side: Side): int {
    var home := side == Home;
    var gf, ga := if home then r.homeGoals else r.awayGoals, if home then r.awayGoals else r.homeGoals;
    match c
    case Matches => 1
    case HomeMatches => Bit(home)
    case AwayMatches => Bit(!home)
    case Wins => Bit(gf > ga)
    case Draws => Bit(gf == ga)
    case Losses => Bit(gf < ga)
    case HomeWins => Bit(home && gf > ga)
    case HomeDraws => Bit(home && gf == ga)
    case HomeLosses => Bit(home && gf < ga)
    case AwayWins => Bit(!home && gf > ga)
    case AwayDraws => Bit(!home && gf == ga)
    case AwayLosses => Bit(!home && gf < ga)
    case GoalsFor => gf
    case GoalsAgainst => ga
    case HomeGoalsFor => if home then gf else 0
    case HomeGoalsAgainst => if home then ga else 0
    case AwayGoalsFor => if home then 0 else gf
    case AwayGoalsAgainst => if home then 0 else ga
    case Over15 => Bit(r.totalGoals > 1)
    case Over25 => Bit(r.totalGoals > 2)
    case Over35 => Bit(r.totalGoals > 3)
    case BothTeamsScore => Bit(r.homeGoals > 0 && r.awayGoals > 0)
    case CornersRows => Bit(r.totalCorners.Some?)
    case CornersOver85 => Exceeds(r.totalCorners, 8)
    case CornersOver95 => Exceeds(r.totalCorners, 9)
    case CardsRows => Bit(r.totalCards.Some?)
    case CardsOver35 => Exceeds(r.totalCards, 3)
    case CardsOver45 => Exceeds(r.totalCards, 4)
    case CardsOver55 => Exceeds(r.totalCards, 5)
  }

  function Contribution(r: Match, side: Side): Counts { map c: Counter | IsCounter(c) :: Adds(c, r, side) }

  /** The match counts for a team when both team names are present. */
  predicate NamesTeams(r: Match) {
    Truthy(r.homeTeam) && Truthy(r.awayTeam)
  }

  /** The profile of a team after one more match on `side`, creating it under that name. */
  function Bump(profiles: map<string, Profile>, key: string, name: string, r: Match, side: Side): map<string, Profile> {
    var before := if key in profiles then profiles[key] else Profile(key, name, Zeros());
    profiles[key := before.(counts := Plus(before.counts, Contribution(r, side)))]
  }

  function ProfilesOf(records: seq<Match>, teamKey: string -> string): map<string, Profile> {
    if records == [] then map[]
    else
      var n := |records| - 1;
      AddMatch(ProfilesOf(records[..n], teamKey), records[n], teamKey)
  }

  function AddMatch(profiles: map<string, Profile>, r: Match, teamKey: string -> string): map<string, Profile> {
    if !NamesTeams(r) then profiles
    else
      var home, away := r.homeTeam.value, r.awayTeam.value;
      Bump(Bump(profiles, teamKey(home), home, r, Home), teamKey(away), away, r, Away)
  }

  /** The model trained from scratch on `records`. */
  function Batch(records: seq<Match>, minRows: nat, teamKey: string -> string): Model {
    Model(minRows, |records|, Unique(Present(records, PROVIDER)), Unique(Present(records, COMPETITION)),
          StringOrder.Greatest(Present(records, UPDATED_AT)), StringOrder.Least(Present(records, DATE)),
          StringOrder.Greatest(Present(records, DATE)), BatchMarkets(MARKET_IDS, records, minRows),
          ProfilesOf(records, teamKey))
  }
}
