/**
 * The frequency model kept one match at a time (backend/src/incrementalModel.ts).
 *
 * The class keeps the source's counters and live profiles.  `Valid` ties them to the history of
 * updates, `Snapshot` reads them back, and `IncrementalEqualsBatch` says exactly when the result
 * is the model trained from scratch.
 */
module IncrementalModel {
  import opened Records
  import opened Markets
  import opened Training
  import opened TeamProfiles
  import opened BatchTraining
  import StringOrder

  datatype SegmentCounters = SegmentCounters(sampleSize: nat, positiveCounts: map<string, nat>)

  datatype MarketCounters = MarketCounters(usableRows: nat, columnsUsed: seq<string>, segments: map<string,
                                           SegmentCounters>)

  // ---------------------------------------------------------------- one update of one market

  function Ensured(segments: map<string, SegmentCounters>, key: string, selections: seq<string>): (r: SegmentCounters)
    requires Complete(segments, selections)
    ensures r.positiveCounts.Keys == KeySet(selections)
  {
    if key in segments then segments[key] else SegmentCounters(0, map s | s in selections :: 0)
  }

  function KeySet(selections: seq<string>): set<string> {
    set s | s in selections
  }

  /** Every segment counts exactly the selections of its market. */
  ghost predicate Complete(segments: map<string, SegmentCounters>, selections: seq<string>) {
    forall key | key in segments :: segments[key].positiveCounts.Keys == KeySet(selections)
  }

  /** One more labelled row in segment `key`. */
  function Counted(segments: map<string, SegmentCounters>, key: string, selections: seq<string>, labels: Labels)
    : (r: map<string, SegmentCounters>)
    requires Complete(segments, selections)
    ensures Complete(r, selections)
  {
    var before := Ensured(segments, key, selections);
    segments[key := SegmentCounters(before.sampleSize + 1, Tallied(before.positiveCounts, selections, labels))]
  }

  function CountedAll(segments: map<string, SegmentCounters>, keys: seq<string>, selections: seq<string>,
        labels: Labels)
    : (r: map<string, SegmentCounters>)
    requires Complete(segments, selections)
    ensures Complete(r, selections)
  {
    if keys == [] then segments
    else Counted(CountedAll(segments, keys[..|keys| - 1], selections, labels), keys[|keys| - 1], selections, labels)
  }

  function AddEach(columns: seq<string>, used: seq<string>): seq<string> {
    if used == [] then columns else AddOnce(AddEach(columns, used[..|used| - 1]), used[|used| - 1])
  }

  /** One update of one market. */
  function Step(c: MarketCounters, r: Match, m: Market): (after: MarketCounters)
    requires Complete(c.segments, Selections(m))
    ensures Complete(after.segments, Selections(m))
  {
    var labels := DeriveLabels(r, m);
    if labels.None? then c
    else
      MarketCounters(c.usableRows + 1, AddEach(c.columnsUsed, labels.value.columnsUsed),
                     CountedAll(c.segments, SegmentKeys(r, true), Selections(m), labels.value))
  }

  /** The counters of one market after the updates with `records`. */
  function CountersOf(records: seq<Match>, m: Market): (c: MarketCounters)
    ensures Complete(c.segments, Selections(m))
  {
    if records == [] then MarketCounters(0, [], map[])
    else Step(CountersOf(records[..|records| - 1], m), records[|records| - 1], m)
  }

  // ---------------------------------------------------------------- the counters as counts over the labelled records

  function SegmentCountersOf(entries: seq<Entry>, selections: seq<string>): (r: map<string, SegmentCounters>)
    ensures Complete(r, selections)
  {
    map key | key in SegmentsOf(entries, true) ::
      SegmentCounters(Sample(entries, key, true), Positives(entries, key, selections, true))
  }

  lemma {:induction false} AddEachIsUnique(all: seq<string>, used: seq<string>)
    ensures AddEach(Unique(all), used) == Unique(all + used)
  {
    if used == [] {
      assert all + used == all;
    } else {
      var n := |used| - 1;
      AddEachIsUnique(all, used[..n]);
      UniqueSnoc(all + used[..n], used[n]);
      assert all + used == all + used[..n] + [used[n]];
    }
  }

  /** The accumulated counters are the counts over all labelled records. */
  lemma {:induction false} CountersAreCounts(records: seq<Match>, m: Market)
    ensures
      var entries := Labelled(records, m);
      CountersOf(records, m)
        == MarketCounters(|entries|, Unique(Columns(entries)), SegmentCountersOf(entries, Selections(m)))
  {
    hide DeriveLabels, Selections;
    if records == [] {
      assert SegmentCountersOf([], Selections(m)) == map[];
    } else {
      var n := |records| - 1;
      CountersAreCounts(records[..n], m);
      var entries, labels := Labelled(records[..n], m), DeriveLabels(records[n], m);
      if labels.Some? {
        var entry := Entry(records[n], labels.value);
        var all := entries + [entry];
        assert Labelled(records, m) == all && all[..|entries|] == entries;
        assert Columns(all) == Columns(entries) + labels.value.columnsUsed;
        AddEachIsUnique(Columns(entries), labels.value.columnsUsed);
        CountEntry(entries, entry, Selections(m));
      } else {
        assert entries + [] == entries;
      }
    }
  }

  lemma {:induction false} CountedAllSample(segments: map<string, SegmentCounters>, keys: seq<string>,
        selections: seq<string>,
                                            labels: Labels, key: string)
    requires Complete(segments, selections)
    ensures
      var after := CountedAll(segments, keys, selections, labels);
      && (key in after <==> key in segments || key in keys)
      && Ensured(after, key, selections).sampleSize
         == Ensured(segments, key, selections).sampleSize + Occurrences(keys, key)
  {
    if keys != [] {
      CountedAllSample(segments, keys[..|keys| - 1], selections, labels, key);
      assert key in keys <==> key in keys[..|keys| - 1] || key == keys[|keys| - 1];
    }
  }

  lemma {:induction false} CountedAllPositive(segments: map<string, SegmentCounters>, keys: seq<string>,
        selections: seq<string>,
                                              labels: Labels, key: string, s: string)
    requires Complete(segments, selections) && s in selections
    ensures Ensured(CountedAll(segments, keys, selections, labels), key, selections).positiveCounts[s]
         == Ensured(segments, key, selections).positiveCounts[s]
            + (if Happened(labels, s) then Occurrences(keys, key) else 0)
  {
    if keys != [] { CountedAllPositive(segments, keys[..|keys| - 1], selections, labels, key, s); }
  }

  /** Counting a new entry in all its segments turns the counters of a list into those of the longer list. */
  lemma {:induction false} CountEntry(entries: seq<Entry>, entry: Entry, selections: seq<string>)
    ensures CountedAll(SegmentCountersOf(entries, selections), SegmentKeys(entry.record, true), selections,
          entry.labels)
         == SegmentCountersOf(entries + [entry], selections)
  {
    var segments, keys := SegmentCountersOf(entries, selections), SegmentKeys(entry.record, true);
    var after, all := CountedAll(segments, keys, selections, entry.labels), entries + [entry];
    assert all[..|entries|] == entries;
    forall key ensures key in after <==> key in SegmentsOf(all, true) {
      CountedAllSample(segments, keys, selections, entry.labels, key);
    }
    forall key | key in after ensures after[key] == SegmentCountersOf(all, selections)[key] {
      CountEntryAt(entries, entry, selections, key);
      assert after[key] == Ensured(after, key, selections);
    }
  }

  /** A segment that was never counted reads as zero, which is its count. */
  lemma {:induction false} EnsuredIsCount(entries: seq<Entry>, key: string, selections: seq<string>)
    ensures Ensured(SegmentCountersOf(entries, selections), key, selections)
         == SegmentCounters(Sample(entries, key, true), Positives(entries, key, selections, true))
  {
    if key !in SegmentsOf(entries, true) {
      SampleOfAbsent(entries, key, "", true);
      forall s | s in selections ensures Positive(entries, key, s, true) == 0 { SampleOfAbsent(entries, key, s, true); }
    }
  }

  lemma {:induction false} CountEntryAt(entries: seq<Entry>, entry: Entry, selections: seq<string>, key: string)
    ensures Ensured(CountedAll(SegmentCountersOf(entries, selections), SegmentKeys(entry.record, true), selections,
          entry.labels),
                    key, selections)
         == SegmentCounters(Sample(entries + [entry], key, true), Positives(entries + [entry], key, selections, true))
  {
    hide CountedAll, SegmentKeys, SegmentCountersOf;
    var segments, keys, all :=
      SegmentCountersOf(entries, selections), SegmentKeys(entry.record, true), entries + [entry];
    assert all[..|entries|] == entries;
    EnsuredIsCount(entries, key, selections);
    CountedAllSample(segments, keys, selections, entry.labels, key);
    var after := Ensured(CountedAll(segments, keys, selections, entry.labels), key, selections);
    forall s | s in selections ensures after.positiveCounts[s] == Positives(all, key, selections, true)[s] {
      CountedAllPositive(segments, keys, selections, entry.labels, key, s);
    }
    assert after.positiveCounts.Keys == Positives(all, key, selections, true).Keys;
  }

  // ---------------------------------------------------------------- reading the counters back

  function ReadGlobal(segments: map<string, SegmentCounters>, selections: seq<string>, minRows: nat): SegmentModel
    requires Complete(segments, selections)
  {
    var all := Ensured(segments, "global", selections);
    Segment("global", all.sampleSize, all.positiveCounts, selections, minRows)
  }

  function ReadContexts(segments: map<string, SegmentCounters>, selections: seq<string>, minRows: nat): map<string,
        SegmentModel>
    requires Complete(segments, selections)
  {
    map key | key in segments && key != "global" ::
      Segment(key, segments[key].sampleSize, segments[key].positiveCounts, selections, minRows)
  }

  /** `marketModel`: the global segment apart, every other segment under its key. */
  function Read(counters: MarketCounters, m: Market, minRows: nat): MarketModel
    requires Complete(counters.segments, Selections(m))
  {
    var global := ReadGlobal(counters.segments, Selections(m), minRows);
    MarketModel(global.available, counters.usableRows, counters.columnsUsed, global,
                ReadContexts(counters.segments, Selections(m), minRows))
  }

  function ReadAll(ids: seq<Market>, markets: map<Market, MarketCounters>, minRows: nat): map<Market, MarketModel>
    requires forall k | 0 <= k < |ids| :: ids[k] in markets && Complete(markets[ids[k]].segments, Selections(ids[k]))
  {
    map m: Market | m in ids :: Read(markets[m], m, minRows)
  }

  function CurrentMarkets(ids: seq<Market>, records: seq<Match>, minRows: nat): map<Market, MarketModel> {
    map m: Market | m in ids :: Read(CountersOf(records, m), m, minRows)
  }

  lemma {:induction false} ReadAllHolds(ids: seq<Market>, markets: map<Market, MarketCounters>, minRows: nat,
                                        records: seq<Match>)
    requires AllCountersHold(markets, ids, records)
    ensures forall k | 0 <= k < |ids| :: ids[k] in markets && Complete(markets[ids[k]].segments, Selections(ids[k]))
    ensures ReadAll(ids, markets, minRows) == CurrentMarkets(ids, records, minRows)
  {
    forall k | 0 <= k < |ids|
      ensures ids[k] in markets && Complete(markets[ids[k]].segments, Selections(ids[k]))
      ensures Read(markets[ids[k]], ids[k], minRows) == Read(CountersOf(records, ids[k]), ids[k], minRows)
    {
      assert CountersHold(markets, ids[k], records);
    }
  }

  /** The model-wide facts: row count, providers, competitions and dates. */
  datatype Header = Header(
    trainingRows: nat, sourceProviders: seq<string>, competitions: seq<string>,
    latestUpdatedAt: Option<string>, earliestDate: Option<string>, latestDate: Option<string>)

  function Noted(seen: seq<string>, value: Option<string>): seq<string> {
    if Truthy(value) then AddOnce(seen, value.value) else seen
  }

  function Earlier(best: Option<string>, value: Option<string>): Option<string> {
    if Truthy(value) then StringOrder.Lower(best, value.value) else best
  }

  function Later(best: Option<string>, value: Option<string>): Option<string> {
    if Truthy(value) then StringOrder.Higher(best, value.value) else best
  }

  function HeaderAfter(h: Header, r: Match): Header {
    Header(h.trainingRows + 1, Noted(h.sourceProviders, r.sourceProvider),
           Noted(h.competitions, OrElse(r.competition, r.league)), Later(h.latestUpdatedAt, r.updatedAt),
           Earlier(h.earliestDate, r.date), Later(h.latestDate, r.date))
  }

  lemma {:induction false} PresentStep(records: seq<Match>, r: Match, field: Match -> Option<string>)
    ensures Unique(Present(records + [r], field)) == Noted(Unique(Present(records, field)), field(r))
    ensures StringOrder.Least(Present(records + [r], field))
         == Earlier(StringOrder.Least(Present(records, field)), field(r))
    ensures StringOrder.Greatest(Present(records + [r], field))
         == Later(StringOrder.Greatest(Present(records, field)), field(r))
  {
    var before := Present(records, field);
    assert (records + [r])[..|records|] == records;
    if Truthy(field(r)) {
      assert Present(records + [r], field) == before + [field(r).value];
      UniqueSnoc(before, field(r).value);
      StringOrder.RunningExtremes(before, field(r).value);
    } else {
      assert Present(records + [r], field) == before + [] == before;
    }
  }

  /** The header after the updates with `records`. */
  function HeaderOf(records: seq<Match>): Header {
    if records == [] then Header(0, [], [], None, None, None)
    else HeaderAfter(HeaderOf(records[..|records| - 1]), records[|records| - 1])
  }

  lemma {:induction false} HeaderStep(records: seq<Match>, r: Match)
    ensures HeaderOf(records + [r]) == HeaderAfter(HeaderOf(records), r)
  {
    assert (records + [r])[..|records|] == records;
  }

  /** Running values kept match by match are those of the whole list. */
  lemma {:induction false} HeaderOfAll(records: seq<Match>)
    ensures HeaderOf(records)
         == Header(|records|, Unique(Present(records, PROVIDER)), Unique(Present(records, COMPETITION)),
                   StringOrder.Greatest(Present(records, UPDATED_AT)),
                   StringOrder.Least(Present(records, DATE)), StringOrder.Greatest(Present(records, DATE)))
  {
    if records != [] {
      var before, r := records[..|records| - 1], records[|records| - 1];
      assert records == before + [r];
      HeaderOfAll(before);
      PresentStep(before, r, PROVIDER);
      PresentStep(before, r, COMPETITION);
      PresentStep(before, r, DATE);
      PresentStep(before, r, UPDATED_AT);
    }
  }

  ghost predicate CountersHold(markets: map<Market, MarketCounters>, m: Market, records: seq<Match>) {
    m in markets && markets[m] == CountersOf(records, m)
  }

  ghost predicate AllCountersHold(markets: map<Market, MarketCounters>, ids: seq<Market>, records: seq<Match>) {
    forall k | 0 <= k < |ids| :: CountersHold(markets, ids[k], records)
  }

  /** What `snapshot` reads after the updates with `records`. */
  function SnapshotOf(records: seq<Match>, minRows: nat, teamKey: string -> string): Model {
    var h := HeaderOf(records);
    Model(minRows, h.trainingRows, h.sourceProviders, h.competitions, h.latestUpdatedAt, h.earliestDate, h.latestDate,
          CurrentMarkets(MARKET_IDS, records, minRows), ProfilesOf(records, teamKey))
  }

  // ---------------------------------------------------------------- the class

  class IncrementalFrequencyModel {
    const minRows: nat
    const teamKey: string -> string
    const ids: seq<Market>
    var markets: map<Market, MarketCounters>
    var profiles: map<string, TeamProfile>
    var sourceProviders: seq<string>
    var competitions: seq<string>
    var trainingRows: nat
    var earliestDate: Option<string>
    var latestDate: Option<string>
    var latestUpdatedAt: Option<string>
    ghost var history: seq<Match>

    function CurrentHeader(): Header
      reads this
    {
      Header(trainingRows, sourceProviders, competitions, latestUpdatedAt, earliestDate, latestDate)
    }

    ghost predicate Valid()
      reads this, profiles.Values
    {
      && CurrentHeader() == HeaderOf(history)
      && NoDuplicates(ids) && AllCountersHold(markets, ids, history)
      && Separate(profiles) && Views(profiles) == ProfilesOf(history, teamKey)
    }

    constructor (minRows: nat, teamKey: string -> string)
      ensures Valid() && history == [] && this.minRows == minRows && this.teamKey == teamKey
      ensures profiles == map[] && ids == MARKET_IDS
    {
      this.minRows, this.teamKey, ids := minRows, teamKey, MARKET_IDS;
      IdsDistinct();
      markets := map m: Market | m in MARKET_IDS :: MarketCounters(0, [], map[]);
      profiles := map[];
      sourceProviders, competitions, trainingRows := [], [], 0;
      earliestDate, latestDate, latestUpdatedAt := None, None, None;
      history := [];
    }

    /** Adds one match: the state then describes the history with that match at the end. */
    method Update(r: Match)
      requires Valid()
      modifies this, profiles.Values
      ensures Valid() && history == old(history) + [r]
      ensures forall k | k in old(profiles) :: k in profiles && profiles[k] == old(profiles)[k]
      ensures forall k | k in profiles && k !in old(profiles) :: fresh(profiles[k])
    {
      hide CountersOf, HeaderOf, ProfilesOf;
      UpdateHeader(r);
      UpdateProfiles(r);
      markets := CountMarkets(ids, markets, r, history);
      HeaderStep(history, r);
      history := history + [r];
    }

    method UpdateProfiles(r: Match)
      requires Separate(profiles) && Views(profiles) == ProfilesOf(history, teamKey)
      modifies `profiles, profiles.Values
      ensures Separate(profiles) && Views(profiles) == ProfilesOf(history + [r], teamKey)
      ensures forall k | k in old(profiles) :: k in profiles && profiles[k] == old(profiles)[k]
      ensures forall k | k in profiles && k !in old(profiles) :: fresh(profiles[k])
    {
      assert (history + [r])[..|history|] == history;
      profiles := CreditMatch(profiles, teamKey, r);
    }

    method UpdateHeader(r: Match)
      modifies `trainingRows, `sourceProviders, `competitions, `earliestDate, `latestDate, `latestUpdatedAt
      ensures CurrentHeader() == HeaderAfter(old(CurrentHeader()), r)
    {
      trainingRows := trainingRows + 1;
      if Truthy(r.sourceProvider) { sourceProviders := AddOnce(sourceProviders, r.sourceProvider.value); }
      var competition := OrElse(r.competition, r.league);
      if Truthy(competition) { competitions := AddOnce(competitions, competition.value); }
      if Truthy(r.date) {
        if earliestDate.None? || !StringOrder.Le(earliestDate.value, r.date.value) { earliestDate := r.date; }
        if latestDate.None? || !StringOrder.Le(r.date.value, latestDate.value) { latestDate := r.date; }
      }
      if Truthy(r.updatedAt) && (latestUpdatedAt.None? || !StringOrder.Le(r.updatedAt.value, latestUpdatedAt.value)) {
        latestUpdatedAt := r.updatedAt;
      }
    }

    /** Reads the state; the profiles handed out are the live ones. */
    method Snapshot() returns (model: LiveModel)
      requires Valid() && ids == MARKET_IDS
      ensures model.teamProfiles == profiles
      ensures Freeze(model) == SnapshotOf(history, minRows, teamKey)
    {
      ReadAllHolds(ids, markets, minRows, history);
      model := LiveModel(
        Model(minRows, trainingRows, sourceProviders, competitions, latestUpdatedAt, earliestDate, latestDate,
              ReadAll(ids, markets, minRows), map[]),
        profiles);
    }
  }

  ghost predicate NoDuplicates(ids: seq<Market>) {
    forall i, j | 0 <= i < j < |ids| :: ids[i] != ids[j]
  }

  lemma {:induction false} IdsDistinct()
    ensures NoDuplicates(MARKET_IDS)
  {
  }

  method CountMarkets(ids: seq<Market>, markets: map<Market, MarketCounters>, r: Match, ghost history: seq<Match>)
    returns (after: map<Market, MarketCounters>)
    requires NoDuplicates(ids) && AllCountersHold(markets, ids, history)
    ensures AllCountersHold(after, ids, history + [r])
  {
    hide CountersOf;
    after := markets;
    for k := 0 to |ids|
      invariant forall j | 0 <= j < k :: CountersHold(after, ids[j], history + [r])
      invariant forall j | k <= j < |ids| :: CountersHold(after, ids[j], history)
    {
      after := UpdateMarket(after, ids[k], r, history);
    }
  }

  method UpdateMarket(markets: map<Market, MarketCounters>, m: Market, r: Match, ghost history: seq<Match>)
    returns (after: map<Market, MarketCounters>)
    requires CountersHold(markets, m, history)
    ensures CountersHold(after, m, history + [r])
    ensures forall m' | m' != m :: (m' in after <==> m' in markets) && (m' in markets ==> after[m'] == markets[m'])
  {
    hide CountersOf, Step, Selections;
    var counters := CountMarket(markets[m], m, r);
    CountersStep(markets[m], m, r, history);
    after := markets[m := counters];
  }

  lemma {:induction false} CountersStep(counters: MarketCounters, m: Market, r: Match, history: seq<Match>)
    requires counters == CountersOf(history, m)
    ensures Step(counters, r, m) == CountersOf(history + [r], m)
  {
    hide Step;
    assert (history + [r])[..|history|] == history;
  }

  /** `segmentKeysFor`: the global segment first, then the context of the record. */
  method SegmentKeysFor(r: Match) returns (keys: seq<string>)
    ensures keys == SegmentKeys(r, true)
  {
    var league := if r.league.Some? then r.league.value else "unknown";
    keys := ["global", league];
    if Truthy(r.season) {
      keys := keys + ["season:" + r.season.value, league + "::" + r.season.value];
      if Truthy(r.competition) { keys := keys + [r.competition.value + "::" + r.season.value]; }
    }
    if Truthy(r.competition) { keys := keys + [r.competition.value, "competition:" + r.competition.value]; }
  }

  method AddColumns(columns: seq<string>, used: seq<string>) returns (after: seq<string>)
    ensures after == AddEach(columns, used)
  {
    after := columns;
    for k := 0 to |used|
      invariant after == AddEach(columns, used[..k])
    {
      assert used[..k + 1][..k] == used[..k];
      after := AddOnce(after, used[k]);
    }
    assert used[..|used|] == used;
  }

  /** One market of one update: rows, columns and segment counters. */
  method CountMarket(counters: MarketCounters, m: Market, r: Match) returns (after: MarketCounters)
    requires Complete(counters.segments, Selections(m))
    ensures after == Step(counters, r, m)
  {
    var labels := DeriveLabels(r, m);
    if labels.None? { return counters; }
    SelectionsDistinct(m);
    var columns := AddColumns(counters.columnsUsed, labels.value.columnsUsed);
    var segments := CountSegments(counters.segments, r, Selections(m), labels.value);
    after := MarketCounters(counters.usableRows + 1, columns, segments);
  }

  method CountSegments(segments: map<string, SegmentCounters>, r: Match, selections: seq<string>, labels: Labels)
    returns (after: map<string, SegmentCounters>)
    requires Complete(segments, selections) && NoRepeats(selections)
    ensures after == CountedAll(segments, SegmentKeys(r, true), selections, labels)
  {
    var keys := SegmentKeysFor(r);
    after := segments;
    for k := 0 to |keys|
      invariant after == CountedAll(segments, keys[..k], selections, labels)
    {
      assert keys[..k + 1][..k] == keys[..k];
      after := CountSegment(after, keys[k], selections, labels);
    }
    assert keys[..|keys|] == keys;
  }

  method CountSegment(segments: map<string, SegmentCounters>, key: string, selections: seq<string>, labels: Labels)
    returns (after: map<string, SegmentCounters>)
    requires Complete(segments, selections) && NoRepeats(selections)
    ensures after == Counted(segments, key, selections, labels)
  {
    var segment := Ensured(segments, key, selections);
    var counts := Tally(segment.positiveCounts, selections, labels);
    after := segments[key := SegmentCounters(segment.sampleSize + 1, counts)];
  }

  // ---------------------------------------------------------------- incremental equals batch

  /** The record belongs to a league or competition named like the global segment. */
  predicate NamesGlobal(r: Match) {
    r.league == Some("global") || r.competition == Some("global")
  }

  lemma {:induction false} GlobalAmongContexts(r: Match)
    ensures "global" in ContextKeys(r) <==> NamesGlobal(r)
  {
    var league := if r.league.Some? then r.league.value else "unknown";
    assert "unknown"[0] != "global"[0];
    if Truthy(r.season) {
      assert ("season:" + r.season.value)[0] == 's' != "global"[0];
      ColonKeepsApart(league, r.season.value);
      if Truthy(r.competition) { ColonKeepsApart(r.competition.value, r.season.value); }
    }
    if Truthy(r.competition) {
      assert ("competition:" + r.competition.value)[0] == 'c' != "global"[0];
    }
  }

  lemma {:induction false} ColonKeepsApart(a: string, b: string)
    ensures a + "::" + b != "global"
  {
    assert (a + "::" + b)[|a|] == ':';
    assert ':' !in "global";
    assert ':' in a + "::" + b;
  }

  /** Away from the global key, counting with or without the global segment is the same. */
  lemma {:induction false} SameAwayFromGlobal(entries: seq<Entry>, key: string, s: string)
    requires key != "global"
    ensures Sample(entries, key, true) == Sample(entries, key, false)
    ensures Positive(entries, key, s, true) == Positive(entries, key, s, false)
    ensures key in SegmentsOf(entries, true) <==> key in SegmentsOf(entries, false)
  {
    if entries != [] {
      var n := |entries| - 1;
      SameAwayFromGlobal(entries[..n], key, s);
      OccurrencesConcat(["global"], ContextKeys(entries[n].record), key);
      OccurrencesConcat([], ContextKeys(entries[n].record), key);
    }
  }

  lemma {:induction false} OccurrencesConcat(a: seq<string>, b: seq<string>, key: string)
    ensures Occurrences(a + b, key) == Occurrences(a, key) + Occurrences(b, key)
    ensures Occurrences(["global"], key) == if key == "global" then 1 else 0
  {
    assert ["global"][..0] == [];
    if b == [] {
      assert a + b == a;
    } else {
      OccurrencesConcat(a, b[..|b| - 1], key);
      assert (a + b)[..|a + b| - 1] == a + b[..|b| - 1];
    }
  }

  predicate SomeGlobal(entries: seq<Entry>) {
    entries != [] && (SomeGlobal(entries[..|entries| - 1]) || NamesGlobal(entries[|entries| - 1].record))
  }

  lemma {:induction false} SomeGlobalIff(entries: seq<Entry>)
    ensures SomeGlobal(entries) <==> exists k | 0 <= k < |entries| :: NamesGlobal(entries[k].record)
  {
    if entries != [] {
      var n := |entries| - 1;
      SomeGlobalIff(entries[..n]);
      if k :| 0 <= k < n && NamesGlobal(entries[..n][k].record) { assert NamesGlobal(entries[k].record); }
      if k :| 0 <= k < n && NamesGlobal(entries[k].record) { assert NamesGlobal(entries[..n][k].record); }
    }
  }

  /** How many contexts of the record are called 'global': league, competition or both. */
  function GlobalNames(r: Match): nat {
    (if r.league == Some("global") then 1 else 0) + (if r.competition == Some("global") then 1 else 0)
  }

  function GlobalExtra(entries: seq<Entry>): nat {
    if entries == [] then 0
    else GlobalExtra(entries[..|entries| - 1]) + GlobalNames(entries[|entries| - 1].record)
  }

  lemma {:induction false} OneOccurrence(x: string, key: string)
    ensures Occurrences([x], key) == if x == key then 1 else 0
  {
    assert [x][..0] == [];
  }

  /** The contexts of a season never are. */
  lemma {:induction false} SeasonOccurrences(league: string, r: Match)
    requires Truthy(r.season)
    ensures Occurrences(["season:" + r.season.value, league + "::" + r.season.value]
              + (if Truthy(r.competition) then [r.competition.value + "::" + r.season.value] else []), "global") == 0
  {
    var first, second := "season:" + r.season.value, league + "::" + r.season.value;
    assert first[0] == 's' != "global"[0];
    ColonKeepsApart(league, r.season.value);
    OneOccurrence(first, "global");
    OneOccurrence(second, "global");
    OccurrencesConcat([first], [second], "global");
    assert [first] + [second] == [first, second];
    if Truthy(r.competition) {
      var third := r.competition.value + "::" + r.season.value;
      ColonKeepsApart(r.competition.value, r.season.value);
      OneOccurrence(third, "global");
      OccurrencesConcat([first, second], [third], "global");
    } else {
      OccurrencesConcat([first, second], [], "global");
    }
  }

  lemma {:induction false} CompetitionOccurrences(competition: string)
    ensures Occurrences([competition, "competition:" + competition], "global")
            == if competition == "global" then 1 else 0
  {
    var second := "competition:" + competition;
    assert second[0] == 'c' != "global"[0];
    OneOccurrence(competition, "global");
    OneOccurrence(second, "global");
    OccurrencesConcat([competition], [second], "global");
    assert [competition] + [second] == [competition, second];
  }

  lemma {:induction false} ContextOccurrences(r: Match)
    ensures Occurrences(ContextKeys(r), "global") == GlobalNames(r)
  {
    var league := if r.league.Some? then r.league.value else "unknown";
    var season := if Truthy(r.season) then
                    ["season:" + r.season.value, league + "::" + r.season.value]
                    + (if Truthy(r.competition) then [r.competition.value + "::" + r.season.value] else [])
                  else [];
    var competition :=
      if Truthy(r.competition) then [r.competition.value, "competition:" + r.competition.value] else [];
    assert "unknown"[0] != "global"[0];
    if Truthy(r.season) { SeasonOccurrences(league, r); }
    if Truthy(r.competition) { CompetitionOccurrences(r.competition.value); }
    OneOccurrence(league, "global");
    assert ContextKeys(r) == [league] + season + competition;
    hide Occurrences, ContextKeys;
    OccurrencesConcat([league], season, "global");
    OccurrencesConcat([league] + season, competition, "global");
    NoOccurrences("global");
  }

  lemma {:induction false} NoOccurrences(key: string)
    ensures Occurrences([], key) == 0
  {
  }

  /** How often the last entry counts in the global segment. */
  lemma {:induction false} GlobalOccurrences(r: Match)
    ensures Occurrences(SegmentKeys(r, true), "global") == 1 + GlobalNames(r)
    ensures GlobalNames(r) == 0 <==> !NamesGlobal(r)
    ensures "global" in SegmentKeys(r, false) <==> NamesGlobal(r)
  {
    hide ContextKeys;
    OccurrencesConcat(["global"], ContextKeys(r), "global");
    ContextOccurrences(r);
    GlobalAmongContexts(r);
    assert SegmentKeys(r, false) == ContextKeys(r);
  }

  /** The global segment counts every labelled row once, plus once more for each context called 'global'. */
  lemma {:induction false} GlobalSample(entries: seq<Entry>)
    ensures Sample(entries, "global", true) == |entries| + GlobalExtra(entries)
    ensures GlobalExtra(entries) == 0 <==> !SomeGlobal(entries)
    ensures "global" in SegmentsOf(entries, false) <==> SomeGlobal(entries)
  {
    hide Occurrences, SegmentKeys;
    if entries != [] {
      GlobalSample(entries[..|entries| - 1]);
      GlobalOccurrences(entries[|entries| - 1].record);
    }
  }

  lemma {:induction false} GlobalPositive(entries: seq<Entry>, s: string)
    requires !SomeGlobal(entries)
    ensures Positive(entries, "global", s, true) == PositiveCount(entries, s)
  {
    if entries != [] {
      GlobalPositive(entries[..|entries| - 1], s);
      GlobalOccurrences(entries[|entries| - 1].record);
    }
  }

  lemma {:induction false} LabelledMembers(records: seq<Match>, m: Market, k: nat)
    requires k < |Labelled(records, m)|
    ensures Labelled(records, m)[k].record in records
  {
    var n := |records| - 1;
    if k < |Labelled(records[..n], m)| { LabelledMembers(records[..n], m, k); }
  }

  lemma {:induction false} GlobalAgrees(entries: seq<Entry>, selections: seq<string>, minRows: nat)
    requires !SomeGlobal(entries)
    ensures ReadGlobal(SegmentCountersOf(entries, selections), selections, minRows)
            == BatchGlobal(entries, selections, minRows)
  {
    EnsuredIsCount(entries, "global", selections);
    GlobalSample(entries);
    forall s | s in selections ensures Positive(entries, "global", s, true) == PositiveCount(entries, s) {
      GlobalPositive(entries, s);
    }
    assert Positives(entries, "global", selections, true) == PositiveCounts(entries, selections);
  }

  lemma {:induction false} ContextsAgree(entries: seq<Entry>, selections: seq<string>, minRows: nat)
    requires !SomeGlobal(entries)
    ensures ReadContexts(SegmentCountersOf(entries, selections), selections, minRows)
            == BatchSegments(entries, selections, minRows)
  {
    GlobalSample(entries);
    var read, batch :=
      ReadContexts(SegmentCountersOf(entries, selections), selections, minRows),
        BatchSegments(entries, selections, minRows);
    forall key ensures key in read <==> key in batch {
      if key != "global" { SameAwayFromGlobal(entries, key, ""); }
    }
    forall key | key in read ensures read[key] == batch[key] { ContextAgrees(entries, key, selections); }
  }

  lemma {:induction false} ContextAgrees(entries: seq<Entry>, key: string, selections: seq<string>)
    requires key != "global"
    ensures Sample(entries, key, true) == Sample(entries, key, false)
    ensures Positives(entries, key, selections, true) == Positives(entries, key, selections, false)
  {
    SameAwayFromGlobal(entries, key, "");
    forall s | s in selections ensures Positive(entries, key, s, true) == Positive(entries, key, s, false) {
      SameAwayFromGlobal(entries, key, s);
    }
  }

  /** One market: equal when no league or competition is called 'global'. */
  lemma {:induction false} MarketsAgree(records: seq<Match>, m: Market, minRows: nat)
    requires forall k | 0 <= k < |records| :: !NamesGlobal(records[k])
    ensures Read(CountersOf(records, m), m, minRows) == BatchMarket(records, m, minRows)
  {
    var entries := Labelled(records, m);
    CountersAreCounts(records, m);
    forall k | 0 <= k < |entries| ensures !NamesGlobal(entries[k].record) { LabelledMembers(records, m, k); }
    SomeGlobalIff(entries);
    GlobalAgrees(entries, Selections(m), minRows);
    ContextsAgree(entries, Selections(m), minRows);
  }

  lemma {:induction false} AllMarketsAgree(ids: seq<Market>, records: seq<Match>, minRows: nat)
    requires forall k | 0 <= k < |records| :: !NamesGlobal(records[k])
    ensures CurrentMarkets(ids, records, minRows) == BatchMarkets(ids, records, minRows)
  {
    forall m | m in ids ensures Read(CountersOf(records, m), m, minRows) == BatchMarket(records, m, minRows) {
      MarketsAgree(records, m, minRows);
    }
  }

  lemma {:induction false} OneMarketDiffers(ids: seq<Market>, records: seq<Match>, minRows: nat, m: Market)
    requires m in ids && Read(CountersOf(records, m), m, minRows) != BatchMarket(records, m, minRows)
    ensures CurrentMarkets(ids, records, minRows) != BatchMarkets(ids, records, minRows)
  {
    assert CurrentMarkets(ids, records, minRows)[m] != BatchMarkets(ids, records, minRows)[m];
  }

  lemma {:induction false} EveryResultIsLabelled(records: seq<Match>, k: nat)
    requires k < |records|
    ensures exists j | 0 <= j < |Labelled(records, ResultMarket)| ::
            Labelled(records, ResultMarket)[j].record == records[k]
  {
    var n := |records| - 1;
    var entries := Labelled(records, ResultMarket);
    if k == n {
      assert entries[|entries| - 1].record == records[k];
    } else {
      EveryResultIsLabelled(records[..n], k);
      var j :| 0 <= j < |Labelled(records[..n], ResultMarket)|
        && Labelled(records[..n], ResultMarket)[j].record == records[..n][k];
      assert entries[j].record == records[k];
    }
  }

  /** In every market a row counts once more in the global segment for each of its contexts called 'global'. */
  lemma {:induction false} GlobalCountsTwice(records: seq<Match>, m: Market, minRows: nat)
    ensures Read(CountersOf(records, m), m, minRows).global.sampleSize
         == BatchMarket(records, m, minRows).global.sampleSize + GlobalExtra(Labelled(records, m))
  {
    hide Labelled, GlobalExtra, Sample;
    var entries := Labelled(records, m);
    CountersAreCounts(records, m);
    GlobalSample(entries);
    EnsuredIsCount(entries, "global", Selections(m));
  }

  /** So one market differs as soon as some league or competition is called 'global'. */
  lemma {:induction false} GlobalDiffers(records: seq<Match>, minRows: nat, k: nat)
    requires k < |records| && NamesGlobal(records[k])
    ensures Read(CountersOf(records, ResultMarket), ResultMarket, minRows).global.sampleSize
            > BatchMarket(records, ResultMarket, minRows).global.sampleSize
  {
    hide Read, CountersOf, BatchMarket;
    var entries := Labelled(records, ResultMarket);
    EveryResultIsLabelled(records, k);
    var j :| 0 <= j < |entries| && entries[j].record == records[k];
    SomeGlobalIff(entries);
    GlobalSample(entries);
    GlobalCountsTwice(records, ResultMarket, minRows);
  }

  /**
   * Accumulating one match at a time produces exactly the model trained from scratch if, and only
   * if, no league or competition is called 'global'.
   */
  lemma {:induction false} IncrementalEqualsBatch(records: seq<Match>, minRows: nat, teamKey: string -> string)
    ensures SnapshotOf(records, minRows, teamKey) == Batch(records, minRows, teamKey)
       <==> forall k | 0 <= k < |records| :: !NamesGlobal(records[k])
  {
    HeaderOfAll(records);
    if forall k | 0 <= k < |records| :: !NamesGlobal(records[k]) {
      AllMarketsAgree(MARKET_IDS, records, minRows);
    } else {
      var k :| 0 <= k < |records| && NamesGlobal(records[k]);
      GlobalDiffers(records, minRows, k);
      assert MARKET_IDS[0] == ResultMarket;
      OneMarketDiffers(MARKET_IDS, records, minRows, ResultMarket);
    }
  }

  // ---------------------------------------------------------------- snapshots are live

  /** The profiles of the teams known before, as they read after one more match. */
  function SeenThrough(records: seq<Match>, r: Match, teamKey: string -> string): map<string, Profile> {
    map k | k in ProfilesOf(records, teamKey) && k in ProfilesOf(records + [r], teamKey) ::
      ProfilesOf(records + [r], teamKey)[k]
  }

  /**
   * `snapshot` hands out the live profiles: an update shows in a snapshot taken before it, unless
   * neither of the two teams of the match is in that snapshot.
   */
  lemma {:induction false} SnapshotIsLive(records: seq<Match>, r: Match, teamKey: string -> string)
    ensures SeenThrough(records, r, teamKey) == ProfilesOf(records, teamKey)
       <==> !(NamesTeams(r)
              && (teamKey(r.homeTeam.value) in ProfilesOf(records, teamKey)
                  || teamKey(r.awayTeam.value) in ProfilesOf(records, teamKey)))
  {
    var before, after := ProfilesOf(records, teamKey), ProfilesOf(records + [r], teamKey);
    assert (records + [r])[..|records|] == records;
    if NamesTeams(r) {
      var home, away := r.homeTeam.value, r.awayTeam.value;
      var middle := Bump(before, teamKey(home), home, r, Home);
      forall k | k in before
        ensures k in after
        ensures k == teamKey(home) || k == teamKey(away) ==>
                  At(after[k].counts, Matches) > At(before[k].counts, Matches)
        ensures k != teamKey(home) && k != teamKey(away) ==> after[k] == before[k]
      {
        BumpAt(before, teamKey(home), home, r, Home, k, Matches);
        BumpAt(middle, teamKey(away), away, r, Away, k, Matches);
      }
      if teamKey(home) in before { assert SeenThrough(records, r, teamKey)[teamKey(home)] != before[teamKey(home)]; }
      if teamKey(away) in before { assert SeenThrough(records, r, teamKey)[teamKey(away)] != before[teamKey(away)]; }
    }
  }

  /** An earlier snapshot read after an update: its profiles have moved on. */
  method UpdateUnderSnapshot(model: IncrementalFrequencyModel, r: Match) returns (earlier: LiveModel)
    requires model.Valid() && model.ids == MARKET_IDS
    modifies model, model.profiles.Values
    ensures model.Valid() && model.history == old(model.history) + [r]
    ensures Views(earlier.teamProfiles) == SeenThrough(old(model.history), r, model.teamKey)
  {
    earlier := model.Snapshot();
    assert earlier.teamProfiles.Keys == ProfilesOf(model.history, model.teamKey).Keys by {
      assert Views(model.profiles).Keys == model.profiles.Keys;
    }
    model.Update(r);
    forall k | k in earlier.teamProfiles
      ensures k in ProfilesOf(model.history, model.teamKey)
      ensures earlier.teamProfiles[k].View() == ProfilesOf(model.history, model.teamKey)[k]
    {
      assert Views(model.profiles)[k] == model.profiles[k].View();
    }
  }
}
