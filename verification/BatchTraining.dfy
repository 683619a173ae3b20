/**
 * Batch training (backend/src/training.ts): the groups, tallies and profiles of the source,
 * proved to compute the model that `Training.Batch` specifies.
 */
module BatchTraining {
  import opened Records
  import opened Markets
  import opened Training
  import opened TeamProfiles
  import StringOrder

  /** A model whose team profiles are live objects, as `trainModel` and `snapshot` return it. */
  datatype LiveModel = LiveModel(core: Model, teamProfiles: map<string, TeamProfile>)

  /** The model as it reads now. */
  function Freeze(m: LiveModel): Model
    reads m.teamProfiles.Values
  {
    m.core.(teamProfiles := Views(m.teamProfiles))
  }

  ghost predicate NoRepeats(s: seq<string>) {
    forall i, j | 0 <= i < j < |s| :: s[i] != s[j]
  }

  lemma {:induction false} SelectionsDistinct(m: Market)
    ensures NoRepeats(Selections(m))
  {
    match m
    case ResultMarket => assert "home_win"[0] != "draw"[0] && "home_win"[0] != "away_win"[0]
      && "draw"[0] != "away_win"[0];
    case Over15 => assert "over_1_5"[0] != "under_or_equal_1_5"[0];
    case Over25 => assert "over_2_5"[0] != "under_or_equal_2_5"[0];
    case Over35 => assert "over_3_5"[0] != "under_or_equal_3_5"[0];
    case Under25 => assert "under_2_5"[0] != "over_or_equal_2_5"[0];
    case Under35 => assert "under_3_5"[0] != "over_or_equal_3_5"[0];
    case BothTeamsScore => assert |"btts_yes"| != |"btts_no"|;
    case DoubleChance => assert "1x"[1] != "12"[1] && "1x"[0] != "x2"[0] && "12"[0] != "x2"[0];
    case Cards =>
      assert "cards_over_3_5"[11] != "cards_over_4_5"[11] && "cards_over_3_5"[11] != "cards_over_5_5"[11];
      assert "cards_over_4_5"[11] != "cards_over_5_5"[11];
    case Corners => assert "corners_over_8_5"[13] != "corners_over_9_5"[13];
  }

  // ---------------------------------------------------------------- tallies

  /** Counts after one more labelled row. */
  function Tallied(counts: map<string, nat>, selections: seq<string>, labels: Labels): (r: map<string, nat>)
    requires forall s | s in selections :: s in counts
    ensures r.Keys == counts.Keys
  {
    map s | s in counts :: counts[s] + (if s in selections && Happened(labels, s) then 1 else 0)
  }

  /** The inner loop over selections, shared by batch and incremental counting. */
  method Tally(counts: map<string, nat>, selections: seq<string>, labels: Labels) returns (after: map<string, nat>)
    requires NoRepeats(selections) && forall s | s in selections :: s in counts
    ensures after == Tallied(counts, selections, labels)
  {
    after := counts;
    for k := 0 to |selections|
      invariant after.Keys == counts.Keys
      invariant forall s | s in counts ::
                  after[s] == counts[s] + (if s in selections[..k] && Happened(labels, s) then 1 else 0)
    {
      assert forall s :: s in selections[..k + 1] <==> s in selections[..k] || s == selections[k];
      assert selections[k] !in selections[..k];
      if Happened(labels, selections[k]) {
        after := after[selections[k] := after[selections[k]] + 1];
      }
    }
    assert selections[..|selections|] == selections;
  }

  method BuildSegmentModel(key: string, entries: seq<Entry>, selections: seq<string>, minRows: nat)
    returns (segment: SegmentModel)
    requires NoRepeats(selections)
    ensures segment == Segment(key, |entries|, PositiveCounts(entries, selections), selections, minRows)
  {
    var counts: map<string, nat> := map s | s in selections :: 0;
    for k := 0 to |entries|
      invariant counts == PositiveCounts(entries[..k], selections)
    {
      assert entries[..k + 1][..k] == entries[..k];
      counts := Tally(counts, selections, entries[k].labels);
    }
    assert entries[..|entries|] == entries;
    segment := Segment(key, |entries|, counts, selections, minRows);
  }

  // ---------------------------------------------------------------- context groups

  type Groups = map<string, seq<Entry>>

  function AddToGroup(groups: Groups, key: string, entry: Entry): Groups {
    groups[key := (if key in groups then groups[key] else []) + [entry]]
  }

  ghost function AddAll(groups: Groups, keys: seq<string>, entry: Entry): Groups {
    if keys == [] then groups
    else AddToGroup(AddAll(groups, keys[..|keys| - 1], entry), keys[|keys| - 1], entry)
  }

  lemma {:induction false} AddOneMore(groups: Groups, keys: seq<string>, key: string, entry: Entry)
    ensures AddAll(groups, keys + [key], entry) == AddToGroup(AddAll(groups, keys, entry), key, entry)
  {
    assert (keys + [key])[..|keys|] == keys;
  }

  /** Adds one entry to each of its context groups, in the source's order. */
  method AddToContexts(groups: Groups, entry: Entry) returns (after: Groups)
    ensures after == AddAll(groups, ContextKeys(entry.record), entry)
  {
    var r := entry.record;
    var league := if r.league.Some? then r.league.value else "unknown";
    ghost var keys: seq<string> := [];
    after := groups;
    AddOneMore(groups, keys, league, entry);
    after, keys := AddToGroup(after, league, entry), keys + [league];
    if Truthy(r.season) {
      AddOneMore(groups, keys, "season:" + r.season.value, entry);
      after, keys := AddToGroup(after, "season:" + r.season.value, entry), keys + ["season:" + r.season.value];
      AddOneMore(groups, keys, league + "::" + r.season.value, entry);
      after, keys := AddToGroup(after, league + "::" + r.season.value, entry), keys + [league + "::" + r.season.value];
      if Truthy(r.competition) {
        AddOneMore(groups, keys, r.competition.value + "::" + r.season.value, entry);
        after := AddToGroup(after, r.competition.value + "::" + r.season.value, entry);
        keys := keys + [r.competition.value + "::" + r.season.value];
      }
    }
    if Truthy(r.competition) {
      AddOneMore(groups, keys, r.competition.value, entry);
      after, keys := AddToGroup(after, r.competition.value, entry), keys + [r.competition.value];
      AddOneMore(groups, keys, "competition:" + r.competition.value, entry);
      after, keys :=
        AddToGroup(after, "competition:" + r.competition.value, entry), keys + ["competition:" + r.competition.value];
    }
    assert keys == ContextKeys(r);
  }

  /** The groups hold, for every context key, the entries counted there. */
  ghost predicate GroupsHold(groups: Groups, entries: seq<Entry>) {
    && groups.Keys == SegmentsOf(entries, false)
    && forall key | key in groups ::
         && |groups[key]| == Sample(entries, key, false)
         && forall s :: PositiveCount(groups[key], s) == Positive(entries, key, s, false)
  }

  lemma {:induction false} SampleOfAbsent(entries: seq<Entry>, key: string, s: string, withGlobal: bool)
    requires key !in SegmentsOf(entries, withGlobal)
    ensures Sample(entries, key, withGlobal) == 0 && Positive(entries, key, s, withGlobal) == 0
  {
    if entries != [] {
      SampleOfAbsent(entries[..|entries| - 1], key, s, withGlobal);
      OccursIffMember(SegmentKeys(entries[|entries| - 1].record, withGlobal), key);
    }
  }

  lemma {:induction false} OccursIffMember(keys: seq<string>, key: string)
    ensures Occurrences(keys, key) > 0 <==> key in keys
  {
    if keys != [] {
      OccursIffMember(keys[..|keys| - 1], key);
      assert key in keys <==> key in keys[..|keys| - 1] || key == keys[|keys| - 1];
    }
  }

  lemma {:induction false} AddAllAt(groups: Groups, keys: seq<string>, entry: Entry, key: string, s: string)
    ensures
      var after := AddAll(groups, keys, entry);
      && (key in after <==> key in groups || key in keys)
      && (key in after ==>
            var before := if key in groups then groups[key] else [];
            && |after[key]| == |before| + Occurrences(keys, key)
            && PositiveCount(after[key], s)
               == PositiveCount(before, s) + (if Happened(entry.labels, s) then Occurrences(keys, key) else 0))
  {
    if keys != [] {
      var n := |keys| - 1;
      AddAllAt(groups, keys[..n], entry, key, s);
      assert key in keys <==> key in keys[..n] || key == keys[n];
      OccursIffMember(keys[..n], key);
      var middle := AddAll(groups, keys[..n], entry);
      var group := if key in middle then middle[key] else [];
      assert (group + [entry])[..|group|] == group;
    }
  }

  lemma {:induction false} AddEntry(groups: Groups, entries: seq<Entry>, entry: Entry)
    requires GroupsHold(groups, entries)
    ensures GroupsHold(AddAll(groups, ContextKeys(entry.record), entry), entries + [entry])
  {
    var keys := ContextKeys(entry.record);
    var after, all := AddAll(groups, keys, entry), entries + [entry];
    assert all[..|entries|] == entries && SegmentKeys(entry.record, false) == keys;
    forall key ensures key in after <==> key in SegmentsOf(all, false) { AddAllAt(groups, keys, entry, key, ""); }
    assert after.Keys == SegmentsOf(all, false);
    forall key | key in after ensures |after[key]| == Sample(all, key, false) {
      AddAllAt(groups, keys, entry, key, "");
      if key !in groups { SampleOfAbsent(entries, key, "", false); }
    }
    forall key, s | key in after ensures PositiveCount(after[key], s) == Positive(all, key, s, false) {
      AddAllAt(groups, keys, entry, key, s);
      if key !in groups { SampleOfAbsent(entries, key, s, false); }
    }
  }

  /** The first loop: every entry joins the groups of its contexts. */
  method GroupEntries(entries: seq<Entry>) returns (groups: Groups)
    ensures GroupsHold(groups, entries)
  {
    groups := map[];
    for k := 0 to |entries|
      invariant GroupsHold(groups, entries[..k])
    {
      assert entries[..k + 1] == entries[..k] + [entries[k]];
      AddEntry(groups, entries[..k], entries[k]);
      groups := AddToContexts(groups, entries[k]);
    }
    assert entries[..|entries|] == entries;
  }

  lemma {:induction false} GroupPositives(groups: Groups, entries: seq<Entry>, selections: seq<string>, key: string)
    requires GroupsHold(groups, entries) && key in groups
    ensures |groups[key]| == Sample(entries, key, false)
    ensures PositiveCounts(groups[key], selections) == Positives(entries, key, selections, false)
  {
  }

  method BuildContextSegments(entries: seq<Entry>, selections: seq<string>, minRows: nat)
    returns (segments: map<string, SegmentModel>)
    requires NoRepeats(selections)
    ensures segments == BatchSegments(entries, selections, minRows)
  {
    var groups := GroupEntries(entries);
    assert groups.Keys == SegmentsOf(entries, false);
    hide GroupsHold;
    segments := map[];
    var keys := groups.Keys;
    while keys != {}
      invariant keys <= groups.Keys && segments.Keys == groups.Keys - keys
      invariant forall key | key in segments ::
                  segments[key] == Segment(key, Sample(entries, key, false),
                                           Positives(entries, key, selections, false), selections, minRows)
      decreases keys
    {
      var key :| key in keys;
      var segment := BuildSegmentModel(key, groups[key], selections, minRows);
      GroupPositives(groups, entries, selections, key);
      segments := segments[key := segment];
      keys := keys - {key};
    }
  }

  method TrainMarket(records: seq<Match>, m: Market, minRows: nat) returns (model: MarketModel)
    ensures model == BatchMarket(records, m, minRows)
  {
    SelectionsDistinct(m);
    var entries := Labelled(records, m);
    var global := BuildSegmentModel("global", entries, Selections(m), minRows);
    var segments := BuildContextSegments(entries, Selections(m), minRows);
    model := MarketModel(global.available, |entries|, Unique(Columns(entries)), global, segments);
  }

  method BuildTeamProfiles(records: seq<Match>, teamKey: string -> string) returns (profiles: map<string, TeamProfile>)
    ensures Separate(profiles) && Views(profiles) == ProfilesOf(records, teamKey)
    ensures forall k | k in profiles :: fresh(profiles[k])
  {
    profiles := map[];
    for k := 0 to |records|
      invariant Separate(profiles) && Views(profiles) == ProfilesOf(records[..k], teamKey)
      invariant forall key | key in profiles :: fresh(profiles[key])
    {
      assert records[..k + 1][..k] == records[..k];
      profiles := CreditMatch(profiles, teamKey, records[k]);
    }
    assert records[..|records|] == records;
  }

  method TrainMarkets(ids: seq<Market>, records: seq<Match>, minRows: nat) returns (markets: map<Market, MarketModel>)
    ensures markets == BatchMarkets(ids, records, minRows)
  {
    markets := map[];
    for k := 0 to |ids|
      invariant markets.Keys == set m | m in ids[..k]
      invariant forall m | m in markets :: markets[m] == BatchMarket(records, m, minRows)
    {
      assert forall m: Market :: m in ids[..k + 1] <==> m in ids[..k] || m == ids[k];
      var market := TrainMarket(records, ids[k], minRows);
      markets := markets[ids[k] := market];
    }
    assert ids[..|ids|] == ids;
  }

  method TrainModel(records: seq<Match>, minRows: nat, teamKey: string -> string) returns (model: LiveModel)
    ensures Freeze(model) == Batch(records, minRows, teamKey)
    ensures forall k | k in model.teamProfiles :: fresh(model.teamProfiles[k])
  {
    var markets := TrainMarkets(MARKET_IDS, records, minRows);
    var profiles := BuildTeamProfiles(records, teamKey);
    model := LiveModel(
      Model(minRows, |records|, Unique(Present(records, PROVIDER)), Unique(Present(records, COMPETITION)),
            StringOrder.Greatest(Present(records, UPDATED_AT)), StringOrder.Least(Present(records, DATE)),
            StringOrder.Greatest(Present(records, DATE)), markets, map[]),
      profiles);
  }
}
