/** What the counts of the frequency model mean, market by market (backend/src/training.ts, backend/src/markets.ts). */
module FrequencyGuarantees {
  import opened Records
  import opened Markets
  import opened Training

  /** How many of the selections a label set marks. */
  function Marked(labels: Labels, selections: seq<string>): nat {
    if selections == [] then 0
    else
      Marked(labels, selections[..|selections| - 1])
      + (if Happened(labels, selections[|selections| - 1]) then 1 else 0)
  }

  /** The markets whose selections cover every match equally often: twice for double chance, else once. */
  predicate Covering(m: Market) { m != Cards && m != Corners }

  function Outcomes(m: Market): nat { if m == DoubleChance then 2 else 1 }

  lemma {:induction false} TwoMarked(labels: Labels, a: string, b: string)
    ensures Marked(labels, [a, b]) == (if Happened(labels, a) then 1 else 0) + (if Happened(labels, b) then 1 else 0)
  {
    assert [a, b][..1] == [a] && [a][..0] == [];
    assert Marked(labels, [a]) == Marked(labels, []) + (if Happened(labels, a) then 1 else 0);
  }

  lemma {:induction false} ThreeMarked(labels: Labels, a: string, b: string, c: string)
    ensures Marked(labels, [a, b, c])
         == (if Happened(labels, a) then 1 else 0) + (if Happened(labels, b) then 1 else 0)
           + (if Happened(labels, c) then 1 else 0)
  {
    assert [a, b, c][..2] == [a, b];
    TwoMarked(labels, a, b);
  }

  lemma {:induction false} LabelsCover(r: Match, m: Market)
    requires Covering(m)
    ensures DeriveLabels(r, m).Some? && Marked(DeriveLabels(r, m).value, Selections(m)) == Outcomes(m)
  {
    hide Marked;
    var labels, keys := DeriveLabels(r, m).value, Selections(m);
    if |keys| == 2 {
      assert keys == [keys[0], keys[1]];
      assert if m == Market.BothTeamsScore then keys[0][5] != keys[1][5] else keys[0][0] != keys[1][0];
      TwoMarked(labels, keys[0], keys[1]);
    } else {
      assert "home_win"[0] != "draw"[0] && "home_win"[0] != "away_win"[0] && "draw"[0] != "away_win"[0];
      assert "1x"[1] != "12"[1] && "1x"[0] != "x2"[0] && "12"[0] != "x2"[0];
      ThreeMarked(labels, keys[0], keys[1], keys[2]);
    }
  }

  /** The positives of a segment, over all the selections. */
  function PositiveSum(entries: seq<Entry>, key: string, selections: seq<string>, withGlobal: bool): nat {
    if selections == [] then 0
    else
      var n := |selections| - 1;
      PositiveSum(entries, key, selections[..n], withGlobal) + Positive(entries, key, selections[n], withGlobal)
  }

  function Times(a: nat, b: nat): nat { a * b }

  lemma {:induction false} SumOfNothing(key: string, selections: seq<string>, withGlobal: bool)
    ensures PositiveSum([], key, selections, withGlobal) == 0
  {
    if selections != [] { SumOfNothing(key, selections[..|selections| - 1], withGlobal); }
  }

  lemma {:induction false} OneMoreEntry(entries: seq<Entry>, e: Entry, key: string, selections: seq<string>,
                                        withGlobal: bool)
    ensures PositiveSum(entries + [e], key, selections, withGlobal)
         == PositiveSum(entries, key, selections, withGlobal)
            + Times(Marked(e.labels, selections), Occurrences(SegmentKeys(e.record, withGlobal), key))
  {
    hide Occurrences, SegmentKeys, Happened;
    if selections != [] {
      var n := |selections| - 1;
      OneMoreEntry(entries, e, key, selections[..n], withGlobal);
      assert (entries + [e])[..|entries|] == entries;
      var m, o := Marked(e.labels, selections[..n]), Occurrences(SegmentKeys(e.record, withGlobal), key);
      assert Times(m + 1, o) == Times(m, o) + o;
    }
  }

  /**
   * In every segment the positives of a market add up to its sample: each match comes out in exactly
   * one selection, and in two of the double chances.
   */
  lemma {:induction false} PositivesCoverSample(records: seq<Match>, m: Market, key: string, withGlobal: bool)
    requires Covering(m)
    ensures PositiveSum(Labelled(records, m), key, Selections(m), withGlobal)
         == Times(Outcomes(m), Sample(Labelled(records, m), key, withGlobal))
  {
    hide Occurrences, SegmentKeys, PositiveSum, Marked, DeriveLabels, Selections;
    if records == [] {
      SumOfNothing(key, Selections(m), withGlobal);
    } else {
      var n := |records| - 1;
      var before := Labelled(records[..n], m);
      PositivesCoverSample(records[..n], m, key, withGlobal);
      LabelsCover(records[n], m);
      var e := Entry(records[n], DeriveLabels(records[n], m).value);
      assert Labelled(records, m) == before + [e];
      OneMoreEntry(before, e, key, Selections(m), withGlobal);
      var s, o := Sample(before, key, withGlobal), Occurrences(SegmentKeys(e.record, withGlobal), key);
      assert (before + [e])[..|before|] == before;
      assert Times(Outcomes(m), s + o) == Times(Outcomes(m), s) + Times(Outcomes(m), o);
    }
  }

  /** Two markets over the same matches, in which a selection of one comes out when one of the other does. */
  ghost predicate Under(m: Market, selection: string, m': Market, selection': string) {
    forall r: Match ::
      DeriveLabels(r, m).Some? && DeriveLabels(r, m').Some?
      && (Happened(DeriveLabels(r, m).value, selection) ==> Happened(DeriveLabels(r, m').value, selection'))
  }

  lemma {:induction false} PositivesUnder(records: seq<Match>, m: Market, selection: string, m': Market,
                                          selection': string, key: string, withGlobal: bool)
    requires Under(m, selection, m', selection')
    ensures Positive(Labelled(records, m), key, selection, withGlobal)
            <= Positive(Labelled(records, m'), key, selection', withGlobal)
    ensures Sample(Labelled(records, m), key, withGlobal) == Sample(Labelled(records, m'), key, withGlobal)
  {
    hide Occurrences, SegmentKeys, DeriveLabels, Happened;
    if records != [] {
      var n := |records| - 1;
      PositivesUnder(records[..n], m, selection, m', selection', key, withGlobal);
      assert DeriveLabels(records[n], m).Some? && DeriveLabels(records[n], m').Some?;
      SnocCounts(Labelled(records[..n], m), Entry(records[n], DeriveLabels(records[n], m).value), key, selection,
                 withGlobal);
      SnocCounts(Labelled(records[..n], m'), Entry(records[n], DeriveLabels(records[n], m').value), key, selection',
                 withGlobal);
    }
  }

  lemma {:induction false} SnocCounts(entries: seq<Entry>, e: Entry, key: string, selection: string, withGlobal: bool)
    ensures Sample(entries + [e], key, withGlobal)
         == Sample(entries, key, withGlobal) + Occurrences(SegmentKeys(e.record, withGlobal), key)
    ensures Positive(entries + [e], key, selection, withGlobal)
         == Positive(entries, key, selection, withGlobal)
            + (if Happened(e.labels, selection) then Occurrences(SegmentKeys(e.record, withGlobal), key) else 0)
  {
    hide Occurrences, SegmentKeys, Happened;
    assert (entries + [e])[..|entries|] == entries;
  }

  /** In every segment overs are nested, and each Under market counts what the Over market leaves. */
  lemma {:induction false} GoalMarketsAgree(records: seq<Match>, key: string, withGlobal: bool)
    ensures Positive(Labelled(records, Market.Over35), key, "over_3_5", withGlobal)
         <= Positive(Labelled(records, Market.Over25), key, "over_2_5", withGlobal)
         <= Positive(Labelled(records, Market.Over15), key, "over_1_5", withGlobal)
    ensures Positive(Labelled(records, Under25), key, "under_2_5", withGlobal)
         == Positive(Labelled(records, Market.Over25), key, "under_or_equal_2_5", withGlobal)
    ensures Positive(Labelled(records, Under35), key, "under_3_5", withGlobal)
         == Positive(Labelled(records, Market.Over35), key, "under_or_equal_3_5", withGlobal)
  {
    hide Labelled, Positive, Sample;
    assert Under(Market.Over35, "over_3_5", Market.Over25, "over_2_5");
    assert Under(Market.Over25, "over_2_5", Market.Over15, "over_1_5");
    assert "under_2_5"[0] != "over_or_equal_2_5"[0] && "over_2_5"[0] != "under_or_equal_2_5"[0];
    assert "under_3_5"[0] != "over_or_equal_3_5"[0] && "over_3_5"[0] != "under_or_equal_3_5"[0];
    assert Under(Under25, "under_2_5", Market.Over25, "under_or_equal_2_5")
           && Under(Market.Over25, "under_or_equal_2_5", Under25, "under_2_5");
    assert Under(Under35, "under_3_5", Market.Over35, "under_or_equal_3_5")
           && Under(Market.Over35, "under_or_equal_3_5", Under35, "under_3_5");
    PositivesUnder(records, Market.Over35, "over_3_5", Market.Over25, "over_2_5", key, withGlobal);
    PositivesUnder(records, Market.Over25, "over_2_5", Market.Over15, "over_1_5", key, withGlobal);
    PositivesUnder(records, Under25, "under_2_5", Market.Over25, "under_or_equal_2_5", key, withGlobal);
    PositivesUnder(records, Market.Over25, "under_or_equal_2_5", Under25, "under_2_5", key, withGlobal);
    PositivesUnder(records, Under35, "under_3_5", Market.Over35, "under_or_equal_3_5", key, withGlobal);
    PositivesUnder(records, Market.Over35, "under_or_equal_3_5", Under35, "under_3_5", key, withGlobal);
  }

  lemma {:induction false} PositiveWithinSample(entries: seq<Entry>, key: string, selection: string, withGlobal: bool)
    ensures Positive(entries, key, selection, withGlobal) <= Sample(entries, key, withGlobal)
  {
    hide Occurrences, SegmentKeys, Happened;
    if entries != [] { PositiveWithinSample(entries[..|entries| - 1], key, selection, withGlobal); }
  }

  /** Percentages are between nothing and a hundred, and a hundred for a selection that always came out. */
  lemma {:induction false} PercentageRange(positive: nat, sample: nat)
    requires positive <= sample
    ensures 0.0 <= Percentage(positive, sample) <= 100.0
    ensures 0 < positive == sample ==> Percentage(positive, sample) == 100.0
  {
    if sample > 0 {
      var q := positive as real / sample as real;
      assert 0.0 <= q <= 1.0;
      assert positive == sample ==> q == 1.0;
      RoundedPercentage(q);
    }
  }

  lemma {:induction false} RoundedPercentage(q: real)
    requires 0.0 <= q <= 1.0
    ensures 0 <= (q * 1000.0 + 0.5).Floor <= 1000 && (q == 1.0 ==> (q * 1000.0 + 0.5).Floor == 1000)
  {
  }
}
