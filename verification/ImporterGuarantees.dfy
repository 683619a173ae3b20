/** What the prepared batch promises, and how far it depends on the order of the input. */
module ImporterGuarantees {
  import opened Records
  import opened Sorting
  import opened Importer

  // ---------------------------------------------------------------- one team for an alias

  predicate Names(r: ImportRecord, team: Team) { team == r.homeTeam || team == r.awayTeam }

  lemma {:induction false} MentionMembers(records: seq<ImportRecord>, m: Mention)
    ensures m in Mentions(records)
       <==> exists r | r in records :: m == MentionOf(r, r.homeTeam) || m == MentionOf(r, r.awayTeam)
  {
    if records != [] {
      var n := |records| - 1;
      MentionMembers(records[..n], m);
      assert records == records[..n] + [records[n]];
      assert forall x :: x in records <==> x in records[..n] || x == records[n];
    }
  }

  /** Two teams named under one alias are among the conflicts, at least one of them. */
  lemma {:induction false} NamedClash(mentions: seq<Mention>, x: nat, y: nat)
    requires x < |mentions| && y < |mentions| && mentions[x].id != "" && mentions[y].id != ""
    requires Clash(mentions[x], mentions[y])
    ensures TeamOf(mentions[x]) in Detect(mentions).conflicts || TeamOf(mentions[y]) in Detect(mentions).conflicts
  {
    hide Detect, Contested;
    ConflictsAreExact(mentions, TeamOf(mentions[x]));
    ConflictsAreExact(mentions, TeamOf(mentions[y]));
    var i := FirstNamed(mentions, x);
    var j := FirstNamed(mentions, y);
    OneLead(mentions, i, j);
    if mentions[i].id != mentions[x].id {
      ContestedAt(mentions, i, x);
    } else {
      ContestedAt(mentions, i, y);
    }
  }

  lemma {:induction false} ContestedAt(mentions: seq<Mention>, i: nat, j: nat)
    requires Contests(mentions, i, j)
    ensures Contested(mentions, TeamOf(mentions[j]))
  {
  }

  /** In a prepared batch the teams that an alias of a provider names are one, up to absent identifiers. */
  lemma {:induction false} AliasNamesOneTeam(records: seq<ImportRecord>, survivors: seq<ImportRecord>, batch: Batch,
                                             a: ImportRecord, s: Team, b: ImportRecord, t: Team)
    requires Prepared(records, survivors, batch)
    requires a in batch.records && b in batch.records && Names(a, s) && Names(b, t)
    requires a.sourceProvider == b.sourceProvider && s.normalizedAlias == t.normalizedAlias
    ensures s.externalId == t.externalId || s.externalId == "" || t.externalId == ""
  {
    hide Detect, Mentions, Uncontested, KeysOf;
    var mentions := Mentions(survivors);
    var m, n := MentionOf(a, s), MentionOf(b, t);
    MentionMembers(survivors, m);
    MentionMembers(survivors, n);
    var x, y :| 0 <= x < |mentions| && mentions[x] == m && 0 <= y < |mentions| && mentions[y] == n;
    assert Kept(Detect(mentions).conflicts, a) && Kept(Detect(mentions).conflicts, b);
    if s.externalId != t.externalId && s.externalId != "" && t.externalId != "" { NamedClash(mentions, x, y); }
  }

  // ---------------------------------------------------------------- how many conflicts an alias raises

  function OfAlias(alias: Key): Mention -> bool { (m: Mention) => AliasOf(m) == alias }

  function OtherTeam(alias: Key, id: string): Mention -> bool { (m: Mention) => AliasOf(m) == alias && m.id != id }

  /** The first identifier given to an alias, empty if there is none. */
  function LeadId(mentions: seq<Mention>, alias: Key): string {
    if mentions == [] then ""
    else
      var n := |mentions| - 1;
      var before := LeadId(mentions[..n], alias);
      if before == "" && AliasOf(mentions[n]) == alias then mentions[n].id else before
  }

  /** How many mentions of the alias come before its first identifier. */
  function Unnamed(mentions: seq<Mention>, alias: Key): nat {
    if mentions == [] then 0
    else
      var n := |mentions| - 1;
      Unnamed(mentions[..n], alias)
      + (if AliasOf(mentions[n]) == alias && LeadId(mentions, alias) == "" then 1 else 0)
  }

  /** The mentions of an alias that the scan passes over: those before the first identifier and those that repeat it. */
  function PassedOver(mentions: seq<Mention>, alias: Key): nat {
    var id := LeadId(mentions, alias);
    Unnamed(mentions, alias) + (if id == "" then 0 else multiset(mentions)[Mention(alias.provider, alias.id, id)])
  }

  lemma {:induction false} LeadIsOnRecord(mentions: seq<Mention>, alias: Key)
    ensures
      var d := Detect(mentions);
      LeadId(mentions, alias) == if alias in d.aliases then d.aliases[alias] else ""
  {
    if mentions != [] { LeadIsOnRecord(mentions[..|mentions| - 1], alias); }
  }

  lemma {:induction false} NoLeadNoTeam(mentions: seq<Mention>, alias: Key, m: Mention)
    requires LeadId(mentions, alias) == "" && m in mentions && AliasOf(m) == alias
    ensures m.id == ""
  {
    var n := |mentions| - 1;
    if m != mentions[n] { NoLeadNoTeam(mentions[..n], alias, m); }
  }

  /** Every other mention of the alias raises a conflict, for any input. */
  lemma {:induction false} RaisedIsTheRest(mentions: seq<Mention>, alias: Key)
    ensures Raised(mentions, alias) + PassedOver(mentions, alias) == CountIf(mentions, OfAlias(alias))
  {
    if mentions != [] {
      var n := |mentions| - 1;
      var before, m := mentions[..n], mentions[n];
      hide Detect, Raised, PassedOver, CountIf;
      RaisedIsTheRest(before, alias);
      PassedOverStep(mentions, alias);
      RaisedStep(mentions, alias);
    } else {
      assert multiset(mentions) == multiset{};
    }
  }

  lemma {:induction false} RaisedStep(mentions: seq<Mention>, alias: Key)
    requires mentions != []
    ensures
      var n := |mentions| - 1;
      var m, id := mentions[n], LeadId(mentions[..n], alias);
      && Raised(mentions, alias)
         == Raised(mentions[..n], alias) + (if AliasOf(m) == alias && id != "" && id != m.id then 1 else 0)
      && CountIf(mentions, OfAlias(alias))
         == CountIf(mentions[..n], OfAlias(alias)) + (if AliasOf(m) == alias then 1 else 0)
  {
    hide Detect;
    LeadIsOnRecord(mentions[..|mentions| - 1], alias);
  }

  lemma {:induction false} PassedOverStep(mentions: seq<Mention>, alias: Key)
    requires mentions != []
    ensures
      var n := |mentions| - 1;
      var m, id := mentions[n], LeadId(mentions[..n], alias);
      PassedOver(mentions, alias)
      == PassedOver(mentions[..n], alias) + (if AliasOf(m) == alias && (id == "" || id == m.id) then 1 else 0)
  {
    var n := |mentions| - 1;
    var before, m := mentions[..n], mentions[n];
    assert mentions == before + [m];
    var id := LeadId(mentions, alias);
    if LeadId(before, alias) == "" && id != "" {
      var lead := Mention(alias.provider, alias.id, id);
      assert lead == m;
      if lead in before { NoLeadNoTeam(before, alias, lead); }
      assert multiset(before)[lead] == 0;
    }
  }

  /** Two orders of the same mentions raise as many conflicts for an alias exactly when they pass over as many. */
  lemma {:induction false} RaisedInAnyOrder(a: seq<Mention>, b: seq<Mention>, alias: Key)
    requires multiset(a) == multiset(b)
    ensures Raised(a, alias) == Raised(b, alias) <==> PassedOver(a, alias) == PassedOver(b, alias)
  {
    hide *;
    RaisedIsTheRest(a, alias);
    RaisedIsTheRest(b, alias);
    CountPermutation(a, b, OfAlias(alias));
  }

  /** The first mention of its alias. */
  ghost predicate FirstMention(mentions: seq<Mention>, i: int) {
    0 <= i < |mentions| && forall h | 0 <= h < i :: AliasOf(mentions[h]) != AliasOf(mentions[i])
  }

  lemma {:induction false} NamedLead(mentions: seq<Mention>, i: int)
    requires Named(mentions) && FirstMention(mentions, i)
    ensures LeadId(mentions, AliasOf(mentions[i])) == mentions[i].id
    ensures PassedOver(mentions, AliasOf(mentions[i])) == multiset(mentions)[mentions[i]]
  {
    var alias := AliasOf(mentions[i]);
    NamedLeadId(mentions, i, |mentions|);
    assert mentions[..|mentions|] == mentions;
    assert mentions[i] == Mention(alias.provider, alias.id, mentions[i].id);
  }

  lemma {:induction false} NamedLeadId(mentions: seq<Mention>, i: int, n: nat)
    requires Named(mentions) && FirstMention(mentions, i) && n <= |mentions|
    ensures LeadId(mentions[..n], AliasOf(mentions[i])) == if i < n then mentions[i].id else ""
    ensures Unnamed(mentions[..n], AliasOf(mentions[i])) == 0
  {
    if n > 0 {
      assert mentions[..n][..n - 1] == mentions[..n - 1];
      NamedLeadId(mentions, i, n - 1);
      assert mentions[n - 1] in mentions && mentions[i] in mentions;
    }
  }

  /** With identifiers present an alias raises a conflict for every mention of another team than its first. */
  lemma {:induction false} RaisedByOthers(mentions: seq<Mention>, i: int)
    requires Named(mentions) && FirstMention(mentions, i)
    ensures Raised(mentions, AliasOf(mentions[i]))
         == CountIf(mentions, OtherTeam(AliasOf(mentions[i]), mentions[i].id))
  {
    hide Raised, Named;
    RaisedIsTheRest(mentions, AliasOf(mentions[i]));
    NamedLead(mentions, i);
    SplitAlias(mentions, mentions[i]);
  }

  lemma {:induction false} SplitAlias(mentions: seq<Mention>, m: Mention)
    ensures CountIf(mentions, OfAlias(AliasOf(m)))
         == CountIf(mentions, OtherTeam(AliasOf(m), m.id)) + multiset(mentions)[m]
  {
    if mentions != [] {
      var n := |mentions| - 1;
      SplitAlias(mentions[..n], m);
      assert mentions == mentions[..n] + [mentions[n]];
    }
  }

  /**
   * With identifiers present, two orders of the same mentions raise as many conflicts for an alias
   * exactly when the mentions they begin with are equally frequent.
   */
  lemma {:induction false} NamedInAnyOrder(a: seq<Mention>, i: int, b: seq<Mention>, j: int)
    requires multiset(a) == multiset(b) && Named(a) && FirstMention(a, i) && FirstMention(b, j)
    requires AliasOf(a[i]) == AliasOf(b[j])
    ensures Raised(a, AliasOf(a[i])) == Raised(b, AliasOf(a[i])) <==> multiset(a)[a[i]] == multiset(a)[b[j]]
  {
    hide Raised, PassedOver;
    forall m | m in b ensures m.id != "" { assert m in multiset(a); }
    NamedLead(a, i);
    NamedLead(b, j);
    RaisedInAnyOrder(a, b, AliasOf(a[i]));
  }

  // ---------------------------------------------------------------- the number of ambiguous rows

  /** A list of aliases without repetition that has every alias of the mentions. */
  ghost predicate Lists(keys: seq<Key>, mentions: seq<Mention>) {
    && (forall i, k | 0 <= i < k < |keys| :: keys[i] != keys[k])
    && (forall m | m in mentions :: AliasOf(m) in keys)
  }

  function RaisedOver(mentions: seq<Mention>, keys: seq<Key>): nat {
    if keys == [] then 0
    else RaisedOver(mentions, keys[..|keys| - 1]) + Raised(mentions, keys[|keys| - 1])
  }

  function PassedOverAll(mentions: seq<Mention>, keys: seq<Key>): nat {
    if keys == [] then 0
    else PassedOverAll(mentions, keys[..|keys| - 1]) + PassedOver(mentions, keys[|keys| - 1])
  }

  lemma {:induction false} RaisedOverStep(mentions: seq<Mention>, keys: seq<Key>)
    requires mentions != [] && forall i, k | 0 <= i < k < |keys| :: keys[i] != keys[k]
    ensures
      var n := |mentions| - 1;
      var m := mentions[n];
      RaisedOver(mentions, keys) == RaisedOver(mentions[..n], keys)
        + (if AliasOf(m) in keys && Raises(Detect(mentions[..n]), m) then 1 else 0)
  {
    hide Detect, Raises;
    if keys != [] {
      RaisedOverStep(mentions, keys[..|keys| - 1]);
      assert keys == keys[..|keys| - 1] + [keys[|keys| - 1]];
    }
  }

  /** The number of ambiguous rows is what the aliases raise together. */
  lemma {:induction false} CountIsSum(mentions: seq<Mention>, keys: seq<Key>)
    requires Lists(keys, mentions)
    ensures Detect(mentions).count == RaisedOver(mentions, keys)
  {
    if mentions == [] {
      NothingRaised(keys);
    } else {
      var n := |mentions| - 1;
      assert mentions == mentions[..n] + [mentions[n]];
      CountIsSum(mentions[..n], keys);
      RaisedOverStep(mentions, keys);
    }
  }

  lemma {:induction false} NothingRaised(keys: seq<Key>)
    ensures RaisedOver([], keys) == 0
  {
    if keys != [] { NothingRaised(keys[..|keys| - 1]); }
  }

  lemma {:induction false} OverInAnyOrder(a: seq<Mention>, b: seq<Mention>, keys: seq<Key>)
    requires multiset(a) == multiset(b)
    ensures RaisedOver(a, keys) + PassedOverAll(a, keys) == RaisedOver(b, keys) + PassedOverAll(b, keys)
  {
    if keys != [] {
      hide PassedOver, Raised;
      OverInAnyOrder(a, b, keys[..|keys| - 1]);
      var k := keys[|keys| - 1];
      RaisedIsTheRest(a, k);
      RaisedIsTheRest(b, k);
      CountPermutation(a, b, OfAlias(k));
    }
  }

  lemma {:induction false} MentionsConcat(a: seq<ImportRecord>, b: seq<ImportRecord>)
    ensures Mentions(a + b) == Mentions(a) + Mentions(b)
  {
    if b == [] {
      assert a + b == a;
    } else {
      MentionsConcat(a, b[..|b| - 1]);
      assert (a + b)[..|a + b| - 1] == a + b[..|b| - 1];
    }
  }

  lemma {:induction false} MentionsWithout(b: seq<ImportRecord>, k: nat)
    requires k < |b|
    ensures multiset(Mentions(b))
         == multiset(Mentions(b[..k] + b[k + 1..])) + multiset(Mentions([b[k]]))
  {
    hide Mentions;
    assert b == b[..k] + ([b[k]] + b[k + 1..]);
    MentionsConcat(b[..k], b[k + 1..]);
    MentionsConcat(b[..k], [b[k]] + b[k + 1..]);
    MentionsConcat([b[k]], b[k + 1..]);
  }

  lemma {:induction false} MentionsInAnyOrder(a: seq<ImportRecord>, b: seq<ImportRecord>)
    requires multiset(a) == multiset(b)
    ensures multiset(Mentions(a)) == multiset(Mentions(b))
  {
    if a == [] {
      assert |multiset(b)| == 0;
    } else {
      hide Mentions;
      var n := |a| - 1;
      assert a[n] in multiset(b);
      var k :| 0 <= k < |b| && b[k] == a[n];
      MultisetWithout(a, n);
      MultisetWithout(b, k);
      assert a[..n] + a[n + 1..] == a[..n];
      MentionsInAnyOrder(a[..n], b[..k] + b[k + 1..]);
      MentionsWithout(a, n);
      MentionsWithout(b, k);
    }
  }

  /**
   * Two orders of the same records have as many ambiguous rows exactly when, over all aliases, they
   * pass over as many mentions.
   */
  lemma {:induction false} AmbiguousCountInAnyOrder(a: seq<ImportRecord>, b: seq<ImportRecord>, keys: seq<Key>)
    requires multiset(a) == multiset(b) && Lists(keys, Mentions(a))
    ensures Detect(Mentions(a)).count == Detect(Mentions(b)).count
       <==> PassedOverAll(Mentions(a), keys) == PassedOverAll(Mentions(b), keys)
  {
    hide Detect, Mentions, PassedOverAll, RaisedOver;
    MentionsInAnyOrder(a, b);
    forall m | m in Mentions(b) ensures AliasOf(m) in keys { assert m in multiset(Mentions(a)); }
    CountIsSum(Mentions(a), keys);
    CountIsSum(Mentions(b), keys);
    OverInAnyOrder(Mentions(a), Mentions(b), keys);
  }

  /** Of three records, two name a team `x` and one a team `y` under one alias: their order decides the count. */
  lemma {:induction false} AmbiguousCountDependsOnOrder(x: Team, y: Team, other: Team)
    requires x.normalizedAlias == y.normalizedAlias != other.normalizedAlias
    requires x.externalId != "" && y.externalId != "" && x.externalId != y.externalId
    ensures
      var first, second := ImportRecord("p", "1", x, other, ""), ImportRecord("p", "2", other, x, "");
      var third := ImportRecord("p", "3", y, other, "");
      && Detect(Mentions([first, second, third])).count == 1
      && Detect(Mentions([third, first, second])).count == 2
  {
    var first, second := ImportRecord("p", "1", x, other, ""), ImportRecord("p", "2", other, x, "");
    var third := ImportRecord("p", "3", y, other, "");
    ThreeRecords(first, second, third);
    ThreeRecords(third, first, second);
    RareLast(MentionOf(first, x), MentionOf(third, y), MentionOf(first, other));
    RareFirst(MentionOf(first, x), MentionOf(third, y), MentionOf(first, other));
  }

  lemma {:induction false} RareLast(x: Mention, y: Mention, other: Mention)
    requires x.id != "" && y.id != "" && Clash(x, y) && AliasOf(other) != AliasOf(x)
    ensures Detect([x, other, other, x] + [y, other]).count == 1
  {
    TwoMore([], x, other);
    TwoMore([x, other], other, x);
    TwoMore([x, other, other, x], y, other);
    assert [] + [x, other] == [x, other] && [x, other] + [other, x] == [x, other, other, x];
  }

  lemma {:induction false} RareFirst(x: Mention, y: Mention, other: Mention)
    requires x.id != "" && y.id != "" && Clash(x, y) && AliasOf(other) != AliasOf(x)
    ensures Detect([y, other, x, other] + [other, x]).count == 2
  {
    TwoMore([], y, other);
    TwoMore([y, other], x, other);
    TwoMore([y, other, x, other], other, x);
    assert [] + [y, other] == [y, other] && [y, other] + [x, other] == [y, other, x, other];
  }

  lemma {:induction false} ThreeRecords(a: ImportRecord, b: ImportRecord, c: ImportRecord)
    ensures Mentions([a, b, c]) ==
      [MentionOf(a, a.homeTeam), MentionOf(a, a.awayTeam), MentionOf(b, b.homeTeam), MentionOf(b, b.awayTeam)]
      + [MentionOf(c, c.homeTeam), MentionOf(c, c.awayTeam)]
  {
    assert [a, b, c] == [a] + [b] + [c];
    MentionsConcat([a] + [b], [c]);
    MentionsConcat([a], [b]);
    OneRecord(a);
    OneRecord(b);
    OneRecord(c);
  }

  lemma {:induction false} OneRecord(r: ImportRecord)
    ensures Mentions([r]) == [MentionOf(r, r.homeTeam), MentionOf(r, r.awayTeam)]
  {
    assert [r][..0] == [];
  }

  // ---------------------------------------------------------------- independence of the order

  /** An absent identifier of the alias comes after its first identifier. */
  ghost predicate UnnamedLater(mentions: seq<Mention>, alias: Key) {
    exists i, j :: Contests(mentions, i, j) && AliasOf(mentions[j]) == alias && mentions[j].id == ""
  }

  lemma {:induction false} ConflictMoves(a: seq<Mention>, b: seq<Mention>, k: Key)
    requires forall m :: m in a <==> m in b
    requires forall alias :: UnnamedLater(a, alias) ==> UnnamedLater(b, alias)
    requires Contested(a, k)
    ensures Contested(b, k)
  {
    var i, j :| Contests(a, i, j) && (TeamOf(a[i]) == k || TeamOf(a[j]) == k);
    assert a[i] in b && a[j] in b;
    var x, y :| 0 <= x < |b| && b[x] == a[i] && 0 <= y < |b| && b[y] == a[j];
    var lead := FirstNamed(b, x);
    if a[j].id != "" {
      BothNamed(b, x, y, k);
    } else {
      assert UnnamedLater(a, AliasOf(a[j]));
      var i', j' :| Contests(b, i', j') && AliasOf(b[j']) == AliasOf(a[j]) && b[j'].id == "";
      OneLead(b, i', lead);
      if b[lead].id != a[i].id { assert Contests(b, lead, x); }
    }
  }

  lemma {:induction false} BothNamed(b: seq<Mention>, x: nat, y: nat, k: Key)
    requires x < |b| && y < |b| && b[x].id != "" && b[y].id != "" && Clash(b[x], b[y])
    requires TeamOf(b[x]) == k || TeamOf(b[y]) == k
    ensures Contested(b, k)
  {
    var i := FirstNamed(b, x);
    var j := FirstNamed(b, y);
    OneLead(b, i, j);
    if b[i].id != b[x].id { assert Contests(b, i, x); }
    if b[i].id != b[y].id { assert Contests(b, i, y); }
  }

  lemma {:induction false} SameConflicts(a: seq<Mention>, b: seq<Mention>)
    requires forall m :: m in a <==> m in b
    requires forall alias :: UnnamedLater(a, alias) <==> UnnamedLater(b, alias)
    ensures Detect(a).conflicts == Detect(b).conflicts
  {
    hide Detect, Contested, UnnamedLater;
    forall k ensures k in Detect(a).conflicts <==> k in Detect(b).conflicts {
      ConflictsAreExact(a, k);
      ConflictsAreExact(b, k);
      if Contested(a, k) { ConflictMoves(a, b, k); }
      if Contested(b, k) { ConflictMoves(b, a, k); }
    }
  }

  lemma {:induction false} SameMembers(a: seq<ImportRecord>, b: seq<ImportRecord>)
    requires multiset(a) == multiset(b)
    ensures forall r :: r in a <==> r in b
    ensures |a| == |b| && KeysOf(a) == KeysOf(b)
    ensures forall k :: Uncontested(a, k) <==> Uncontested(b, k)
  {
    forall r ensures r in a <==> r in b { assert r in a <==> r in multiset(a); assert r in b <==> r in multiset(b); }
    assert |a| == |multiset(a)| && |b| == |multiset(b)|;
  }

  /** Whatever the order of the input, the same records survive deduplication. */
  lemma {:induction false} SameSurvivors(a: seq<ImportRecord>, b: seq<ImportRecord>, sa: seq<ImportRecord>,
                                         sb: seq<ImportRecord>, x: Batch, y: Batch)
    requires multiset(a) == multiset(b) && Prepared(a, sa, x) && Prepared(b, sb, y)
    ensures multiset(sa) == multiset(sb) && x.duplicateRows == y.duplicateRows
  {
    hide Detect, Mentions, Uncontested, KeysOf;
    SameMembers(a, b);
    SameDistinctMembers(sa, sb);
  }

  /**
   * Reordering the input changes neither the duplicates counted nor, as long as absent identifiers
   * stay on their side of the first one of their alias, the records kept.
   */
  lemma {:induction false} OrderDoesNotMatter(a: seq<ImportRecord>, b: seq<ImportRecord>, sa: seq<ImportRecord>,
                                              sb: seq<ImportRecord>, x: Batch, y: Batch)
    requires multiset(a) == multiset(b) && Prepared(a, sa, x) && Prepared(b, sb, y)
    requires forall alias :: UnnamedLater(Mentions(sa), alias) <==> UnnamedLater(Mentions(sb), alias)
    ensures forall r :: r in x.records <==> r in y.records
    ensures x.duplicateRows == y.duplicateRows
  {
    hide Detect, Mentions, Deduplicated, UnnamedLater, Kept;
    SameSurvivors(a, b, sa, sb, x, y);
    forall r ensures r in sa <==> r in sb {
      assert r in sa <==> r in multiset(sa);
      assert r in sb <==> r in multiset(sb);
    }
    MentionsInAnyOrder(sa, sb);
    forall m ensures m in Mentions(sa) <==> m in Mentions(sb) {
      assert m in Mentions(sa) <==> m in multiset(Mentions(sa));
      assert m in Mentions(sb) <==> m in multiset(Mentions(sb));
    }
    SameConflicts(Mentions(sa), Mentions(sb));
  }

  /** It changes the number of ambiguous rows exactly when another number of mentions is passed over. */
  lemma {:induction false} AmbiguousRowsInAnyOrder(a: seq<ImportRecord>, b: seq<ImportRecord>, sa: seq<ImportRecord>,
                                                   sb: seq<ImportRecord>, x: Batch, y: Batch, keys: seq<Key>)
    requires multiset(a) == multiset(b) && Prepared(a, sa, x) && Prepared(b, sb, y)
    requires Lists(keys, Mentions(sa))
    ensures x.ambiguousRows == y.ambiguousRows
       <==> PassedOverAll(Mentions(sa), keys) == PassedOverAll(Mentions(sb), keys)
  {
    hide Detect, Mentions, Deduplicated, PassedOverAll;
    SameSurvivors(a, b, sa, sb, x, y);
    AmbiguousCountInAnyOrder(sa, sb, keys);
  }

  /** With identifiers present there is no such absence. */
  lemma {:induction false} NamedStayNamed(records: seq<ImportRecord>, alias: Key)
    requires forall r | r in records :: r.homeTeam.externalId != "" && r.awayTeam.externalId != ""
    ensures Named(Mentions(records)) && !UnnamedLater(Mentions(records), alias)
  {
    hide Mentions;
    forall m | m in Mentions(records) ensures m.id != "" { MentionMembers(records, m); }
  }

  /** An absent identifier seen first is overwritten: of two records one order has the conflict and the other none. */
  lemma {:induction false} EmptyIdentifierHidesConflict(none: Team, y: Team, other: Team)
    requires none.externalId == "" && y.externalId != ""
    requires none.normalizedAlias == y.normalizedAlias != other.normalizedAlias
    ensures
      var first, second := ImportRecord("p", "1", none, other, ""), ImportRecord("p", "2", y, other, "");
      && Ambiguous(Mentions([first, second]), Key("p", y.externalId))
      && Key("p", y.externalId) !in Detect(Mentions([first, second])).conflicts
      && Key("p", y.externalId) in Detect(Mentions([second, first])).conflicts
  {
    var first, second := ImportRecord("p", "1", none, other, ""), ImportRecord("p", "2", y, other, "");
    var mn, my, mo := MentionOf(first, none), MentionOf(second, y), MentionOf(first, other);
    TwoRecords(first, second);
    TwoRecords(second, first);
    assert Mentions([first, second])[0] == mn && Mentions([first, second])[2] == my && Clash(my, mn);
    hide Detect, Mentions;
    AbsentFirst(mn, my, mo);
    AbsentLater(mn, my, mo);
  }

  lemma {:induction false} AbsentFirst(mn: Mention, my: Mention, mo: Mention)
    requires mn.id == "" != my.id && AliasOf(mn) == AliasOf(my) != AliasOf(mo)
    ensures TeamOf(my) !in Detect([mn, mo] + [my, mo]).conflicts
  {
    TwoMore([], mn, mo);
    TwoMore([mn, mo], my, mo);
    assert [] + [mn, mo] == [mn, mo];
  }

  lemma {:induction false} AbsentLater(mn: Mention, my: Mention, mo: Mention)
    requires mn.id == "" != my.id && AliasOf(mn) == AliasOf(my) != AliasOf(mo)
    ensures TeamOf(my) in Detect([my, mo] + [mn, mo]).conflicts
  {
    TwoMore([], my, mo);
    TwoMore([my, mo], mn, mo);
    assert [] + [my, mo] == [my, mo];
  }

  lemma {:induction false} TwoRecords(a: ImportRecord, b: ImportRecord)
    ensures Mentions([a, b]) ==
      [MentionOf(a, a.homeTeam), MentionOf(a, a.awayTeam)] + [MentionOf(b, b.homeTeam), MentionOf(b, b.awayTeam)]
  {
    assert [a, b] == [a] + [b];
    MentionsConcat([a], [b]);
    OneRecord(a);
    OneRecord(b);
  }

  // ---------------------------------------------------------------- the order of what is kept

  function IsKept(conflicts: set<Key>): ImportRecord -> bool {
    (r: ImportRecord) =>
      && Key(r.sourceProvider, r.homeTeam.externalId) !in conflicts
      && Key(r.sourceProvider, r.awayTeam.externalId) !in conflicts
  }

  lemma {:induction false} CountFirst(records: seq<ImportRecord>, p: ImportRecord -> bool)
    requires records != []
    ensures CountIf(records, p) == (if p(records[0]) then 1 else 0) + CountIf(records[1..], p)
  {
    assert records == [records[0]] + records[1..];
    CountConcat([records[0]], records[1..], p);
    assert [records[0]][..0] == [];
  }

  lemma {:induction false} KeptReads(conflicts: set<Key>, r: ImportRecord)
    ensures Kept(conflicts, r) <==> IsKept(conflicts)(r)
  {
  }

  lemma {:induction false} FilterLength(records: seq<ImportRecord>, conflicts: set<Key>)
    ensures |Filter(records, conflicts)| == CountIf(records, IsKept(conflicts))
  {
    hide Kept, IsKept, CountIf;
    if records != [] {
      FilterLength(records[1..], conflicts);
      CountFirst(records, IsKept(conflicts));
      KeptReads(conflicts, records[0]);
    } else {
      NothingKept(conflicts);
    }
  }

  lemma {:induction false} NothingKept(conflicts: set<Key>)
    ensures CountIf([], IsKept(conflicts)) == 0
  {
  }

  lemma {:induction false} PrefixCount(records: seq<ImportRecord>, i: nat, p: ImportRecord -> bool)
    requires i < |records| && p(records[i])
    ensures CountIf(records[..i], p) < CountIf(records, p)
  {
    assert records == records[..i + 1] + records[i + 1..];
    CountConcat(records[..i + 1], records[i + 1..], p);
    assert records[..i + 1][..i] == records[..i];
  }

  /** The filter keeps every record without a contested team, in its place among those kept. */
  lemma {:induction false} FilterKeepsOrder(records: seq<ImportRecord>, conflicts: set<Key>, i: nat)
    requires i < |records| && IsKept(conflicts)(records[i])
    ensures |Filter(records, conflicts)| == CountIf(records, IsKept(conflicts))
    ensures CountIf(records[..i], IsKept(conflicts)) < |Filter(records, conflicts)|
    ensures Filter(records, conflicts)[CountIf(records[..i], IsKept(conflicts))] == records[i]
  {
    hide Kept, IsKept, CountIf;
    FilterLength(records, conflicts);
    PrefixCount(records, i, IsKept(conflicts));
    KeptReads(conflicts, records[0]);
    if i == 0 {
      assert records[..0] == [];
      NothingKept(conflicts);
    } else {
      FilterKeepsOrder(records[1..], conflicts, i - 1);
      CountFirst(records[..i], IsKept(conflicts));
      assert records[..i][1..] == records[1..][..i - 1];
    }
  }

  /** How many issues have this code. */
  function Issues(issues: seq<Issue>, code: Code): nat {
    if issues == [] then 0 else (if issues[0].code == code then 1 else 0) + Issues(issues[1..], code)
  }

  lemma {:induction false} IssuesSnoc(issues: seq<Issue>, issue: Issue, code: Code)
    ensures Issues(issues + [issue], code) == Issues(issues, code) + (if issue.code == code then 1 else 0)
  {
    if issues == [] {
      assert [issue][1..] == [];
    } else {
      IssuesSnoc(issues[1..], issue, code);
      assert (issues + [issue])[1..] == issues[1..] + [issue];
    }
  }

  /** Rejected are the issues that are not plain duplicates. */
  lemma {:induction false} RejectedMeans(issues: seq<Issue>)
    ensures Rejected(issues) == Issues(issues, DuplicateConflict) + Issues(issues, AmbiguousAlias)
    ensures Rejected(issues) + Issues(issues, Duplicate) == |issues|
  {
    if issues != [] {
      var n := |issues| - 1;
      RejectedMeans(issues[..n]);
      assert issues == issues[..n] + [issues[n]];
      IssuesSnoc(issues[..n], issues[n], Duplicate);
      IssuesSnoc(issues[..n], issues[n], DuplicateConflict);
      IssuesSnoc(issues[..n], issues[n], AmbiguousAlias);
    }
  }

  /** One issue for every counted duplicate. */
  lemma {:induction false} OneIssueEach(records: seq<ImportRecord>)
    ensures |IssuesOf(records)| == |records| - |KeysOf(records)|
  {
    if records != [] {
      var n := |records| - 1;
      OneIssueEach(records[..n]);
      assert records == records[..n] + [records[n]];
      NewKey(records[..n], records[n]);
    }
  }
}
