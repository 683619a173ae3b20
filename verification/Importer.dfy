/** Deduplication of imported records and removal of ambiguous teams (backend/src/import/localStateImporter.ts). */
module Importer {
  import opened Records

  datatype Team = Team(externalId: string, alias: string, normalizedAlias: string)

  /** A normalised record; `content` stands for every other serialised field. */
  datatype ImportRecord = ImportRecord(sourceProvider: string, externalId: string, homeTeam: Team, awayTeam: Team,
                                       content: string)

  /** The provider and identifier of a record or a team. */
  datatype Key = Key(provider: string, id: string)

  function KeyOf(r: ImportRecord): Key { Key(r.sourceProvider, r.externalId) }

  datatype Code = Duplicate | DuplicateConflict | AmbiguousAlias

  datatype Issue = Issue(source: string, code: Code)

  // ---------------------------------------------------------------- deduplication

  /** All records under the key are the same record. */
  ghost predicate Uncontested(records: seq<ImportRecord>, k: Key) {
    forall a, b | a in records && b in records && KeyOf(a) == k && KeyOf(b) == k :: a == b
  }

  function KeysOf(records: seq<ImportRecord>): set<Key> { set r | r in records :: KeyOf(r) }

  ghost predicate DistinctKeys(records: seq<ImportRecord>) {
    forall i, j | 0 <= i < j < |records| :: KeyOf(records[i]) != KeyOf(records[j])
  }

  /** What deduplication promises. */
  ghost predicate Deduplicated(records: seq<ImportRecord>, survivors: seq<ImportRecord>, duplicates: int) {
    && (forall r :: r in survivors <==> r in records && Uncontested(records, KeyOf(r)))
    && DistinctKeys(survivors)
    && duplicates == |records| - |KeysOf(records)|
  }

  /** Lookup in the map from keys to records, kept in insertion order. */
  function Find(entries: seq<ImportRecord>, k: Key): (r: Option<ImportRecord>)
    ensures r.Some? ==> r.value in entries && KeyOf(r.value) == k
    ensures r.None? ==> forall e | e in entries :: KeyOf(e) != k
  {
    if entries == [] then None
    else if KeyOf(entries[0]) == k then Some(entries[0])
    else Find(entries[1..], k)
  }

  function Delete(entries: seq<ImportRecord>, k: Key): (r: seq<ImportRecord>)
    ensures forall e :: e in r <==> e in entries && KeyOf(e) != k
    ensures DistinctKeys(entries) ==> DistinctKeys(r)
  {
    if entries == [] then []
    else
      var rest := Delete(entries[1..], k);
      if KeyOf(entries[0]) == k then rest else [entries[0]] + rest
  }

  lemma {:induction false} OneMore(records: seq<ImportRecord>, r: ImportRecord, k: Key)
    ensures Uncontested(records + [r], k)
       <==> Uncontested(records, k) && (KeyOf(r) == k ==> forall a | a in records && KeyOf(a) == k :: a == r)
    ensures KeysOf(records + [r]) == KeysOf(records) + {KeyOf(r)}
  {
    assert forall a :: a in records + [r] <==> a in records || a == r;
    if Uncontested(records + [r], k) {
      forall a | a in records && KeyOf(a) == k && KeyOf(r) == k ensures a == r {
        assert a in records + [r] && r in records + [r];
      }
    }
  }

  lemma {:induction false} NewKey(records: seq<ImportRecord>, r: ImportRecord)
    ensures |KeysOf(records + [r])| == |KeysOf(records)| + (if KeyOf(r) in KeysOf(records) then 0 else 1)
  {
    OneMore(records, r, KeyOf(r));
    if KeyOf(r) in KeysOf(records) { assert KeysOf(records) + {KeyOf(r)} == KeysOf(records); }
  }

  /** The state of the scan after `records`. */
  ghost predicate Scanned(records: seq<ImportRecord>, byKey: seq<ImportRecord>, conflicting: set<Key>,
        duplicates: int) {
    Deduplicated(records, byKey, duplicates) && forall k :: k in conflicting <==> !Uncontested(records, k)
  }

  lemma {:induction false} ScanContested(records: seq<ImportRecord>, r: ImportRecord, byKey: seq<ImportRecord>,
                                         conflicting: set<Key>, duplicates: int)
    requires Scanned(records, byKey, conflicting, duplicates) && KeyOf(r) in conflicting
    ensures Scanned(records + [r], byKey, conflicting, duplicates + 1)
  {
    NewKey(records, r);
    forall k ensures Uncontested(records + [r], k) <==> Uncontested(records, k) { OneMore(records, r, k); }
  }

  /** A key that is neither kept nor contested has not occurred. */
  lemma {:induction false} NotSeen(records: seq<ImportRecord>, byKey: seq<ImportRecord>, conflicting: set<Key>,
                                   duplicates: int, k: Key)
    requires Scanned(records, byKey, conflicting, duplicates) && k !in conflicting
             && forall e | e in byKey :: KeyOf(e) != k
    ensures forall a | a in records :: KeyOf(a) != k
    ensures k !in KeysOf(records)
  {
    assert forall a | a in records && KeyOf(a) == k :: a in byKey;
  }

  lemma {:induction false} ScanNew(records: seq<ImportRecord>, r: ImportRecord, byKey: seq<ImportRecord>,
                                   conflicting: set<Key>, duplicates: int)
    requires Scanned(records, byKey, conflicting, duplicates) && KeyOf(r) !in conflicting
             && forall e | e in byKey :: KeyOf(e) != KeyOf(r)
    ensures Scanned(records + [r], byKey + [r], conflicting, duplicates)
  {
    NewKey(records, r);
    hide Uncontested, KeysOf;
    NotSeen(records, byKey, conflicting, duplicates, KeyOf(r));
    forall k ensures Uncontested(records + [r], k) <==> Uncontested(records, k) { OneMore(records, r, k); }
    forall x ensures x in byKey + [r] <==> x in records + [r] && Uncontested(records + [r], KeyOf(x)) {
      assert x in byKey + [r] <==> x in byKey || x == r;
      assert x in records + [r] <==> x in records || x == r;
    }
  }

  lemma {:induction false} ScanSame(records: seq<ImportRecord>, r: ImportRecord, byKey: seq<ImportRecord>,
                                    conflicting: set<Key>, duplicates: int)
    requires Scanned(records, byKey, conflicting, duplicates) && r in byKey
    ensures Scanned(records + [r], byKey, conflicting, duplicates + 1)
  {
    NewKey(records, r);
    forall k ensures Uncontested(records + [r], k) <==> Uncontested(records, k) { OneMore(records, r, k); }
  }

  lemma {:induction false} ScanConflict(records: seq<ImportRecord>, r: ImportRecord, previous: ImportRecord,
        byKey: seq<ImportRecord>,
                                        conflicting: set<Key>, duplicates: int)
    requires Scanned(records, byKey, conflicting, duplicates) && previous in byKey && KeyOf(previous) == KeyOf(r)
             && previous != r
    ensures Scanned(records + [r], Delete(byKey, KeyOf(r)), conflicting + {KeyOf(r)}, duplicates + 1)
  {
    NewKey(records, r);
    forall k ensures Uncontested(records + [r], k) <==> Uncontested(records, k) && k != KeyOf(r) {
      OneMore(records, r, k);
    }
  }

  /** The keys under which different records occur. */
  ghost function ContestedKeys(records: seq<ImportRecord>): set<Key> {
    set k | k in KeysOf(records) && !Uncontested(records, k)
  }

  /** The first record of every key outside `contested`, in order of appearance. */
  function FirstOfEach(records: seq<ImportRecord>, contested: set<Key>): seq<ImportRecord> {
    if records == [] then []
    else
      var n := |records| - 1;
      var r := records[n];
      FirstOfEach(records[..n], contested)
      + (if KeyOf(r) in KeysOf(records[..n]) || KeyOf(r) in contested then [] else [r])
  }

  lemma {:induction false} FirstOfOneMore(records: seq<ImportRecord>, r: ImportRecord, contested: set<Key>)
    ensures FirstOfEach(records + [r], contested)
         == if KeyOf(r) in KeysOf(records) || KeyOf(r) in contested then FirstOfEach(records, contested)
            else FirstOfEach(records, contested) + [r]
  {
    hide KeysOf;
    assert (records + [r])[..|records|] == records;
    assert FirstOfEach(records, contested) + [] == FirstOfEach(records, contested);
  }

  lemma {:induction false} DeleteSnoc(entries: seq<ImportRecord>, e: ImportRecord, k: Key)
    ensures Delete(entries + [e], k) == Delete(entries, k) + (if KeyOf(e) == k then [] else [e])
  {
    hide DistinctKeys, KeyOf;
    if entries == [] {
      assert [e][1..] == [];
    } else {
      DeleteSnoc(entries[1..], e, k);
      assert (entries + [e])[1..] == entries[1..] + [e];
    }
  }

  lemma {:induction false} DeleteNothing(k: Key)
    ensures Delete([], k) == []
  {
  }

  /** Contesting one more key deletes its record and moves no other. */
  lemma {:induction false} ContestOneMore(records: seq<ImportRecord>, contested: set<Key>, k: Key)
    ensures FirstOfEach(records, contested + {k}) == Delete(FirstOfEach(records, contested), k)
  {
    hide DistinctKeys, KeysOf, KeyOf, Delete;
    if records != [] {
      var n := |records| - 1;
      var before := FirstOfEach(records[..n], contested);
      ContestOneMore(records[..n], contested, k);
      DeleteSnoc(before, records[n], k);
      assert before + [] == before && Delete(before, k) + [] == Delete(before, k);
    } else {
      DeleteNothing(k);
    }
  }

  /** One issue for every record whose key occurred before: a plain duplicate as long as the key is uncontested. */
  ghost function IssuesOf(records: seq<ImportRecord>): seq<Issue> {
    if records == [] then []
    else
      var n := |records| - 1;
      var r := records[n];
      IssuesOf(records[..n])
      + (if KeyOf(r) !in KeysOf(records[..n]) then []
         else [Issue(r.sourceProvider, if Uncontested(records, KeyOf(r)) then Duplicate else DuplicateConflict)])
  }

  lemma {:induction false} NextIssue(records: seq<ImportRecord>, r: ImportRecord, byKey: seq<ImportRecord>,
                                     conflicting: set<Key>, duplicates: int)
    requires Scanned(records, byKey, conflicting, duplicates)
    ensures IssuesOf(records + [r])
         == IssuesOf(records)
            + (if KeyOf(r) in conflicting then [Issue(r.sourceProvider, DuplicateConflict)]
               else if Find(byKey, KeyOf(r)).None? then []
               else [Issue(r.sourceProvider, if Find(byKey, KeyOf(r)).value == r then Duplicate
                     else DuplicateConflict)])
  {
    var all := records + [r];
    assert all[..|all| - 1] == records;
    OneMore(records, r, KeyOf(r));
    if KeyOf(r) in conflicting {
      ContestedSeen(records, KeyOf(r));
    } else if Find(byKey, KeyOf(r)).None? {
      NotSeen(records, byKey, conflicting, duplicates, KeyOf(r));
    } else {
      assert Find(byKey, KeyOf(r)).value in records;
    }
  }

  lemma {:induction false} ContestedSeen(records: seq<ImportRecord>, k: Key)
    requires !Uncontested(records, k)
    ensures k in KeysOf(records)
  {
  }

  method DeduplicateRecords(records: seq<ImportRecord>)
    returns (survivors: seq<ImportRecord>, duplicates: nat, issues: seq<Issue>)
    ensures Deduplicated(records, survivors, duplicates)
    ensures survivors == FirstOfEach(records, ContestedKeys(records))
    ensures issues == IssuesOf(records)
  {
    hide Deduplicated, Uncontested, IssuesOf, FirstOfEach, ContestedKeys;
    survivors, duplicates, issues := [], 0, [];
    var conflicting: set<Key> := {};
    NothingScanned();
    assert records[..0] == [];
    for i := 0 to |records|
      invariant Scanned(records[..i], survivors, conflicting, duplicates)
      invariant survivors == FirstOfEach(records[..i], conflicting)
      invariant issues == IssuesOf(records[..i])
    {
      var r := records[i];
      var key := KeyOf(r);
      assert records[..i + 1] == records[..i] + [r];
      NextIssue(records[..i], r, survivors, conflicting, duplicates);
      FirstOfOneMore(records[..i], r, conflicting);
      if key in conflicting {
        ScanContested(records[..i], r, survivors, conflicting, duplicates);
        duplicates := duplicates + 1;
        issues := issues + [Issue(r.sourceProvider, DuplicateConflict)];
      } else {
        var previous := Find(survivors, key);
        if previous.None? {
          NotSeen(records[..i], survivors, conflicting, duplicates, key);
          ScanNew(records[..i], r, survivors, conflicting, duplicates);
          survivors := survivors + [r];
        } else if previous.value != r {
          ScanConflict(records[..i], r, previous.value, survivors, conflicting, duplicates);
          ContestOneMore(records[..i + 1], conflicting, key);
          SurvivorSeen(records[..i], previous.value, survivors, conflicting, duplicates);
          duplicates := duplicates + 1;
          issues := issues + [Issue(r.sourceProvider, DuplicateConflict)];
          survivors := Delete(survivors, key);
          conflicting := conflicting + {key};
        } else {
          ScanSame(records[..i], r, survivors, conflicting, duplicates);
          SurvivorSeen(records[..i], r, survivors, conflicting, duplicates);
          duplicates := duplicates + 1;
          issues := issues + [Issue(r.sourceProvider, Duplicate)];
        }
      }
    }
    assert records[..|records|] == records;
    ContestedAtEnd(records, survivors, conflicting, duplicates);
  }

  lemma {:induction false} SurvivorSeen(records: seq<ImportRecord>, r: ImportRecord, byKey: seq<ImportRecord>,
                                        conflicting: set<Key>, duplicates: int)
    requires Scanned(records, byKey, conflicting, duplicates) && r in byKey
    ensures KeyOf(r) in KeysOf(records)
  {
  }

  lemma {:induction false} ContestedAtEnd(records: seq<ImportRecord>, byKey: seq<ImportRecord>, conflicting: set<Key>,
                                          duplicates: int)
    requires Scanned(records, byKey, conflicting, duplicates)
    ensures Deduplicated(records, byKey, duplicates) && conflicting == ContestedKeys(records)
  {
    forall k ensures k in conflicting <==> k in ContestedKeys(records) {
      if !Uncontested(records, k) { ContestedSeen(records, k); }
    }
  }

  lemma {:induction false} NothingScanned()
    ensures Scanned([], [], {}, 0) && IssuesOf([]) == [] && FirstOfEach([], {}) == []
  {
  }

  // ---------------------------------------------------------------- ambiguous aliases

  /** A team named by a record. */
  datatype Mention = Mention(provider: string, alias: string, id: string)

  function MentionOf(r: ImportRecord, team: Team): Mention {
    Mention(r.sourceProvider, team.normalizedAlias, team.externalId)
  }

  function TeamOf(m: Mention): Key { Key(m.provider, m.id) }

  function AliasOf(m: Mention): Key { Key(m.provider, m.alias) }

  /** Home and away of every record, in order. */
  function Mentions(records: seq<ImportRecord>): seq<Mention> {
    if records == [] then []
    else
      var r := records[|records| - 1];
      Mentions(records[..|records| - 1]) + [MentionOf(r, r.homeTeam), MentionOf(r, r.awayTeam)]
  }

  datatype Detection = Detection(aliases: map<Key, string>, conflicts: set<Key>, count: nat)

  /** One mention; an empty identifier on record counts as none. */
  function Note(d: Detection, m: Mention): Detection {
    if AliasOf(m) in d.aliases && d.aliases[AliasOf(m)] != "" && d.aliases[AliasOf(m)] != m.id then
      d.(conflicts := d.conflicts + {Key(m.provider, d.aliases[AliasOf(m)]), TeamOf(m)}, count := d.count + 1)
    else d.(aliases := d.aliases[AliasOf(m) := m.id])
  }

  function Detect(mentions: seq<Mention>): Detection {
    if mentions == [] then Detection(map[], {}, 0)
      else Note(Detect(mentions[..|mentions| - 1]), mentions[|mentions| - 1])
  }

  method NoteTeam(d: Detection, r: ImportRecord, team: Team) returns (next: Detection, issues: seq<Issue>)
    ensures next == Note(d, MentionOf(r, team)) && |issues| == next.count - d.count
  {
    var key := Key(r.sourceProvider, team.normalizedAlias);
    var conflicts, count, aliases := d.conflicts, d.count, d.aliases;
    issues := [];
    if key in aliases && aliases[key] != "" && aliases[key] != team.externalId {
      count := count + 1;
      conflicts := conflicts + {Key(r.sourceProvider, aliases[key])};
      conflicts := conflicts + {Key(r.sourceProvider, team.externalId)};
      issues := [Issue(r.sourceProvider, AmbiguousAlias)];
    } else {
      aliases := aliases[key := team.externalId];
    }
    next := Detection(aliases, conflicts, count);
    assert conflicts == next.conflicts == Note(d, MentionOf(r, team)).conflicts;
  }

  method DetectAmbiguousAliases(records: seq<ImportRecord>)
    returns (count: nat, conflicts: set<Key>, issues: seq<Issue>)
    ensures Detect(Mentions(records)).conflicts == conflicts && Detect(Mentions(records)).count == count == |issues|
  {
    hide Note;
    var d := Detection(map[], {}, 0);
    issues := [];
    for i := 0 to |records|
      invariant Detect(Mentions(records[..i])) == d && d.count == |issues|
    {
      var r := records[i];
      assert records[..i + 1][..i] == records[..i];
      ghost var before, home, away := Mentions(records[..i]), MentionOf(r, r.homeTeam), MentionOf(r, r.awayTeam);
      TwoMore(before, home, away);
      var teams := [r.homeTeam, r.awayTeam];
      for t := 0 to 2
        invariant d
                  == (if t == 0 then Detect(before) else if t == 1 then Note(Detect(before), home)
                      else Note(Note(Detect(before), home), away))
        invariant d.count == |issues|
      {
        var found;
        d, found := NoteTeam(d, r, teams[t]);
        issues := issues + found;
      }
    }
    assert records[..|records|] == records;
    count, conflicts := d.count, d.conflicts;
  }

  lemma {:induction false} TwoMore(before: seq<Mention>, home: Mention, away: Mention)
    ensures Detect(before + [home, away]) == Note(Note(Detect(before), home), away)
  {
    hide Note;
    var all := before + [home, away];
    assert all[..|all| - 1] == before + [home] && (before + [home])[..|before|] == before;
    assert Detect(before + [home]) == Note(Detect(before), home);
  }

  /** Two mentions that give one alias to different teams. */
  predicate Clash(m: Mention, n: Mention) { AliasOf(m) == AliasOf(n) && m.id != n.id }

  /** The team of the mention shares an alias with another team. */
  ghost predicate Ambiguous(mentions: seq<Mention>, k: Key) {
    exists m, n | m in mentions && n in mentions :: Clash(m, n) && TeamOf(m) == k
  }

  predicate Named(mentions: seq<Mention>) { forall m | m in mentions :: m.id != "" }

  /** The first mention of its alias that carries an identifier. */
  ghost predicate Leads(mentions: seq<Mention>, i: int) {
    && 0 <= i < |mentions| && mentions[i].id != ""
    && forall h | 0 <= h < i && AliasOf(mentions[h]) == AliasOf(mentions[i]) :: mentions[h].id == ""
  }

  /** Mention `j` gives another identifier to the alias that mention `i` was the first to name. */
  ghost predicate Contests(mentions: seq<Mention>, i: int, j: int) {
    0 <= i < j < |mentions| && Leads(mentions, i) && Clash(mentions[i], mentions[j])
  }

  /** The team is one of such a pair. */
  ghost predicate Contested(mentions: seq<Mention>, k: Key) {
    exists i, j :: Contests(mentions, i, j) && (TeamOf(mentions[i]) == k || TeamOf(mentions[j]) == k)
  }

  /** Whether the mention contradicts what is on record for its alias. */
  predicate Raises(d: Detection, m: Mention) {
    AliasOf(m) in d.aliases && d.aliases[AliasOf(m)] != "" && d.aliases[AliasOf(m)] != m.id
  }

  /** On record for an alias is nothing, an empty identifier as long as there was no other, or the leading team. */
  ghost predicate OnRecord(mentions: seq<Mention>, d: Detection, alias: Key) {
    if alias !in d.aliases then forall i | 0 <= i < |mentions| :: AliasOf(mentions[i]) != alias
    else if d.aliases[alias] == "" then
      forall i | 0 <= i < |mentions| && AliasOf(mentions[i]) == alias :: mentions[i].id == ""
    else exists i :: Leads(mentions, i) && AliasOf(mentions[i]) == alias && mentions[i].id == d.aliases[alias]
  }

  lemma {:induction false} LeadsEarlier(mentions: seq<Mention>, m: Mention, i: int)
    requires 0 <= i < |mentions|
    ensures Leads(mentions + [m], i) <==> Leads(mentions, i)
  {
    assert forall h | 0 <= h <= i :: (mentions + [m])[h] == mentions[h];
  }

  lemma {:induction false} RecordStep(mentions: seq<Mention>, d: Detection, m: Mention, alias: Key)
    requires OnRecord(mentions, d, alias)
    ensures OnRecord(mentions + [m], Note(d, m), alias)
  {
    var all := mentions + [m];
    if alias in d.aliases && d.aliases[alias] != "" {
      var i :| Leads(mentions, i) && AliasOf(mentions[i]) == alias && mentions[i].id == d.aliases[alias];
      LeadsEarlier(mentions, m, i);
    } else if AliasOf(m) == alias && m.id != "" {
      assert Leads(all, |mentions|);
    }
  }

  lemma {:induction false} OneLead(mentions: seq<Mention>, i: int, j: int)
    requires Leads(mentions, i) && Leads(mentions, j) && AliasOf(mentions[i]) == AliasOf(mentions[j])
    ensures i == j
  {
  }

  /** A mention contests its alias exactly when the scan raises a conflict at it. */
  lemma {:induction false} RaisesIffContests(mentions: seq<Mention>, d: Detection, m: Mention)
    requires OnRecord(mentions, d, AliasOf(m))
    ensures Raises(d, m) <==> exists i :: Contests(mentions + [m], i, |mentions|)
    ensures forall i | Contests(mentions + [m], i, |mentions|) :: mentions[i].id == d.aliases[AliasOf(m)]
  {
    var all, n, alias := mentions + [m], |mentions|, AliasOf(m);
    if alias in d.aliases && d.aliases[alias] != "" {
      var i :| Leads(mentions, i) && AliasOf(mentions[i]) == alias && mentions[i].id == d.aliases[alias];
      LeadsEarlier(mentions, m, i);
      if Raises(d, m) { assert Contests(all, i, n); }
      forall k | Contests(all, k, n) ensures k == i { OneLead(all, k, i); }
    }
  }

  lemma {:induction false} ContestedGrows(mentions: seq<Mention>, m: Mention, k: Key)
    ensures Contested(mentions + [m], k) <==>
      || Contested(mentions, k)
      || exists i :: Contests(mentions + [m], i, |mentions|) && (TeamOf(mentions[i]) == k || TeamOf(m) == k)
  {
    hide Leads, TeamOf, Clash;
    var all, n := mentions + [m], |mentions|;
    assert all[n] == m;
    if Contested(mentions, k) {
      var i, j :| Contests(mentions, i, j) && (TeamOf(mentions[i]) == k || TeamOf(mentions[j]) == k);
      LeadsEarlier(mentions, m, i);
      assert Contests(all, i, j);
    }
    if Contested(all, k) {
      var i, j :| Contests(all, i, j) && (TeamOf(all[i]) == k || TeamOf(all[j]) == k);
      if j < n {
        LeadsEarlier(mentions, m, i);
        assert Contests(mentions, i, j);
      }
    }
  }

  /** The conflicts are exactly the teams of an alias that its leading team and a later mention contest. */
  lemma {:induction false} ConflictsAreExact(mentions: seq<Mention>, k: Key)
    ensures forall alias :: OnRecord(mentions, Detect(mentions), alias)
    ensures k in Detect(mentions).conflicts <==> Contested(mentions, k)
  {
    if mentions != [] {
      hide OnRecord, Contested, Contests, Raises;
      var n := |mentions| - 1;
      var before, m := mentions[..n], mentions[n];
      assert mentions == before + [m];
      ConflictsAreExact(before, k);
      forall alias ensures OnRecord(mentions, Detect(mentions), alias) { RecordStep(before, Detect(before), m, alias); }
      RaisesIffContests(before, Detect(before), m);
      ContestedGrows(before, m, k);
      NoteConflicts(Detect(before), m, k);
    }
  }

  lemma {:induction false} NoteConflicts(d: Detection, m: Mention, k: Key)
    ensures k in Note(d, m).conflicts <==>
      k in d.conflicts || (Raises(d, m) && (k == Key(m.provider, d.aliases[AliasOf(m)]) || k == TeamOf(m)))
  {
  }

  /** With identifiers present, these are all the teams that share an alias with another team. */
  lemma {:induction false} NamedConflicts(mentions: seq<Mention>, k: Key)
    requires Named(mentions)
    ensures k in Detect(mentions).conflicts <==> Ambiguous(mentions, k)
  {
    hide Detect;
    ConflictsAreExact(mentions, k);
    if Ambiguous(mentions, k) {
      var m, n :| m in mentions && n in mentions && Clash(m, n) && TeamOf(m) == k;
      var x, y :| 0 <= x < |mentions| && mentions[x] == m && 0 <= y < |mentions| && mentions[y] == n;
      var i := FirstNamed(mentions, x);
      if mentions[i].id != m.id {
        assert Contests(mentions, i, x);
      } else {
        var j := FirstNamed(mentions, y);
        OneLead(mentions, i, j);
        assert Contests(mentions, i, y);
      }
    }
    if Contested(mentions, k) {
      var i, j :| Contests(mentions, i, j) && (TeamOf(mentions[i]) == k || TeamOf(mentions[j]) == k);
      assert Clash(mentions[i], mentions[j]) && Clash(mentions[j], mentions[i]);
    }
  }

  /** The leading mention of the alias of a mention that carries an identifier. */
  lemma {:induction false} FirstNamed(mentions: seq<Mention>, x: nat) returns (i: nat)
    requires x < |mentions| && mentions[x].id != ""
    ensures i <= x && Leads(mentions, i) && AliasOf(mentions[i]) == AliasOf(mentions[x])
  {
    i := x;
    if h :| 0 <= h < x && AliasOf(mentions[h]) == AliasOf(mentions[x]) && mentions[h].id != "" {
      i := FirstNamed(mentions, h);
    }
  }

  /** How many conflicts are raised for an alias. */
  function Raised(mentions: seq<Mention>, alias: Key): nat {
    if mentions == [] then 0
    else
      var n := |mentions| - 1;
      Raised(mentions[..n], alias)
      + (if AliasOf(mentions[n]) == alias && Raises(Detect(mentions[..n]), mentions[n]) then 1 else 0)
  }

  /** A named team of the alias is followed by a different identifier. */
  ghost predicate Contradicted(mentions: seq<Mention>, alias: Key) {
    exists i, j | 0 <= i < j < |mentions| ::
      AliasOf(mentions[i]) == alias && AliasOf(mentions[j]) == alias && mentions[i].id != ""
        && mentions[i].id != mentions[j].id
  }

  lemma {:induction false} ContradictionGrows(mentions: seq<Mention>, d: Detection, m: Mention, alias: Key)
    requires OnRecord(mentions, d, alias)
    ensures Contradicted(mentions + [m], alias)
            <==> Contradicted(mentions, alias) || (AliasOf(m) == alias && Raises(d, m))
  {
    var all, n := mentions + [m], |mentions|;
    if Contradicted(mentions, alias) {
      var i, j :| 0 <= i < j < n && AliasOf(mentions[i]) == alias && AliasOf(mentions[j]) == alias
                  && mentions[i].id != "" && mentions[i].id != mentions[j].id;
      assert all[i] == mentions[i] && all[j] == mentions[j];
    }
    if AliasOf(m) == alias && Raises(d, m) {
      var i :| Leads(mentions, i) && AliasOf(mentions[i]) == alias && mentions[i].id == d.aliases[alias];
      assert all[i] == mentions[i] && all[n] == m;
    }
    if Contradicted(all, alias) {
      var i, j :| 0 <= i < j < |all| && AliasOf(all[i]) == alias && AliasOf(all[j]) == alias && all[i].id != ""
        && all[i].id != all[j].id;
      if j == n && !Raises(d, m) { EarlierContradiction(mentions, d, i, alias, m); }
    }
  }

  /** A named team different from the one on record was contradicted before. */
  lemma {:induction false} EarlierContradiction(mentions: seq<Mention>, d: Detection, i: nat, alias: Key, m: Mention)
    requires OnRecord(mentions, d, alias) && i < |mentions| && AliasOf(mentions[i]) == alias && AliasOf(m) == alias
    requires mentions[i].id != "" && mentions[i].id != m.id && !Raises(d, m)
    ensures Contradicted(mentions, alias)
  {
    assert alias in d.aliases && d.aliases[alias] == m.id != "";
    var k :| Leads(mentions, k) && AliasOf(mentions[k]) == alias && mentions[k].id == d.aliases[alias];
    assert i < k || k < i;
  }

  /**
   * For any input, a conflict is raised for an alias exactly when a named team is followed by a
   * different identifier: empty identifiers count only after a named one.
   */
  lemma {:induction false} RaisedExactly(mentions: seq<Mention>, alias: Key)
    ensures OnRecord(mentions, Detect(mentions), alias)
    ensures Raised(mentions, alias) > 0 <==> Contradicted(mentions, alias)
  {
    hide Raises, OnRecord, Contradicted, Note;
    if mentions == [] {
      NothingOnRecord(alias);
    } else {
      var n := |mentions| - 1;
      assert mentions == mentions[..n] + [mentions[n]];
      RaisedExactly(mentions[..n], alias);
      RecordStep(mentions[..n], Detect(mentions[..n]), mentions[n], alias);
      ContradictionGrows(mentions[..n], Detect(mentions[..n]), mentions[n], alias);
    }
  }

  lemma {:induction false} NothingOnRecord(alias: Key)
    ensures OnRecord([], Detect([]), alias) && !Contradicted([], alias)
  {
  }

  /** Two identifiers of an alias go unnoticed exactly when all the empty ones come first and only one team is named. */
  lemma {:induction false} MissedExactly(mentions: seq<Mention>, alias: Key)
    ensures (exists i, j | 0 <= i < j < |mentions| :: AliasOf(mentions[i]) == alias && Clash(mentions[i], mentions[j]))
            && Raised(mentions, alias) == 0
       <==> (exists i, j | 0 <= i < j < |mentions| :: AliasOf(mentions[i]) == alias && Clash(mentions[i], mentions[j]))
            && forall i, j | 0 <= i < j < |mentions| && AliasOf(mentions[i]) == alias
              && Clash(mentions[i], mentions[j]) :: mentions[i].id == ""
  {
    RaisedExactly(mentions, alias);
    if Raised(mentions, alias) == 0 {
      forall i, j | 0 <= i < j < |mentions| && AliasOf(mentions[i]) == alias && Clash(mentions[i], mentions[j])
        ensures mentions[i].id == ""
      {
        assert !Contradicted(mentions, alias);
      }
    } else {
      var i, j :| 0 <= i < j < |mentions| && AliasOf(mentions[i]) == alias && AliasOf(mentions[j]) == alias
                  && mentions[i].id != "" && mentions[i].id != mentions[j].id;
      assert Clash(mentions[i], mentions[j]);
    }
  }

  // ---------------------------------------------------------------- the prepared batch

  predicate Kept(conflicts: set<Key>, r: ImportRecord) {
    Key(r.sourceProvider, r.homeTeam.externalId) !in conflicts
      && Key(r.sourceProvider, r.awayTeam.externalId) !in conflicts
  }

  function Filter(records: seq<ImportRecord>, conflicts: set<Key>): (r: seq<ImportRecord>)
    ensures forall x :: x in r <==> x in records && Kept(conflicts, x)
  {
    if records == [] then []
    else (if Kept(conflicts, records[0]) then [records[0]] else []) + Filter(records[1..], conflicts)
  }

  datatype Batch = Batch(records: seq<ImportRecord>, duplicateRows: nat, ambiguousRows: nat, rejectedRows: nat)

  function Rejected(issues: seq<Issue>): nat {
    if issues == [] then 0
    else Rejected(issues[..|issues| - 1]) + (if issues[|issues| - 1].code != Duplicate then 1 else 0)
  }

  /** A batch the preparation may produce from the normalised records. */
  ghost predicate Prepared(records: seq<ImportRecord>, survivors: seq<ImportRecord>, batch: Batch) {
    && Deduplicated(records, survivors, batch.duplicateRows)
    && batch.records == Filter(survivors, Detect(Mentions(survivors)).conflicts)
    && batch.ambiguousRows == Detect(Mentions(survivors)).count
  }

  /** The part of the preparation after normalisation. */
  method PrepareBatch(normalized: seq<ImportRecord>) returns (batch: Batch, ghost survivors: seq<ImportRecord>)
    ensures Prepared(normalized, survivors, batch)
    ensures survivors == FirstOfEach(normalized, ContestedKeys(normalized))
    ensures batch.rejectedRows == Rejected(IssuesOf(normalized)) + batch.ambiguousRows
  {
    hide Deduplicated;
    var kept, duplicates, issues := DeduplicateRecords(normalized);
    var count, conflicts, more := DetectAmbiguousAliases(kept);
    survivors := kept;
    batch := Batch(Filter(kept, conflicts), duplicates, count, Rejected(issues) + count);
  }
}
