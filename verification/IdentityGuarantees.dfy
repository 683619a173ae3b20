/** What identity keeps over every step and every run (backend/src/infrastructure/database/identityRepository.ts). */
module IdentityGuarantees {
  import opened Records
  import opened Identity

  // ---------------------------------------------------------------- soundness

  /** References resolve and a user has at most one row in an organisation. */
  ghost predicate Rows(ms: seq<Membership>, users: nat, organizations: nat) {
    && (forall i | 0 <= i < |ms| :: ms[i].user < users && ms[i].organization < organizations)
    && (forall i, j | 0 <= i < j < |ms| :: !(ms[i].organization == ms[j].organization && ms[i].user == ms[j].user))
  }

  ghost predicate Owned(ms: seq<Membership>, organization: nat) {
    exists i | 0 <= i < |ms| :: OwnsActively(ms[i], organization)
  }

  /** Every active organisation has an active owner, and no organisation has two. */
  ghost predicate SingleOwner(ms: seq<Membership>, organizations: seq<Organization>) {
    OneOwnerEach(ms) && forall o | 0 <= o < |organizations| && organizations[o].active :: Owned(ms, o)
  }

  ghost predicate DistinctIdentities(users: seq<User>) {
    forall i, j | 0 <= i < j < |users| ::
      !(users[i].provider == users[j].provider && users[i].subject == users[j].subject)
  }

  ghost predicate Sound(db: Db) {
    && Rows(db.memberships, |db.users|, |db.organizations|)
    && SingleOwner(db.memberships, db.organizations)
    && DistinctIdentities(db.users)
    && forall k | k in db.sessions :: db.sessions[k].user < |db.users|
  }

  // ---------------------------------------------------------------- releasing a membership

  /** A membership table after some releases: rows keep their place, nothing becomes active. */
  ghost predicate Fewer(before: seq<Membership>, after: seq<Membership>) {
    && |after| == |before|
    && forall j | 0 <= j < |before| ::
         && after[j].organization == before[j].organization && after[j].user == before[j].user
         && (after[j].active ==> before[j].active)
  }

  /** Only memberships, and the state of organisations, may differ. */
  ghost predicate SameElse(a: Db, b: Db) {
    && b.users == a.users && b.sessions == a.sessions && b.keys == a.keys && b.audit == a.audit
    && |b.organizations| == |a.organizations|
    && forall o | 0 <= o < |a.organizations| ::
         b.organizations[o].slug == a.organizations[o].slug && (b.organizations[o].active ==> a.organizations[o].active)
  }

  lemma {:induction false} ReleaseEffect(db: Db, i: nat, user: nat, replacement: Option<nat>)
    requires i < |db.memberships| && Release(db, i, user, replacement).Some?
    ensures var r := Release(db, i, user, replacement).value;
            && Fewer(db.memberships, r.memberships) && SameElse(db, r) && !r.memberships[i].active
            && forall j | 0 <= j < |db.memberships|
              && db.memberships[j].organization != db.memberships[i].organization ::
                 r.memberships[j] == db.memberships[j]
  {
    hide OneOwnerEach;
  }

  lemma {:induction false} OthersElsewhere(before: seq<Membership>, after: seq<Membership>, organization: nat,
        user: nat)
    requires Fewer(before, after)
    requires forall j | 0 <= j < |before| && before[j].organization == organization :: after[j] == before[j]
    ensures HasOthers(after, organization, user) <==> HasOthers(before, organization, user)
    ensures IsActiveMember(after, organization, user) <==> IsActiveMember(before, organization, user)
  {
    if j :| 0 <= j < |before| && before[j].active && before[j].organization == organization && before[j].user != user {
      assert after[j] == before[j];
    }
    if j :| 0 <= j < |after| && after[j].active && after[j].organization == organization && after[j].user != user {
      assert after[j] == before[j];
    }
    if j :| 0 <= j < |before| && ActiveIn(before[j], organization, user) { assert after[j] == before[j]; }
    if j :| 0 <= j < |after| && ActiveIn(after[j], organization, user) { assert after[j] == before[j]; }
  }

  /** Whether the ownership behind membership `i` can be passed on, should it need to be. */
  predicate Transferable(ms: seq<Membership>, i: nat, user: nat, replacement: Option<nat>)
    requires i < |ms|
  {
    ms[i].role == Owner && HasOthers(ms, ms[i].organization, user) ==>
      replacement.Some? && replacement.value != user && IsActiveMember(ms, ms[i].organization, replacement.value)
  }

  /** After the old owner's row is revoked, the replacement is the only owner. */
  lemma {:induction false} PromotionIsUnique(ms: seq<Membership>, users: nat, organizations: nat, i: nat,
                                             replacement: nat)
    requires Rows(ms, users, organizations) && OneOwnerEach(ms)
    requires i < |ms| && ms[i].active && ms[i].role == Owner && replacement != ms[i].user
    ensures OneOwnerEach(Promote(RevokeMembership(ms, i), ms[i].organization, replacement))
  {
    var o := ms[i].organization;
    var r := RevokeMembership(ms, i);
    var p := Promote(r, o, replacement);
    forall x, y | 0 <= x < y < |p| && OwnsActively(p[x], p[x].organization)
      ensures !OwnsActively(p[y], p[x].organization) {
      if OwnsActively(p[y], p[x].organization) && p[x].organization == o {
        OnlyOwner(ms, i, x, replacement);
        OnlyOwner(ms, i, y, replacement);
      }
    }
  }

  lemma {:induction false} OnlyOwner(ms: seq<Membership>, i: nat, x: nat, replacement: nat)
    requires OneOwnerEach(ms) && i < |ms| && x < |ms| && ms[i].active && ms[i].role == Owner
    requires OwnsActively(Promote(RevokeMembership(ms, i), ms[i].organization, replacement)[x], ms[i].organization)
    ensures x != i && ms[x].user == replacement && ms[x].organization == ms[i].organization
  {
    assert x != i ==> RevokeMembership(ms, i)[x] == ms[x];
    if x != i && !ActiveIn(ms[x], ms[i].organization, replacement) {
      assert OwnsActively(ms[x], ms[i].organization) && OwnsActively(ms[i], ms[i].organization);
    }
  }

  /** A release succeeds exactly when the ownership can be passed on, and keeps single ownership. */
  lemma {:induction false} ReleaseKeepsOwner(db: Db, i: nat, user: nat, replacement: Option<nat>)
    requires Rows(db.memberships, |db.users|, |db.organizations|) && SingleOwner(db.memberships, db.organizations)
    requires i < |db.memberships| && db.memberships[i].user == user && db.memberships[i].active
    ensures Release(db, i, user, replacement).Some? <==> Transferable(db.memberships, i, user, replacement)
    ensures Release(db, i, user, replacement).Some? ==>
              var r := Release(db, i, user, replacement).value;
              Rows(r.memberships, |r.users|, |r.organizations|) && SingleOwner(r.memberships, r.organizations)
  {
    hide OneOwnerEach, Owned;
    var ms := db.memberships;
    if ms[i].role == Owner && HasOthers(ms, ms[i].organization, user) && Transferable(ms, i, user, replacement) {
      PromotionIsUnique(ms, |db.users|, |db.organizations|, i, replacement.value);
    }
    if Release(db, i, user, replacement).Some? {
      ReleaseEffect(db, i, user, replacement);
      ReleaseKeepsRows(db, i, user, replacement);
      ReleaseKeepsOneOwner(db, i, user, replacement);
      var r := Release(db, i, user, replacement).value;
      forall o | 0 <= o < |r.organizations| && r.organizations[o].active ensures Owned(r.memberships, o) {
        StillOwned(db, i, user, replacement, o);
      }
    }
  }

  lemma {:induction false} ReleaseKeepsRows(db: Db, i: nat, user: nat, replacement: Option<nat>)
    requires Rows(db.memberships, |db.users|, |db.organizations|)
    requires i < |db.memberships| && Release(db, i, user, replacement).Some?
    ensures var r := Release(db, i, user, replacement).value; Rows(r.memberships, |r.users|, |r.organizations|)
  {
    ReleaseEffect(db, i, user, replacement);
    hide Release;
  }

  lemma {:induction false} ReleaseKeepsOneOwner(db: Db, i: nat, user: nat, replacement: Option<nat>)
    requires OneOwnerEach(db.memberships)
    requires i < |db.memberships| && Release(db, i, user, replacement).Some?
    ensures OneOwnerEach(Release(db, i, user, replacement).value.memberships)
  {
    var ms := db.memberships;
    var revoked := RevokeMembership(ms, i);
    forall x, y | 0 <= x < y < |ms| && OwnsActively(revoked[x], revoked[x].organization)
      ensures !OwnsActively(revoked[y], revoked[x].organization) {
      assert OwnsActively(ms[x], ms[x].organization);
    }
  }

  /** An organisation still open after the release has an owner. */
  lemma {:induction false} StillOwned(db: Db, i: nat, user: nat, replacement: Option<nat>, o: nat)
    requires SingleOwner(db.memberships, db.organizations)
    requires i < |db.memberships| && db.memberships[i].user == user && db.memberships[i].active
    requires Release(db, i, user, replacement).Some?
    requires o < |db.organizations| && |Release(db, i, user, replacement).value.organizations| == |db.organizations|
    requires Release(db, i, user, replacement).value.organizations[o].active && db.organizations[o].active
    ensures Owned(Release(db, i, user, replacement).value.memberships, o)
  {
    var ms := db.memberships;
    var r := Release(db, i, user, replacement).value.memberships;
    var x :| 0 <= x < |ms| && OwnsActively(ms[x], o);
    if x != i {
      // Another row owns the organisation and is not touched.
      ReleaseEffect(db, i, user, replacement);
      if ms[i].organization == o && ms[i].role == Owner { assert OwnsActively(ms[i], o); }
      assert OwnsActively(r[x], o);
    } else {
      // The row being released owns it: the replacement takes over.
      var y :| 0 <= y < |ms| && ActiveIn(ms[y], o, replacement.value);
      assert RevokeMembership(ms, i)[y] == ms[y];
      assert OwnsActively(r[y], o);
    }
  }

  // ---------------------------------------------------------------- leaving

  /** Active memberships of one user, each in an organisation of its own. */
  ghost predicate Departures(ms: seq<Membership>, ids: seq<nat>, user: nat) {
    && (forall k | 0 <= k < |ids| :: ids[k] < |ms| && ms[ids[k]].user == user && ms[ids[k]].active)
    && (forall j, k | 0 <= j < k < |ids| ::
        ids[j] < |ms| && ids[k] < |ms| && ms[ids[j]].organization != ms[ids[k]].organization)
  }

  ghost predicate OwnershipSound(db: Db) {
    Rows(db.memberships, |db.users|, |db.organizations|) && SingleOwner(db.memberships, db.organizations)
  }

  /** What releasing `ids` did to `before`. */
  ghost predicate Released(before: Db, after: Db, ids: seq<nat>)
    requires forall k | 0 <= k < |ids| :: ids[k] < |before.memberships|
  {
    && OwnershipSound(after) && Fewer(before.memberships, after.memberships) && SameElse(before, after)
    && (forall k | 0 <= k < |ids| :: !after.memberships[ids[k]].active)
    && forall j | 0 <= j < |before.memberships| ::
         (forall k | 0 <= k < |ids| :: before.memberships[ids[k]].organization != before.memberships[j].organization)
         ==> after.memberships[j] == before.memberships[j]
  }

  lemma {:induction false} NextDeparture(ms: seq<Membership>, ids: seq<nat>, user: nat)
    requires ids != [] && Departures(ms, ids, user)
    ensures Departures(ms, ids[..|ids| - 1], user)
    ensures forall k | 0 <= k < |ids| - 1 :: ms[ids[k]].organization != ms[ids[|ids| - 1]].organization
  {
  }

  lemma {:induction false} SameTransferable(before: Db, after: Db, ids: seq<nat>, i: nat, user: nat,
                                            replacement: Option<nat>)
    requires forall k | 0 <= k < |ids| :: ids[k] < |before.memberships|
    requires Released(before, after, ids) && i < |before.memberships|
    requires forall k | 0 <= k < |ids| :: before.memberships[ids[k]].organization != before.memberships[i].organization
    ensures after.memberships[i] == before.memberships[i]
    ensures Transferable(after.memberships, i, user, replacement)
            <==> Transferable(before.memberships, i, user, replacement)
  {
    hide OwnershipSound, HasOthers, IsActiveMember;
    var o := before.memberships[i].organization;
    OthersElsewhere(before.memberships, after.memberships, o, user);
    if replacement.Some? { OthersElsewhere(before.memberships, after.memberships, o, replacement.value); }
  }

  lemma {:induction false} ReleasedMore(before: Db, middle: Db, after: Db, ids: seq<nat>, i: nat)
    requires forall k | 0 <= k < |ids| :: ids[k] < |before.memberships|
    requires Released(before, middle, ids) && i < |before.memberships|
    requires OwnershipSound(after) && Fewer(middle.memberships, after.memberships) && SameElse(middle, after)
             && !after.memberships[i].active
    requires forall j | 0 <= j < |middle.memberships|
             && middle.memberships[j].organization != middle.memberships[i].organization ::
               after.memberships[j] == middle.memberships[j]
    ensures Released(before, after, ids + [i])
  {
    hide OwnershipSound;
    var all := ids + [i];
    forall j | 0 <= j < |before.memberships| && forall k | 0 <= k < |all| ::
      before.memberships[all[k]].organization != before.memberships[j].organization
      ensures after.memberships[j] == before.memberships[j]
    {
      assert all[|ids|] == i;
      forall k | 0 <= k < |ids| ensures before.memberships[ids[k]].organization != before.memberships[j].organization {
        assert all[k] == ids[k];
      }
    }
    forall k | 0 <= k < |all| ensures !after.memberships[all[k]].active {
      if k < |ids| { assert !middle.memberships[ids[k]].active; }
    }
  }

  /** The releases of one user succeed together exactly when each could on its own, and then all of them took effect. */
  lemma {:induction false} ReleaseAll(db: Db, ids: seq<nat>, user: nat, replacement: Option<nat>)
    requires OwnershipSound(db) && Departures(db.memberships, ids, user)
    ensures ReleaseFrom(db, ids, user, replacement).Some?
       <==> forall k | 0 <= k < |ids| :: Transferable(db.memberships, ids[k], user, replacement)
    ensures ReleaseFrom(db, ids, user, replacement).Some?
            ==> Released(db, ReleaseFrom(db, ids, user, replacement).value, ids)
  {
    hide Rows, SingleOwner, Release, Transferable;
    if ids != [] {
      var n := |ids| - 1;
      NextDeparture(db.memberships, ids, user);
      ReleaseAll(db, ids[..n], user, replacement);
      assert ids == ids[..n] + [ids[n]];
      var before := ReleaseFrom(db, ids[..n], user, replacement);
      if before.Some? {
        SameTransferable(db, before.value, ids[..n], ids[n], user, replacement);
        ReleaseKeepsOwner(before.value, ids[n], user, replacement);
        if Release(before.value, ids[n], user, replacement).Some? {
          ReleaseEffect(before.value, ids[n], user, replacement);
          ReleasedMore(db, before.value, Release(before.value, ids[n], user, replacement).value, ids[..n], ids[n]);
        }
      }
    }
  }

  lemma {:induction false} ActiveMembershipsDepart(db: Db, user: nat)
    requires OwnershipSound(db)
    ensures Departures(db.memberships, ActiveMemberships(db.memberships, user, |db.memberships|), user)
  {
    var ids := ActiveMemberships(db.memberships, user, |db.memberships|);
    forall j, k | 0 <= j < k < |ids|
      ensures db.memberships[ids[j]].organization != db.memberships[ids[k]].organization {
      assert ids[j] < ids[k];
    }
  }

  /** A user can leave exactly when every ownership that needs a successor has one among the other active members. */
  lemma {:induction false} LeaveSucceeds(db: Db, user: nat, replacement: Option<nat>)
    requires OwnershipSound(db)
    ensures Leave(db, user, replacement).Some?
       <==> forall i | 0 <= i < |db.memberships| && db.memberships[i].user == user && db.memberships[i].active ::
              Transferable(db.memberships, i, user, replacement)
    ensures Leave(db, user, replacement).Some? ==>
              var r := Leave(db, user, replacement).value;
              && OwnershipSound(r) && Fewer(db.memberships, r.memberships) && SameElse(db, r)
              && forall i | 0 <= i < |r.memberships| && r.memberships[i].user == user :: !r.memberships[i].active
  {
    hide OwnershipSound, Transferable, ReleaseFrom;
    var ms := db.memberships;
    var ids := ActiveMemberships(ms, user, |ms|);
    ActiveMembershipsDepart(db, user);
    ReleaseAll(db, ids, user, replacement);
    assert forall i | 0 <= i < |ms| && ms[i].user == user && ms[i].active :: i in ids;
    if Leave(db, user, replacement).Some? {
      var r := Leave(db, user, replacement).value;
      forall i | 0 <= i < |r.memberships| && r.memberships[i].user == user ensures !r.memberships[i].active {
        if ms[i].active {
          var k :| 0 <= k < |ids| && ids[k] == i;
        }
      }
    }
  }

  // ---------------------------------------------------------------- removal of an account

  /** Nothing of the user is left open: no membership, no session. */
  ghost predicate Gone(db: Db, user: nat) {
    && user < |db.users| && !db.users[user].active
    && (forall i | 0 <= i < |db.memberships| && db.memberships[i].user == user :: !db.memberships[i].active)
    && (forall k | k in db.sessions && db.sessions[k].user == user :: db.sessions[k].revoked)
  }

  lemma {:induction false} AccessRevoked(db: Db, user: nat)
    ensures forall k | k in RevokeAccess(db, user).sessions && RevokeAccess(db, user).sessions[k].user == user ::
              RevokeAccess(db, user).sessions[k].revoked
    ensures RevokeAccess(db, user).sessions.Keys == db.sessions.Keys
    ensures forall k | k in db.sessions :: RevokeAccess(db, user).sessions[k].user == db.sessions[k].user
    ensures forall k | k in db.sessions && db.sessions[k].revoked :: RevokeAccess(db, user).sessions[k].revoked
  {
  }

  lemma {:induction false} KeysRevoked(keys: seq<ApiKey>, ms: seq<Membership>, user: nat, n: nat, x: nat)
    requires n <= |ms| && x < |keys|
    ensures var r := RevokeKeysOf(keys, ms, user, n);
            && r[x].organization == keys[x].organization && r[x].creator == keys[x].creator
            && (r[x].active
                <==> keys[x].active
                     && !(keys[x].creator == user && exists i | 0 <= i < n ::
                           ms[i].user == user && ms[i].organization == keys[x].organization))
  {
    if n > 0 { KeysRevoked(keys, ms, user, n - 1, x); }
  }

  /** Deactivation keeps single ownership and leaves nothing of the user open; otherwise nothing changes. */
  lemma {:induction false} DeactivationIsSound(db: Db, actor: Actor, replacement: Option<nat>)
    requires Sound(db)
    ensures Sound(DeactivateAccount(db, actor, replacement).db)
    ensures var r := DeactivateAccount(db, actor, replacement);
            if r.outcome.Success? then Gone(r.db, actor.user) else r.db == db
    ensures DeactivateAccount(db, actor, replacement).outcome.Success?
       <==> Known(db, actor) && forall i | 0 <= i < |db.memberships| && db.memberships[i].user == actor.user
         && db.memberships[i].active ::
              Transferable(db.memberships, i, actor.user, replacement)
  {
    hide Leave, Rows, SingleOwner, Transferable, RevokeAccess;
    LeaveSucceeds(db, actor.user, replacement);
    if Leave(db, actor.user, replacement).Some? && Known(db, actor) {
      var left := Leave(db, actor.user, replacement).value;
      var disabled := left.(users := db.users[actor.user := db.users[actor.user].(active := false)]);
      AccessRevoked(disabled, actor.user);
      RevokeAccessFrame(disabled, actor.user);
    }
  }

  lemma {:induction false} RevokeAccessFrame(db: Db, user: nat)
    ensures var r := RevokeAccess(db, user);
            r.users == db.users && r.organizations == db.organizations && r.memberships == db.memberships
              && r.audit == db.audit
  {
  }

  /** Deletion as well; it additionally fails when the identity was deleted under this subject before. */
  lemma {:induction false} DeletionIsSound(s: Setup, db: Db, actor: Actor, replacement: Option<nat>)
    requires Sound(db)
    ensures Sound(PrepareAccountDeletion(s, db, actor, replacement).db)
    ensures var r := PrepareAccountDeletion(s, db, actor, replacement);
            if r.outcome.Success?
              then Gone(r.db, actor.user) && r.db.users[actor.user].deleted && r.db.users[actor.user].email.None?
              else r.db == db
    ensures PrepareAccountDeletion(s, db, actor, replacement).outcome.Success?
       <==> Known(db, actor)
            && (forall i | 0 <= i < |db.memberships| && db.memberships[i].user == actor.user
                  && db.memberships[i].active ::
                Transferable(db.memberships, i, actor.user, replacement))
            && !SubjectTaken(db.users, actor.user, db.users[actor.user].provider, DeletedSubject(s, actor.subject))
  {
    hide Leave, Rows, SingleOwner, Transferable, RevokeAccess, DeletedSubject;
    LeaveSucceeds(db, actor.user, replacement);
    if PrepareAccountDeletion(s, db, actor, replacement).outcome.Success? {
      var left := Leave(db, actor.user, replacement).value;
      var u := db.users[actor.user];
      var erased := left.(users := db.users[actor.user := Erased(s, u, actor.subject)]);
      AccessRevoked(erased, actor.user);
      RevokeAccessFrame(erased, actor.user);
      ErasedDistinct(s, db.users, actor.user, actor.subject);
    }
  }

  lemma {:induction false} ErasedDistinct(s: Setup, users: seq<User>, user: nat, subject: string)
    requires DistinctIdentities(users) && user < |users|
    requires !SubjectTaken(users, user, users[user].provider, DeletedSubject(s, subject))
    ensures DistinctIdentities(users[user := Erased(s, users[user], subject)])
  {
    hide DeletedSubject;
    var r := users[user := Erased(s, users[user], subject)];
    assert forall i | 0 <= i < |users| && i != user ::
           !IsUser(users[i], users[user].provider, DeletedSubject(s, subject));
    forall i, j | 0 <= i < j < |r| ensures !(r[i].provider == r[j].provider && r[i].subject == r[j].subject) {
      if i == user { assert !IsUser(users[j], users[user].provider, DeletedSubject(s, subject)); }
      if j == user { assert !IsUser(users[i], users[user].provider, DeletedSubject(s, subject)); }
    }
  }

  // ---------------------------------------------------------------- who owns what afterwards

  /** An ownership that was given up: the replacement has it, or the organisation is closed. */
  ghost predicate Passed(before: Db, after: Db, i: nat, user: nat, replacement: Option<nat>)
    requires i < |before.memberships|
  {
    var o := before.memberships[i].organization;
    before.memberships[i].role == Owner && o < |before.organizations| ==>
      if HasOthers(before.memberships, o, user) then
        replacement.Some? && exists j | 0 <= j < |after.memberships| ::
              OwnsActively(after.memberships[j], o) && after.memberships[j].user == replacement.value
      else o < |after.organizations| && !after.organizations[o].active
  }

  lemma {:induction false} ReleasePasses(db: Db, i: nat, user: nat, replacement: Option<nat>)
    requires i < |db.memberships| && db.memberships[i].user == user && db.memberships[i].active
    requires Release(db, i, user, replacement).Some?
    ensures Passed(db, Release(db, i, user, replacement).value, i, user, replacement)
  {
    hide OneOwnerEach;
    var ms, o := db.memberships, db.memberships[i].organization;
    if ms[i].role == Owner && HasOthers(ms, o, user) {
      var y :| 0 <= y < |ms| && ActiveIn(ms[y], o, replacement.value);
      assert RevokeMembership(ms, i)[y] == ms[y];
      assert OwnsActively(Release(db, i, user, replacement).value.memberships[y], o);
    }
  }

  lemma {:induction false} PassedStays(before: Db, middle: Db, after: Db, i: nat, user: nat, replacement: Option<nat>)
    requires i < |before.memberships| && Passed(before, middle, i, user, replacement)
    requires Fewer(middle.memberships, after.memberships) && SameElse(middle, after)
    requires forall j | 0 <= j < |middle.memberships|
             && middle.memberships[j].organization == before.memberships[i].organization ::
               after.memberships[j] == middle.memberships[j]
    ensures Passed(before, after, i, user, replacement)
  {
    var o := before.memberships[i].organization;
    if before.memberships[i].role == Owner && o < |before.organizations| && HasOthers(before.memberships, o, user) {
      var j :| 0 <= j < |middle.memberships| && OwnsActively(middle.memberships[j], o)
        && middle.memberships[j].user == replacement.value;
      assert after.memberships[j] == middle.memberships[j];
    }
  }

  lemma {:induction false} PassedFromMiddle(before: Db, middle: Db, after: Db, i: nat, user: nat,
                                            replacement: Option<nat>)
    requires i < |before.memberships| && |middle.memberships| == |before.memberships|
             && middle.memberships[i] == before.memberships[i]
    requires |middle.organizations| == |before.organizations|
    requires HasOthers(middle.memberships, before.memberships[i].organization, user)
             <==> HasOthers(before.memberships, before.memberships[i].organization, user)
    requires Passed(middle, after, i, user, replacement)
    ensures Passed(before, after, i, user, replacement)
  {
  }

  lemma {:induction false} AllPassed(db: Db, ids: seq<nat>, user: nat, replacement: Option<nat>)
    requires OwnershipSound(db) && Departures(db.memberships, ids, user)
             && ReleaseFrom(db, ids, user, replacement).Some?
    ensures forall k | 0 <= k < |ids| ::
            Passed(db, ReleaseFrom(db, ids, user, replacement).value, ids[k], user, replacement)
  {
    hide OwnershipSound, Release, Passed, Released;
    if ids != [] {
      var n := |ids| - 1;
      NextDeparture(db.memberships, ids, user);
      AllPassed(db, ids[..n], user, replacement);
      ReleaseAll(db, ids[..n], user, replacement);
      assert ids == ids[..n] + [ids[n]];
      var before := ReleaseFrom(db, ids[..n], user, replacement).value;
      LastPassed(db, before, ids, user, replacement);
      forall k | 0 <= k < n
        ensures Passed(db, Release(before, ids[n], user, replacement).value, ids[k], user, replacement) {
        assert ids[..n][k] == ids[k];
        EarlierPassed(db, before, ids, k, user, replacement);
      }
    }
  }

  lemma {:induction false} EarlierPassed(db: Db, before: Db, ids: seq<nat>, k: nat, user: nat, replacement: Option<nat>)
    requires k < |ids| - 1 && Departures(db.memberships, ids, user) && Released(db, before, ids[..|ids| - 1])
    requires Release(before, ids[|ids| - 1], user, replacement).Some? && Passed(db, before, ids[k], user, replacement)
    ensures Passed(db, Release(before, ids[|ids| - 1], user, replacement).value, ids[k], user, replacement)
  {
    hide OwnershipSound, Release, Passed;
    NextDeparture(db.memberships, ids, user);
    ReleaseEffect(before, ids[|ids| - 1], user, replacement);
    PassedStays(db, before, Release(before, ids[|ids| - 1], user, replacement).value, ids[k], user, replacement);
  }

  lemma {:induction false} LastPassed(db: Db, before: Db, ids: seq<nat>, user: nat, replacement: Option<nat>)
    requires ids != [] && Departures(db.memberships, ids, user) && Released(db, before, ids[..|ids| - 1])
    requires Release(before, ids[|ids| - 1], user, replacement).Some?
    ensures Passed(db, Release(before, ids[|ids| - 1], user, replacement).value, ids[|ids| - 1], user, replacement)
  {
    hide OwnershipSound, Release, Passed, HasOthers;
    var i := ids[|ids| - 1];
    NextDeparture(db.memberships, ids, user);
    SameTransferable(db, before, ids[..|ids| - 1], i, user, replacement);
    ReleasePasses(before, i, user, replacement);
    OthersElsewhere(db.memberships, before.memberships, db.memberships[i].organization, user);
    PassedFromMiddle(db, before, Release(before, i, user, replacement).value, i, user, replacement);
  }

  /** What the leaving user owned belongs to the replacement, or is closed when nobody else was active in it. */
  lemma {:induction false} OwnershipIsPassedOn(db: Db, user: nat, replacement: Option<nat>, i: nat)
    requires OwnershipSound(db) && Leave(db, user, replacement).Some?
    requires i < |db.memberships| && db.memberships[i].user == user && db.memberships[i].active
    ensures Passed(db, Leave(db, user, replacement).value, i, user, replacement)
  {
    hide OwnershipSound, Passed, ReleaseFrom;
    var ids := ActiveMemberships(db.memberships, user, |db.memberships|);
    ActiveMembershipsDepart(db, user);
    AllPassed(db, ids, user, replacement);
    var k :| 0 <= k < |ids| && ids[k] == i;
  }

  // ---------------------------------------------------------------- the other steps

  lemma {:induction false} NewUserDistinct(users: seq<User>, u: User)
    requires DistinctIdentities(users) && FindUser(users, u.provider, u.subject).None?
    ensures DistinctIdentities(users + [u])
  {
    assert forall i | 0 <= i < |users| :: !IsUser(users[i], u.provider, u.subject);
  }

  lemma {:induction false} LocateKeeps(db: Db, c: Credentials, profile: Option<Profile>)
    requires DistinctIdentities(db.users) && Locate(db, c, profile).Success?
    ensures var l := Locate(db, c, profile).value;
            && DistinctIdentities(l.users) && IsUser(l.users[l.user], c.provider, c.subject)
            && |l.users| == |db.users| + (if l.created then 1 else 0) && (l.created ==> l.user == |db.users|)
            && forall i | 0 <= i < |db.users| :: l.users[i].active == db.users[i].active
  {
    hide EmailTaken;
    var found := FindUser(db.users, c.provider, c.subject);
    if found.None? {
      NewUserDistinct(db.users, Locate(db, c, profile).value.users[|db.users|]);
    }
  }

  /** A new owner's row in a new or ownerless organisation. */
  lemma {:induction false} PersonalKeeps(s: Setup, db: Db, user: nat, c: Credentials)
    requires Rows(db.memberships, |db.users|, |db.organizations|) && SingleOwner(db.memberships, db.organizations)
    requires user < |db.users| && CreatePersonalOrganization(s, db, user, c).Some?
    requires forall i | 0 <= i < |db.memberships| :: db.memberships[i].user != user
    ensures var seat := CreatePersonalOrganization(s, db, user, c).value;
            && Rows(seat.db.memberships, |seat.db.users|, |seat.db.organizations|)
              && SingleOwner(seat.db.memberships, seat.db.organizations)
            && seat.db.users == db.users && seat.db.sessions == db.sessions
              && seat.organization < |seat.db.organizations|
            && seat.db.memberships == db.memberships + [Membership(seat.organization, user, Owner, true)]
  {
    hide OneOwnerEach;
    var seat := CreatePersonalOrganization(s, db, user, c).value;
    forall o | 0 <= o < |seat.db.organizations| && seat.db.organizations[o].active
      ensures Owned(seat.db.memberships, o) {
      var ms := seat.db.memberships;
      if o == seat.organization {
        assert OwnsActively(ms[|ms| - 1], o);
      } else {
        var i :| 0 <= i < |db.memberships| && OwnsActively(db.memberships[i], o);
        assert OwnsActively(ms[i], o);
      }
    }
  }

  lemma {:induction false} ResolveKeeps(s: Setup, db: Db, c: Credentials, profile: Option<Profile>)
    requires Sound(db)
    ensures Sound(ResolveActor(s, db, c, profile).db)
    ensures ResolveActor(s, db, c, profile).outcome.Failure? ==> ResolveActor(s, db, c, profile).db == db
  {
    hide Rows, SingleOwner, DistinctIdentities, Locate, CreatePersonalOrganization, FindActiveMembership;
    var located := Locate(db, c, profile);
    if located.Success? {
      LocateKeeps(db, c, profile);
      MoreUsers(db.memberships, |db.users|, |located.value.users|, |db.organizations|);
      var now := db.(users := located.value.users);
      if located.value.created && CreatePersonalOrganization(s, now, located.value.user, c).Some? {
        PersonalKeeps(s, now, located.value.user, c);
      }
    }
  }

  lemma {:induction false} MoreUsers(ms: seq<Membership>, users: nat, more: nat, organizations: nat)
    requires Rows(ms, users, organizations) && users <= more
    ensures Rows(ms, more, organizations) && forall i | 0 <= i < |ms| :: ms[i].user < users
  {
  }

  // ---------------------------------------------------------------- runs

  datatype Step =
    | Resolve(credentials: Credentials, profile: Option<Profile>)
    | RevokeOne(actor: Actor, id: string)
    | RevokeEvery(actor: Actor)
    | MarkPending(actor: Actor)
    | Block(actor: Actor)
    | Deactivate(actor: Actor, replacement: Option<nat>)
    | Delete(actor: Actor, replacement: Option<nat>)
    | Synchronise(actor: Actor, refreshed: Profile)

  function Apply(s: Setup, db: Db, step: Step): Db {
    match step
    case Resolve(c, profile) => ResolveActor(s, db, c, profile).db
    case RevokeOne(actor, id) => RevokeSession(db, actor, id).db
    case RevokeEvery(actor) => RevokeAllSessions(db, actor).db
    case MarkPending(actor) => MarkEmailChangePending(db, actor).db
    case Block(actor) => BlockUser(db, actor).db
    case Deactivate(actor, replacement) => DeactivateAccount(db, actor, replacement).db
    case Delete(actor, replacement) => PrepareAccountDeletion(s, db, actor, replacement).db
    case Synchronise(actor, profile) => SyncProfile(db, actor, profile).db
  }

  function Run(s: Setup, db: Db, steps: seq<Step>): Db {
    if steps == [] then db else Apply(s, Run(s, db, steps[..|steps| - 1]), steps[|steps| - 1])
  }

  lemma {:induction false} UserStatusKeepsSound(db: Db, user: nat, u: User)
    requires Sound(db) && user < |db.users| && u.provider == db.users[user].provider
             && u.subject == db.users[user].subject
    ensures Sound(db.(users := db.users[user := u]))
  {
    hide Rows, SingleOwner;
  }

  /** Each step keeps every active organisation with exactly one active owner. */
  lemma {:induction false} StepKeepsSound(s: Setup, db: Db, step: Step)
    requires Sound(db)
    ensures Sound(Apply(s, db, step))
  {
    hide Rows, SingleOwner, DistinctIdentities, RevokeAccess, ResolveActor, DeactivateAccount, PrepareAccountDeletion,
      EmailTaken;
    match step
    case Resolve(c, profile) => ResolveKeeps(s, db, c, profile);
    case RevokeOne(actor, id) =>
    case RevokeEvery(actor) =>
      AccessRevoked(db, actor.user);
      RevokeAccessFrame(db, actor.user);
    case MarkPending(actor) =>
      if actor.user < |db.users| {
        UserStatusKeepsSound(db, actor.user, db.users[actor.user].(emailVerified := false));
      }
    case Block(actor) =>
      if Known(db, actor) {
        var u := db.users[actor.user].(active := false);
        UserStatusKeepsSound(db, actor.user, u);
        AccessRevoked(db.(users := db.users[actor.user := u]), actor.user);
        RevokeAccessFrame(db.(users := db.users[actor.user := u]), actor.user);
      }
    case Deactivate(actor, replacement) => DeactivationIsSound(db, actor, replacement);
    case Delete(actor, replacement) => DeletionIsSound(s, db, actor, replacement);
    case Synchronise(actor, profile) =>
      if Known(db, actor) {
        UserStatusKeepsSound(db, actor.user, Refreshed(db.users[actor.user], profile));
      }
  }

  lemma {:induction false} RunKeepsSound(s: Setup, db: Db, steps: seq<Step>)
    requires Sound(db)
    ensures Sound(Run(s, db, steps))
  {
    hide Sound, Apply;
    if steps != [] {
      RunKeepsSound(s, db, steps[..|steps| - 1]);
      StepKeepsSound(s, Run(s, db, steps[..|steps| - 1]), steps[|steps| - 1]);
    }
  }

  /** Sessions keep their user and stay revoked; users stay disabled; rows are never deleted. */
  ghost predicate Permanent(a: Db, b: Db) {
    && (forall k | k in a.sessions :: k in b.sessions && b.sessions[k].user == a.sessions[k].user
          && (a.sessions[k].revoked ==> b.sessions[k].revoked))
    && |a.users| <= |b.users| && (forall i | 0 <= i < |a.users| && !a.users[i].active :: !b.users[i].active)
  }

  lemma {:induction false} LocatePermanent(db: Db, c: Credentials, profile: Option<Profile>)
    requires Locate(db, c, profile).Success?
    ensures |db.users| <= |Locate(db, c, profile).value.users|
    ensures forall i | 0 <= i < |db.users| :: Locate(db, c, profile).value.users[i].active == db.users[i].active
  {
    hide EmailTaken, FindUser;
  }

  lemma {:induction false} LeaveFrame(db: Db, ids: seq<nat>, user: nat, replacement: Option<nat>)
    requires forall k | 0 <= k < |ids| :: ids[k] < |db.memberships|
    requires ReleaseFrom(db, ids, user, replacement).Some?
    ensures ReleaseFrom(db, ids, user, replacement).value.sessions == db.sessions
  {
    hide Promote, HasOthers, OneOwnerEach, IsActiveMember;
    if ids != [] { LeaveFrame(db, ids[..|ids| - 1], user, replacement); }
  }

  lemma {:induction false} ResolvePermanent(s: Setup, db: Db, c: Credentials, profile: Option<Profile>)
    ensures Permanent(db, ResolveActor(s, db, c, profile).db)
  {
    hide Locate, FindActiveMembership, FindSlug, OneOwnerEach;
    if Locate(db, c, profile).Success? { LocatePermanent(db, c, profile); }
  }

  lemma {:induction false} StepPermanent(s: Setup, db: Db, step: Step)
    ensures Permanent(db, Apply(s, db, step))
  {
    hide ResolveActor, ReleaseFrom, RevokeKeysOf, EmailTaken, SubjectTaken;
    match step
    case Resolve(c, profile) => ResolvePermanent(s, db, c, profile);
    case RevokeOne(actor, id) =>
    case RevokeEvery(actor) =>
    case MarkPending(actor) =>
    case Block(actor) =>
    case Deactivate(actor, replacement) =>
      if Leave(db, actor.user, replacement).Some? {
        LeaveFrame(db, ActiveMemberships(db.memberships, actor.user, |db.memberships|), actor.user, replacement);
      }
    case Delete(actor, replacement) =>
      if Leave(db, actor.user, replacement).Some? {
        LeaveFrame(db, ActiveMemberships(db.memberships, actor.user, |db.memberships|), actor.user, replacement);
      }
    case Synchronise(actor, profile) =>
  }

  lemma {:induction false} RunPermanent(s: Setup, db: Db, steps: seq<Step>)
    ensures Permanent(db, Run(s, db, steps))
  {
    hide Apply;
    if steps != [] {
      RunPermanent(s, db, steps[..|steps| - 1]);
      StepPermanent(s, Run(s, db, steps[..|steps| - 1]), steps[|steps| - 1]);
    }
  }

  /** Who resolves is active, and through an open session of their own. */
  lemma {:induction false} ResolvedActor(s: Setup, db: Db, c: Credentials, profile: Option<Profile>)
    requires ResolveActor(s, db, c, profile).outcome.Success?
    ensures var r, key := ResolveActor(s, db, c, profile), SessionKey(c.provider, c.session);
            var actor := r.outcome.value;
            && actor.user < |r.db.users| && r.db.users[actor.user].active && !r.db.users[actor.user].deleted
              && r.db.users[actor.user].emailVerified
            && (key in db.sessions ==> !db.sessions[key].revoked && db.sessions[key].user == actor.user)
            && key in r.db.sessions && r.db.sessions[key].user == actor.user && !r.db.sessions[key].revoked
  {
    hide Locate, FindActiveMembership, FindSlug, OneOwnerEach;
  }

  /** The seat of a resolved actor: an active membership in the organisation named, with the role named. */
  lemma {:induction false} ResolvedSeat(s: Setup, db: Db, c: Credentials, profile: Option<Profile>)
    requires Sound(db) && ResolveActor(s, db, c, profile).outcome.Success?
    ensures var r := ResolveActor(s, db, c, profile);
            exists i | 0 <= i < |r.db.memberships| ::
              ActiveIn(r.db.memberships[i], r.outcome.value.organization, r.outcome.value.user)
              && r.db.memberships[i].role == r.outcome.value.role
    ensures var r, found :=
            ResolveActor(s, db, c, profile), FindSlug(db.organizations, s.slugOf(c.provider, c.subject));
            r.outcome.value.organization < |r.db.organizations|
            && (r.db.organizations[r.outcome.value.organization].active
                <==> !(FindUser(db.users, c.provider, c.subject).None? && found.Some?
                       && !db.organizations[found.value].active))
  {
    hide Rows, SingleOwner, DistinctIdentities, EmailTaken, OneOwnerEach, FindUser, FindSlug, FindActiveMembership;
    LocateKeeps(db, c, profile);
    var l := Locate(db, c, profile).value;
    var now := db.(users := l.users);
    MoreUsers(db.memberships, |db.users|, |l.users|, |db.organizations|);
    var preferred := if SessionKey(c.provider, c.session) in db.sessions
                     then Some(db.sessions[SessionKey(c.provider, c.session)].organization) else None;
    var found := FindActiveMembership(now, l.user, preferred);
    var r := ResolveActor(s, db, c, profile);
    if found.Some? {
      SeatIsUsable(now, l.user, preferred);
      assert r.db.memberships == db.memberships;
    } else {
      PersonalKeeps(s, now, l.user, c);
      var seat := CreatePersonalOrganization(s, now, l.user, c).value;
      assert r.db.memberships == seat.db.memberships;
      assert r.db.memberships[|r.db.memberships| - 1] == Membership(seat.organization, l.user, Owner, true);
    }
  }

  lemma {:induction false} SeatIsUsable(db: Db, user: nat, preferred: Option<nat>)
    requires FindActiveMembership(db, user, preferred).Some?
    ensures var i := FindActiveMembership(db, user, preferred).value; i < |db.memberships| && Usable(db, i, user)
  {
  }

  /** Revoking a session closes every open session of the actor under that identifier, and no other. */
  lemma {:induction false} RevocationTakesEffect(db: Db, actor: Actor, id: string, k: SessionKey)
    requires k in db.sessions && RevokeSession(db, actor, id).outcome.Success?
    ensures k in RevokeSession(db, actor, id).db.sessions
    ensures RevokeSession(db, actor, id).db.sessions[k].revoked
       <==> db.sessions[k].revoked || (k.id == id && db.sessions[k].user == actor.user)
    ensures RevokeSession(db, actor, id).outcome.value
       <==> exists o | o in db.sessions :: o.id == id && db.sessions[o].user == actor.user && !db.sessions[o].revoked
  {
  }

  predicate HasRow(db: Db, user: nat, organization: nat) {
    exists i | 0 <= i < |db.memberships| ::
      db.memberships[i].user == user && db.memberships[i].organization == organization
  }

  /** Blocking disables the user and closes its sessions and keys, without touching memberships. */
  lemma {:induction false} BlockTakesEffect(db: Db, actor: Actor, x: nat)
    requires BlockUser(db, actor).outcome.Success? && x < |db.keys|
    ensures var r := BlockUser(db, actor).db;
            && !r.users[actor.user].active && r.memberships == db.memberships && r.organizations == db.organizations
            && (forall k | k in r.sessions && r.sessions[k].user == actor.user :: r.sessions[k].revoked)
            && |r.keys| == |db.keys|
            && (r.keys[x].active
                <==> db.keys[x].active
                     && !(db.keys[x].creator == actor.user && HasRow(db, actor.user, db.keys[x].organization)))
  {
    hide RevokeKeysOf;
    KeysRevoked(db.keys, db.memberships, actor.user, |db.memberships|, x);
  }

  /** Once revoked, a session never resolves again, whatever happens in between. */
  lemma {:induction false} RevokedNeverResolves(s: Setup, db: Db, steps: seq<Step>, c: Credentials,
                                                profile: Option<Profile>)
    requires SessionKey(c.provider, c.session) in db.sessions && db.sessions[SessionKey(c.provider, c.session)].revoked
    ensures ResolveActor(s, Run(s, db, steps), c, profile).outcome.Failure?
  {
    hide ResolveActor, Run;
    RunPermanent(s, db, steps);
    if ResolveActor(s, Run(s, db, steps), c, profile).outcome.Success? {
      ResolvedActor(s, Run(s, db, steps), c, profile);
    }
  }

  /** Once disabled, a user never resolves again. */
  lemma {:induction false} DisabledNeverResolves(s: Setup, db: Db, steps: seq<Step>, c: Credentials,
                                                 profile: Option<Profile>, user: nat)
    requires user < |db.users| && !db.users[user].active
    ensures var r := ResolveActor(s, Run(s, db, steps), c, profile); r.outcome.Success? ==> r.outcome.value.user != user
  {
    hide ResolveActor, Run;
    RunPermanent(s, db, steps);
    var now := Run(s, db, steps);
    ResolvePermanent(s, now, c, profile);
    if ResolveActor(s, now, c, profile).outcome.Success? { ResolvedActor(s, now, c, profile); }
  }

  /** A session's user never changes. */
  lemma {:induction false} SessionUserFixed(s: Setup, db: Db, steps: seq<Step>, key: SessionKey)
    requires key in db.sessions
    ensures key in Run(s, db, steps).sessions && Run(s, db, steps).sessions[key].user == db.sessions[key].user
  {
    hide Run;
    RunPermanent(s, db, steps);
  }

  /** After a successful removal no session of the user and no login resolves to it, in any later run. */
  lemma {:induction false} RemovedNeverReturns(s: Setup, db: Db, actor: Actor, replacement: Option<nat>, delete: bool,
        steps: seq<Step>,
                                               c: Credentials, profile: Option<Profile>)
    requires Sound(db)
    requires (if delete then PrepareAccountDeletion(s, db, actor, replacement)
              else DeactivateAccount(db, actor, replacement)).outcome.Success?
    ensures var after :=
            (if delete then PrepareAccountDeletion(s, db, actor, replacement)
             else DeactivateAccount(db, actor, replacement)).db;
            var r := ResolveActor(s, Run(s, after, steps), c, profile);
            r.outcome.Success? ==> r.outcome.value.user != actor.user
  {
    hide ResolveActor, Run, PrepareAccountDeletion, DeactivateAccount;
    if delete { DeletionIsSound(s, db, actor, replacement); } else { DeactivationIsSound(db, actor, replacement); }
    var after := (if delete then PrepareAccountDeletion(s, db, actor, replacement)
          else DeactivateAccount(db, actor, replacement)).db;
    DisabledNeverResolves(s, after, steps, c, profile, actor.user);
  }
}
