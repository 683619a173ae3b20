/**
 * The repository as it works on its tables: statements change rows in place, and a transaction that
 * fails puts back what it found (backend/src/infrastructure/database/identityRepository.ts).
 */
module IdentityRepository {
  import opened Records
  import opened Identity
  import opened IdentityGuarantees

  class Repository {
    const setup: Setup
    var users: seq<User>
    var organizations: seq<Organization>
    var memberships: seq<Membership>
    var sessions: map<SessionKey, Session>
    var keys: seq<ApiKey>
    var audit: seq<Audit>

    constructor (setup: Setup)
      ensures this.setup == setup && Sound(View())
    {
      this.setup := setup;
      users, organizations, memberships, sessions, keys, audit := [], [], [], map[], [], [];
    }

    function View(): Db
      reads this
    {
      Db(users, organizations, memberships, sessions, keys, audit)
    }

    method Rollback(db: Db)
      modifies this
      ensures View() == db
    {
      users, organizations, memberships, sessions, keys, audit :=
        db.users, db.organizations, db.memberships, db.sessions, db.keys, db.audit;
    }

    method WriteAudit(actor: Actor, action: Action) returns (ok: bool)
      modifies this`audit
      ensures ok == Known(View(), actor)
      ensures View() == if ok then Logged(old(View()), actor, action) else old(View())
    {
      ok := actor.user < |users| && actor.organization < |organizations|;
      if ok { audit := audit + [Audit(actor.organization, actor.user, action)]; }
    }

    /** One turn of the loop over the leaving user's memberships. */
    method ReleaseMembership(i: nat, user: nat, replacement: Option<nat>) returns (ok: bool)
      requires i < |memberships|
      modifies this`memberships, this`organizations
      ensures ok == Release(old(View()), i, user, replacement).Some?
      ensures ok ==> View() == Release(old(View()), i, user, replacement).value
    {
      hide OneOwnerEach, HasOthers, IsActiveMember;
      var m := memberships[i];
      if m.role == Owner {
        if HasOthers(memberships, m.organization, user) {
          if replacement.None? || replacement.value == user
             || !IsActiveMember(memberships, m.organization, replacement.value)
          {
            return false;
          }
          memberships := RevokeMembership(memberships, i);
          var promoted := Promote(memberships, m.organization, replacement.value);
          if !OneOwnerEach(promoted) { return false; }
          memberships := promoted;
          assert memberships[i := memberships[i].(active := false)] == memberships;
        } else if m.organization < |organizations| {
          organizations := organizations[m.organization := organizations[m.organization].(active := false)];
        }
      }
      memberships := RevokeMembership(memberships, i);
      ok := true;
    }

    method TransferAndRevokeMemberships(user: nat, replacement: Option<nat>) returns (ok: bool)
      modifies this`memberships, this`organizations
      ensures ok == Leave(old(View()), user, replacement).Some?
      ensures ok ==> View() == Leave(old(View()), user, replacement).value
    {
      hide Release;
      var ids := ActiveMemberships(memberships, user, |memberships|);
      ghost var start := View();
      for k := 0 to |ids|
        invariant |memberships| == |start.memberships|
        invariant ReleaseFrom(start, ids[..k], user, replacement) == Some(View())
      {
        Prefix(start, ids, k, user, replacement);
        ok := ReleaseMembership(ids[k], user, replacement);
        if !ok {
          NeverRecovers(start, ids, k + 1, user, replacement);
          return false;
        }
      }
      assert ids[..|ids|] == ids;
      ok := true;
    }

    method RevokeLocalAccess(user: nat)
      modifies this`sessions, this`keys
      ensures View() == RevokeAccess(old(View()), user)
    {
      sessions := RevokeSessions(sessions, user);
      for n := 0 to |memberships|
        invariant sessions == RevokeSessions(old(sessions), user)
        invariant keys == RevokeKeysOf(old(keys), memberships, user, n)
      {
        if memberships[n].user == user { keys := RevokeKeys(keys, memberships[n].organization, user); }
      }
    }

    method Deactivate(actor: Actor, replacement: Option<nat>) returns (outcome: Reply<()>)
      modifies this
      ensures View() == DeactivateAccount(old(View()), actor, replacement).db
      ensures outcome == DeactivateAccount(old(View()), actor, replacement).outcome
    {
      hide Leave, RevokeAccess;
      var before := View();
      var ok := TransferAndRevokeMemberships(actor.user, replacement);
      if !ok {
        Rollback(before);
        return Failure(TransferRequired);
      }
      LeaveKeepsTables(before, actor.user, replacement);
      if actor.user < |users| { users := users[actor.user := users[actor.user].(active := false)]; }
      RevokeLocalAccess(actor.user);
      RevokeAccessFrame(before, actor.user);
      ok := WriteAudit(actor, Deactivated);
      if !ok {
        Rollback(before);
        return Failure(ConstraintViolated);
      }
      outcome := Success(());
    }

    method PrepareDeletion(actor: Actor, replacement: Option<nat>) returns (outcome: Reply<()>)
      modifies this
      ensures View() == PrepareAccountDeletion(setup, old(View()), actor, replacement).db
      ensures outcome == PrepareAccountDeletion(setup, old(View()), actor, replacement).outcome
    {
      hide Leave, RevokeAccess, SubjectTaken, Erased;
      var before := View();
      var ok := TransferAndRevokeMemberships(actor.user, replacement);
      if !ok {
        Rollback(before);
        return Failure(TransferRequired);
      }
      LeaveKeepsTables(before, actor.user, replacement);
      if actor.user < |users| {
        var u := users[actor.user];
        if SubjectTaken(users, actor.user, u.provider, DeletedSubject(setup, actor.subject)) {
          Rollback(before);
          return Failure(ConstraintViolated);
        }
        users := users[actor.user := Erased(setup, u, actor.subject)];
      }
      RevokeLocalAccess(actor.user);
      ok := WriteAudit(actor, Deleted);
      if !ok {
        Rollback(before);
        return Failure(ConstraintViolated);
      }
      outcome := Success(());
    }

    method Block(actor: Actor) returns (outcome: Reply<()>)
      modifies this
      ensures View() == BlockUser(old(View()), actor).db && outcome == BlockUser(old(View()), actor).outcome
    {
      hide RevokeAccess;
      var before := View();
      if actor.user < |users| { users := users[actor.user := users[actor.user].(active := false)]; }
      RevokeLocalAccess(actor.user);
      RevokeAccessFrame(before, actor.user);
      var ok := WriteAudit(actor, Blocked);
      if !ok {
        Rollback(before);
        return Failure(ConstraintViolated);
      }
      outcome := Success(());
    }

    method MarkEmailPending(actor: Actor)
      modifies this`users
      ensures View() == MarkEmailChangePending(old(View()), actor).db
    {
      if actor.user < |users| { users := users[actor.user := users[actor.user].(emailVerified := false)]; }
    }

    method Synchronise(actor: Actor, profile: Profile) returns (outcome: Reply<()>)
      modifies this
      ensures View() == SyncProfile(old(View()), actor, profile).db
              && outcome == SyncProfile(old(View()), actor, profile).outcome
    {
      hide EmailTaken;
      if profile.subject != actor.subject { return Failure(InvalidToken); }
      var before := View();
      if actor.user < |users| {
        if EmailTaken(users, actor.user, profile.email) { return Failure(ConstraintViolated); }
        users := users[actor.user := Refreshed(users[actor.user], profile)];
      }
      var ok := WriteAudit(actor, Synchronised);
      if !ok {
        Rollback(before);
        return Failure(ConstraintViolated);
      }
      outcome := Success(());
    }

    method RevokeOneSession(actor: Actor, id: string) returns (outcome: Reply<bool>)
      modifies this
      ensures View() == RevokeSession(old(View()), actor, id).db
              && outcome == RevokeSession(old(View()), actor, id).outcome
    {
      var before := View();
      var open := exists k | k in sessions :: k.id == id && sessions[k].user == actor.user && !sessions[k].revoked;
      if !open { return Success(false); }
      sessions := map k | k in sessions ::
        if k.id == id && sessions[k].user == actor.user then sessions[k].(revoked := true) else sessions[k];
      var ok := WriteAudit(actor, Revoked);
      if !ok {
        Rollback(before);
        return Failure(ConstraintViolated);
      }
      outcome := Success(true);
    }

    method RevokeEverySession(actor: Actor) returns (outcome: Reply<()>)
      modifies this
      ensures View() == RevokeAllSessions(old(View()), actor).db
              && outcome == RevokeAllSessions(old(View()), actor).outcome
    {
      hide RevokeAccess;
      var before := View();
      RevokeLocalAccess(actor.user);
      RevokeAccessFrame(before, actor.user);
      var ok := WriteAudit(actor, RevokedAll);
      if !ok {
        Rollback(before);
        return Failure(ConstraintViolated);
      }
      outcome := Success(());
    }

    /** Finds the local user, provisioning or refreshing it from the profile. */
    method LocateUser(c: Credentials, profile: Option<Profile>) returns (located: Reply<Located>)
      modifies this`users
      ensures located == Locate(old(View()), c, profile)
      ensures located.Success? ==> users == located.value.users
    {
      hide FindUser, EmailTaken;
      var found := FindUser(users, c.provider, c.subject);
      if found.None? {
        if profile.None? || profile.value.subject != c.subject { return Failure(NotProvisioned); }
        if EmailTaken(users, |users|, profile.value.email) { return Failure(ConstraintViolated); }
        users := users + [User(c.provider, c.subject, profile.value.email, profile.value.emailVerified, true, false)];
        return Success(Located(users, |users| - 1, true));
      }
      if profile.Some? {
        if EmailTaken(users, found.value, profile.value.email) { return Failure(ConstraintViolated); }
        users := users[found.value := Refreshed(users[found.value], profile.value)];
      }
      located := Success(Located(users, found.value, false));
    }

    /** Finds or creates the membership the session will use. */
    method TakeSeat(l: Located, c: Credentials, preferred: Option<nat>) returns (seat: Option<Seat>)
      modifies this`organizations, this`memberships
      ensures seat == (var found := FindActiveMembership(old(View()), l.user, preferred);
                       if found.Some?
                         then Some(Seat(old(View()), old(memberships)[found.value].organization,
                                        old(memberships)[found.value].role))
                       else if l.created then CreatePersonalOrganization(setup, old(View()), l.user, c) else None)
      ensures seat.Some? ==> View() == seat.value.db
    {
      hide FindActiveMembership, FindSlug, OneOwnerEach;
      var db := View();
      var found := FindActiveMembership(db, l.user, preferred);
      if found.Some? { return Some(Seat(db, memberships[found.value].organization, memberships[found.value].role)); }
      if !l.created { return None; }
      seat := CreatePersonalOrganization(setup, db, l.user, c);
      if seat.Some? { organizations, memberships := seat.value.db.organizations, seat.value.db.memberships; }
    }

    method Resolve(c: Credentials, profile: Option<Profile>) returns (outcome: Reply<Actor>)
      modifies this
      ensures View() == ResolveActor(setup, old(View()), c, profile).db
      ensures outcome == ResolveActor(setup, old(View()), c, profile).outcome
    {
      hide Locate, FindActiveMembership, CreatePersonalOrganization, Refusal;
      var before := View();
      var located := LocateUser(c, profile);
      if located.Failure? {
        Rollback(before);
        return Failure(located.error);
      }
      var l, key := located.value, SessionKey(c.provider, c.session);
      var refusal := Refusal(l, sessions, key);
      if refusal.Some? {
        Rollback(before);
        return Failure(refusal.value);
      }
      var preferred := if key in sessions then Some(sessions[key].organization) else None;
      var seat := TakeSeat(l, c, preferred);
      if seat.None? {
        Rollback(before);
        return Failure(if l.created then ConstraintViolated else MembershipRequired);
      }
      if FindActiveMembership(before.(users := l.users), l.user, preferred).None? {
        SeatTables(setup, before.(users := l.users), l, c, preferred);
      }
      var actor := Actor(l.user, seat.value.organization, seat.value.role, c.provider, c.subject, c.session);
      var known := key in sessions;
      sessions :=
        sessions[key := if known then sessions[key].(organization := actor.organization)
                 else Session(l.user, actor.organization, false)];
      if !known {
        audit := audit + [Audit(actor.organization, actor.user, if l.created then Provisioned else Started)];
      }
      outcome := Success(actor);
    }
  }

  lemma {:induction false} SeatTables(s: Setup, db: Db, l: Located, c: Credentials, preferred: Option<nat>)
    requires FindActiveMembership(db, l.user, preferred).None? && l.created
    requires CreatePersonalOrganization(s, db, l.user, c).Some?
    ensures var seat := CreatePersonalOrganization(s, db, l.user, c).value;
            && seat.db.users == db.users && seat.db.sessions == db.sessions
            && seat.db.keys == db.keys && seat.db.audit == db.audit
  {
    hide FindActiveMembership, FindSlug, OneOwnerEach;
  }

  lemma {:induction false} Prefix(db: Db, ids: seq<nat>, k: nat, user: nat, replacement: Option<nat>)
    requires k < |ids| && forall j | 0 <= j < |ids| :: ids[j] < |db.memberships|
    requires ReleaseFrom(db, ids[..k], user, replacement).Some?
    ensures ReleaseFrom(db, ids[..k + 1], user, replacement)
         == Release(ReleaseFrom(db, ids[..k], user, replacement).value, ids[k], user, replacement)
  {
    hide Release;
    assert ids[..k + 1][..k] == ids[..k];
  }

  lemma {:induction false} NeverRecovers(db: Db, ids: seq<nat>, k: nat, user: nat, replacement: Option<nat>)
    requires k <= |ids| && forall j | 0 <= j < |ids| :: ids[j] < |db.memberships|
    requires ReleaseFrom(db, ids[..k], user, replacement).None?
    ensures ReleaseFrom(db, ids, user, replacement).None?
  {
    hide Release;
    if k == |ids| {
      assert ids[..k] == ids;
    } else {
      assert ids[..|ids| - 1][..k] == ids[..k];
      NeverRecovers(db, ids[..|ids| - 1], k, user, replacement);
    }
  }

  lemma {:induction false} LeaveTables(db: Db, ids: seq<nat>, user: nat, replacement: Option<nat>)
    requires forall k | 0 <= k < |ids| :: ids[k] < |db.memberships|
    requires ReleaseFrom(db, ids, user, replacement).Some?
    ensures var r := ReleaseFrom(db, ids, user, replacement).value;
            r.users == db.users && r.sessions == db.sessions && r.keys == db.keys && r.audit == db.audit
              && |r.organizations| == |db.organizations|
  {
    hide Promote, HasOthers, OneOwnerEach, IsActiveMember;
    if ids != [] { LeaveTables(db, ids[..|ids| - 1], user, replacement); }
  }

  lemma {:induction false} LeaveKeepsTables(db: Db, user: nat, replacement: Option<nat>)
    requires Leave(db, user, replacement).Some?
    ensures var r := Leave(db, user, replacement).value;
            r.users == db.users && r.sessions == db.sessions && r.keys == db.keys && r.audit == db.audit
              && |r.organizations| == |db.organizations|
  {
    LeaveTables(db, ActiveMemberships(db.memberships, user, |db.memberships|), user, replacement);
  }
}
