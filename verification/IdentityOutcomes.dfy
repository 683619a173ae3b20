/**
 * What each identity operation answers and changes, case by case
 * (backend/src/infrastructure/database/identityRepository.ts).
 */
module IdentityOutcomes {
  import opened Records
  import opened Identity
  import opened IdentityGuarantees

  // ---------------------------------------------------------------- a known identity logs in

  /** An active membership of the user in an active organisation. */
  predicate OpenSeat(db: Db, i: nat, user: nat) {
    && i < |db.memberships|
    && db.memberships[i].active && db.memberships[i].user == user
    && var organization := db.memberships[i].organization;
       organization < |db.organizations| && db.organizations[organization].active
  }

  /** Another user row already holds the email of the profile. */
  ghost predicate EmailElsewhere(db: Db, user: nat, profile: Option<Profile>) {
    match profile
    case None => false
    case Some(p) => p.email != None && exists i | 0 <= i < |db.users| && i != user :: db.users[i].email == p.email
  }

  /** Why a known identity is turned away, in the order the checks are made; `None` when it is let in. */
  ghost function Obstacle(db: Db, user: nat, c: Credentials, profile: Option<Profile>): Option<Error>
    requires user < |db.users|
  {
    var key := SessionKey(c.provider, c.session);
    var verified := match profile case Some(p) => p.emailVerified case None => db.users[user].emailVerified;
    if EmailElsewhere(db, user, profile) then Some(ConstraintViolated)
    else if !(db.users[user].active && !db.users[user].deleted) then Some(UserDisabled)
    else if !verified then Some(VerificationRequired)
    else if key in db.sessions && db.sessions[key].user != user then Some(InvalidToken)
    else if key in db.sessions && db.sessions[key].revoked then Some(SessionRevoked)
    else if !exists i: nat :: OpenSeat(db, i, user) then Some(MembershipRequired)
    else None
  }

  /** The user row after a login or synchronisation with a profile: a missing email leaves the stored one. */
  predicate Updated(before: User, after: User, profile: Profile) {
    && after.provider == before.provider && after.subject == before.subject
    && after.active == before.active && after.deleted == before.deleted
    && after.emailVerified == profile.emailVerified
    && (profile.email.Some? ==> after.email == profile.email)
    && (profile.email.None? ==> after.email == before.email)
  }

  lemma {:induction false} IdentityFound(users: seq<User>, provider: string, subject: string, user: nat)
    requires DistinctIdentities(users) && user < |users|
    requires users[user].provider == provider && users[user].subject == subject
    ensures FindUser(users, provider, subject) == Some(user)
  {
    assert IsUser(users[user], provider, subject);
    forall i | 0 <= i < |users| && i != user ensures !IsUser(users[i], provider, subject) {
      assert i < user || user < i;
    }
  }

  lemma {:induction false} SeatExists(db: Db, user: nat, preferred: Option<nat>)
    ensures FindActiveMembership(db, user, preferred).Some? <==> exists i: nat :: OpenSeat(db, i, user)
  {
    if FindActiveMembership(db, user, preferred).Some? {
      assert OpenSeat(db, FindActiveMembership(db, user, preferred).value, user);
    }
    forall i: nat | OpenSeat(db, i, user) ensures FindActiveMembership(db, user, preferred).Some? {
      assert Usable(db, i, user);
    }
  }

  /** A known identity is let in exactly when nothing stands against it, and is told the first obstacle otherwise. */
  lemma {:induction false} ReturningLogin(s: Setup, db: Db, c: Credentials, profile: Option<Profile>, user: nat)
    requires Sound(db) && user < |db.users|
    requires db.users[user].provider == c.provider && db.users[user].subject == c.subject
    ensures
      var r := ResolveActor(s, db, c, profile);
      match Obstacle(db, user, c, profile)
      case Some(error) => r == Identity.Result(db, Failure(error))
      case None => r.outcome.Success? && r.outcome.value.user == user
  {
    hide Sound, FindUser, FindActiveMembership, CreatePersonalOrganization, OpenSeat, EmailElsewhere;
    SoundIdentities(db);
    IdentityFound(db.users, c.provider, c.subject, user);
    var key := SessionKey(c.provider, c.session);
    var preferred := if key in db.sessions then Some(db.sessions[key].organization) else None;
    EmailMeans(db, user, profile);
    if !EmailElsewhere(db, user, profile) {
      var users := Locate(db, c, profile).value.users;
      SeatExists(db.(users := users), user, preferred);
      SameSeats(db, users, user);
    }
  }

  lemma {:induction false} SoundIdentities(db: Db)
    requires Sound(db)
    ensures DistinctIdentities(db.users)
  {
  }

  lemma {:induction false} EmailMeans(db: Db, user: nat, profile: Option<Profile>)
    ensures profile.Some? ==> (EmailTaken(db.users, user, profile.value.email) <==> EmailElsewhere(db, user, profile))
    ensures profile.None? ==> !EmailElsewhere(db, user, profile)
  {
  }

  lemma {:induction false} SameSeats(db: Db, users: seq<User>, user: nat)
    ensures (exists i: nat :: OpenSeat(db.(users := users), i, user)) <==> (exists i: nat :: OpenSeat(db, i, user))
  {
    forall i: nat ensures OpenSeat(db.(users := users), i, user) <==> OpenSeat(db, i, user) {}
  }

  // ---------------------------------------------------------------- the seat

  lemma {:induction false} OldestSeat(db: Db, user: nat, preferred: Option<nat>, n: nat)
    requires n <= |db.memberships|
    ensures
      match FirstUsable(db, user, preferred, n)
      case None =>
        forall i | 0 <= i < n && (preferred.Some? ==> db.memberships[i].organization == preferred.value) ::
          !OpenSeat(db, i, user)
      case Some(k) =>
        && OpenSeat(db, k, user) && (preferred.Some? ==> db.memberships[k].organization == preferred.value)
        && forall i | 0 <= i < k && (preferred.Some? ==> db.memberships[i].organization == preferred.value) ::
             !OpenSeat(db, i, user)
  {
    if n > 0 { OldestSeat(db, user, preferred, n - 1); }
  }

  /** The seat taken: the oldest open one in the organisation of the session if there is any, else the oldest of all. */
  ghost predicate TakesSeat(db: Db, user: nat, preferred: Option<nat>, k: nat) {
    && OpenSeat(db, k, user)
    && (preferred.Some? && (exists i: nat :: OpenSeat(db, i, user) && db.memberships[i].organization == preferred.value)
        ==> && db.memberships[k].organization == preferred.value
            && forall i: nat | OpenSeat(db, i, user) && db.memberships[i].organization == preferred.value :: k <= i)
    && (preferred.None? || (forall i: nat | OpenSeat(db, i, user) :: db.memberships[i].organization != preferred.value)
        ==> forall i: nat | OpenSeat(db, i, user) :: k <= i)
  }

  lemma {:induction false} SeatTaken(db: Db, user: nat, preferred: Option<nat>)
    requires FindActiveMembership(db, user, preferred).Some?
    ensures TakesSeat(db, user, preferred, FindActiveMembership(db, user, preferred).value)
  {
    OldestSeat(db, user, preferred, |db.memberships|);
    OldestSeat(db, user, None, |db.memberships|);
    hide FirstUsable, Usable;
  }

  /** What a successful login of a known identity writes. */
  ghost predicate LoggedIn(db: Db, after: Db, actor: Actor, user: nat, c: Credentials, profile: Option<Profile>) {
    var key := SessionKey(c.provider, c.session);
    && actor.user == user && actor.provider == c.provider && actor.subject == c.subject && actor.session == c.session
    && after.organizations == db.organizations && after.memberships == db.memberships && after.keys == db.keys
    && |after.users| == |db.users| && (forall i | 0 <= i < |db.users| && i != user :: after.users[i] == db.users[i])
    && user < |db.users| && (profile.None? ==> after.users[user] == db.users[user])
    && (profile.Some? ==> Updated(db.users[user], after.users[user], profile.value))
    && after.sessions.Keys == db.sessions.Keys + {key}
    && after.sessions[key] == Session(user, actor.organization, false)
    && (forall k | k in db.sessions && k != key :: after.sessions[k] == db.sessions[k])
    && after.audit == (if key in db.sessions then db.audit else db.audit + [Audit(actor.organization, user, Started)])
    && var preferred := if key in db.sessions then Some(db.sessions[key].organization) else None;
       exists k: nat :: TakesSeat(db, user, preferred, k) && db.memberships[k].organization == actor.organization
                   && db.memberships[k].role == actor.role
  }

  /** A known identity sits where its session was, or in its oldest seat; a new session is logged, no more changes. */
  lemma {:induction false} ReturningActor(s: Setup, db: Db, c: Credentials, profile: Option<Profile>, user: nat)
    requires Sound(db) && user < |db.users|
    requires db.users[user].provider == c.provider && db.users[user].subject == c.subject
    requires Obstacle(db, user, c, profile).None?
    ensures
      var r := ResolveActor(s, db, c, profile);
      r.outcome.Success? && LoggedIn(db, r.db, r.outcome.value, user, c, profile)
  {
    hide Sound, FindUser, FindActiveMembership, CreatePersonalOrganization, OpenSeat, TakesSeat, EmailElsewhere;
    ReturningLogin(s, db, c, profile, user);
    SoundIdentities(db);
    IdentityFound(db.users, c.provider, c.subject, user);
    EmailMeans(db, user, profile);
    var key := SessionKey(c.provider, c.session);
    var preferred := if key in db.sessions then Some(db.sessions[key].organization) else None;
    var users := Locate(db, c, profile).value.users;
    var now := db.(users := users);
    SeatExists(now, user, preferred);
    SeatTaken(now, user, preferred);
    var k := FindActiveMembership(now, user, preferred).value;
    SameSeat(db, users, user, preferred, k);
  }

  lemma {:induction false} SameSeat(db: Db, users: seq<User>, user: nat, preferred: Option<nat>, k: nat)
    requires TakesSeat(db.(users := users), user, preferred, k)
    ensures TakesSeat(db, user, preferred, k) && k < |db.memberships|
  {
    forall i: nat ensures OpenSeat(db.(users := users), i, user) <==> OpenSeat(db, i, user) {}
  }

  // ---------------------------------------------------------------- the other operations

  /** The audit table names a user and an organisation that exist. */
  predicate Exists(db: Db, actor: Actor) { actor.user < |db.users| && actor.organization < |db.organizations| }

  /** Synchronising a profile: a foreign subject is refused, so is an email of another row; else the row is updated. */
  lemma {:induction false} SynchroniseMeans(db: Db, actor: Actor, profile: Profile)
    ensures
      var r := SyncProfile(db, actor, profile);
      && (r.outcome == Failure(InvalidToken) <==> profile.subject != actor.subject)
      && (r.outcome == Failure(ConstraintViolated)
          <==> && profile.subject == actor.subject
               && (!Exists(db, actor) || EmailElsewhere(db, actor.user, Some(profile))))
      && (r.outcome.Failure? ==> r.db == db)
      && (r.outcome.Success? ==>
            && Exists(db, actor) && |r.db.users| == |db.users|
            && Updated(db.users[actor.user], r.db.users[actor.user], profile)
            && r.db == db.(users := db.users[actor.user := r.db.users[actor.user]],
                           audit := db.audit + [Audit(actor.organization, actor.user, Synchronised)]))
  {
  }

  /** Revoking a session by identifier: false without an open one, refused when the log cannot name the actor. */
  lemma {:induction false} RevokeOneMeans(db: Db, actor: Actor, id: string)
    ensures
      var r := RevokeSession(db, actor, id);
      var open := exists k | k in db.sessions ::
        k.id == id && db.sessions[k] == Session(actor.user, db.sessions[k].organization, false);
      && (!open ==> r == Identity.Result(db, Success(false)))
      && (open && !Exists(db, actor) ==> r == Identity.Result(db, Failure(ConstraintViolated)))
      && (open && Exists(db, actor) ==>
            && r.outcome == Success(true) && r.db.sessions.Keys == db.sessions.Keys
            && r.db == db.(sessions := r.db.sessions,
                           audit := db.audit + [Audit(actor.organization, actor.user, Revoked)])
            && forall k | k in db.sessions ::
                 r.db.sessions[k] == if k.id == id && db.sessions[k].user == actor.user
                                     then Session(actor.user, db.sessions[k].organization, true) else db.sessions[k])
  {
  }

  /** Revoking everything: every session of the user is closed and the log says so; users and seats stay. */
  lemma {:induction false} RevokeEveryMeans(db: Db, actor: Actor)
    ensures
      var r := RevokeAllSessions(db, actor);
      && (r.outcome.Failure? <==> !Exists(db, actor))
      && (r.outcome.Failure? ==> r == Identity.Result(db, Failure(ConstraintViolated)))
      && (r.outcome.Success? ==>
            && r.db.users == db.users && r.db.memberships == db.memberships && r.db.organizations == db.organizations
            && r.db.audit == db.audit + [Audit(actor.organization, actor.user, RevokedAll)]
            && r.db.sessions.Keys == db.sessions.Keys
            && forall k | k in db.sessions ::
                 && r.db.sessions[k].user == db.sessions[k].user
                 && r.db.sessions[k].organization == db.sessions[k].organization
                 && (r.db.sessions[k].revoked <==> db.sessions[k].revoked || db.sessions[k].user == actor.user))
  {
    hide RevokeKeysOf;
  }

  /** A pending change of email: only the verification of that user is taken back. */
  lemma {:induction false} PendingMeans(db: Db, actor: Actor)
    ensures
      var r := MarkEmailChangePending(db, actor);
      && r.outcome.Success? && |r.db.users| == |db.users|
      && r.db == db.(users := r.db.users)
      && forall i | 0 <= i < |db.users| ::
           r.db.users[i] == if i == actor.user then db.users[i].(emailVerified := false) else db.users[i]
  {
  }

  /** Blocking is logged, keeps the row and takes away nothing but its activity. */
  lemma {:induction false} BlockMeans(db: Db, actor: Actor)
    ensures
      var r := BlockUser(db, actor);
      && (r.outcome.Failure? <==> !Exists(db, actor)) && (r.outcome.Failure? ==> r.db == db)
      && (r.outcome.Success? ==>
            && r.db.users == db.users[actor.user := db.users[actor.user].(active := false)]
            && r.db.audit == db.audit + [Audit(actor.organization, actor.user, Blocked)])
  {
    hide RevokeKeysOf;
  }

  /** How many active members of an organisation are not the given user. */
  function Colleagues(ms: seq<Membership>, organization: nat, user: nat): nat {
    if ms == [] then 0
    else
      var m := ms[0];
      Colleagues(ms[1..], organization, user)
      + (if m.active && m.organization == organization && m.user != user then 1 else 0)
  }

  /** An owner needs a successor exactly when the organisation has another active member. */
  lemma {:induction false} OthersMean(ms: seq<Membership>, organization: nat, user: nat)
    ensures HasOthers(ms, organization, user) <==> Colleagues(ms, organization, user) > 0
  {
    if ms != [] {
      OthersMean(ms[1..], organization, user);
      if i :| 0 <= i < |ms| && ms[i].active && ms[i].organization == organization && ms[i].user != user {
        if i > 0 { assert ms[1..][i - 1] == ms[i]; }
      }
      if i :|
        0 <= i < |ms| - 1 && ms[1..][i].active && ms[1..][i].organization == organization && ms[1..][i].user != user
      {
        assert ms[i + 1].active && ms[i + 1].organization == organization && ms[i + 1].user != user;
      }
    }
  }

  /** Releasing memberships touches memberships and the state of organisations only. */
  lemma {:induction false} ReleaseFromKeeps(db: Db, ids: seq<nat>, user: nat, replacement: Option<nat>)
    requires forall k | 0 <= k < |ids| :: ids[k] < |db.memberships|
    requires ReleaseFrom(db, ids, user, replacement).Some?
    ensures
      var after := ReleaseFrom(db, ids, user, replacement).value;
      && after.users == db.users && after.sessions == db.sessions && after.keys == db.keys && after.audit == db.audit
      && |after.organizations| == |db.organizations|
  {
    hide Promote, HasOthers, OneOwnerEach, IsActiveMember;
    if ids != [] { ReleaseFromKeeps(db, ids[..|ids| - 1], user, replacement); }
  }

  lemma {:induction false} LeaveKeeps(db: Db, user: nat, replacement: Option<nat>)
    requires Leave(db, user, replacement).Some?
    ensures
      var after := Leave(db, user, replacement).value;
      && after.users == db.users && after.sessions == db.sessions && after.keys == db.keys && after.audit == db.audit
      && |after.organizations| == |db.organizations|
  {
    hide ReleaseFrom;
    ReleaseFromKeeps(db, ActiveMemberships(db.memberships, user, |db.memberships|), user, replacement);
  }

  /** Deactivation: refused without a successor where one is needed; else the user is disabled and the log says so. */
  lemma {:induction false} DeactivationMeans(db: Db, actor: Actor, replacement: Option<nat>)
    ensures
      var r, left := DeactivateAccount(db, actor, replacement), Leave(db, actor.user, replacement);
      && (r.outcome == Failure(TransferRequired) <==> left.None?)
      && (r.outcome == Failure(ConstraintViolated) <==> left.Some? && !Exists(db, actor))
      && (r.outcome.Failure? ==> r.db == db)
      && (r.outcome.Success? ==>
            && left.Some? && Exists(db, actor)
            && r.db.memberships == left.value.memberships && r.db.organizations == left.value.organizations
            && r.db.users == db.users[actor.user := db.users[actor.user].(active := false)]
            && r.db.audit == db.audit + [Audit(actor.organization, actor.user, Deactivated)])
  {
    hide Leave, RevokeKeysOf;
    if Leave(db, actor.user, replacement).Some? { LeaveKeeps(db, actor.user, replacement); }
  }

  /** Deletion writes the erased row, under the digest of the subject, and a log entry. */
  lemma {:induction false} DeletionMeans(s: Setup, db: Db, actor: Actor, replacement: Option<nat>)
    ensures
      var r, left := PrepareAccountDeletion(s, db, actor, replacement), Leave(db, actor.user, replacement);
      && (r.outcome == Failure(TransferRequired) <==> left.None?)
      && (r.outcome.Failure? ==> r.db == db)
      && (r.outcome.Success? ==>
            && left.Some? && Exists(db, actor)
            && r.db.memberships == left.value.memberships && r.db.organizations == left.value.organizations
            && r.db.users
               == db.users[actor.user := User(db.users[actor.user].provider, "deleted|" + s.hash(actor.subject), None,
                                              false, false, true)]
            && r.db.audit == db.audit + [Audit(actor.organization, actor.user, Deleted)])
  {
    hide Leave, RevokeKeysOf, SubjectTaken;
    if Leave(db, actor.user, replacement).Some? { LeaveKeeps(db, actor.user, replacement); }
  }
}
