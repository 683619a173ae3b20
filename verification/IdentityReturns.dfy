/**
 * Identities that the database does not know, first or again: when they are let in, and when they
 * stay in (backend/src/infrastructure/database/identityRepository.ts:33-171, 283-304, 368-405).
 */
module IdentityReturns {
  import opened Records
  import opened Identity
  import opened IdentityGuarantees

  /** The personal organisation of an identity, if one was ever created. */
  function Personal(s: Setup, db: Db, c: Credentials): Option<nat> {
    FindSlug(db.organizations, s.slugOf(c.provider, c.subject))
  }

  /** What the profile and the session must satisfy for a new user. */
  predicate Admissible(db: Db, c: Credentials, profile: Option<Profile>) {
    && profile.Some? && profile.value.subject == c.subject && profile.value.emailVerified
    && !EmailTaken(db.users, |db.users|, profile.value.email)
    && SessionKey(c.provider, c.session) !in db.sessions
  }

  // ---------------------------------------------------------------- the first login

  lemma {:induction false} NewcomerHasNoSeat(db: Db, users: seq<User>)
    requires Sound(db)
    ensures forall p :: FindActiveMembership(db.(users := users), |db.users|, p).None?
    ensures forall i | 0 <= i < |db.memberships| :: db.memberships[i].user != |db.users|
  {
    var now := db.(users := users);
    assert forall i | 0 <= i < |now.memberships| :: !Usable(now, i, |db.users|);
  }

  lemma {:induction false} OneMoreOwner(ms: seq<Membership>, organization: nat, user: nat)
    requires OneOwnerEach(ms)
    ensures OneOwnerEach(ms + [Membership(organization, user, Owner, true)]) <==> !Owned(ms, organization)
  {
    var all := ms + [Membership(organization, user, Owner, true)];
    if i :| 0 <= i < |ms| && OwnsActively(ms[i], organization) {
      assert OwnsActively(all[i], all[i].organization) && OwnsActively(all[|ms|], all[i].organization);
    }
    if !Owned(ms, organization) {
      forall i, j | 0 <= i < j < |all| && OwnsActively(all[i], all[i].organization)
        ensures !OwnsActively(all[j], all[i].organization)
      {
        assert all[i] == ms[i];
      }
    }
  }

  /** The personal organisation is given to a newcomer exactly when it is new or has no active owner. */
  lemma {:induction false} PersonalSeat(s: Setup, db: Db, users: seq<User>, c: Credentials)
    requires Sound(db)
    ensures
      var found, seat := Personal(s, db, c), CreatePersonalOrganization(s, db.(users := users), |db.users|, c);
      && (seat.Some? <==> found.None? || !Owned(db.memberships, found.value))
      && (seat.Some? ==>
            && seat.value.role == Owner
            && seat.value.organization == (if found.Some? then found.value else |db.organizations|)
            && seat.value.db == db.(
                 users := users,
                 organizations := if found.Some? then db.organizations
                                  else db.organizations + [Organization(s.slugOf(c.provider, c.subject), true)],
                 memberships := db.memberships + [Membership(seat.value.organization, |db.users|, Owner, true)]))
  {
    hide OneOwnerEach, FindSlug;
    NewcomerHasNoSeat(db, users);
    var found := Personal(s, db, c);
    var organization := if found.Some? then found.value else |db.organizations|;
    OneMoreOwner(db.memberships, organization, |db.users|);
  }

  /** The state after a first login. */
  ghost predicate Enrolled(s: Setup, db: Db, c: Credentials, profile: Profile, after: Db, organization: nat) {
    var found, u := Personal(s, db, c), |db.users|;
    && organization == (if found.Some? then found.value else |db.organizations|)
    && after.users == db.users + [User(c.provider, c.subject, profile.email, true, true, false)]
    && after.organizations == (if found.Some? then db.organizations
                               else db.organizations + [Organization(s.slugOf(c.provider, c.subject), true)])
    && after.memberships == db.memberships + [Membership(organization, u, Owner, true)]
    && after.sessions == db.sessions[SessionKey(c.provider, c.session) := Session(u, organization, false)]
  }

  /**
   * An identity that is not known is let in exactly when profile and session are admissible and its
   * personal organisation does not exist or has no active owner; so never while it is active.
   */
  lemma {:induction false} FirstLogin(s: Setup, db: Db, c: Credentials, profile: Option<Profile>)
    requires Sound(db) && FindUser(db.users, c.provider, c.subject).None?
    ensures
      var r, found := ResolveActor(s, db, c, profile), Personal(s, db, c);
      && (r.outcome.Success? <==> Admissible(db, c, profile) && (found.None? || !Owned(db.memberships, found.value)))
      && (found.Some? && db.organizations[found.value].active ==> r.outcome.Failure?)
      && (r.outcome.Failure? ==> r.db == db)
      && (r.outcome.Success?
          ==> && r.outcome.value
                 == Actor(|db.users|, r.outcome.value.organization, Owner, c.provider, c.subject, c.session)
              && Enrolled(s, db, c, profile.value, r.db, r.outcome.value.organization))
  {
    hide OneOwnerEach, FindSlug, FindUser, EmailTaken, Rows, DistinctIdentities, CreatePersonalOrganization,
         FindActiveMembership, Owned;
    ResolveKeeps(s, db, c, profile);
    var located := Locate(db, c, profile);
    if located.Success? {
      NewcomerHasNoSeat(db, located.value.users);
      PersonalSeat(s, db, located.value.users, c);
    }
  }

  // ---------------------------------------------------------------- the logins after it

  lemma {:induction false} OnlyNewcomer(users: seq<User>, u: User)
    requires FindUser(users, u.provider, u.subject).None?
    ensures FindUser(users + [u], u.provider, u.subject) == Some(|users|)
  {
    assert forall i | 0 <= i < |users| :: !IsUser(users[i], u.provider, u.subject);
    assert forall i | 0 <= i < |users + [u]| && i != |users| :: !IsUser((users + [u])[i], u.provider, u.subject);
  }

  /** The newcomer's only membership is usable exactly when the organisation is new. */
  lemma {:induction false} NewcomerSeat(s: Setup, db: Db, c: Credentials, profile: Profile, after: Db,
                                        organization: nat, preferred: Option<nat>)
    requires Sound(db) && Enrolled(s, db, c, profile, after, organization)
    requires Personal(s, db, c).Some? ==> !db.organizations[Personal(s, db, c).value].active
    ensures FindActiveMembership(after, |db.users|, preferred).Some? <==> Personal(s, db, c).None?
  {
    hide OneOwnerEach, FindSlug, DistinctIdentities, Owned;
    var u, n := |db.users|, |db.memberships|;
    assert after.memberships[n] == Membership(organization, u, Owner, true);
    forall i | 0 <= i < n ensures !Usable(after, i, u) { assert after.memberships[i] == db.memberships[i]; }
  }

  /**
   * After a first login the identity can log in again, through the same or another new session,
   * exactly when its personal organisation did not exist before.
   */
  lemma {:induction false} NextLogin(s: Setup, db: Db, c: Credentials, profile: Option<Profile>, again: Credentials)
    requires Sound(db) && FindUser(db.users, c.provider, c.subject).None?
    requires ResolveActor(s, db, c, profile).outcome.Success?
    requires again.provider == c.provider && again.subject == c.subject
    requires SessionKey(again.provider, again.session) !in db.sessions
    ensures
      var next := ResolveActor(s, ResolveActor(s, db, c, profile).db, again, None).outcome;
      && (next.Success? <==> Personal(s, db, c).None?)
      && (next.Failure? ==> next == Failure(MembershipRequired))
  {
    hide OneOwnerEach, FindSlug, EmailTaken, Rows, DistinctIdentities, FindActiveMembership, Owned, FindUser, Personal;
    FirstLogin(s, db, c, profile);
    ClosedIfReused(s, db, c);
    var r := ResolveActor(s, db, c, profile);
    var after, organization := r.db, r.outcome.value.organization;
    assert Enrolled(s, db, c, profile.value, after, organization);
    hide ResolveActor;
    OnlyNewcomer(db.users, after.users[|db.users|]);
    var key := SessionKey(again.provider, again.session);
    var preferred := if key in after.sessions then Some(after.sessions[key].organization) else None;
    NewcomerSeat(s, db, c, profile.value, after, organization, preferred);
    KnownLogin(s, after, again, |db.users|);
  }

  lemma {:induction false} ClosedIfReused(s: Setup, db: Db, c: Credentials)
    requires Sound(db)
    ensures
      var found := Personal(s, db, c);
      found.Some? && !Owned(db.memberships, found.value) ==> !db.organizations[found.value].active
  {
    hide OneOwnerEach, Rows, DistinctIdentities, Owned;
  }

  /** A login of a known, open user without a profile depends on its membership alone. */
  lemma {:induction false} KnownLogin(s: Setup, db: Db, c: Credentials, user: nat)
    requires FindUser(db.users, c.provider, c.subject) == Some(user)
    requires db.users[user].active && !db.users[user].deleted && db.users[user].emailVerified
    requires
      var key := SessionKey(c.provider, c.session);
      key in db.sessions ==> db.sessions[key].user == user && !db.sessions[key].revoked
    ensures
      var key := SessionKey(c.provider, c.session);
      var preferred := if key in db.sessions then Some(db.sessions[key].organization) else None;
      var r := ResolveActor(s, db, c, None);
      && (r.outcome.Success? <==> FindActiveMembership(db, user, preferred).Some?)
      && (r.outcome.Failure? ==> r.outcome == Failure(MembershipRequired))
  {
    hide FindUser, FindActiveMembership, CreatePersonalOrganization;
    assert db.(users := db.users) == db;
  }

  // ---------------------------------------------------------------- coming back after a deletion

  lemma {:induction false} OnlySlug(before: seq<Organization>, after: seq<Organization>, slug: string)
    requires FindSlug(before, slug).None? && |after| == |before| + 1
    requires after[|before|].slug == slug && forall o | 0 <= o < |before| :: after[o].slug == before[o].slug
    ensures FindSlug(after, slug) == Some(|before|)
  {
    hide FindSlug;
    forall o | 0 <= o < |before| ensures after[o].slug != slug { assert before[o].slug != slug; }
    assert after[|before|].slug == slug;
  }

  /** The only member of the personal organisation can always leave it. */
  lemma {:induction false} NewcomerCanLeave(s: Setup, db: Db, c: Credentials, profile: Profile, after: Db,
                                            organization: nat, replacement: Option<nat>)
    requires Sound(db) && Enrolled(s, db, c, profile, after, organization) && Personal(s, db, c).None?
    ensures forall i | 0 <= i < |after.memberships| && after.memberships[i].user == |db.users| ::
              i == |db.memberships| && Transferable(after.memberships, i, |db.users|, replacement)
  {
    hide OneOwnerEach, FindSlug, DistinctIdentities, Owned, IsActiveMember;
    var ms := after.memberships;
    assert forall k | 0 <= k < |db.memberships| :: ms[k] == db.memberships[k];
    forall i | 0 <= i < |ms| && ms[i].user == |db.users|
      ensures i == |db.memberships| && Transferable(ms, i, |db.users|, replacement)
    {
      assert forall k | 0 <= k < |ms| :: !(ms[k].organization == organization && ms[k].user != |db.users|);
    }
  }

  /** The state after the newcomer is deleted: the user is erased and the personal organisation closed. */
  ghost predicate Closed(s: Setup, db: Db, c: Credentials, after: Db) {
    var u, organization := |db.users|, |db.organizations|;
    && Sound(after)
    && |after.users| == u + 1 && after.users[..u] == db.users
    && after.users[u] == User(c.provider, DeletedSubject(s, c.subject), None, false, false, true)
    && Personal(s, after, c) == Some(organization) && !Owned(after.memberships, organization)
    && !after.organizations[organization].active
    && after.sessions.Keys == db.sessions.Keys + {SessionKey(c.provider, c.session)}
  }

  lemma {:induction false} DeleteNewcomer(s: Setup, db: Db, c: Credentials, profile: Profile, enrolled: Db,
                                          actor: Actor, replacement: Option<nat>)
    requires Sound(db) && FindUser(db.users, c.provider, c.subject).None? && Personal(s, db, c).None?
    requires Sound(enrolled) && Enrolled(s, db, c, profile, enrolled, |db.organizations|)
    requires actor.user == |db.users| && actor.organization == |db.organizations| && actor.subject == c.subject
    requires FindUser(db.users, c.provider, DeletedSubject(s, c.subject)).None?
    ensures PrepareAccountDeletion(s, enrolled, actor, replacement).outcome.Success?
    ensures Closed(s, db, c, PrepareAccountDeletion(s, enrolled, actor, replacement).db)
  {
    hide OneOwnerEach, FindSlug, FindUser, EmailTaken, Rows, DistinctIdentities, Owned, Leave, RevokeKeysOf,
      Transferable;
    DeletionIsSound(s, enrolled, actor, replacement);
    NewcomerCanLeave(s, db, c, profile, enrolled, |db.organizations|, replacement);
    assert forall i | 0 <= i < |db.users| :: enrolled.users[i] == db.users[i];
    var r := PrepareAccountDeletion(s, enrolled, actor, replacement);
    LeaveSucceeds(enrolled, actor.user, replacement);
    var left := Leave(enrolled, actor.user, replacement).value;
    assert r.outcome.Success?;
    assert r.db.memberships == left.memberships && r.db.organizations == left.organizations;
    OnlySlug(db.organizations, left.organizations, s.slugOf(c.provider, c.subject));
    NobodyElse(s, db, c, profile, enrolled, left, replacement);
  }

  lemma {:induction false} NobodyElse(s: Setup, db: Db, c: Credentials, profile: Profile, enrolled: Db, left: Db,
                                      replacement: Option<nat>)
    requires Sound(db) && Personal(s, db, c).None? && OwnershipSound(enrolled)
    requires Enrolled(s, db, c, profile, enrolled, |db.organizations|)
    requires Leave(enrolled, |db.users|, replacement) == Some(left)
    ensures !Owned(left.memberships, |db.organizations|)
    ensures |db.organizations| < |left.organizations| && !left.organizations[|db.organizations|].active
  {
    hide OneOwnerEach, FindSlug, Leave, DistinctIdentities;
    LeaveSucceeds(enrolled, |db.users|, replacement);
    var ms := left.memberships;
    forall k | 0 <= k < |ms| ensures !OwnsActively(ms[k], |db.organizations|) {
      if k < |db.memberships| { assert enrolled.memberships[k] == db.memberships[k]; }
    }
  }

  /**
   * A run: an identity logs in for the first time, is deleted, and comes back through a new session.
   * It is let in as owner of its closed organisation, and refused from then on.
   */
  lemma {:induction false} DeletedThenReturned(s: Setup, db: Db, c: Credentials, profile: Profile,
                                               replacement: Option<nat>, again: Credentials)
    requires Sound(db) && FindUser(db.users, c.provider, c.subject).None? && Personal(s, db, c).None?
    requires Admissible(db, c, Some(profile)) && Admissible(db, again, Some(profile))
    requires again.provider == c.provider && again.subject == c.subject && again.session != c.session
    requires DeletedSubject(s, c.subject) != c.subject
    requires FindUser(db.users, c.provider, DeletedSubject(s, c.subject)).None?
    ensures
      var actor := Actor(|db.users|, |db.organizations|, Owner, c.provider, c.subject, c.session);
      var deleted := Run(s, db, [Resolve(c, Some(profile)), Delete(actor, replacement)]);
      var returned := ResolveActor(s, deleted, again, Some(profile));
      && ResolveActor(s, db, c, Some(profile)).outcome == Success(actor)
      && returned.outcome.Success? && returned.outcome.value.role == Owner
      && returned.outcome.value.organization == |db.organizations|
      && ResolveActor(s, returned.db, again, None).outcome == Failure(MembershipRequired)
  {
    hide OneOwnerEach, FindSlug, FindUser, EmailTaken, Rows, DistinctIdentities, Owned, Enrolled, ResolveActor,
         PrepareAccountDeletion;
    FirstLogin(s, db, c, Some(profile));
    ResolveKeeps(s, db, c, Some(profile));
    var first := ResolveActor(s, db, c, Some(profile));
    var actor := first.outcome.value;
    assert actor.organization == |db.organizations| by { EnrolledIn(s, db, c, profile, first.db, actor.organization); }
    DeleteNewcomer(s, db, c, profile, first.db, actor, replacement);
    var deleted := PrepareAccountDeletion(s, first.db, actor, replacement).db;
    TwoSteps(s, db, Resolve(c, Some(profile)), Delete(actor, replacement));
    Forgotten(s, db, c, deleted, profile, again);
    FirstLogin(s, deleted, again, Some(profile));
    var returned := ResolveActor(s, deleted, again, Some(profile));
    EnrolledIn(s, deleted, again, profile, returned.db, returned.outcome.value.organization);
    NextLogin(s, deleted, again, Some(profile), again);
  }

  lemma {:induction false} EnrolledIn(s: Setup, db: Db, c: Credentials, profile: Profile, after: Db, organization: nat)
    requires Enrolled(s, db, c, profile, after, organization)
    ensures organization == if Personal(s, db, c).Some? then Personal(s, db, c).value else |db.organizations|
  {
  }

  lemma {:induction false} TwoSteps(s: Setup, db: Db, a: Step, b: Step)
    ensures Run(s, db, [a, b]) == Apply(s, Apply(s, db, a), b)
  {
    hide Apply;
    assert [a, b][..1] == [a] && [a][..0] == [];
    assert Run(s, db, [a][..0]) == db;
    assert Run(s, db, [a]) == Apply(s, db, a);
  }

  /** Once erased, the identity is unknown again and admissible as before. */
  lemma {:induction false} Forgotten(s: Setup, db: Db, c: Credentials, deleted: Db, profile: Profile,
                                     again: Credentials)
    requires FindUser(db.users, c.provider, c.subject).None? && Closed(s, db, c, deleted)
    requires DeletedSubject(s, c.subject) != c.subject
    requires Admissible(db, again, Some(profile)) && again.session != c.session
    requires again.provider == c.provider && again.subject == c.subject
    ensures FindUser(deleted.users, again.provider, again.subject).None?
    ensures Admissible(deleted, again, Some(profile)) && Personal(s, deleted, again) == Some(|db.organizations|)
  {
    hide FindSlug, FindUser, Sound, Owned;
    var u := |db.users|;
    forall i | 0 <= i < |deleted.users|
      ensures !IsUser(deleted.users[i], c.provider, c.subject)
      ensures profile.email.Some? ==> deleted.users[i].email != profile.email
    {
      if i < u {
        assert deleted.users[i] == deleted.users[..u][i] == db.users[i];
        assert !IsUser(db.users[i], c.provider, c.subject);
      }
    }
  }

  // ---------------------------------------------------------------- it is never deleted again

  /** No deletion step speaks of the row under another subject than the one it was erased under. */
  predicate SpeaksOf(steps: seq<Step>, user: nat, subject: string) {
    forall k | 0 <= k < |steps| && steps[k].Delete? && steps[k].actor.user == user ::
      steps[k].actor.subject == subject
  }

  /** Rows keep their provider; their subject changes only by being erased. */
  lemma {:induction false} StepRows(s: Setup, db: Db, step: Step, i: nat)
    requires i < |db.users|
    ensures
      var after := Apply(s, db, step);
      && |db.users| <= |after.users| && after.users[i].provider == db.users[i].provider
      && (after.users[i].subject == db.users[i].subject
          || (step.Delete? && step.actor.user == i && after.users[i].subject == DeletedSubject(s, step.actor.subject)))
  {
    hide FindUser, EmailTaken, FindActiveMembership, CreatePersonalOrganization, Leave, RevokeAccess, SubjectTaken,
         DeletedSubject;
    match step
    case Resolve(c, profile) => ResolveRows(s, db, c, profile, i);
    case RevokeOne(actor, id) =>
    case RevokeEvery(actor) => RevokeAccessFrame(db, actor.user);
    case MarkPending(actor) =>
    case Block(actor) =>
      if Known(db, actor) {
        RevokeAccessFrame(db.(users := db.users[actor.user := db.users[actor.user].(active := false)]), actor.user);
      }
    case Deactivate(actor, replacement) =>
      if Leave(db, actor.user, replacement).Some? && Known(db, actor) {
        var left := Leave(db, actor.user, replacement).value;
        RevokeAccessFrame(left.(users := db.users[actor.user := db.users[actor.user].(active := false)]), actor.user);
      }
    case Delete(actor, replacement) =>
      if PrepareAccountDeletion(s, db, actor, replacement).outcome.Success? {
        var left := Leave(db, actor.user, replacement).value;
        RevokeAccessFrame(left.(users := db.users[actor.user := Erased(s, db.users[actor.user], actor.subject)]),
                          actor.user);
      }
    case Synchronise(actor, profile) =>
  }

  lemma {:induction false} ResolveRows(s: Setup, db: Db, c: Credentials, profile: Option<Profile>, i: nat)
    requires i < |db.users|
    ensures
      var after := ResolveActor(s, db, c, profile).db;
      && |db.users| <= |after.users| && after.users[i].provider == db.users[i].provider
      && after.users[i].subject == db.users[i].subject
  {
    hide FindUser, EmailTaken, FindActiveMembership, FindSlug, OneOwnerEach;
  }

  lemma {:induction false} ErasedStays(s: Setup, db: Db, steps: seq<Step>, user: nat, subject: string)
    requires user < |db.users| && db.users[user].subject == DeletedSubject(s, subject)
    requires SpeaksOf(steps, user, subject)
    ensures
      var later := Run(s, db, steps);
      && |db.users| <= |later.users| && later.users[user].provider == db.users[user].provider
      && later.users[user].subject == DeletedSubject(s, subject)
  {
    hide Apply, DeletedSubject;
    if steps != [] {
      var n := |steps| - 1;
      ErasedStays(s, db, steps[..n], user, subject);
      StepRows(s, Run(s, db, steps[..n]), steps[n], user);
    }
  }

  lemma {:induction false} ProviderStays(s: Setup, db: Db, steps: seq<Step>, user: nat)
    requires user < |db.users|
    ensures user < |Run(s, db, steps).users| && Run(s, db, steps).users[user].provider == db.users[user].provider
  {
    hide Apply;
    if steps != [] {
      var n := |steps| - 1;
      ProviderStays(s, db, steps[..n], user);
      StepRows(s, Run(s, db, steps[..n]), steps[n], user);
    }
  }

  /** A resolved actor carries the subject of its row, so the steps of real runs speak of a row as they should. */
  lemma {:induction false} ResolvedSubject(s: Setup, db: Db, c: Credentials, profile: Option<Profile>)
    requires DistinctIdentities(db.users) && ResolveActor(s, db, c, profile).outcome.Success?
    ensures
      var r := ResolveActor(s, db, c, profile);
      && r.outcome.value.subject == c.subject && r.outcome.value.user < |r.db.users|
      && IsUser(r.db.users[r.outcome.value.user], c.provider, r.outcome.value.subject)
  {
    hide FindUser, EmailTaken, FindActiveMembership, FindSlug, OneOwnerEach;
    LocateKeeps(db, c, profile);
  }

  /**
   * A deleted identity that comes back in any run can never be deleted again, in any continuation:
   * the erased subject is taken by the first row.
   */
  lemma {:induction false} NeverDeletedAgain(s: Setup, db: Db, actor: Actor, replacement: Option<nat>,
                                             meanwhile: seq<Step>, c: Credentials, profile: Option<Profile>,
                                             later: seq<Step>, successor: Option<nat>)
    requires Sound(db) && PrepareAccountDeletion(s, db, actor, replacement).outcome.Success?
    requires db.users[actor.user].provider == c.provider && actor.subject == c.subject
    requires SpeaksOf(meanwhile, actor.user, c.subject) && SpeaksOf(later, actor.user, c.subject)
    requires
      var returned :=
        ResolveActor(s, Run(s, PrepareAccountDeletion(s, db, actor, replacement).db, meanwhile), c, profile);
      returned.outcome.Success?
    ensures
      var returned :=
        ResolveActor(s, Run(s, PrepareAccountDeletion(s, db, actor, replacement).db, meanwhile), c, profile);
      var now := Run(s, returned.db, later);
      var refused := PrepareAccountDeletion(s, now, returned.outcome.value, successor);
      refused.outcome.Failure? && refused.db == now
  {
    hide ResolveActor, Run, Apply, Leave, RevokeAccess, DeletedSubject, Rows, SingleOwner, DistinctIdentities, SpeaksOf;
    var after := PrepareAccountDeletion(s, db, actor, replacement).db;
    DeletionRow(s, db, actor, replacement);
    ErasedStays(s, after, meanwhile, actor.user, c.subject);
    var before := Run(s, after, meanwhile);
    DeletionIsSound(s, db, actor, replacement);
    RunKeepsSound(s, after, meanwhile);
    var returned := ResolveActor(s, before, c, profile);
    RemovedNeverReturns(s, db, actor, replacement, true, meanwhile, c, profile);
    ResolvedSubject(s, before, c, profile);
    ResolveRows(s, before, c, profile, actor.user);
    ErasedStays(s, returned.db, later, actor.user, c.subject);
    ProviderStays(s, returned.db, later, returned.outcome.value.user);
    var now := Run(s, returned.db, later);
    assert IsUser(now.users[actor.user], now.users[returned.outcome.value.user].provider, DeletedSubject(s, c.subject));
  }

  lemma {:induction false} DeletionRow(s: Setup, db: Db, actor: Actor, replacement: Option<nat>)
    requires PrepareAccountDeletion(s, db, actor, replacement).outcome.Success?
    ensures
      var after := PrepareAccountDeletion(s, db, actor, replacement).db;
      && actor.user < |db.users| == |after.users|
      && after.users[actor.user].provider == db.users[actor.user].provider
      && after.users[actor.user].subject == DeletedSubject(s, actor.subject)
  {
    hide Leave, RevokeAccess, DeletedSubject, SubjectTaken;
    var left := Leave(db, actor.user, replacement).value;
    var erased := Erased(s, db.users[actor.user], actor.subject);
    RevokeAccessFrame(left.(users := db.users[actor.user := erased]), actor.user);
  }
}
