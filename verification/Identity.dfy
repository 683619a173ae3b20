/**
 * Users, sessions and ownership (backend/src/infrastructure/database/identityRepository.ts), with the
 * uniqueness rules of backend/src/infrastructure/database/schema.ts and backend/migrations.  Rows keep
 * their position, which serves as identifier and as order of creation.  A transaction is one step.
 */
module Identity {
  import opened Records

  // ---------------------------------------------------------------- rows

  datatype User = User(provider: string, subject: string, email: Option<string>, emailVerified: bool, active: bool,
                       deleted: bool)

  datatype Organization = Organization(slug: string, active: bool)

  datatype Role = Owner | Member

  datatype Membership = Membership(organization: nat, user: nat, role: Role, active: bool)

  datatype SessionKey = SessionKey(provider: string, id: string)

  datatype Session = Session(user: nat, organization: nat, revoked: bool)

  datatype ApiKey = ApiKey(organization: nat, creator: nat, active: bool)

  datatype Action = Provisioned | Started | Revoked | RevokedAll | Blocked | Deactivated | Deleted | Synchronised

  datatype Audit = Audit(organization: nat, user: nat, action: Action)

  datatype Db = Db(users: seq<User>, organizations: seq<Organization>, memberships: seq<Membership>,
                   sessions: map<SessionKey, Session>, keys: seq<ApiKey>, audit: seq<Audit>)

  datatype Error =
    | NotProvisioned | InvalidToken | UserDisabled | VerificationRequired | SessionRevoked | MembershipRequired
    | TransferRequired | ConstraintViolated

  datatype Actor = Actor(user: nat, organization: nat, role: Role, provider: string, subject: string, session: string)

  datatype Credentials = Credentials(provider: string, subject: string, session: string)

  datatype Profile = Profile(subject: string, email: Option<string>, emailVerified: bool)

  /** `slugOf` names the personal organisation of an identity, `hash` is the digest of a subject. */
  datatype Setup = Setup(slugOf: (string, string) -> string, hash: string -> string)

  // ---------------------------------------------------------------- statements

  /** Membership `i` revoked. */
  function RevokeMembership(ms: seq<Membership>, i: nat): seq<Membership>
    requires i < |ms|
  {
    ms[i := ms[i].(active := false)]
  }

  predicate ActiveIn(m: Membership, organization: nat, user: nat) {
    m.active && m.organization == organization && m.user == user
  }

  predicate OwnsActively(m: Membership, organization: nat) {
    m.active && m.organization == organization && m.role == Owner
  }

  /** The active memberships of a user in an organisation become ownerships. */
  function Promote(ms: seq<Membership>, organization: nat, user: nat): (r: seq<Membership>)
    ensures |r| == |ms|
    ensures forall i | 0 <= i < |ms| ::
          r[i] == if ActiveIn(ms[i], organization, user) then ms[i].(role := Owner) else ms[i]
  {
    if ms == [] then []
    else
      var n := |ms| - 1;
      Promote(ms[..n], organization, user)
        + [if ActiveIn(ms[n], organization, user) then ms[n].(role := Owner) else ms[n]]
  }

  /** The partial unique index on active owners. */
  predicate OneOwnerEach(ms: seq<Membership>) {
    forall i, j | 0 <= i < j < |ms| && OwnsActively(ms[i], ms[i].organization) ::
      !OwnsActively(ms[j], ms[i].organization)
  }

  predicate HasOthers(ms: seq<Membership>, organization: nat, user: nat) {
    exists i | 0 <= i < |ms| :: ms[i].active && ms[i].organization == organization && ms[i].user != user
  }

  predicate IsActiveMember(ms: seq<Membership>, organization: nat, user: nat) {
    exists i | 0 <= i < |ms| :: ActiveIn(ms[i], organization, user)
  }

  /** Revokes every open session of a user. */
  function RevokeSessions(sessions: map<SessionKey, Session>, user: nat): map<SessionKey, Session> {
    map k | k in sessions :: if sessions[k].user == user then sessions[k].(revoked := true) else sessions[k]
  }

  /** Revokes the keys a user created in one organisation. */
  function RevokeKeys(keys: seq<ApiKey>, organization: nat, user: nat): (r: seq<ApiKey>)
    ensures |r| == |keys|
    ensures forall i | 0 <= i < |keys| ::
              r[i]
                == if keys[i].organization == organization && keys[i].creator == user then keys[i].(active := false)
                   else keys[i]
  {
    if keys == [] then []
    else
      var n := |keys| - 1;
      var k := keys[n];
      RevokeKeys(keys[..n], organization, user)
        + [if k.organization == organization && k.creator == user then k.(active := false) else k]
  }

  predicate IsUser(u: User, provider: string, subject: string) { u.provider == provider && u.subject == subject }

  function FindUser(users: seq<User>, provider: string, subject: string): (r: Option<nat>)
    ensures r.Some? ==> r.value < |users| && IsUser(users[r.value], provider, subject)
    ensures r.None? ==> forall i | 0 <= i < |users| :: !IsUser(users[i], provider, subject)
  {
    if users == [] then None
    else
      var n := |users| - 1;
      var before := FindUser(users[..n], provider, subject);
      if before.Some? then before else if IsUser(users[n], provider, subject) then Some(n) else None
  }

  function FindSlug(organizations: seq<Organization>, slug: string): (r: Option<nat>)
    ensures r.Some? ==> r.value < |organizations| && organizations[r.value].slug == slug
    ensures r.None? ==> forall i | 0 <= i < |organizations| :: organizations[i].slug != slug
  {
    if organizations == [] then None
    else
      var n := |organizations| - 1;
      var before := FindSlug(organizations[..n], slug);
      if before.Some? then before else if organizations[n].slug == slug then Some(n) else None
  }

  /** Some other row has the email. */
  predicate EmailTaken(users: seq<User>, user: nat, email: Option<string>) {
    email.Some? && exists i | 0 <= i < |users| && i != user :: users[i].email == email
  }

  predicate SubjectTaken(users: seq<User>, user: nat, provider: string, subject: string) {
    exists i | 0 <= i < |users| && i != user :: IsUser(users[i], provider, subject)
  }

  predicate Usable(db: Db, i: nat, user: nat)
    requires i < |db.memberships|
  {
    var m := db.memberships[i];
    m.user == user && m.active && m.organization < |db.organizations| && db.organizations[m.organization].active
  }

  /** The first usable membership with index below `n`, in the preferred organisation if one is given. */
  function FirstUsable(db: Db, user: nat, preferred: Option<nat>, n: nat): (r: Option<nat>)
    requires n <= |db.memberships|
    ensures r.Some?
            ==> r.value < n && Usable(db, r.value, user)
                && (preferred.Some? ==> db.memberships[r.value].organization == preferred.value)
    ensures r.None?
            ==> forall i | 0 <= i < n && (preferred.Some? ==> db.memberships[i].organization == preferred.value) ::
                !Usable(db, i, user)
  {
    if n == 0 then None
    else
      var before := FirstUsable(db, user, preferred, n - 1);
      if before.Some? then before
      else if Usable(db, n - 1, user)
              && (preferred.Some? ==> db.memberships[n - 1].organization == preferred.value) then Some(n - 1)
      else None
  }

  /** The preferred organisation if it is usable, else the oldest usable membership. */
  function FindActiveMembership(db: Db, user: nat, preferred: Option<nat>): (r: Option<nat>)
    ensures r.Some? ==> r.value < |db.memberships| && Usable(db, r.value, user)
    ensures r.None? ==> forall i | 0 <= i < |db.memberships| :: !Usable(db, i, user)
  {
    var exact := if preferred.Some? then FirstUsable(db, user, preferred, |db.memberships|) else None;
    if exact.Some? then exact else FirstUsable(db, user, None, |db.memberships|)
  }

  // ---------------------------------------------------------------- account removal

  /**
   * One membership of the leaving user; `None` when the ownership cannot be passed on.  The index on
   * active owners never refuses the promotion in a sound database (PromotionIsUnique).
   */
  function Release(db: Db, i: nat, user: nat, replacement: Option<nat>): Option<Db>
    requires i < |db.memberships|
  {
    var m := db.memberships[i];
    var revoked := db.(memberships := RevokeMembership(db.memberships, i));
    if m.role != Owner then Some(revoked)
    else if !HasOthers(db.memberships, m.organization, user) then
      Some(if m.organization < |db.organizations|
           then revoked.(organizations :=
                 db.organizations[m.organization := db.organizations[m.organization].(active := false)])
           else revoked)
    else if replacement.None? || replacement.value == user
            || !IsActiveMember(db.memberships, m.organization, replacement.value) then None
    else
      var promoted := Promote(revoked.memberships, m.organization, replacement.value);
      if OneOwnerEach(promoted) then Some(db.(memberships := promoted)) else None
  }

  /** The memberships of the user that were active at the start, in turn. */
  function ReleaseFrom(db: Db, ids: seq<nat>, user: nat, replacement: Option<nat>): (r: Option<Db>)
    requires forall k | 0 <= k < |ids| :: ids[k] < |db.memberships|
    ensures r.Some? ==> |r.value.memberships| == |db.memberships|
  {
    if ids == [] then Some(db)
    else
      var n := |ids| - 1;
      var before := ReleaseFrom(db, ids[..n], user, replacement);
      if before.None? then None else Release(before.value, ids[n], user, replacement)
  }

  /** The active memberships of a user with index below `n`. */
  function ActiveMemberships(ms: seq<Membership>, user: nat, n: nat): (r: seq<nat>)
    requires n <= |ms|
    ensures forall k | 0 <= k < |r| :: r[k] < n && ms[r[k]].user == user && ms[r[k]].active
    ensures forall i | 0 <= i < n && ms[i].user == user && ms[i].active :: i in r
    ensures forall j, k | 0 <= j < k < |r| :: r[j] < r[k]
  {
    if n == 0 then []
    else ActiveMemberships(ms, user, n - 1) + (if ms[n - 1].user == user && ms[n - 1].active then [n - 1] else [])
  }

  function Leave(db: Db, user: nat, replacement: Option<nat>): Option<Db> {
    ReleaseFrom(db, ActiveMemberships(db.memberships, user, |db.memberships|), user, replacement)
  }

  /** The keys of a user in every organisation it has a membership row in, among the first `n` rows. */
  function RevokeKeysOf(keys: seq<ApiKey>, ms: seq<Membership>, user: nat, n: nat): (r: seq<ApiKey>)
    requires n <= |ms|
    ensures |r| == |keys|
  {
    if n == 0 then keys
    else
      var before := RevokeKeysOf(keys, ms, user, n - 1);
      if ms[n - 1].user == user then RevokeKeys(before, ms[n - 1].organization, user) else before
  }

  function RevokeAccess(db: Db, user: nat): Db {
    db.(sessions := RevokeSessions(db.sessions, user),
        keys := RevokeKeysOf(db.keys, db.memberships, user, |db.memberships|))
  }

  predicate Known(db: Db, actor: Actor) { actor.user < |db.users| && actor.organization < |db.organizations| }

  function Logged(db: Db, actor: Actor, action: Action): Db {
    db.(audit := db.audit + [Audit(actor.organization, actor.user, action)])
  }

  datatype Reply<T> = Success(value: T) | Failure(error: Error)

  /** A failed transaction leaves the database as it was. */
  datatype Result<T> = Result(db: Db, outcome: Reply<T>)

  function Fail<T>(db: Db, error: Error): Result<T> { Result(db, Failure(error)) }

  function DeactivateAccount(db: Db, actor: Actor, replacement: Option<nat>): Result<()> {
    var left := Leave(db, actor.user, replacement);
    if left.None? then Fail(db, TransferRequired)
    else if !Known(db, actor) then Fail(db, ConstraintViolated)
    else
      var disabled := left.value.(users := db.users[actor.user := db.users[actor.user].(active := false)]);
      Result(Logged(RevokeAccess(disabled, actor.user), actor, Deactivated), Success(()))
  }

  function DeletedSubject(s: Setup, subject: string): string { "deleted|" + s.hash(subject) }

  function Erased(s: Setup, u: User, subject: string): User {
    User(u.provider, DeletedSubject(s, subject), None, false, false, true)
  }

  function PrepareAccountDeletion(s: Setup, db: Db, actor: Actor, replacement: Option<nat>): Result<()> {
    var left := Leave(db, actor.user, replacement);
    if left.None? then Fail(db, TransferRequired)
    else if !Known(db, actor) then Fail(db, ConstraintViolated)
    else
      var u := db.users[actor.user];
      if SubjectTaken(db.users, actor.user, u.provider, DeletedSubject(s, actor.subject))
        then Fail(db, ConstraintViolated)
      else
        var erased := left.value.(users := db.users[actor.user := Erased(s, u, actor.subject)]);
        Result(Logged(RevokeAccess(erased, actor.user), actor, Deleted), Success(()))
  }

  // ---------------------------------------------------------------- sessions and profiles

  function RevokeSession(db: Db, actor: Actor, id: string): Result<bool> {
    if forall k | k in db.sessions && k.id == id && db.sessions[k].user == actor.user :: db.sessions[k].revoked
      then Result(db, Success(false))
    else if !Known(db, actor) then Fail(db, ConstraintViolated)
    else
      var sessions := map k | k in db.sessions ::
        if k.id == id && db.sessions[k].user == actor.user then db.sessions[k].(revoked := true) else db.sessions[k];
      Result(Logged(db.(sessions := sessions), actor, Revoked), Success(true))
  }

  function RevokeAllSessions(db: Db, actor: Actor): Result<()> {
    if !Known(db, actor) then Fail(db, ConstraintViolated)
    else Result(Logged(RevokeAccess(db, actor.user), actor, RevokedAll), Success(()))
  }

  function MarkEmailChangePending(db: Db, actor: Actor): Result<()> {
    if actor.user < |db.users|
      then Result(db.(users := db.users[actor.user := db.users[actor.user].(emailVerified := false)]), Success(()))
    else Result(db, Success(()))
  }

  function BlockUser(db: Db, actor: Actor): Result<()> {
    if !Known(db, actor) then Fail(db, ConstraintViolated)
    else
      var disabled := db.(users := db.users[actor.user := db.users[actor.user].(active := false)]);
      Result(Logged(RevokeAccess(disabled, actor.user), actor, Blocked), Success(()))
  }

  /** The row after a profile update; an absent email leaves the column as it is. */
  function Refreshed(u: User, profile: Profile): User {
    u.(email := if profile.email.Some? then profile.email else u.email, emailVerified := profile.emailVerified)
  }

  /** `None` when another row has the email. */
  function UpdateProfile(users: seq<User>, user: nat, profile: Profile): (r: Option<seq<User>>)
    requires user < |users|
    ensures r.Some? ==> |r.value| == |users|
  {
    if EmailTaken(users, user, profile.email) then None
    else Some(users[user := Refreshed(users[user], profile)])
  }

  function SyncProfile(db: Db, actor: Actor, profile: Profile): Result<()> {
    if profile.subject != actor.subject then Fail(db, InvalidToken)
    else if !Known(db, actor) then Fail(db, ConstraintViolated)
    else
      var updated := UpdateProfile(db.users, actor.user, profile);
      if updated.None? then Fail(db, ConstraintViolated)
      else Result(Logged(db.(users := updated.value), actor, Synchronised), Success(()))
  }

  // ---------------------------------------------------------------- resolving an actor

  datatype Located = Located(users: seq<User>, user: nat, created: bool)

  /** Finds, creates or refreshes the local user. */
  function Locate(db: Db, c: Credentials, profile: Option<Profile>): (r: Reply<Located>)
    ensures r.Success? ==> r.value.user < |r.value.users|
  {
    var found := FindUser(db.users, c.provider, c.subject);
    if found.None? then
      if profile.None? || profile.value.subject != c.subject then Failure(NotProvisioned)
      else if EmailTaken(db.users, |db.users|, profile.value.email) then Failure(ConstraintViolated)
      else
        var u := User(c.provider, c.subject, profile.value.email, profile.value.emailVerified, true, false);
        Success(Located(db.users + [u], |db.users|, true))
    else if profile.Some? then
      var updated := UpdateProfile(db.users, found.value, profile.value);
      if updated.None? then Failure(ConstraintViolated) else Success(Located(updated.value, found.value, false))
    else Success(Located(db.users, found.value, false))
  }

  /** The checks on user and session that precede the membership. */
  function Refusal(l: Located, sessions: map<SessionKey, Session>, key: SessionKey): Option<Error>
    requires l.user < |l.users|
  {
    var u := l.users[l.user];
    if !u.active || u.deleted then Some(UserDisabled)
    else if !u.emailVerified then Some(VerificationRequired)
    else if key in sessions && sessions[key].user != l.user then Some(InvalidToken)
    else if key in sessions && sessions[key].revoked then Some(SessionRevoked)
    else None
  }

  datatype Seat = Seat(db: Db, organization: nat, role: Role)

  /** Creates, or reuses by slug, the personal organisation; `None` when it already has an active owner. */
  function CreatePersonalOrganization(s: Setup, db: Db, user: nat, c: Credentials): Option<Seat> {
    var slug := s.slugOf(c.provider, c.subject);
    var found := FindSlug(db.organizations, slug);
    var organization := if found.Some? then found.value else |db.organizations|;
    var organizations := if found.Some? then db.organizations else db.organizations + [Organization(slug, true)];
    var ms :=
      if exists i | 0 <= i < |db.memberships| ::
            db.memberships[i].organization == organization && db.memberships[i].user == user
              then db.memberships else db.memberships + [Membership(organization, user, Owner, true)];
    if OneOwnerEach(ms) then Some(Seat(db.(organizations := organizations, memberships := ms), organization, Owner))
      else None
  }

  function ResolveActor(s: Setup, db: Db, c: Credentials, profile: Option<Profile>): Result<Actor> {
    var located := Locate(db, c, profile);
    if located.Failure? then Fail(db, located.error)
    else
      var l, key := located.value, SessionKey(c.provider, c.session);
      var refusal := Refusal(l, db.sessions, key);
      if refusal.Some? then Fail(db, refusal.value)
      else
        var now := db.(users := l.users);
        var preferred := if key in db.sessions then Some(db.sessions[key].organization) else None;
        var found := FindActiveMembership(now, l.user, preferred);
        var seat :=
          if found.Some?
            then Some(Seat(now, now.memberships[found.value].organization, now.memberships[found.value].role))
                    else if l.created then CreatePersonalOrganization(s, now, l.user, c) else None;
        if seat.None? then Fail(db, if l.created then ConstraintViolated else MembershipRequired)
        else
          var actor := Actor(l.user, seat.value.organization, seat.value.role, c.provider, c.subject, c.session);
          var session := if key in db.sessions then db.sessions[key].(organization := actor.organization)
                         else Session(l.user, actor.organization, false);
          var written := seat.value.db.(sessions := db.sessions[key := session]);
          Result(if key in db.sessions then written
                 else Logged(written, actor, if l.created then Provisioned else Started), Success(actor))
  }
}
