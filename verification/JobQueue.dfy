/**
 * The durable job queue (backend/src/infrastructure/database/jobQueue.ts), with the constraints of
 * backend/src/infrastructure/database/schema.ts.  Rows keep their position, which serves as identifier
 * and as order of creation.  Every method is one transaction; times are given by the caller.
 */
module JobQueue {
  import opened Sorting
  import opened Records

  datatype Scope = System | OfOrganization

  datatype Status = Queued | Running | Succeeded | Failed | Cancelled

  datatype Job = Job(
    scope: Scope, organization: Option<string>, queue: string, jobType: string, key: string, status: Status,
    attempts: int, maxAttempts: int, requestedBy: Option<string>, scheduledAt: int, startedAt: Option<int>,
      completedAt: Option<int>,
    failureCode: Option<string>, dispatchedAt: Option<int>, dispatchAttempts: nat, cancelRequestedAt: Option<int>,
      payload: string)

  datatype DeadLetter = DeadLetter(job: nat, queue: string, jobType: string, attempts: int, failureCode: string)

  /** `audit` holds the jobs whose enqueueing was logged. */
  datatype Store = Store(jobs: seq<Job>, deadLetters: seq<DeadLetter>, audit: seq<nat>)

  datatype Request = Request(jobType: string, idempotencyKey: string, scope: Scope, organization: Option<string>,
                             requestedBy: Option<string>, idempotencyScope: Option<string>, payload: string)

  /** `queueOf` and `attemptsOf` give the queue and the policy of a job type, `hash` is the digest of a key. */
  datatype Setup = Setup(queueOf: string -> string, attemptsOf: string -> int, hash: string -> string)

  function ScopeName(scope: Scope): string { if scope == System then "system" else "organization" }

  function ScopedKey(s: Setup, r: Request): string {
    var scope := if r.idempotencyScope.Some? then r.idempotencyScope.value
                 else ScopeName(r.scope) + ":" + (if r.organization.Some? then r.organization.value else "system");
    s.hash(scope + ":" + r.jobType + ":" + r.idempotencyKey)
  }

  predicate IsJob(j: Job, queue: string, key: string) { j.queue == queue && j.key == key }

  function FindJob(jobs: seq<Job>, queue: string, key: string): (r: Option<nat>)
    ensures r.Some? ==> r.value < |jobs| && IsJob(jobs[r.value], queue, key)
    ensures r.None? ==> forall i | 0 <= i < |jobs| :: !IsJob(jobs[i], queue, key)
  {
    if jobs == [] then None
    else
      var n := |jobs| - 1;
      var before := FindJob(jobs[..n], queue, key);
      if before.Some? then before else if IsJob(jobs[n], queue, key) then Some(n) else None
  }

  function NewJob(s: Setup, r: Request, now: int): Job {
    Job(r.scope, r.organization, s.queueOf(r.jobType), r.jobType, ScopedKey(s, r), Queued, 0, s.attemptsOf(r.jobType),
        r.requestedBy, now, None, None, None, None, 0, None, r.payload)
  }

  /** The check constraints of a job row. */
  predicate Checked(j: Job) {
    && (j.scope == System <==> j.organization.None?)
    && 0 <= j.attempts <= j.maxAttempts && j.maxAttempts > 0
  }

  datatype Reply<T> = Done(value: T) | Refused

  datatype Result<T> = Result(store: Store, reply: Reply<T>)

  // ---------------------------------------------------------------- steps

  /** Inserts the job and its audit row, or finds the job with the same queue and key. */
  function InsertJob(s: Setup, st: Store, r: Request, now: int): Result<nat> {
    var found := FindJob(st.jobs, s.queueOf(r.jobType), ScopedKey(s, r));
    if !Checked(NewJob(s, r, now)) then Result(st, Refused)
    else if found.Some? then Result(st, Done(found.value))
    else Result(st.(jobs := st.jobs + [NewJob(s, r, now)], audit := st.audit + [|st.jobs|]), Done(|st.jobs|))
  }

  predicate Cancellable(st: Store, user: string, id: nat) {
    id < |st.jobs| && st.jobs[id].scope == System && st.jobs[id].requestedBy == Some(user)
    && (st.jobs[id].status == Queued || st.jobs[id].status == Running)
  }

  function CancelSystemJob(st: Store, user: string, id: nat, now: int): Result<bool> {
    if !Cancellable(st, user, id) then Result(st, Done(false))
    else
      var j := st.jobs[id];
      Result(st.(jobs := st.jobs[id := j.(cancelRequestedAt := Some(now),
                                          status := if j.status == Queued then Cancelled else j.status)]),
             Done(true))
  }

  /** The unconditional update of one row. */
  function WorkerUpdate(st: Store, id: nat, change: Job -> Job): Store {
    if id < |st.jobs| then st.(jobs := st.jobs[id := change(st.jobs[id])]) else st
  }

  function DispatchedAt(now: int): Job -> Job {
    (j: Job) => j.(dispatchedAt := Some(now), dispatchAttempts := j.dispatchAttempts + 1, failureCode := None)
  }

  function DispatchFailedUntil(at: int): Job -> Job {
    (j: Job) => j.(dispatchAttempts := j.dispatchAttempts + 1, failureCode := Some("queue_unavailable"),
                   scheduledAt := at)
  }

  function RetryWith(code: string): Job -> Job { (j: Job) => j.(status := Queued, failureCode := Some(code)) }

  function CancelledAt(now: int): Job -> Job {
    (j: Job) => j.(status := Cancelled, completedAt := Some(now), failureCode := Some("cancelled"))
  }

  function SucceededAt(now: int): Job -> Job {
    (j: Job) => j.(status := Succeeded, completedAt := Some(now), failureCode := None)
  }

  /** `None` is the `null` answer; an attempt beyond the limit violates the row's constraint. */
  function MarkRunning(st: Store, id: nat, attempt: int, now: int): Result<Option<nat>> {
    if id >= |st.jobs| || st.jobs[id].cancelRequestedAt.Some? then Result(st, Done(None))
    else
      var j := st.jobs[id].(status := Running, attempts := attempt, startedAt := Some(now), failureCode := None);
      if Checked(j) then Result(st.(jobs := st.jobs[id := j]), Done(Some(id))) else Result(st, Refused)
  }

  predicate HasDeadLetter(letters: seq<DeadLetter>, id: nat) { exists i | 0 <= i < |letters| :: letters[i].job == id }

  function MarkDeadLetter(st: Store, id: nat, code: string, attempts: int, now: int): Store {
    if id >= |st.jobs| then st
    else
      var j := st.jobs[id];
      var letters :=
        if HasDeadLetter(st.deadLetters, id) then st.deadLetters
        else st.deadLetters + [DeadLetter(id, j.queue, j.jobType, if attempts > 1 then attempts else 1, code)];
      st.(deadLetters := letters,
          jobs := st.jobs[id := j.(status := Failed, completedAt := Some(now), failureCode := Some(code))])
  }

  // ---------------------------------------------------------------- what is to be dispatched

  predicate Pending(j: Job, now: int) {
    j.status == Queued && j.dispatchedAt.None? && j.cancelRequestedAt.None? && j.scheduledAt <= now
  }

  /** The pending jobs below `n`, oldest first. */
  function PendingIds(jobs: seq<Job>, now: int, n: nat): (r: seq<nat>)
    requires n <= |jobs|
    ensures forall x: nat :: x in r <==> x < n && Pending(jobs[x], now)
    ensures forall i, k | 0 <= i < k < |r| :: r[i] < r[k]
  {
    if n == 0 then []
    else
      var before := PendingIds(jobs, now, n - 1);
      assert forall k | 0 <= k < |before| :: before[k] in before;
      if Pending(jobs[n - 1], now) then before + [n - 1] else before
  }

  function ScheduleOf(jobs: seq<Job>, id: nat): int { if id < |jobs| then jobs[id].scheduledAt else 0 }

  predicate Sooner(jobs: seq<Job>, a: nat, b: nat) {
    ScheduleOf(jobs, a) < ScheduleOf(jobs, b) || (ScheduleOf(jobs, a) == ScheduleOf(jobs, b) && a <= b)
  }

  function BySchedule(jobs: seq<Job>): (nat, nat) -> bool { (a: nat, b: nat) => Sooner(jobs, a, b) }

  function Limit(limit: int): nat {
    var capped := if limit < 100 then limit else 100;
    if capped > 1 then capped else 1
  }

  /** At most `limit` pending jobs, in order of schedule, then creation. */
  function PendingDispatch(st: Store, limit: int, now: int): seq<nat> {
    var sorted := StableSort(PendingIds(st.jobs, now, |st.jobs|), BySchedule(st.jobs));
    if |sorted| <= Limit(limit) then sorted else sorted[..Limit(limit)]
  }

  /**
   * What a hand-out promises: pending jobs, each once and in order of schedule and creation, at most
   * the limit clamped to [1, 100]; what it leaves behind is not sooner, and it leaves nothing behind
   * while there is room.
   */
  ghost predicate OldestPending(st: Store, ids: seq<nat>, limit: int, now: int) {
    && |ids| <= Limit(limit)
    && (forall id | id in ids :: id < |st.jobs| && Pending(st.jobs[id], now))
    && (forall i, k | 0 <= i < k < |ids| :: ids[i] != ids[k] && Sooner(st.jobs, ids[i], ids[k]))
    && (forall x: nat, i | x < |st.jobs| && Pending(st.jobs[x], now) && x !in ids && 0 <= i < |ids| ::
        Sooner(st.jobs, ids[i], x))
    && (|ids| < Limit(limit) ==> forall x: nat | x < |st.jobs| && Pending(st.jobs[x], now) :: x in ids)
  }

  lemma {:induction false} PendingMembers(st: Store, limit: int, now: int, id: nat)
    requires id in PendingDispatch(st, limit, now)
    ensures id < |st.jobs| && Pending(st.jobs[id], now)
  {
    hide StableSort;
    var ids := PendingIds(st.jobs, now, |st.jobs|);
    assert id in StableSort(ids, BySchedule(st.jobs));
    SortMembers(ids, BySchedule(st.jobs));
  }

  lemma {:induction false} ScheduleOrder(jobs: seq<Job>)
    ensures TotalPreorder(BySchedule(jobs))
  {
    hide ScheduleOf;
  }

  /** The hand-out holds pending jobs only, in order, and leaves behind only pending jobs that are not sooner. */
  lemma {:induction false} OldestFirst(st: Store, limit: int, now: int)
    ensures OldestPending(st, PendingDispatch(st, limit, now), limit, now)
    ensures 1 <= Limit(limit) <= 100
  {
    hide StableSort, Sooner, Pending;
    var all := PendingIds(st.jobs, now, |st.jobs|);
    var le := BySchedule(st.jobs);
    var sorted := StableSort(all, le);
    var ids := PendingDispatch(st, limit, now);
    ScheduleOrder(st.jobs);
    SortIsSorted(all, le);
    SortMembers(all, le);
    SortIsDistinct(all, le);
    forall i, k | 0 <= i < k < |ids| ensures ids[i] != ids[k] && Sooner(st.jobs, ids[i], ids[k]) {
      assert le(sorted[i], sorted[k]);
    }
    forall id | id in ids ensures id < |st.jobs| && Pending(st.jobs[id], now) { assert id in sorted; }
    forall x: nat, i | x < |st.jobs| && Pending(st.jobs[x], now) && x !in ids && 0 <= i < |ids|
      ensures Sooner(st.jobs, ids[i], x)
    {
      assert x in sorted;
      var k :| 0 <= k < |sorted| && sorted[k] == x;
      assert k >= |ids|;
      assert le(sorted[i], sorted[k]);
    }
  }

  // ---------------------------------------------------------------- the queue

  class JobStore {
    const setup: Setup
    var jobs: seq<Job>
    var deadLetters: seq<DeadLetter>
    var audit: seq<nat>

    constructor (setup: Setup)
      ensures this.setup == setup && View() == Store([], [], [])
    {
      this.setup := setup;
      jobs, deadLetters, audit := [], [], [];
    }

    function View(): Store
      reads this
    {
      Store(jobs, deadLetters, audit)
    }

    method Insert(r: Request, now: int) returns (reply: Reply<nat>)
      modifies this
      ensures View() == InsertJob(setup, old(View()), r, now).store
              && reply == InsertJob(setup, old(View()), r, now).reply
    {
      hide FindJob, ScopedKey;
      var row := NewJob(setup, r, now);
      if !Checked(row) { return Refused; }
      var found := FindJob(jobs, setup.queueOf(r.jobType), ScopedKey(setup, r));
      if found.Some? { return Done(found.value); }
      var id := |jobs|;
      jobs := jobs + [row];
      audit := audit + [id];
      reply := Done(id);
    }

    method EnqueueSystemJob(user: string, organization: string, jobType: string, idempotencyKey: string, now: int)
      returns (reply: Reply<nat>)
      modifies this
      ensures var r := Request(jobType, idempotencyKey, System, None, Some(user), Some(organization + ":" + user), "");
              View() == InsertJob(setup, old(View()), r, now).store
                && reply == InsertJob(setup, old(View()), r, now).reply
    {
      reply :=
        Insert(Request(jobType, idempotencyKey, System, None, Some(user), Some(organization + ":" + user), ""), now);
    }

    method EnqueueRelatedJob(jobType: string, idempotencyKey: string, organization: Option<string>,
                             user: Option<string>, payload: string, now: int)
      returns (reply: Reply<nat>)
      modifies this
      ensures var r :=
              Request(jobType, idempotencyKey, if organization.Some? then OfOrganization else System, organization,
                      user, None, payload);
              View() == InsertJob(setup, old(View()), r, now).store
                && reply == InsertJob(setup, old(View()), r, now).reply
    {
      reply :=
        Insert(Request(jobType, idempotencyKey, if organization.Some? then OfOrganization else System, organization,
                       user, None, payload),
               now);
    }

    method Cancel(user: string, id: nat, now: int) returns (done: bool)
      modifies this`jobs
      ensures View() == CancelSystemJob(old(View()), user, id, now).store
              && Done(done) == CancelSystemJob(old(View()), user, id, now).reply
    {
      done := Cancellable(View(), user, id);
      if done {
        var j := jobs[id];
        jobs :=
          jobs[id := j.(cancelRequestedAt := Some(now), status := if j.status == Queued then Cancelled else j.status)];
      }
    }

    method Pending(limit: int, now: int) returns (ids: seq<nat>)
      ensures OldestPending(View(), ids, limit, now)
      ensures ids == PendingDispatch(View(), limit, now)
    {
      OldestFirst(View(), limit, now);
      hide StableSort, OldestPending;
      var sorted := StableSort(PendingIds(jobs, now, |jobs|), BySchedule(jobs));
      ids := if |sorted| <= Limit(limit) then sorted else sorted[..Limit(limit)];
    }

    method Update(id: nat, change: Job -> Job)
      modifies this`jobs
      ensures View() == WorkerUpdate(old(View()), id, change)
    {
      if id < |jobs| { jobs := jobs[id := change(jobs[id])]; }
    }

    method MarkDispatched(id: nat, now: int)
      modifies this`jobs
      ensures View() == WorkerUpdate(old(View()), id, DispatchedAt(now))
    {
      Update(id, DispatchedAt(now));
    }

    method MarkDispatchFailure(id: nat, at: int)
      modifies this`jobs
      ensures View() == WorkerUpdate(old(View()), id, DispatchFailedUntil(at))
    {
      Update(id, DispatchFailedUntil(at));
    }

    method Start(id: nat, attempt: int, now: int) returns (reply: Reply<Option<nat>>)
      modifies this`jobs
      ensures View() == MarkRunning(old(View()), id, attempt, now).store
              && reply == MarkRunning(old(View()), id, attempt, now).reply
    {
      if id >= |jobs| || jobs[id].cancelRequestedAt.Some? { return Done(None); }
      var j := jobs[id].(status := Running, attempts := attempt, startedAt := Some(now), failureCode := None);
      if !Checked(j) { return Refused; }
      jobs := jobs[id := j];
      reply := Done(Some(id));
    }

    method MarkRetrying(id: nat, code: string)
      modifies this`jobs
      ensures View() == WorkerUpdate(old(View()), id, RetryWith(code))
    {
      Update(id, RetryWith(code));
    }

    method MarkCancelled(id: nat, now: int)
      modifies this`jobs
      ensures View() == WorkerUpdate(old(View()), id, CancelledAt(now))
    {
      Update(id, CancelledAt(now));
    }

    method MarkSucceeded(id: nat, now: int)
      modifies this`jobs
      ensures View() == WorkerUpdate(old(View()), id, SucceededAt(now))
    {
      Update(id, SucceededAt(now));
    }

    method Bury(id: nat, code: string, attempts: int, now: int)
      modifies this`jobs, this`deadLetters
      ensures View() == MarkDeadLetter(old(View()), id, code, attempts, now)
    {
      if id >= |jobs| { return; }
      var j := jobs[id];
      if !HasDeadLetter(deadLetters, id) {
        deadLetters := deadLetters + [DeadLetter(id, j.queue, j.jobType, if attempts > 1 then attempts else 1, code)];
      }
      jobs := jobs[id := j.(status := Failed, completedAt := Some(now), failureCode := Some(code))];
    }
  }
}
