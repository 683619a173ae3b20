/**
 * The life of one job: when it is accepted, handed out, started, cancelled and buried
 * (backend/src/infrastructure/database/jobQueue.ts).
 */
module JobLifecycle {
  import opened Sorting
  import opened Records
  import opened JobQueue
  import opened JobQueueGuarantees

  // ---------------------------------------------------------------- acceptance

  /** A job of the system names no organization, a job of an organization names one. */
  predicate ScopeFits(scope: Scope, organization: Option<string>) {
    match scope case System => organization == None case OfOrganization => organization != None
  }

  /**
   * A request is refused exactly when its scope does not fit or its policy allows no attempt; it is
   * answered with a job of its queue and key, which starts out queued, untried and due at once.
   */
  lemma {:induction false} InsertMeans(s: Setup, st: Store, r: Request, at: int)
    ensures
      var result := InsertJob(s, st, r, at);
      && (result.reply.Refused? <==> !ScopeFits(r.scope, r.organization) || s.attemptsOf(r.jobType) <= 0)
      && (result.reply.Done? && result.reply.value < |st.jobs| ==> result.store == st)
      && (result.reply.Done? && result.reply.value >= |st.jobs| ==>
            && result.reply.value == |st.jobs| && |result.store.jobs| == |st.jobs| + 1
            && result.store.jobs[..|st.jobs|] == st.jobs
            && NewlyQueued(s, r, at, result.store.jobs[|st.jobs|])
            && result.store.audit == st.audit + [|st.jobs|] && result.store.deadLetters == st.deadLetters)
  {
    hide FindJob, ScopedKey;
  }

  predicate NewlyQueued(s: Setup, r: Request, at: int, j: Job) {
    && j.status.Queued? && j.attempts == 0 && j.dispatchAttempts == 0 && j.scheduledAt == at
    && j.startedAt.None? && j.completedAt.None? && j.failureCode.None? && j.dispatchedAt.None?
    && j.cancelRequestedAt.None?
    && j.jobType == r.jobType && j.payload == r.payload && j.requestedBy == r.requestedBy
    && j.scope == r.scope && j.organization == r.organization
    && j.queue == s.queueOf(r.jobType) && j.maxAttempts == s.attemptsOf(r.jobType)
  }

  /** The key of a request: its own scope if it gives one, else the system or the organization it is for. */
  lemma {:induction false} KeyMeans(s: Setup, r: Request)
    ensures r.idempotencyScope.Some?
            ==> ScopedKey(s, r) == s.hash(r.idempotencyScope.value + ":" + r.jobType + ":" + r.idempotencyKey)
    ensures r.idempotencyScope.None? && r.scope.System? && r.organization.None?
            ==> ScopedKey(s, r) == s.hash("system:system:" + r.jobType + ":" + r.idempotencyKey)
    ensures r.idempotencyScope.None? && r.scope.OfOrganization? && r.organization.Some?
            ==> ScopedKey(s, r)
                == s.hash("organization:" + r.organization.value + ":" + r.jobType + ":" + r.idempotencyKey)
  {
    if r.idempotencyScope.None? && r.scope.System? && r.organization.None? {
      assert "system" + ":" + "system" + ":" == "system:system:";
    } else if r.idempotencyScope.None? && r.scope.OfOrganization? && r.organization.Some? {
      assert "organization" + ":" == "organization:";
    }
  }

  // ---------------------------------------------------------------- the hand-out

  /** Queued, not sent, not cancelled and due. */
  predicate Due(j: Job, now: int) {
    j.status.Queued? && j.dispatchedAt == None && j.cancelRequestedAt == None && now >= j.scheduledAt
  }

  /** Scheduled earlier, or at the same time and created earlier. */
  predicate Precedes(jobs: seq<Job>, a: nat, b: nat)
    requires a < |jobs| && b < |jobs|
  {
    jobs[a].scheduledAt < jobs[b].scheduledAt || (jobs[a].scheduledAt == jobs[b].scheduledAt && a < b)
  }

  /** How many of the first `n` jobs are due and precede the given one. */
  function Ahead(jobs: seq<Job>, id: nat, now: int, n: nat): nat
    requires id < |jobs| && n <= |jobs|
  {
    if n == 0 then 0
    else Ahead(jobs, id, now, n - 1) + (if Due(jobs[n - 1], now) && Precedes(jobs, n - 1, id) then 1 else 0)
  }

  /** The limit of a hand-out, kept between 1 and 100. */
  function Kept(limit: int): int { if limit <= 1 then 1 else if limit >= 100 then 100 else limit }

  function PrecedesIn(jobs: seq<Job>, id: nat): nat -> bool {
    (x: nat) => x < |jobs| && id < |jobs| && Precedes(jobs, x, id)
  }

  lemma {:induction false} AheadCounts(jobs: seq<Job>, id: nat, now: int, n: nat)
    requires id < |jobs| && n <= |jobs|
    ensures CountIf(PendingIds(jobs, now, n), PrecedesIn(jobs, id)) == Ahead(jobs, id, now, n)
  {
    hide Pending, Precedes, PrecedesIn, Due;
    if n > 0 {
      AheadCounts(jobs, id, now, n - 1);
      DueIsPending(jobs[n - 1], now);
      PrecedesReads(jobs, n - 1, id);
      CountConcat<nat>(PendingIds(jobs, now, n - 1), [n - 1], PrecedesIn(jobs, id));
      CountOne(n - 1, PrecedesIn(jobs, id));
    }
  }

  lemma {:induction false} DueIsPending(j: Job, now: int)
    ensures Pending(j, now) <==> Due(j, now)
  {
  }

  lemma {:induction false} PrecedesReads(jobs: seq<Job>, x: nat, id: nat)
    requires x < |jobs| && id < |jobs|
    ensures PrecedesIn(jobs, id)(x) <==> Precedes(jobs, x, id)
  {
  }

  lemma {:induction false} CountOne(x: nat, p: nat -> bool)
    ensures CountIf<nat>([x], p) == if p(x) then 1 else 0
  {
    assert [x][..0] == [];
  }

  /** Jobs in strict order of schedule and creation. */
  ghost predicate Lined(jobs: seq<Job>, ids: seq<nat>) {
    && (forall i | 0 <= i < |ids| :: ids[i] < |jobs|)
    && forall i, j | 0 <= i < j < |ids| :: Precedes(jobs, ids[i], ids[j])
  }

  /** In a list sorted without repetition the position of an element is the number of elements before it in order. */
  lemma {:induction false} PositionCounts(jobs: seq<Job>, sorted: seq<nat>, k: nat, n: nat)
    requires k < |sorted| && n <= |sorted| && Lined(jobs, sorted)
    ensures CountIf(sorted[..n], PrecedesIn(jobs, sorted[k])) == if n <= k then n else k
  {
    if n > 0 {
      PositionCounts(jobs, sorted, k, n - 1);
      assert sorted[..n][..n - 1] == sorted[..n - 1] && sorted[..n][n - 1] == sorted[n - 1];
      if n - 1 < k {
        assert Precedes(jobs, sorted[n - 1], sorted[k]);
      } else if n - 1 > k {
        assert Precedes(jobs, sorted[k], sorted[n - 1]);
      }
    }
  }

  lemma {:induction false} SortedByPrecedence(jobs: seq<Job>, ids: seq<nat>)
    requires forall i | 0 <= i < |ids| :: ids[i] < |jobs|
    requires forall i, j | 0 <= i < j < |ids| :: ids[i] != ids[j]
    ensures Lined(jobs, StableSort<nat>(ids, BySchedule(jobs)))
  {
    hide StableSort;
    var le := BySchedule(jobs);
    var sorted := StableSort<nat>(ids, le);
    ScheduleOrder(jobs);
    SortIsSorted<nat>(ids, le);
    SortMembers<nat>(ids, le);
    SortIsDistinct<nat>(ids, le);
    forall i | 0 <= i < |sorted| ensures sorted[i] < |jobs| { assert sorted[i] in ids; }
    forall i, j | 0 <= i < j < |sorted| ensures Precedes(jobs, sorted[i], sorted[j]) {
      assert le(sorted[i], sorted[j]);
    }
  }

  /** A job is handed out exactly when it is due and fewer due jobs than the limit precede it. */
  lemma {:induction false} HandedOutExactly(st: Store, id: nat, limit: int, now: int)
    requires id < |st.jobs|
    ensures id in PendingDispatch(st, limit, now)
       <==> Due(st.jobs[id], now) && Ahead(st.jobs, id, now, |st.jobs|) < Kept(limit)
  {
    hide StableSort, Ahead, Lined, CountIf, Due, Pending;
    var ids := PendingIds(st.jobs, now, |st.jobs|);
    var sorted := StableSort<nat>(ids, BySchedule(st.jobs));
    forall i | 0 <= i < |ids| ensures ids[i] < |st.jobs| { assert ids[i] in ids; }
    DueIsPending(st.jobs[id], now);
    SortedByPrecedence(st.jobs, ids);
    SortMembers<nat>(ids, BySchedule(st.jobs));
    assert id in PendingDispatch(st, limit, now) ==> id in sorted;
    if id in ids {
      var k :| 0 <= k < |sorted| && sorted[k] == id;
      AheadIsPosition(st.jobs, sorted, k, now);
      OnlyAt(st.jobs, sorted, k);
    }
  }

  lemma {:induction false} AheadIsPosition(jobs: seq<Job>, sorted: seq<nat>, k: nat, now: int)
    requires k < |sorted| && Lined(jobs, sorted) && sorted[k] < |jobs|
    requires multiset(sorted) == multiset(PendingIds(jobs, now, |jobs|))
    ensures Ahead(jobs, sorted[k], now, |jobs|) == k
  {
    hide Lined, CountIf, Ahead, PendingIds;
    PositionCounts(jobs, sorted, k, |sorted|);
    assert sorted[..|sorted|] == sorted;
    CountPermutation<nat>(sorted, PendingIds(jobs, now, |jobs|), PrecedesIn(jobs, sorted[k]));
    AheadCounts(jobs, sorted[k], now, |jobs|);
  }

  /** Nothing precedes itself, so an element of the sorted list stands in one place. */
  lemma {:induction false} OnlyAt(jobs: seq<Job>, sorted: seq<nat>, k: nat)
    requires k < |sorted| && Lined(jobs, sorted)
    ensures forall n: nat | n <= |sorted| :: sorted[k] in sorted[..n] <==> k < n
  {
    forall i | 0 <= i < |sorted| && i != k ensures sorted[i] != sorted[k] {
      if i < k { assert Precedes(jobs, sorted[i], sorted[k]); } else { assert Precedes(jobs, sorted[k], sorted[i]); }
    }
    forall n: nat | n <= |sorted| ensures sorted[k] in sorted[..n] <==> k < n {
      if k < n { assert sorted[..n][k] == sorted[k]; }
    }
  }

  /** After a failed dispatch the job is due again exactly from the given time on. */
  lemma {:induction false} DueAfterFailure(s: Setup, st: Store, id: nat, at: int, now: int)
    requires id < |st.jobs|
    ensures
      var j := Apply(s, st, DispatchFailed(id, at)).jobs[id];
      Due(j, now) <==> Due(st.jobs[id].(scheduledAt := at), now)
    ensures Due(st.jobs[id], now) ==> (Due(Apply(s, st, DispatchFailed(id, at)).jobs[id], now) <==> at <= now)
  {
  }

  // ---------------------------------------------------------------- attempts

  /** How often the steps tried to dispatch the job. */
  function Dispatches(steps: seq<Step>, id: nat): nat {
    if steps == [] then 0
    else
      var step := steps[|steps| - 1];
      Dispatches(steps[..|steps| - 1], id)
      + (if (step.Dispatched? || step.DispatchFailed?) && step.id == id then 1 else 0)
  }

  /** Over every run the dispatch counter of a job counts its dispatches, successful or not. */
  lemma {:induction false} DispatchesCounted(s: Setup, st: Store, steps: seq<Step>, id: nat)
    requires id < |st.jobs|
    ensures id < |Run(s, st, steps).jobs|
    ensures Run(s, st, steps).jobs[id].dispatchAttempts == st.jobs[id].dispatchAttempts + Dispatches(steps, id)
  {
    hide Checked, FindJob, ScopedKey, HasDeadLetter;
    if steps != [] { DispatchesCounted(s, st, steps[..|steps| - 1], id); }
  }

  /**
   * A consistent queue starts a job exactly when it exists, was not cancelled and the attempt is within
   * the policy; it answers `null` for a missing or cancelled job and refuses other attempts.
   */
  lemma {:induction false} StartMeans(st: Store, id: nat, attempt: int, at: int)
    requires Consistent(st)
    ensures
      var result := MarkRunning(st, id, attempt, at);
      && (result.reply == Done(None) <==> id >= |st.jobs| || st.jobs[id].cancelRequestedAt != None)
      && (result.reply.Refused? <==> id < |st.jobs| && st.jobs[id].cancelRequestedAt == None
                                     && !(0 <= attempt <= st.jobs[id].maxAttempts))
      && (result.reply == Done(Some(id)) ==>
            && id < |st.jobs| && |result.store.jobs| == |st.jobs|
            && result.store.jobs[id].status.Running? && result.store.jobs[id].attempts == attempt
            && result.store.jobs[id].startedAt == Some(at) && result.store.jobs[id].failureCode == None)
      && (result.reply != Done(Some(id)) ==> result.store == st)
  {
    hide DistinctJobs, Audited, Buried;
    if id < |st.jobs| { assert Checked(st.jobs[id]); }
  }

  // ---------------------------------------------------------------- cancelling and finishing

  /**
   * A user cancels exactly the system jobs that user requested and that are queued or running; a queued
   * one is cancelled at once, a running one keeps running until its worker sees the request.
   */
  lemma {:induction false} CancelMeans(st: Store, user: string, id: nat, at: int)
    ensures
      var result := CancelSystemJob(st, user, id, at);
      var mayCancel := id < |st.jobs| && st.jobs[id].scope.System? && st.jobs[id].requestedBy == Some(user)
                       && st.jobs[id].status in {Queued, Running};
      && result.reply == Done(mayCancel)
      && (!mayCancel ==> result.store == st)
      && (mayCancel ==>
            && |result.store.jobs| == |st.jobs| && result.store.deadLetters == st.deadLetters
            && result.store.jobs[id].cancelRequestedAt == Some(at)
            && (st.jobs[id].status.Queued? ==> result.store.jobs[id].status.Cancelled?)
            && (st.jobs[id].status.Running? ==> result.store.jobs[id].status.Running?))
  {
  }

  /** What the reports of a worker write into the row of the job. */
  lemma {:induction false} ReportsMean(s: Setup, st: Store, id: nat, code: string, attempts: int, at: int)
    requires id < |st.jobs|
    ensures Apply(s, st, Dispatched(id, at)).jobs[id].dispatchedAt == Some(at)
    ensures Apply(s, st, Dispatched(id, at)).jobs[id].failureCode == None
    ensures Apply(s, st, DispatchFailed(id, at)).jobs[id].failureCode == Some("queue_unavailable")
    ensures var j := Apply(s, st, Retry(id, code)).jobs[id]; j.status.Queued? && j.failureCode == Some(code)
    ensures
      var j := Apply(s, st, Cancelling(id, at)).jobs[id];
      j.status.Cancelled? && j.completedAt == Some(at) && j.failureCode == Some("cancelled")
    ensures
      var j := Apply(s, st, Succeed(id, at)).jobs[id];
      j.status.Succeeded? && j.completedAt == Some(at) && j.failureCode == None
    ensures
      var j := Apply(s, st, Bury(id, code, attempts, at)).jobs[id];
      j.status.Failed? && j.completedAt == Some(at) && j.failureCode == Some(code)
  {
  }

  /** The first dead letter of a job tells its queue, type, failure and at least one attempt, and is kept for good. */
  lemma {:induction false} LetterMeans(s: Setup, st: Store, id: nat, code: string, attempts: int, at: int,
                                       steps: seq<Step>)
    requires id < |st.jobs| && forall i | 0 <= i < |st.deadLetters| :: st.deadLetters[i].job != id
    ensures
      var n, letters := |st.deadLetters|, Run(s, Apply(s, st, Bury(id, code, attempts, at)), steps).deadLetters;
      && n < |letters|
      && letters[n]
         == DeadLetter(id, st.jobs[id].queue, st.jobs[id].jobType, if attempts < 1 then 1 else attempts, code)
  {
    hide Run;
    var after := Apply(s, st, Bury(id, code, attempts, at));
    LettersKept(s, after, steps);
    assert after.deadLetters[|st.deadLetters|] == Run(s, after, steps).deadLetters[|st.deadLetters|];
  }

  lemma {:induction false} LettersKept(s: Setup, st: Store, steps: seq<Step>)
    ensures st.deadLetters <= Run(s, st, steps).deadLetters
  {
    hide Checked, FindJob, ScopedKey, HasDeadLetter;
    if steps != [] { LettersKept(s, st, steps[..|steps| - 1]); }
  }

  /** When a status was reached: what runs was started, what is over was completed or cancelled by request. */
  ghost predicate Dated(j: Job) {
    && (j.status.Running? ==> j.startedAt.Some?)
    && (j.status.Succeeded? || j.status.Failed? ==> j.completedAt.Some?)
    && (j.status.Cancelled? ==> j.completedAt.Some? || j.cancelRequestedAt.Some?)
  }

  lemma {:induction false} StepKeepsDated(s: Setup, st: Store, step: Step)
    requires forall k | 0 <= k < |st.jobs| :: Dated(st.jobs[k])
    ensures forall k | 0 <= k < |Apply(s, st, step).jobs| :: Dated(Apply(s, st, step).jobs[k])
  {
    hide Checked, FindJob, ScopedKey, HasDeadLetter;
  }

  /** Every run from the empty queue dates its jobs. */
  lemma {:induction false} RunIsDated(s: Setup, steps: seq<Step>, k: nat)
    requires k < |Run(s, EMPTY, steps).jobs|
    ensures Dated(Run(s, EMPTY, steps).jobs[k])
  {
    AllDated(s, steps);
  }

  lemma {:induction false} AllDated(s: Setup, steps: seq<Step>)
    ensures forall k | 0 <= k < |Run(s, EMPTY, steps).jobs| :: Dated(Run(s, EMPTY, steps).jobs[k])
  {
    hide Apply, Dated;
    if steps != [] {
      AllDated(s, steps[..|steps| - 1]);
      StepKeepsDated(s, Run(s, EMPTY, steps[..|steps| - 1]), steps[|steps| - 1]);
    }
  }
}
