/** What the job queue keeps over every interleaving of its steps (backend/src/infrastructure/database/jobQueue.ts). */
module JobQueueGuarantees {
  import opened Sorting
  import opened Records
  import opened JobQueue

  datatype Step =
    | Enqueue(request: Request, at: int)
    | Cancel(user: string, id: nat, at: int)
    | Dispatched(id: nat, at: int)
    | DispatchFailed(id: nat, at: int)
    | Start(id: nat, attempt: int, at: int)
    | Retry(id: nat, code: string)
    | Cancelling(id: nat, at: int)
    | Succeed(id: nat, at: int)
    | Bury(id: nat, code: string, attempts: int, at: int)

  function Apply(s: Setup, st: Store, step: Step): Store {
    match step
    case Enqueue(r, at) => InsertJob(s, st, r, at).store
    case Cancel(user, id, at) => CancelSystemJob(st, user, id, at).store
    case Dispatched(id, at) => WorkerUpdate(st, id, DispatchedAt(at))
    case DispatchFailed(id, at) => WorkerUpdate(st, id, DispatchFailedUntil(at))
    case Start(id, attempt, at) => MarkRunning(st, id, attempt, at).store
    case Retry(id, code) => WorkerUpdate(st, id, RetryWith(code))
    case Cancelling(id, at) => WorkerUpdate(st, id, CancelledAt(at))
    case Succeed(id, at) => WorkerUpdate(st, id, SucceededAt(at))
    case Bury(id, code, attempts, at) => MarkDeadLetter(st, id, code, attempts, at)
  }

  function Run(s: Setup, st: Store, steps: seq<Step>): Store {
    if steps == [] then st else Apply(s, Run(s, st, steps[..|steps| - 1]), steps[|steps| - 1])
  }

  const EMPTY := Store([], [], [])

  // ---------------------------------------------------------------- invariants of reachable states

  ghost predicate DistinctJobs(jobs: seq<Job>) {
    forall i, j | 0 <= i < j < |jobs| :: !(jobs[i].queue == jobs[j].queue && jobs[i].key == jobs[j].key)
  }

  /** One audit row for every job, in order of creation. */
  ghost predicate Audited(st: Store) {
    |st.audit| == |st.jobs| && forall i | 0 <= i < |st.audit| :: st.audit[i] == i
  }

  /** Dead letters name jobs, none twice, and every failed job has one. */
  ghost predicate Buried(st: Store) {
    && (forall i | 0 <= i < |st.deadLetters| :: st.deadLetters[i].job < |st.jobs| && st.deadLetters[i].attempts > 0)
    && (forall i, j | 0 <= i < j < |st.deadLetters| :: st.deadLetters[i].job != st.deadLetters[j].job)
    && (forall k | 0 <= k < |st.jobs| && st.jobs[k].status == Failed :: HasDeadLetter(st.deadLetters, k))
  }

  ghost predicate Consistent(st: Store) {
    && DistinctJobs(st.jobs) && Audited(st) && Buried(st)
    && forall k | 0 <= k < |st.jobs| :: Checked(st.jobs[k])
  }

  lemma {:induction false} InsertKeepsDistinct(s: Setup, st: Store, r: Request, at: int)
    requires DistinctJobs(st.jobs)
    ensures DistinctJobs(InsertJob(s, st, r, at).store.jobs)
  {
    hide ScopedKey, Checked;
    if FindJob(st.jobs, s.queueOf(r.jobType), ScopedKey(s, r)).None? {
      assert forall i | 0 <= i < |st.jobs| :: !IsJob(st.jobs[i], s.queueOf(r.jobType), ScopedKey(s, r));
    }
  }

  /** A row changed in place, its identity and failure untouched. */
  lemma {:induction false} UpdateKeeps(st: Store, id: nat, j: Job)
    requires Consistent(st) && id < |st.jobs| && Checked(j)
    requires j.queue == st.jobs[id].queue && j.key == st.jobs[id].key
             && (j.status == Failed ==> st.jobs[id].status == Failed)
    ensures Consistent(st.(jobs := st.jobs[id := j]))
  {
    hide Checked, HasDeadLetter;
  }

  lemma {:induction false} BuryKeeps(st: Store, id: nat, code: string, attempts: int, at: int)
    requires Consistent(st)
    ensures Consistent(MarkDeadLetter(st, id, code, attempts, at))
  {
    hide DistinctJobs;
    if id < |st.jobs| {
      var after := MarkDeadLetter(st, id, code, attempts, at);
      SameIdentities(st.jobs, id, after.jobs[id]);
      forall k | 0 <= k < |after.jobs| && after.jobs[k].status == Failed ensures HasDeadLetter(after.deadLetters, k) {
        LetterFor(st, id, code, attempts, at, k);
      }
    }
  }

  lemma {:induction false} SameIdentities(jobs: seq<Job>, id: nat, j: Job)
    requires DistinctJobs(jobs) && id < |jobs| && j.queue == jobs[id].queue && j.key == jobs[id].key
    ensures DistinctJobs(jobs[id := j])
  {
  }

  lemma {:induction false} LetterFor(st: Store, id: nat, code: string, attempts: int, at: int, k: nat)
    requires id < |st.jobs| && (k == id || HasDeadLetter(st.deadLetters, k))
    ensures HasDeadLetter(MarkDeadLetter(st, id, code, attempts, at).deadLetters, k)
  {
    var after := MarkDeadLetter(st, id, code, attempts, at).deadLetters;
    if HasDeadLetter(st.deadLetters, k) {
      var i :| 0 <= i < |st.deadLetters| && st.deadLetters[i].job == k;
      assert after[i].job == k;
    } else {
      assert after[|after| - 1].job == k;
    }
  }

  lemma {:induction false} StepKeepsConsistent(s: Setup, st: Store, step: Step)
    requires Consistent(st)
    ensures Consistent(Apply(s, st, step))
  {
    hide Checked, DistinctJobs, Buried, Audited, FindJob, ScopedKey;
    match step
    case Enqueue(r, at) => EnqueueKeeps(s, st, r, at);
    case Cancel(user, id, at) =>
      if Cancellable(st, user, id) {
        var j := st.jobs[id];
        ChangeKeeps(st, id,
                    j.(cancelRequestedAt := Some(at), status := if j.status == Queued then Cancelled else j.status));
      }
    case Dispatched(id, at) => if id < |st.jobs| { ChangeKeeps(st, id, DispatchedAt(at)(st.jobs[id])); }
    case DispatchFailed(id, at) => if id < |st.jobs| { ChangeKeeps(st, id, DispatchFailedUntil(at)(st.jobs[id])); }
    case Start(id, attempt, at) =>
      if id < |st.jobs| {
        var j := st.jobs[id].(status := Running, attempts := attempt, startedAt := Some(at), failureCode := None);
        if Checked(j) { UpdateKeeps(st, id, j); }
      }
    case Retry(id, code) => if id < |st.jobs| { ChangeKeeps(st, id, RetryWith(code)(st.jobs[id])); }
    case Cancelling(id, at) => if id < |st.jobs| { ChangeKeeps(st, id, CancelledAt(at)(st.jobs[id])); }
    case Succeed(id, at) => if id < |st.jobs| { ChangeKeeps(st, id, SucceededAt(at)(st.jobs[id])); }
    case Bury(id, code, attempts, at) => BuryKeeps(st, id, code, attempts, at);
  }

  lemma {:induction false} ChangeKeeps(st: Store, id: nat, j: Job)
    requires Consistent(st) && id < |st.jobs|
    requires j.scope == st.jobs[id].scope && j.organization == st.jobs[id].organization
    requires j.attempts == st.jobs[id].attempts && j.maxAttempts == st.jobs[id].maxAttempts
    requires j.queue == st.jobs[id].queue && j.key == st.jobs[id].key
             && (j.status == Failed ==> st.jobs[id].status == Failed)
    ensures Consistent(st.(jobs := st.jobs[id := j]))
  {
    hide DistinctJobs, Audited, Buried;
    assert Checked(st.jobs[id]);
    UpdateKeeps(st, id, j);
  }

  lemma {:induction false} EnqueueKeeps(s: Setup, st: Store, r: Request, at: int)
    requires Consistent(st)
    ensures Consistent(InsertJob(s, st, r, at).store)
  {
    hide DistinctJobs, Checked, FindJob, ScopedKey, HasDeadLetter;
    InsertKeepsDistinct(s, st, r, at);
  }

  /** Reachable states: one job for a queue and key, one audit row for a job, one dead letter for a failed job. */
  lemma {:induction false} RunIsConsistent(s: Setup, steps: seq<Step>)
    ensures Consistent(Run(s, EMPTY, steps))
  {
    hide Consistent, Apply;
    if steps == [] {
      EmptyConsistent();
    } else {
      RunIsConsistent(s, steps[..|steps| - 1]);
      StepKeepsConsistent(s, Run(s, EMPTY, steps[..|steps| - 1]), steps[|steps| - 1]);
    }
  }

  lemma {:induction false} EmptyConsistent()
    ensures Consistent(EMPTY)
  {
  }

  function LettersFor(letters: seq<DeadLetter>, id: nat): nat {
    if letters == [] then 0
    else LettersFor(letters[..|letters| - 1], id) + (if letters[|letters| - 1].job == id then 1 else 0)
  }

  lemma {:induction false} AtMostOneLetter(letters: seq<DeadLetter>, id: nat)
    requires forall i, j | 0 <= i < j < |letters| :: letters[i].job != letters[j].job
    ensures LettersFor(letters, id) == if HasDeadLetter(letters, id) then 1 else 0
  {
    if letters != [] {
      var n := |letters| - 1;
      AtMostOneLetter(letters[..n], id);
      if letters[n].job == id {
        assert !HasDeadLetter(letters[..n], id);
      } else if HasDeadLetter(letters, id) {
        var i :| 0 <= i < |letters| && letters[i].job == id;
        assert letters[..n][i].job == id;
      }
    }
  }

  /** In every run a failed job has exactly one dead letter, and no job has two. */
  lemma {:induction false} FailedHasOneDeadLetter(s: Setup, steps: seq<Step>, id: nat)
    requires id < |Run(s, EMPTY, steps).jobs|
    ensures LettersFor(Run(s, EMPTY, steps).deadLetters, id) <= 1
    ensures Run(s, EMPTY, steps).jobs[id].status == Failed ==> LettersFor(Run(s, EMPTY, steps).deadLetters, id) == 1
  {
    hide Run;
    RunIsConsistent(s, steps);
    AtMostOneLetter(Run(s, EMPTY, steps).deadLetters, id);
  }

  // ---------------------------------------------------------------- what is never undone

  /** Jobs keep their queue and key; a cancel request and a dispatch are never taken back. */
  ghost predicate Later(a: Store, b: Store) {
    && |a.jobs| <= |b.jobs|
    && forall k | 0 <= k < |a.jobs| ::
         && b.jobs[k].queue == a.jobs[k].queue && b.jobs[k].key == a.jobs[k].key
         && (a.jobs[k].cancelRequestedAt.Some? ==> b.jobs[k].cancelRequestedAt.Some?)
         && (a.jobs[k].dispatchedAt.Some? ==> b.jobs[k].dispatchedAt.Some?)
  }

  lemma {:induction false} StepIsLater(s: Setup, st: Store, step: Step)
    ensures Later(st, Apply(s, st, step))
  {
    hide Checked, FindJob, ScopedKey, HasDeadLetter;
  }

  lemma {:induction false} RunIsLater(s: Setup, st: Store, steps: seq<Step>)
    ensures Later(st, Run(s, st, steps))
  {
    hide Apply;
    if steps != [] {
      RunIsLater(s, st, steps[..|steps| - 1]);
      StepIsLater(s, Run(s, st, steps[..|steps| - 1]), steps[|steps| - 1]);
    }
  }

  /** After a successful cancel request a job never starts and is never handed out, whatever happens in between. */
  lemma {:induction false} CancelIsFinal(s: Setup, st: Store, user: string, id: nat, at: int, steps: seq<Step>,
                                         attempt: int, limit: int, now: int)
    requires CancelSystemJob(st, user, id, at).reply == Done(true)
    ensures var later := Run(s, CancelSystemJob(st, user, id, at).store, steps);
            MarkRunning(later, id, attempt, now).reply == Done(None) && id !in PendingDispatch(later, limit, now)
  {
    hide PendingDispatch, Run;
    var cancelled := CancelSystemJob(st, user, id, at).store;
    RunIsLater(s, cancelled, steps);
    var later := Run(s, cancelled, steps);
    assert later.jobs[id].cancelRequestedAt.Some?;
    if id in PendingDispatch(later, limit, now) { PendingMembers(later, limit, now, id); }
  }

  /** A dispatched job is never handed out again, not even after a retry. */
  lemma {:induction false} DispatchedOnce(s: Setup, st: Store, id: nat, at: int, steps: seq<Step>, limit: int, now: int)
    requires id < |st.jobs|
    ensures id !in PendingDispatch(Run(s, WorkerUpdate(st, id, DispatchedAt(at)), steps), limit, now)
  {
    hide PendingDispatch, Run;
    var sent := WorkerUpdate(st, id, DispatchedAt(at));
    RunIsLater(s, sent, steps);
    var later := Run(s, sent, steps);
    assert later.jobs[id].dispatchedAt.Some?;
    if id in PendingDispatch(later, limit, now) { PendingMembers(later, limit, now, id); }
  }

  lemma {:induction false} FindOnly(jobs: seq<Job>, id: nat)
    requires DistinctJobs(jobs) && id < |jobs|
    ensures FindJob(jobs, jobs[id].queue, jobs[id].key) == Some(id)
  {
    assert IsJob(jobs[id], jobs[id].queue, jobs[id].key);
    forall i | 0 <= i < |jobs| && i != id ensures !IsJob(jobs[i], jobs[id].queue, jobs[id].key) {
      assert i < id || id < i;
    }
  }

  /** Asking again for the same work, at any later point of any run, finds the first job and changes nothing. */
  lemma {:induction false} EnqueueIsIdempotent(s: Setup, before: seq<Step>, r: Request, at: int, between: seq<Step>,
                                               again: Request, later: int)
    requires var st := Run(s, EMPTY, before); InsertJob(s, st, r, at).reply.Done?
    requires s.queueOf(again.jobType) == s.queueOf(r.jobType) && ScopedKey(s, again) == ScopedKey(s, r)
    requires Checked(NewJob(s, again, later))
    ensures var st := Run(s, EMPTY, before);
            var first := InsertJob(s, st, r, at);
            var now := Run(s, first.store, between);
            InsertJob(s, now, again, later) == JobQueue.Result(now, first.reply)
  {
    hide Run, Consistent, Checked, ScopedKey, FindJob;
    var st := Run(s, EMPTY, before);
    RunIsConsistent(s, before);
    EnqueueKeeps(s, st, r, at);
    var first := InsertJob(s, st, r, at).store;
    ConsistentRun(s, first, between);
    RunIsLater(s, first, between);
    var now := Run(s, first, between);
    var id := InsertJob(s, st, r, at).reply.value;
    assert IsJob(first.jobs[id], s.queueOf(r.jobType), ScopedKey(s, r)) by { FoundOrNew(s, st, r, at); }
    ConsistentIsDistinct(now);
    FindOnly(now.jobs, id);
  }

  lemma {:induction false} FoundOrNew(s: Setup, st: Store, r: Request, at: int)
    requires InsertJob(s, st, r, at).reply.Done?
    ensures var id := InsertJob(s, st, r, at).reply.value;
            id < |InsertJob(s, st, r, at).store.jobs|
              && IsJob(InsertJob(s, st, r, at).store.jobs[id], s.queueOf(r.jobType), ScopedKey(s, r))
  {
    hide ScopedKey, Checked;
  }

  lemma {:induction false} ConsistentIsDistinct(st: Store)
    requires Consistent(st)
    ensures DistinctJobs(st.jobs)
  {
  }

  lemma {:induction false} ConsistentRun(s: Setup, st: Store, steps: seq<Step>)
    requires Consistent(st)
    ensures Consistent(Run(s, st, steps))
  {
    hide Consistent, Apply;
    if steps != [] {
      ConsistentRun(s, st, steps[..|steps| - 1]);
      StepKeepsConsistent(s, Run(s, st, steps[..|steps| - 1]), steps[|steps| - 1]);
    }
  }

  // ---------------------------------------------------------------- what a step can touch

  /** The job a step is about; enqueueing is about none that exists. */
  function Target(step: Step): Option<nat> {
    if step.Enqueue? then None else Some(step.id)
  }

  lemma {:induction false} StepTouchesOneJob(s: Setup, st: Store, step: Step, k: nat)
    requires k < |st.jobs| && Target(step) != Some(k)
    ensures k < |Apply(s, st, step).jobs| && Apply(s, st, step).jobs[k] == st.jobs[k]
    ensures HasDeadLetter(Apply(s, st, step).deadLetters, k) == HasDeadLetter(st.deadLetters, k)
  {
    hide Checked, FindJob, ScopedKey;
    if step.Bury? && step.id < |st.jobs| && !HasDeadLetter(st.deadLetters, step.id) {
      var after := Apply(s, st, step).deadLetters;
      assert after[..|st.deadLetters|] == st.deadLetters;
      if HasDeadLetter(st.deadLetters, k) {
        var i :| 0 <= i < |st.deadLetters| && st.deadLetters[i].job == k;
        assert after[i].job == k;
      }
    }
  }

  /** A status is reached only by its own step; cancelling by request only from the queue. */
  lemma {:induction false} StatusChanges(s: Setup, st: Store, step: Step, k: nat)
    requires k < |st.jobs| && Apply(s, st, step).jobs[k].status != st.jobs[k].status
    ensures Target(step) == Some(k)
    ensures match Apply(s, st, step).jobs[k].status
            case Queued => step.Retry?
            case Running => step.Start? && st.jobs[k].cancelRequestedAt.None?
            case Succeeded => step.Succeed?
            case Failed => step.Bury? && HasDeadLetter(Apply(s, st, step).deadLetters, k)
            case Cancelled =>
              step.Cancelling? || (step.Cancel? && st.jobs[k].status == Queued && st.jobs[k].scope == System)
  {
    hide Checked, FindJob, ScopedKey;
    if Target(step) != Some(k) { StepTouchesOneJob(s, st, step, k); }
    if step.Bury? { LetterFor(st, step.id, step.code, step.attempts, step.at, k); }
  }

  /** A pending job that no step is about stays pending. */
  lemma {:induction false} UntouchedStaysPending(s: Setup, st: Store, steps: seq<Step>, k: nat, now: int)
    requires k < |st.jobs| && Pending(st.jobs[k], now)
    requires forall i | 0 <= i < |steps| :: Target(steps[i]) != Some(k)
    ensures k < |Run(s, st, steps).jobs| && Run(s, st, steps).jobs[k] == st.jobs[k]
            && Pending(Run(s, st, steps).jobs[k], now)
  {
    hide Apply, Pending;
    if steps != [] {
      var n := |steps| - 1;
      UntouchedStaysPending(s, st, steps[..n], k, now);
      StepTouchesOneJob(s, Run(s, st, steps[..n]), steps[n], k);
    }
  }
}
