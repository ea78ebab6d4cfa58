/** The durable job queue: leases, bounded attempts and the cleanup kind that may never fail. */
module JobQueue {
  import opened Prelude

  datatype Kind =
    | GmailIngest | SourceParse | Reconcile | AttachmentCleanup | DocumentPrepare | ChunkParse | DocumentAggregate
    | CandidateReconcile | DocumentPostProcess

  datatype Status = Queued | Running | Completed | Failed | Cancelled

  type WorkerId = string

  datatype Lease = Lease(holder: WorkerId, since: Instant, expires: Instant)

  datatype Job = Job(
    kind: Kind, status: Status, attempts: nat, maxAttempts: nat, runAfter: Instant, createdAt: Instant,
    lease: Option<Lease>, completedAt: Option<Instant>, cleanupFailures: nat, source: Option<Id>, batch: Option<Id>,
    document: Option<Id>)

  type Jobs = map<Id, Job>

  const LEASE := 5 * 60 * SECOND
  const CLEANUP_COOLDOWN := 15 * 60 * SECOND
  const MAX_INT64 := 0x7fff_ffff_ffff_ffff

  predicate Terminal(s: Status) { s == Completed || s == Failed || s == Cancelled }

  // ---- what one transaction does ----------------------------------------------------

  predicate Wanted(kinds: Option<set<Kind>>, kind: Kind) { kinds == None || kind in kinds.value }

  predicate Expired(j: Job, now: Instant) { j.status == Running && j.lease.Some? && j.lease.value.expires <= now }

  predicate Reapable(j: Job, now: Instant, kinds: Option<set<Kind>>) {
    Wanted(kinds, j.kind) && Expired(j, now) && j.attempts >= j.maxAttempts
  }

  function OneMoreFailure(n: nat): nat { if n < MAX_INT64 then n + 1 else n }

  function ReapedJob(j: Job, now: Instant): Job {
    if j.kind == AttachmentCleanup then
      j.(status := Queued, attempts := 0, cleanupFailures := OneMoreFailure(j.cleanupFailures), completedAt := None,
         runAfter := now + CLEANUP_COOLDOWN, lease := None)
    else
      j.(status := Failed, completedAt := Some(now), lease := None)
  }

  function Reaped(jobs: Jobs, now: Instant, kinds: Option<set<Kind>>): Jobs {
    map id | id in jobs :: if Reapable(jobs[id], now, kinds) then ReapedJob(jobs[id], now) else jobs[id]
  }

  predicate Claimable(j: Job, now: Instant, kinds: Option<set<Kind>>) {
    && Wanted(kinds, j.kind) && j.attempts < j.maxAttempts
    && ((j.status == Queued && j.runAfter <= now) || Expired(j, now))
  }

  predicate Before(a: Job, b: Job) { a.runAfter < b.runAfter || (a.runAfter == b.runAfter && a.createdAt < b.createdAt) }

  /** A claimable job with no claimable job before it. */
  predicate FirstInLine(jobs: Jobs, now: Instant, kinds: Option<set<Kind>>, id: Id) {
    && id in jobs && Claimable(jobs[id], now, kinds)
    && forall x :: x in jobs && Claimable(jobs[x], now, kinds) ==> !Before(jobs[x], jobs[id])
  }

  predicate NothingClaimable(jobs: Jobs, now: Instant, kinds: Option<set<Kind>>) {
    forall x :: x in jobs ==> !Claimable(jobs[x], now, kinds)
  }

  function ClaimedJob(j: Job, worker: WorkerId, now: Instant): Job {
    j.(status := Running, attempts := j.attempts + 1, lease := Some(Lease(worker, now, now + LEASE)))
  }

  /** The current, unexpired holder. */
  predicate Owns(jobs: Jobs, id: Id, worker: WorkerId, now: Instant) {
    && id in jobs && jobs[id].status == Running && jobs[id].lease.Some?
    && jobs[id].lease.value.holder == worker && jobs[id].lease.value.expires > now
  }

  function RenewedJob(j: Job, now: Instant): Job
    requires j.lease.Some?
  {
    var l := j.lease.value;
    j.(lease := Some(l.(expires := if l.expires > now + LEASE then l.expires else now + LEASE)))
  }

  function CompletedJobs(jobs: Jobs, id: Id, now: Instant): Jobs
    requires id in jobs
  {
    if jobs[id].kind == AttachmentCleanup then jobs - {id}
    else jobs[id := jobs[id].(status := Completed, completedAt := Some(now), lease := None)]
  }

  function RetriedJob(j: Job, now: Instant, retryAt: Instant): Job {
    var last := j.attempts >= j.maxAttempts;
    if j.kind == AttachmentCleanup then
      j.(status := Queued, attempts := if last then 0 else j.attempts,
         cleanupFailures := OneMoreFailure(j.cleanupFailures), completedAt := None,
         runAfter := if last then retryAt + CLEANUP_COOLDOWN else retryAt, lease := None)
    else if last then
      j.(status := Failed, completedAt := Some(now), lease := None)
    else
      j.(status := Queued, completedAt := None, runAfter := retryAt, lease := None)
  }

  /** Whose queued jobs a cancellation reaches. */
  datatype Scope = OfBatch(id: Id) | OfDocument(id: Id)

  predicate InScope(j: Job, scope: Scope) {
    && j.status == Queued
    && match scope
       case OfBatch(b) => j.batch == Some(b)
       case OfDocument(d) => j.document == Some(d)
  }

  function CancelledJob(j: Job, now: Instant): Job {
    j.(status := Cancelled, completedAt := Some(now), lease := None)
  }

  function CancelledJobs(jobs: Jobs, scope: Scope, now: Instant): Jobs {
    map id | id in jobs :: if InScope(jobs[id], scope) then CancelledJob(jobs[id], now) else jobs[id]
  }

  /** Deleting a source takes its jobs with it. */
  function JobsWithoutSource(jobs: Jobs, source: Id): Jobs {
    map id | id in jobs && jobs[id].source != Some(source) :: jobs[id]
  }

  // ---- the state machine ----------------------------------------------------------------

  datatype Step =
    | Enqueue(id: Id, job: Job)
    | Claim(worker: WorkerId, now: Instant, kinds: Option<set<Kind>>, picked: Option<Id>)
    | Renew(id: Id, worker: WorkerId, now: Instant)
    | Complete(id: Id, worker: WorkerId, now: Instant)
    | Retry(id: Id, worker: WorkerId, now: Instant, retryAt: Instant)
    | Cancel(scope: Scope, now: Instant)
    | DeleteSource(source: Id, now: Instant)

  /** A row as every insert of the code base writes it. */
  predicate Fresh(j: Job) {
    && j.status == Queued && j.attempts == 0 && j.maxAttempts > 0 && j.lease == None && j.completedAt == None
    && j.cleanupFailures == 0
    && (j.kind == AttachmentCleanup ==> j.source == None && j.batch == None && j.document == None)
  }

  predicate Enabled(jobs: Jobs, s: Step) {
    match s
    case Enqueue(id, j) => id !in jobs && Fresh(j)
    case Claim(w, now, kinds, picked) =>
      var reaped := Reaped(jobs, now, kinds);
      if picked.Some? then FirstInLine(reaped, now, kinds, picked.value) else NothingClaimable(reaped, now, kinds)
    case _ => true
  }

  function Next(jobs: Jobs, s: Step): Jobs
    requires Enabled(jobs, s)
  {
    match s
    case Enqueue(id, j) => jobs[id := j]
    case Claim(w, now, kinds, picked) =>
      var reaped := Reaped(jobs, now, kinds);
      if picked.Some? then reaped[picked.value := ClaimedJob(reaped[picked.value], w, now)] else reaped
    case Renew(id, w, now) => if Owns(jobs, id, w, now) then jobs[id := RenewedJob(jobs[id], now)] else jobs
    case Complete(id, w, now) => if Owns(jobs, id, w, now) then CompletedJobs(jobs, id, now) else jobs
    case Retry(id, w, now, retryAt) =>
      if Owns(jobs, id, w, now) then jobs[id := RetriedJob(jobs[id], now, retryAt)] else jobs
    case Cancel(scope, now) => CancelledJobs(jobs, scope, now)
    case DeleteSource(source, now) => JobsWithoutSource(jobs, source)
  }

  // ---- the table and its statements -------------------------------------------------------

  class Queue {
    var jobs: Jobs

    constructor ()
      ensures jobs == map[]
    {
      jobs := map[];
    }

    method Insert(id: Id, job: Job)
      requires Enabled(jobs, Enqueue(id, job))
      modifies this
      ensures jobs == Next(old(jobs), Enqueue(id, job))
    {
      jobs := jobs[id := job];
    }

    /** Release or fail what expired on its last attempt. */
    method ReapExpiredFinalAttempts(now: Instant, kinds: Option<set<Kind>>)
      modifies this
      ensures jobs == Reaped(old(jobs), now, kinds)
    {
      jobs := map id | id in jobs :: if Reapable(jobs[id], now, kinds) then ReapedJob(jobs[id], now) else jobs[id];
    }

    /** The candidate row: of the claimable ones, the first by run time, then creation time. */
    method SelectCandidate(now: Instant, kinds: Option<set<Kind>>) returns (picked: Option<Id>)
      ensures if picked.Some? then FirstInLine(jobs, now, kinds, picked.value) else NothingClaimable(jobs, now, kinds)
    {
      picked := None;
      var rest := jobs.Keys;
      while rest != {}
        invariant rest <= jobs.Keys
        invariant picked == None ==> forall x :: x in jobs.Keys - rest ==> !Claimable(jobs[x], now, kinds)
        invariant picked.Some? ==> picked.value in jobs && Claimable(jobs[picked.value], now, kinds)
        invariant picked.Some? ==>
                    forall x :: x in jobs.Keys - rest && Claimable(jobs[x], now, kinds) ==> !Before(jobs[x], jobs[picked.value])
        decreases |rest|
      {
        var id := Least(rest);
        rest := rest - {id};
        if Claimable(jobs[id], now, kinds) && (picked == None || Before(jobs[id], jobs[picked.value])) {
          picked := Some(id);
        }
      }
    }

    method ClaimKinds(worker: WorkerId, now: Instant, kinds: Option<set<Kind>>) returns (picked: Option<Id>)
      modifies this
      ensures Enabled(old(jobs), Claim(worker, now, kinds, picked))
      ensures jobs == Next(old(jobs), Claim(worker, now, kinds, picked))
      ensures picked.Some? ==> picked.value in jobs && Owns(jobs, picked.value, worker, now)
    {
      ReapExpiredFinalAttempts(now, kinds);
      picked := SelectCandidate(now, kinds);
      if picked.Some? {
        var job := jobs[picked.value];
        job := job.(status := Running, attempts := job.attempts + 1);
        job := job.(lease := Some(Lease(worker, now, now + LEASE)));
        jobs := jobs[picked.value := job];
      }
    }

    method RenewLease(id: Id, worker: WorkerId, now: Instant) returns (held: bool)
      modifies this
      ensures held == Owns(old(jobs), id, worker, now)
      ensures jobs == Next(old(jobs), Renew(id, worker, now))
    {
      if !Owns(jobs, id, worker, now) { return false; }
      var lease := jobs[id].lease.value;
      if lease.expires < now + LEASE {
        lease := lease.(expires := now + LEASE);
      }
      jobs := jobs[id := jobs[id].(lease := Some(lease))];
      held := true;
    }

    method CompleteJob(id: Id, worker: WorkerId, now: Instant) returns (held: bool)
      modifies this
      ensures held == Owns(old(jobs), id, worker, now)
      ensures jobs == Next(old(jobs), Complete(id, worker, now))
    {
      if !Owns(jobs, id, worker, now) { return false; }
      if jobs[id].kind == AttachmentCleanup {
        jobs := jobs - {id};
        return true;
      }
      jobs := jobs[id := jobs[id].(status := Completed, completedAt := Some(now), lease := None)];
      held := true;
    }

    method RetryJob(id: Id, worker: WorkerId, now: Instant, retryAt: Instant) returns (held: bool)
      modifies this
      ensures held == Owns(old(jobs), id, worker, now)
      ensures jobs == Next(old(jobs), Retry(id, worker, now, retryAt))
    {
      if !Owns(jobs, id, worker, now) { return false; }
      var job := jobs[id];
      var last, cleanup := job.attempts >= job.maxAttempts, job.kind == AttachmentCleanup;
      if cleanup {
        job := job.(status := Queued, completedAt := None, cleanupFailures := OneMoreFailure(job.cleanupFailures));
        job := job.(runAfter := if last then retryAt + CLEANUP_COOLDOWN else retryAt);
        job := job.(attempts := if last then 0 else job.attempts);
      } else if last {
        job := job.(status := Failed, completedAt := Some(now));
      } else {
        job := job.(status := Queued, completedAt := None, runAfter := retryAt);
      }
      jobs := jobs[id := job.(lease := None)];
      held := true;
    }

    method CancelJobs(scope: Scope, now: Instant)
      modifies this
      ensures jobs == Next(old(jobs), Cancel(scope, now))
    {
      jobs := map id | id in jobs ::
        if InScope(jobs[id], scope) then jobs[id].(status := Cancelled, completedAt := Some(now), lease := None)
        else jobs[id];
    }

    /** Cancel the live jobs of a source; the delete that follows cascades to all of them. */
    method DeleteSourceJobs(source: Id, now: Instant)
      modifies this
      ensures jobs == Next(old(jobs), DeleteSource(source, now))
    {
      jobs := map id | id in jobs ::
        if jobs[id].source == Some(source) && (jobs[id].status == Queued || jobs[id].status == Running)
        then CancelledJob(jobs[id], now) else jobs[id];
      jobs := map id | id in jobs && jobs[id].source != Some(source) :: jobs[id];
    }
  }
}
