/**
 * What a claim, a lease, a retry and a cooldown mean, in terms of the stored columns alone, with every span of time
 * written out in microseconds. Nothing here refers to the predicates the queue itself works with.
 */
module JobTerms {
  import opened Prelude
  import opened JobQueue
  import opened JobRuns

  // ---- who may be claimed --------------------------------------------------------------------

  /** The job is of an asked-for kind, has an attempt left, and is due or abandoned. */
  predicate Eligible(j: Job, now: Instant, kinds: Option<set<Kind>>) {
    && (kinds.Some? ==> j.kind in kinds.value)
    && j.attempts < j.maxAttempts
    && match j.status
       case Queued => j.runAfter <= now
       case Running => j.lease.Some? && j.lease.value.expires <= now
       case _ => false
  }

  /** The job is of an asked-for kind and was abandoned on its last attempt. */
  predicate Exhausted(j: Job, now: Instant, kinds: Option<set<Kind>>) {
    && (kinds.Some? ==> j.kind in kinds.value)
    && j.attempts >= j.maxAttempts && j.status == Running && j.lease.Some? && j.lease.value.expires <= now
  }

  /** First by run time, then by creation time; equals may stand either way. */
  predicate NotBehind(a: Job, b: Job) {
    a.runAfter < b.runAfter || (a.runAfter == b.runAfter && a.createdAt <= b.createdAt)
  }

  /** `j` differs from `was` only in the columns a queue statement writes. */
  predicate SameWork(was: Job, j: Job) {
    && j.kind == was.kind && j.maxAttempts == was.maxAttempts && j.createdAt == was.createdAt && j.source == was.source
    && j.batch == was.batch && j.document == was.document
  }

  /** A failed cleanup waits for a quarter of an hour and starts over; any other job fails for good. */
  predicate ReapedOnTerms(was: Job, j: Job, now: Instant) {
    && SameWork(was, j) && j.lease == None
    && if was.kind == AttachmentCleanup then
         && j.status == Queued && j.attempts == 0 && j.runAfter == now + 900_000_000 && j.completedAt == None
         && j.cleanupFailures ==
            (if was.cleanupFailures < 9223372036854775807 then was.cleanupFailures + 1 else was.cleanupFailures)
       else
         && j.status == Failed && j.completedAt == Some(now) && j.attempts == was.attempts && j.runAfter == was.runAfter
         && j.cleanupFailures == was.cleanupFailures
  }

  /** One more attempt and a lease of five minutes; nothing else changes. */
  predicate ClaimedOnTerms(was: Job, j: Job, worker: WorkerId, now: Instant) {
    && SameWork(was, j) && j.status == Running && j.attempts == was.attempts + 1
    && j.lease == Some(Lease(worker, now, now + 300_000_000))
    && j.runAfter == was.runAfter && j.completedAt == was.completedAt && j.cleanupFailures == was.cleanupFailures
  }

  predicate PickedFirst(jobs: Jobs, now: Instant, kinds: Option<set<Kind>>, id: Id) {
    && id in jobs && Eligible(jobs[id], now, kinds)
    && forall x :: x in jobs && Eligible(jobs[x], now, kinds) ==> NotBehind(jobs[id], jobs[x])
  }

  lemma EligibleSurvivesReaping(jobs: Jobs, now: Instant, kinds: Option<set<Kind>>, x: Id)
    requires x in jobs
    ensures Claimable(Reaped(jobs, now, kinds)[x], now, kinds) <==> Eligible(jobs[x], now, kinds)
    ensures Eligible(jobs[x], now, kinds) ==> Reaped(jobs, now, kinds)[x] == jobs[x]
  {
  }

  lemma NotBeforeIsNotBehind(a: Job, b: Job)
    ensures !Before(b, a) <==> NotBehind(a, b)
  {
  }

  /**
   * A claim takes a job that was due or abandoned when the claim began, first in line by run time and creation
   * time, or takes none because there is none; the other abandoned last attempts are reaped and nothing else moves.
   */
  lemma ClaimOnTerms(jobs: Jobs, s: Step)
    requires s.Claim? && Enabled(jobs, s)
    ensures Next(jobs, s).Keys == jobs.Keys
    ensures if s.picked.Some? then
              PickedFirst(jobs, s.now, s.kinds, s.picked.value) &&
              ClaimedOnTerms(jobs[s.picked.value], Next(jobs, s)[s.picked.value], s.worker, s.now)
            else forall x :: x in jobs ==> !Eligible(jobs[x], s.now, s.kinds)
    ensures forall x :: x in jobs && s.picked != Some(x) ==>
              if Exhausted(jobs[x], s.now, s.kinds) then ReapedOnTerms(jobs[x], Next(jobs, s)[x], s.now)
              else Next(jobs, s)[x] == jobs[x]
  {
    forall x | x in jobs
      ensures Claimable(Reaped(jobs, s.now, s.kinds)[x], s.now, s.kinds) <==> Eligible(jobs[x], s.now, s.kinds)
      ensures Eligible(jobs[x], s.now, s.kinds) ==> Reaped(jobs, s.now, s.kinds)[x] == jobs[x]
    {
      EligibleSurvivesReaping(jobs, s.now, s.kinds, x);
    }
    hide Claimable, Eligible;
  }

  // ---- who may act on a job -----------------------------------------------------------------------

  /** The worker has the job until `until` at least. */
  predicate LeasedUntil(jobs: Jobs, id: Id, worker: WorkerId, until: Instant) {
    && id in jobs && jobs[id].status == Running && jobs[id].lease.Some? && jobs[id].lease.value.holder == worker
    && until <= jobs[id].lease.value.expires
  }

  predicate LeasedNow(jobs: Jobs, id: Id, worker: WorkerId, now: Instant) { LeasedUntil(jobs, id, worker, now + 1) }

  /**
   * A handed-back job runs again at `retryAt`; on its last attempt a cleanup waits a quarter of an hour longer and
   * the rest fail.
   */
  predicate RetriedOnTerms(was: Job, j: Job, now: Instant, retryAt: Instant) {
    && SameWork(was, j) && j.lease == None
    && if was.kind == AttachmentCleanup then
         && j.status == Queued && j.completedAt == None
         && j.attempts == (if was.attempts >= was.maxAttempts then 0 else was.attempts)
         && j.runAfter == (if was.attempts >= was.maxAttempts then retryAt + 900_000_000 else retryAt)
         && j.cleanupFailures ==
            (if was.cleanupFailures < 9223372036854775807 then was.cleanupFailures + 1 else was.cleanupFailures)
       else
         && j.attempts == was.attempts && j.cleanupFailures == was.cleanupFailures
         && if was.attempts >= was.maxAttempts
            then j.status == Failed && j.completedAt == Some(now) && j.runAfter == was.runAfter
            else j.status == Queued && j.completedAt == None && j.runAfter == retryAt
  }

  /** What the holder of an unexpired lease can do, and that nobody else can do any of it. */
  lemma HolderActsOnTerms(jobs: Jobs, s: Step)
    requires s.Renew? || s.Complete? || s.Retry?
    ensures var after := Next(jobs, s);
            if !LeasedNow(jobs, s.id, s.worker, s.now) then after == jobs
            else
              var was := jobs[s.id];
              && (forall x :: x in jobs && x != s.id ==> x in after && after[x] == jobs[x])
              && (forall x :: x in after ==> x in jobs)
              && match s
                 case Renew(id, w, now) =>
                   && id in after && after[id] == was.(lease := after[id].lease)
                   && LeasedUntil(after, id, w, was.lease.value.expires) && LeasedUntil(after, id, w, now + 300_000_000)
                   && after[id].lease.value.since == was.lease.value.since
                   && (after[id].lease == was.lease || after[id].lease.value.expires == now + 300_000_000)
                 case Complete(id, w, now) =>
                   if was.kind == AttachmentCleanup then id !in after
                   else id in after && after[id] == was.(status := Completed, completedAt := Some(now), lease := None)
                 case Retry(id, w, now, retryAt) => id in after && RetriedOnTerms(was, after[id], now, retryAt)
  {
  }

  /** A user reaches only queued jobs of the batch or document; deleting a source takes all its jobs and no others. */
  lemma UsersActOnTerms(jobs: Jobs, s: Step)
    requires s.Cancel? || s.DeleteSource?
    ensures var after := Next(jobs, s);
            && (forall x :: x in after ==> x in jobs)
            && forall x :: x in jobs ==>
                 match s
                 case Cancel(scope, now) =>
                   && x in after
                   && var reached :=
                        if scope.OfBatch? then jobs[x].batch == Some(scope.id) else jobs[x].document == Some(scope.id);
                      after[x] ==
                      (if jobs[x].status == Queued && reached
                       then jobs[x].(status := Cancelled, completedAt := Some(now), lease := None) else jobs[x])
                 case DeleteSource(source, _) =>
                   (x in after <==> jobs[x].source != Some(source)) && (x in after ==> after[x] == jobs[x])
  {
  }

  // ---- the lease lasts five minutes ------------------------------------------------------------------

  /** Between `i` and `k` nobody's clock reaches `until`, the worker does not end the work, and the source stays. */
  predicate Undisputed(rs: seq<Step>, i: nat, k: nat, id: Id, worker: WorkerId, until: Instant, source: Option<Id>) {
    forall m :: i < m < k && m < |rs| ==>
      match rs[m]
      case Enqueue(_, _) => true
      case Claim(_, now, _, _) => now < until
      case Renew(_, _, _) => true
      case Complete(x, w, _) => x != id || w != worker
      case Retry(x, w, _, _) => x != id || w != worker
      case Cancel(_, _) => true
      case DeleteSource(gone, _) => source != Some(gone)
  }

  lemma LeaseSurvivesStep(jobs: Jobs, s: Step, id: Id, worker: WorkerId, until: Instant)
    requires Enabled(jobs, s) && LeasedUntil(jobs, id, worker, until)
    requires s.Claim? ==> s.now < until
    requires s.Complete? || s.Retry? ==> s.id != id || s.worker != worker
    requires s.DeleteSource? ==> jobs[id].source != Some(s.source)
    ensures LeasedUntil(Next(jobs, s), id, worker, until) && Next(jobs, s)[id].source == jobs[id].source
    ensures !ClaimsAny(s, id)
  {
  }

  /** The step gives or extends the worker's lease. */
  predicate Grants(jobs: Jobs, s: Step, id: Id, worker: WorkerId) {
    || (s.Claim? && s.picked == Some(id) && s.worker == worker)
    || (s.Renew? && s.id == id && s.worker == worker && LeasedNow(jobs, id, worker, s.now))
  }

  lemma GrantLeases(jobs: Jobs, s: Step, id: Id, worker: WorkerId)
    requires Enabled(jobs, s) && Grants(jobs, s, id, worker)
    ensures LeasedUntil(Next(jobs, s), id, worker, s.now + 300_000_000)
  {
  }

  /**
   * After a claim or a renewal the worker has the job for five minutes: at every later step of the run whose clock,
   * like those of all claims between, stays below, it is still the holder, and nobody has claimed the job.
   */
  lemma {:induction false} LeaseLastsFiveMinutes(rs: seq<Step>, i: nat, k: nat, id: Id, worker: WorkerId)
    requires Valid(rs) && i < k <= |rs| && Grants(At(rs, i), rs[i], id, worker)
    requires id in At(rs, i + 1) ==>
               Undisputed(rs, i, k, id, worker, rs[i].now + 300_000_000, At(rs, i + 1)[id].source)
    ensures LeasedUntil(At(rs, k), id, worker, rs[i].now + 300_000_000)
    ensures id in At(rs, i + 1) && At(rs, k)[id].source == At(rs, i + 1)[id].source
    ensures forall m :: i < m < k ==> !ClaimsAny(rs[m], id)
    decreases k
  {
    hide Next, Enabled, At, Valid, LeasedNow;
    if k == i + 1 {
      AtNext(rs, i);
      GrantLeases(At(rs, i), rs[i], id, worker);
    } else {
      LeaseLastsFiveMinutes(rs, i, k - 1, id, worker);
      AtNext(rs, k - 1);
      LeaseSurvivesStep(At(rs, k - 1), rs[k - 1], id, worker, rs[i].now + 300_000_000);
    }
  }

  /** So whatever the worker does with the job in that time is accepted. */
  lemma WorkInTimeIsAccepted(rs: seq<Step>, i: nat, k: nat, id: Id, worker: WorkerId)
    requires Valid(rs) && i < k < |rs| && Grants(At(rs, i), rs[i], id, worker)
    requires id in At(rs, i + 1) ==>
               Undisputed(rs, i, k, id, worker, rs[i].now + 300_000_000, At(rs, i + 1)[id].source)
    requires (rs[k].Renew? || rs[k].Complete? || rs[k].Retry?) && rs[k].id == id && rs[k].worker == worker
    requires rs[k].now < rs[i].now + 300_000_000
    ensures Owns(At(rs, k), id, worker, rs[k].now)
    ensures rs[k].Complete? ==> id !in At(rs, k + 1) || At(rs, k + 1)[id].status == Completed
    ensures rs[k].Renew? ==> LeasedUntil(At(rs, k + 1), id, worker, rs[k].now + 300_000_000)
  {
    hide Valid, At, Enabled;
    LeaseLastsFiveMinutes(rs, i, k, id, worker);
    AtNext(rs, k);
  }

  // ---- nothing runs before its time --------------------------------------------------------------------

  /** The job waits for `from`, or is out of the queue for good. */
  predicate WaitsUntil(jobs: Jobs, id: Id, from: Instant) {
    id in jobs ==> (jobs[id].status == Queued && from <= jobs[id].runAfter) || Terminal(jobs[id].status)
  }

  lemma WaitingStep(jobs: Jobs, s: Step, id: Id, from: Instant)
    requires Inv(jobs) && Enabled(jobs, s) && WaitsUntil(jobs, id, from)
    requires s.Enqueue? ==> s.id != id
    ensures ClaimsAny(s, id) ==> from <= s.now
    ensures !ClaimsAny(s, id) ==> WaitsUntil(Next(jobs, s), id, from)
  {
  }

  lemma {:induction false} WaitsForItsTime(rs: seq<Step>, i: nat, k: nat, id: Id, from: Instant)
    requires Valid(rs) && i <= k <= |rs| && WaitsUntil(At(rs, i), id, from)
    requires forall m :: i <= m < k ==> !ClaimsAny(rs[m], id) && (rs[m].Enqueue? ==> rs[m].id != id)
    ensures WaitsUntil(At(rs, k), id, from)
    decreases k
  {
    hide Next, Enabled, At, Valid, Inv, WaitsUntil;
    if i < k {
      WaitsForItsTime(rs, i, k - 1, id, from);
      AtNext(rs, k - 1);
      GoodAt(rs, k - 1);
      WaitingStep(At(rs, k - 1), rs[k - 1], id, from);
    }
  }

  lemma NotInsertedAgain(rs: seq<Step>, i: nat, m: nat, id: Id)
    requires Valid(rs) && i < m < |rs| && id in At(rs, i)
    ensures rs[m].Enqueue? ==> rs[m].id != id
  {
    hide Next, Enabled, At, Valid;
    Inserted(rs, i, id);
    AtNext(rs, m);
  }

  lemma NextClaimWaits(rs: seq<Step>, i: nat, k: nat, id: Id, from: Instant)
    requires Valid(rs) && i < k < |rs| && id in At(rs, i) && WaitsUntil(At(rs, i + 1), id, from)
    requires ClaimsAny(rs[k], id) && forall m :: i < m < k ==> !ClaimsAny(rs[m], id)
    ensures from <= rs[k].now
  {
    forall m | i < m <= k
      ensures rs[m].Enqueue? ==> rs[m].id != id
    {
      NotInsertedAgain(rs, i, m, id);
    }
    WaitsForItsTime(rs, i + 1, k, id, from);
    AtNext(rs, k);
    GoodAt(rs, k);
    WaitingStep(At(rs, k), rs[k], id, from);
  }

  /** No claim before the retry time; a quarter of an hour later still for a cleanup on its last attempt. */
  lemma NoClaimBeforeRetryTime(rs: seq<Step>, i: nat, k: nat, id: Id)
    requires Valid(rs) && i < k < |rs| && rs[i].Retry? && rs[i].id == id
    requires LeasedNow(At(rs, i), id, rs[i].worker, rs[i].now)
    requires ClaimsAny(rs[k], id) && forall m :: i < m < k ==> !ClaimsAny(rs[m], id)
    ensures var j := At(rs, i)[id];
            && rs[i].retryAt <= rs[k].now
            && (j.attempts >= j.maxAttempts ==> j.kind == AttachmentCleanup && rs[i].retryAt + 900_000_000 <= rs[k].now)
  {
    hide Valid, At, Enabled, Inv;
    var jobs := At(rs, i);
    AtNext(rs, i);
    HolderActsOnTerms(jobs, rs[i]);
    hide Next;
    var j := jobs[id];
    var from := if j.attempts >= j.maxAttempts then rs[i].retryAt + 900_000_000 else rs[i].retryAt;
    if j.attempts >= j.maxAttempts && j.kind != AttachmentCleanup {
      FailedIsNotClaimed(rs, i, k, id, rs[k].now + 1);
    } else {
      NextClaimWaits(rs, i, k, id, from);
    }
  }

  lemma FailedIsNotClaimed(rs: seq<Step>, i: nat, k: nat, id: Id, from: Instant)
    requires Valid(rs) && i < k < |rs| && id in At(rs, i) && id in At(rs, i + 1) && Terminal(At(rs, i + 1)[id].status)
    requires forall m :: i < m < k ==> !ClaimsAny(rs[m], id)
    ensures ClaimsAny(rs[k], id) ==> from <= rs[k].now
  {
    if ClaimsAny(rs[k], id) {
      NextClaimWaits(rs, i, k, id, from);
    }
  }

  /** A cleanup abandoned on its last attempt is not claimed for a quarter of an hour, then with all its attempts back. */
  lemma ReapedCleanupWaits(rs: seq<Step>, i: nat, k: nat, id: Id)
    requires Valid(rs) && i < k < |rs| && rs[i].Claim? && id in At(rs, i) && At(rs, i)[id].kind == AttachmentCleanup
    requires Exhausted(At(rs, i)[id], rs[i].now, rs[i].kinds)
    requires ClaimsAny(rs[k], id) && forall m :: i < m < k ==> !ClaimsAny(rs[m], id)
    ensures rs[i].now + 900_000_000 <= rs[k].now
  {
    hide Valid, At, Enabled, Inv;
    AtNext(rs, i);
    ClaimOnTerms(At(rs, i), rs[i]);
    hide Next;
    NextClaimWaits(rs, i, k, id, rs[i].now + 900_000_000);
  }

  /** A new job is not claimed before its run time. */
  lemma NoClaimBeforeRunTime(rs: seq<Step>, i: nat, k: nat, id: Id)
    requires Valid(rs) && i < k < |rs| && rs[i].Enqueue? && rs[i].id == id
    requires ClaimsAny(rs[k], id) && forall m :: i < m < k ==> !ClaimsAny(rs[m], id)
    ensures rs[i].job.runAfter <= rs[k].now
  {
    hide Valid, At, Inv;
    AtNext(rs, i);
    forall m | i < m <= k
      ensures rs[m].Enqueue? ==> rs[m].id != id
    {
      AtNext(rs, m);
    }
    WaitsForItsTime(rs, i + 1, k, id, rs[i].job.runAfter);
    AtNext(rs, k);
    GoodAt(rs, k);
    WaitingStep(At(rs, k), rs[k], id, rs[i].job.runAfter);
  }

  // ---- nobody is stranded -------------------------------------------------------------------------------

  /**
   * In every run, a claim that meets a due or abandoned job of an asked-for kind hands it out, or hands out one that
   * is not behind it; one abandoned on its last attempt fails, or waits for its quarter of an hour as a cleanup.
   */
  lemma NobodyIsStranded(rs: seq<Step>, i: nat, id: Id)
    requires Valid(rs) && i < |rs| && rs[i].Claim? && id in At(rs, i)
    ensures var j, s, after := At(rs, i)[id], rs[i], At(rs, i + 1);
            && (Eligible(j, s.now, s.kinds) ==>
                  s.picked.Some? && s.picked.value in At(rs, i) && NotBehind(At(rs, i)[s.picked.value], j) &&
                  ClaimedOnTerms(At(rs, i)[s.picked.value], after[s.picked.value], s.worker, s.now))
            && (Exhausted(j, s.now, s.kinds) ==> id in after && ReapedOnTerms(j, after[id], s.now))
  {
    hide Valid, At, Enabled, Next;
    AtNext(rs, i);
    ClaimOnTerms(At(rs, i), rs[i]);
  }
}
