/** Lease safety and bounded attempts over every interleaving of workers, users and clocks. */
module JobRuns {
  import opened Prelude
  import opened JobQueue

  // ---- reachable tables ---------------------------------------------------------------

  /** Every step is possible where it is taken, and no identifier is inserted twice. */
  predicate Valid(rs: seq<Step>)
    decreases |rs|, 0
  {
    rs == [] ||
    var n := |rs| - 1;
    && Valid(rs[..n]) && Enabled(State(rs[..n]), rs[n])
    && (rs[n].Enqueue? ==> forall i :: 0 <= i < n && rs[i].Enqueue? ==> rs[i].id != rs[n].id)
  }

  function State(rs: seq<Step>): Jobs
    requires Valid(rs)
    decreases |rs|, 1
  {
    if rs == [] then map[] else Next(State(rs[..|rs| - 1]), rs[|rs| - 1])
  }

  lemma {:induction false} PrefixValid(rs: seq<Step>, k: nat)
    requires Valid(rs) && k <= |rs|
    ensures Valid(rs[..k])
  {
    if k < |rs| {
      PrefixValid(rs[..|rs| - 1], k);
      assert rs[..|rs| - 1][..k] == rs[..k];
    } else {
      assert rs[..k] == rs;
    }
  }

  /** The table step `k` of a run meets. */
  function At(rs: seq<Step>, k: nat): Jobs
    requires Valid(rs) && k <= |rs|
  {
    PrefixValid(rs, k);
    State(rs[..k])
  }

  lemma AtStart(rs: seq<Step>)
    requires Valid(rs)
    ensures At(rs, 0) == map[]
  {
  }

  lemma AtNext(rs: seq<Step>, k: nat)
    requires Valid(rs) && k < |rs|
    ensures Enabled(At(rs, k), rs[k]) && At(rs, k + 1) == Next(At(rs, k), rs[k])
    ensures rs[k].Enqueue? ==> forall i :: 0 <= i < k && rs[i].Enqueue? ==> rs[i].id != rs[k].id
  {
    hide Next, Enabled;
    PrefixValid(rs, k + 1);
    assert rs[..k + 1][..k] == rs[..k];
  }

  // ---- the invariant ---------------------------------------------------------------------

  predicate JobOk(j: Job) {
    && (j.status == Running <==> j.lease.Some?)
    && (Terminal(j.status) <==> j.completedAt.Some?)
    && j.attempts <= j.maxAttempts && j.maxAttempts > 0
    && (j.status == Queued ==> j.attempts < j.maxAttempts)
    && (j.status == Running ==> j.attempts > 0)
    && (j.kind == AttachmentCleanup ==>
          !Terminal(j.status) && j.source == None && j.batch == None && j.document == None)
  }

  predicate Inv(jobs: Jobs) { forall id :: id in jobs ==> JobOk(jobs[id]) }

  lemma StepKeepsInv(jobs: Jobs, s: Step)
    requires Inv(jobs) && Enabled(jobs, s)
    ensures Inv(Next(jobs, s))
  {
  }

  /** A job runs iff it has a lease holder; a queued job always has an attempt left; cleanup never ends badly. */
  lemma {:induction false} ReachableIsGood(rs: seq<Step>)
    requires Valid(rs)
    ensures Inv(State(rs))
  {
    if rs != [] {
      ReachableIsGood(rs[..|rs| - 1]);
      StepKeepsInv(State(rs[..|rs| - 1]), rs[|rs| - 1]);
    }
  }

  lemma GoodAt(rs: seq<Step>, k: nat)
    requires Valid(rs) && k <= |rs|
    ensures Inv(At(rs, k))
  {
    PrefixValid(rs, k);
    ReachableIsGood(rs[..k]);
  }

  // ---- final statuses ------------------------------------------------------------------------

  lemma TerminalStep(jobs: Jobs, s: Step, id: Id)
    requires Inv(jobs) && Enabled(jobs, s) && id in jobs && Terminal(jobs[id].status)
    ensures id in Next(jobs, s) ==> Next(jobs, s)[id] == jobs[id]
    ensures id !in Next(jobs, s) ==> s.DeleteSource? && jobs[id].source == Some(s.source)
  {
  }

  /** A job that left the table never comes back: its identifier was used. */
  lemma {:induction false} StaysGone(rs: seq<Step>, e: nat, j: nat, k: nat, id: Id)
    requires Valid(rs) && e < j <= k <= |rs| && rs[e].Enqueue? && rs[e].id == id && id !in At(rs, j)
    ensures id !in At(rs, k)
    decreases k
  {
    if j < k {
      StaysGone(rs, e, j, k - 1, id);
      AtNext(rs, k - 1);
    }
  }

  lemma {:induction false} Inserted(rs: seq<Step>, k: nat, id: Id)
    requires Valid(rs) && k <= |rs| && id in At(rs, k)
    ensures exists e :: 0 <= e < k && rs[e].Enqueue? && rs[e].id == id
  {
    if k > 0 {
      AtNext(rs, k - 1);
      if id in At(rs, k - 1) {
        Inserted(rs, k - 1, id);
      }
    }
  }

  /** Completed, failed and cancelled are absorbing: the row never changes again, and only its source's deletion removes it. */
  lemma {:induction false} TerminalIsForever(rs: seq<Step>, i: nat, j: nat, id: Id)
    requires Valid(rs) && i <= j <= |rs| && id in At(rs, i)
    requires var status := At(rs, i)[id].status; status == Completed || status == Failed || status == Cancelled
    ensures id in At(rs, j) ==> At(rs, j)[id] == At(rs, i)[id]
    ensures id !in At(rs, j) ==>
              exists k :: i <= k < j && rs[k].DeleteSource? && At(rs, i)[id].source == Some(rs[k].source)
    decreases j
  {
    hide Next, Enabled, At, Valid, Inv;
    if i < j {
      TerminalIsForever(rs, i, j - 1, id);
      AtNext(rs, j - 1);
      GoodAt(rs, j - 1);
      if id in At(rs, j - 1) {
        TerminalStep(At(rs, j - 1), rs[j - 1], id);
      } else {
        Inserted(rs, i, id);
        var e :| 0 <= e < i && rs[e].Enqueue? && rs[e].id == id;
        StaysGone(rs, e, j - 1, j, id);
      }
    }
  }

  // ---- leases -----------------------------------------------------------------------------------

  function Holder(jobs: Jobs, id: Id): Option<WorkerId> {
    if id in jobs && jobs[id].lease.Some? then Some(jobs[id].lease.value.holder) else None
  }

  predicate Claims(s: Step, id: Id, w: WorkerId) { s.Claim? && s.worker == w && s.picked == Some(id) }

  /** The step ends the work on a job: it completes it, fails it or hands it back. */
  predicate Finalises(jobs: Jobs, s: Step, id: Id, w: WorkerId) {
    (s.Complete? || s.Retry?) && s.id == id && s.worker == w && Owns(jobs, id, w, s.now)
  }

  lemma HolderStep(jobs: Jobs, s: Step, id: Id, w: WorkerId)
    requires Inv(jobs) && Enabled(jobs, s)
    ensures Holder(Next(jobs, s), id) == Some(w) ==> Holder(jobs, id) == Some(w) || Claims(s, id, w)
    ensures Claims(s, id, w) ==> Holder(Next(jobs, s), id) == Some(w)
    ensures Finalises(jobs, s, id, w) ==> Holder(jobs, id) == Some(w) && Holder(Next(jobs, s), id) == None
  {
  }

  /** The worker has held the job ever since its own claim at step `i`: nobody re-claimed, reaped or cancelled it. */
  predicate HeldSince(rs: seq<Step>, i: nat, k: nat, id: Id, w: WorkerId)
    requires Valid(rs) && k <= |rs|
  {
    i < k && Claims(rs[i], id, w) && forall m :: i < m <= k ==> Holder(At(rs, m), id) == Some(w)
  }

  lemma {:induction false} EveryHolderClaimed(rs: seq<Step>, k: nat, id: Id, w: WorkerId)
    requires Valid(rs) && k <= |rs| && Holder(At(rs, k), id) == Some(w)
    ensures exists i: nat :: HeldSince(rs, i, k, id, w)
  {
    hide Next, Enabled, At, Valid, Inv;
    AtStart(rs);
    AtNext(rs, k - 1);
    GoodAt(rs, k - 1);
    HolderStep(At(rs, k - 1), rs[k - 1], id, w);
    if Claims(rs[k - 1], id, w) {
      assert HeldSince(rs, k - 1, k, id, w);
    } else {
      EveryHolderClaimed(rs, k - 1, id, w);
      var i: nat :| HeldSince(rs, i, k - 1, id, w);
      assert HeldSince(rs, i, k, id, w);
    }
  }

  /** Only the current, unexpired holder finalises a job, and it has held it since its own claim. */
  lemma FinalisedByItsClaimer(rs: seq<Step>, k: nat, id: Id, w: WorkerId)
    requires Valid(rs) && k < |rs| && Finalises(At(rs, k), rs[k], id, w)
    ensures Owns(At(rs, k), id, w, rs[k].now)
    ensures exists i: nat :: HeldSince(rs, i, k, id, w)
  {
    EveryHolderClaimed(rs, k, id, w);
  }

  /** Each claim is finalised at most once: between two finalisations of a job its second finaliser claimed it. */
  lemma FinalisedOncePerClaim(rs: seq<Step>, k: nat, l: nat, id: Id, v: WorkerId, w: WorkerId)
    requires Valid(rs) && k < l < |rs|
    requires Finalises(At(rs, k), rs[k], id, v) && Finalises(At(rs, l), rs[l], id, w)
    ensures exists i: nat :: k < i < l && Claims(rs[i], id, w)
  {
    hide Next, Enabled, At, Valid, Inv;
    FinalisedByItsClaimer(rs, l, id, w);
    var i: nat :| HeldSince(rs, i, l, id, w);
    AtNext(rs, k);
    GoodAt(rs, k);
    HolderStep(At(rs, k), rs[k], id, v);
    assert i > k;
  }

  predicate NoClaimBetween(rs: seq<Step>, i: nat, k: nat, id: Id, w: WorkerId) {
    forall m :: i <= m < k && m < |rs| ==> !Claims(rs[m], id, w)
  }

  /** A worker whose job was claimed by someone else can finalise it only after claiming it again. */
  lemma ReclaimedWorkerIsLockedOut(rs: seq<Step>, m: nat, k: nat, id: Id, v: WorkerId, w: WorkerId)
    requires Valid(rs) && m < k < |rs| && v != w && Claims(rs[m], id, v) && NoClaimBetween(rs, m, k, id, w)
    ensures !Finalises(At(rs, k), rs[k], id, w)
  {
    hide Next, Enabled, At, Valid, Inv;
    if Finalises(At(rs, k), rs[k], id, w) {
      FinalisedByItsClaimer(rs, k, id, w);
      var i: nat :| HeldSince(rs, i, k, id, w);
      AtNext(rs, m);
      GoodAt(rs, m);
      HolderStep(At(rs, m), rs[m], id, v);
    }
  }

  /** The clock a step carries, where it carries one. */
  function ClockOf(s: Step, otherwise: Instant): Instant { if s.Enqueue? then otherwise else s.now }

  predicate ClockFrom(rs: seq<Step>, i: nat, k: nat, now: Instant) {
    forall m :: i <= m < k && m < |rs| ==> now <= ClockOf(rs[m], now)
  }

  lemma LostStaysLost(jobs: Jobs, s: Step, id: Id, w: WorkerId, now: Instant)
    requires Inv(jobs) && Enabled(jobs, s) && !Owns(jobs, id, w, now) && now <= ClockOf(s, now) && !Claims(s, id, w)
    ensures !Owns(Next(jobs, s), id, w, now)
  {
  }

  lemma {:induction false} OwnershipNeverReturns(rs: seq<Step>, i: nat, k: nat, id: Id, w: WorkerId, now: Instant)
    requires Valid(rs) && i <= k <= |rs| && !Owns(At(rs, i), id, w, now)
    requires NoClaimBetween(rs, i, k, id, w) && ClockFrom(rs, i, k, now)
    ensures !Owns(At(rs, k), id, w, now)
    decreases k
  {
    hide Next, Enabled, At, Valid, Inv;
    if i < k {
      OwnershipNeverReturns(rs, i, k - 1, id, w, now);
      AtNext(rs, k - 1);
      GoodAt(rs, k - 1);
      LostStaysLost(At(rs, k - 1), rs[k - 1], id, w, now);
    }
  }

  /** A worker whose renewal failed can neither complete nor retry the job without claiming it again. */
  lemma FailedRenewalLocksOut(rs: seq<Step>, i: nat, k: nat, id: Id, w: WorkerId)
    requires Valid(rs) && i < k < |rs| && rs[i].Renew? && rs[i].id == id && rs[i].worker == w
    requires !Owns(At(rs, i), id, w, rs[i].now)
    requires NoClaimBetween(rs, i, k, id, w) && ClockFrom(rs, i, k + 1, rs[i].now)
    ensures !Finalises(At(rs, k), rs[k], id, w)
  {
    OwnershipNeverReturns(rs, i, k, id, w, rs[i].now);
    assert rs[i].now <= ClockOf(rs[k], rs[i].now);
  }

  // ---- attempts and progress ------------------------------------------------------------------------

  predicate ClaimsAny(s: Step, id: Id) { s.Claim? && s.picked == Some(id) }

  function ClaimCount(rs: seq<Step>, id: Id): nat {
    if rs == [] then 0 else ClaimCount(rs[..|rs| - 1], id) + if ClaimsAny(rs[|rs| - 1], id) then 1 else 0
  }

  lemma AttemptStep(jobs: Jobs, s: Step, id: Id)
    requires Inv(jobs) && Enabled(jobs, s) && id in jobs && jobs[id].kind != AttachmentCleanup && id in Next(jobs, s)
    ensures var j, j' := jobs[id], Next(jobs, s)[id];
            && j'.kind == j.kind && j'.maxAttempts == j.maxAttempts
            && (!s.Enqueue? || s.id != id) && j'.attempts == j.attempts + if ClaimsAny(s, id) then 1 else 0
  {
  }

  /** An ordinary job's attempts count its claims, so it is claimed at most `maxAttempts` times in any run. */
  lemma {:induction false} ClaimedAtMostMaxAttempts(rs: seq<Step>, e: nat)
    requires Valid(rs) && e < |rs| && rs[e].Enqueue? && rs[e].job.kind != AttachmentCleanup
    ensures ClaimCount(rs, rs[e].id) <= rs[e].job.maxAttempts
    ensures rs[e].id in State(rs) ==>
              var j := State(rs)[rs[e].id];
              j.kind != AttachmentCleanup && j.maxAttempts == rs[e].job.maxAttempts && j.attempts == ClaimCount(rs, rs[e].id)
    decreases |rs|
  {
    var n, id := |rs| - 1, rs[e].id;
    ReachableIsGood(rs);
    ReachableIsGood(rs[..n]);
    if e < n {
      assert rs[..n][e] == rs[e];
      ClaimedAtMostMaxAttempts(rs[..n], e);
      if id in State(rs[..n]) && id in State(rs) {
        AttemptStep(State(rs[..n]), rs[n], id);
      }
    } else {
      NotYetClaimed(rs[..n], id);
    }
  }

  lemma {:induction false} NotYetClaimed(rs: seq<Step>, id: Id)
    requires Valid(rs) && forall i :: 0 <= i < |rs| && rs[i].Enqueue? ==> rs[i].id != id
    ensures ClaimCount(rs, id) == 0 && id !in State(rs)
  {
    if rs != [] {
      NotYetClaimed(rs[..|rs| - 1], id);
    }
  }

  lemma CleanupStep(jobs: Jobs, s: Step, id: Id)
    requires Inv(jobs) && Enabled(jobs, s) && id in jobs && jobs[id].kind == AttachmentCleanup
    ensures id in Next(jobs, s) ==> Next(jobs, s)[id].kind == AttachmentCleanup
    ensures id !in Next(jobs, s) ==> s.Complete? && exists w :: Finalises(jobs, s, id, w)
  {
    if id !in Next(jobs, s) {
      assert s.Complete? && Finalises(jobs, s, id, s.worker);
    }
  }

  /** A cleanup job stays queued or running until its holder completes it. */
  lemma {:induction false} CleanupStaysUntilDone(rs: seq<Step>, i: nat, j: nat, id: Id)
    requires Valid(rs) && i <= j <= |rs| && id in At(rs, i) && At(rs, i)[id].kind == AttachmentCleanup
    ensures || (id in At(rs, j) && At(rs, j)[id].kind == AttachmentCleanup
                && (At(rs, j)[id].status == Queued || At(rs, j)[id].status == Running))
            || exists k, w :: i <= k < j && rs[k].Complete? && Finalises(At(rs, k), rs[k], id, w)
    decreases j
  {
    hide Next, Enabled, At, Valid;
    GoodAt(rs, j);
    if i < j {
      CleanupStaysUntilDone(rs, i, j - 1, id);
      AtNext(rs, j - 1);
      GoodAt(rs, j - 1);
      if id in At(rs, j - 1) && At(rs, j - 1)[id].kind == AttachmentCleanup {
        CleanupStep(At(rs, j - 1), rs[j - 1], id);
      }
    }
  }
}
