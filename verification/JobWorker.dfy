/** One worker's pass over the queue, while other workers and users keep acting on the same table. */
module JobWorker {
  import opened Prelude
  import opened JobQueue

  function PowerOfTwo(n: nat): nat { if n == 0 then 1 else 2 * PowerOfTwo(n - 1) }

  /** Seconds before a failed attempt is retried. */
  function Backoff(attempt: int): nat {
    PowerOfTwo(if attempt < 1 then 0 else if attempt > 7 then 6 else attempt - 1)
  }

  lemma BackoffDoublesToAMinute(attempt: int)
    ensures 1 <= Backoff(attempt) <= 64
    ensures attempt <= 1 ==> Backoff(attempt) == 1
    ensures attempt >= 7 ==> Backoff(attempt) == 64
    ensures 1 <= attempt < 7 ==> Backoff(attempt + 1) == 2 * Backoff(attempt)
  {
    assert PowerOfTwo(6) == 64;
    if 1 <= attempt < 7 {
      DoublingIsMonotone(attempt - 1, 6);
    }
  }

  lemma {:induction false} DoublingIsMonotone(m: nat, n: nat)
    requires m <= n
    ensures 1 <= PowerOfTwo(m) <= PowerOfTwo(n)
  {
    if m < n {
      DoublingIsMonotone(m, n - 1);
    } else if m > 0 {
      DoublingIsMonotone(m - 1, m - 1);
    }
  }

  /** A step the database refuses, such as a reused primary key, changes nothing. */
  function Attempt(jobs: Jobs, s: Step): Jobs { if Enabled(jobs, s) then Next(jobs, s) else jobs }

  function After(jobs: Jobs, trace: seq<Step>): Jobs {
    if trace == [] then jobs else Attempt(After(jobs, trace[..|trace| - 1]), trace[|trace| - 1])
  }

  lemma AfterOneMore(jobs: Jobs, trace: seq<Step>, s: Step)
    ensures After(jobs, trace + [s]) == Attempt(After(jobs, trace), s)
  {
    assert (trace + [s])[..|trace|] == trace;
  }

  lemma AfterFirst(jobs: Jobs, s: Step)
    requires Enabled(jobs, s)
    ensures After(jobs, [s]) == Next(jobs, s)
  {
    assert [s][..0] == [];
  }

  lemma AfterOwnStep(jobs: Jobs, trace: seq<Step>, s: Step)
    requires s.Renew? || s.Complete? || s.Retry?
    ensures Enabled(After(jobs, trace), s) && After(jobs, trace + [s]) == Next(After(jobs, trace), s)
    ensures (trace + [s])[..|trace|] == trace
  {
    AfterOneMore(jobs, trace, s);
  }

  predicate Finishing(s: Step, worker: WorkerId) { (s.Complete? || s.Retry?) && s.worker == worker }

  predicate Renewing(s: Step, worker: WorkerId) { s.Renew? && s.worker == worker }

  predicate ByOthers(steps: seq<Step>, worker: WorkerId) {
    forall i :: 0 <= i < |steps| ==>
      !Finishing(steps[i], worker) && !Renewing(steps[i], worker) && !(steps[i].Claim? && steps[i].worker == worker)
  }

  /** Between two actions of the worker: what the others did, and the clock of the worker's next action. */
  datatype Beat = Beat(others: seq<Step>, now: Instant)

  datatype Outcome = Idle | LeaseLost | Finished(accepted: bool)

  /** What happens while the handler works: at every beat the others act, then the worker renews. */
  function Working(beats: seq<Beat>, job: Id, worker: WorkerId): seq<Step> {
    if beats == [] then []
    else
      var beat := beats[|beats| - 1];
      Working(beats[..|beats| - 1], job, worker) + beat.others + [Renew(job, worker, beat.now)]
  }

  /** So far the worker finished nothing, and each of its renewals, all for this job, found it the holder. */
  predicate Undisturbed(jobs: Jobs, trace: seq<Step>, id: Id, worker: WorkerId) {
    forall m :: 0 <= m < |trace| ==>
      && !Finishing(trace[m], worker)
      && (Renewing(trace[m], worker) ==> trace[m].id == id && Owns(After(jobs, trace[..m]), id, worker, trace[m].now))
  }

  lemma UndisturbedByOthers(jobs: Jobs, trace: seq<Step>, s: Step, id: Id, worker: WorkerId)
    requires Undisturbed(jobs, trace, id, worker) && !Finishing(s, worker)
    requires Renewing(s, worker) ==> s.id == id && Owns(After(jobs, trace), id, worker, s.now)
    ensures Undisturbed(jobs, trace + [s], id, worker)
  {
    var longer := trace + [s];
    forall m | 0 <= m < |longer|
      ensures !Finishing(longer[m], worker)
      ensures Renewing(longer[m], worker) ==> longer[m].id == id && Owns(After(jobs, longer[..m]), id, worker, longer[m].now)
    {
      if m < |trace| {
        assert longer[..m] == trace[..m];
      } else {
        assert longer[..m] == trace;
      }
    }
  }

  class Worker {
    const queue: Queue
    const id: WorkerId
    const kinds: Option<set<Kind>>

    constructor (store: Queue, name: WorkerId, allowed: Option<set<Kind>>)
      ensures queue == store && id == name && kinds == allowed
    {
      queue, id, kinds := store, name, allowed;
    }

    /** The table moves while this worker is busy elsewhere. */
    method Elsewhere(steps: seq<Step>, trace: seq<Step>, ghost start: Jobs, ghost job: Id) returns (longer: seq<Step>)
      requires queue.jobs == After(start, trace) && Undisturbed(start, trace, job, id) && ByOthers(steps, id)
      modifies queue
      ensures longer == trace + steps
      ensures queue.jobs == After(start, longer) && Undisturbed(start, longer, job, id)
    {
      longer := trace;
      for i := 0 to |steps|
        invariant longer == trace + steps[..i]
        invariant queue.jobs == After(start, longer) && Undisturbed(start, longer, job, id)
      {
        AfterOneMore(start, longer, steps[i]);
        UndisturbedByOthers(start, longer, steps[i], job, id);
        assert longer + [steps[i]] == trace + steps[..i + 1];
        queue.jobs := if Enabled(queue.jobs, steps[i]) then Next(queue.jobs, steps[i]) else queue.jobs;
        longer := longer + [steps[i]];
      }
      assert steps[..|steps|] == steps;
    }

    /**
     * Claim a job, renew its lease at every beat while the handler works, then complete or retry it.
     * A failed renewal ends the pass: the worker leaves the job alone.
     */
    method ProcessOne(now: Instant, beats: seq<Beat>, last: Beat, handled: bool)
      returns (outcome: Outcome, trace: seq<Step>)
      requires ByOthers(last.others, id) && forall i :: 0 <= i < |beats| ==> ByOthers(beats[i].others, id)
      modifies queue
      ensures queue.jobs == After(old(queue.jobs), trace)
      ensures |trace| > 0 && trace[0].Claim? && Enabled(old(queue.jobs), trace[0])
      ensures trace[0] == Claim(id, now, kinds, trace[0].picked)
      ensures outcome == Idle <==> trace[0].picked == None
      ensures outcome == Idle ==> |trace| == 1
      ensures outcome.LeaseLost? ==>
                var job, n := trace[0].picked.value, |trace| - 1;
                && Undisturbed(old(queue.jobs), trace[..n], job, id)
                && (exists k :: 0 < k <= |beats| && trace == [trace[0]] + Working(beats[..k], job, id))
                && Renewing(trace[n], id) && trace[n].id == job
                && !Owns(After(old(queue.jobs), trace[..n]), job, id, trace[n].now)
      ensures outcome.Finished? ==>
                var job, n := trace[0].picked.value, |trace| - 1;
                && Undisturbed(old(queue.jobs), trace[..n], job, id)
                && trace[..n] == [trace[0]] + Working(beats, job, id) + last.others
                && job in Next(old(queue.jobs), trace[0])
                && trace[n] ==
                   (if handled then Complete(job, id, last.now)
                    else
                      var attempts := Next(old(queue.jobs), trace[0])[job].attempts;
                      Retry(job, id, last.now, last.now + Backoff(attempts) * 1_000_000))
                && outcome.accepted == Owns(After(old(queue.jobs), trace[..n]), job, id, last.now)
    {
      hide After, Attempt, Enabled, Next, Owns, Backoff;
      ghost var start := queue.jobs;
      var claimed := queue.ClaimKinds(id, now, kinds);
      trace := [Claim(id, now, kinds, claimed)];
      AfterFirst(start, trace[0]);
      if claimed == None { return Idle, trace; }
      var job := claimed.value;
      var attempts := queue.jobs[job].attempts;
      for i := 0 to |beats|
        invariant queue.jobs == After(start, trace) && Undisturbed(start, trace, job, id)
        invariant trace == [Claim(id, now, kinds, Some(job))] + Working(beats[..i], job, id)
      {
        trace := Elsewhere(beats[i].others, trace, start, job);
        var renewal := Renew(job, id, beats[i].now);
        AfterOwnStep(start, trace, renewal);
        var held := queue.RenewLease(job, id, beats[i].now);
        assert beats[..i + 1][..i] == beats[..i];
        assert trace + [renewal] == [Claim(id, now, kinds, Some(job))] + Working(beats[..i + 1], job, id);
        if !held { return LeaseLost, trace + [renewal]; }
        UndisturbedByOthers(start, trace, renewal, job, id);
        trace := trace + [renewal];
      }
      assert beats[..|beats|] == beats;
      trace := Elsewhere(last.others, trace, start, job);
      var finish :=
        if handled then Complete(job, id, last.now) else Retry(job, id, last.now, last.now + Backoff(attempts) * SECOND);
      AfterOwnStep(start, trace, finish);
      var accepted;
      if handled {
        accepted := queue.CompleteJob(job, id, last.now);
      } else {
        accepted := queue.RetryJob(job, id, last.now, last.now + Backoff(attempts) * SECOND);
      }
      outcome, trace := Finished(accepted), trace + [finish];
    }
  }
}
