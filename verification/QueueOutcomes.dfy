/** Why jobs end as they do: which attempts are retried, what every verdict gives, and how long a lease lasts. */
module QueueOutcomes {
  import opened Common
  import opened Counting
  import opened BuildQueue
  import opened QueueFacts
  import opened QueueLeases

  // --- an attempt whose lease ran out -------------------------------------------------------

  predicate RanOut(j: Job, now: nat)
  {
    j.state.Running? && j.lease.Some? && j.lease.value <= now
  }

  lemma RecoveredJob(q: Queue, l: Limits, order: seq<nat>, id: nat)
    requires id < |q.jobs|
    ensures id < |RecoverExpired(q, l, order).jobs|
    ensures RecoverExpired(q, l, order).jobs[id] == RecoverJobs(q, l).jobs[id]
  {
    var mid, after := RecoverJobs(q, l), RecoverExpired(q, l, order);
    FinalizeAllEvolves(mid, order, l);
    assert after.jobs[id] == after.jobs[..|mid.jobs|][id];
  }

  /**
   * What a recovery makes of a running job: nothing while its lease lasts; else it is cancelled if that was asked for,
   * failed if no attempt is left, and queued again otherwise, in each case without worker and lease.
   */
  lemma RecoveryDecides(q: Queue, l: Limits, order: seq<nat>, id: nat)
    requires SafeQueue(q, l) && id < |q.jobs| && q.jobs[id].state.Running?
    ensures var j := q.jobs[id];
            id < |RecoverExpired(q, l, order).jobs|
            && var k := RecoverExpired(q, l, order).jobs[id];
            && k.attempts == j.attempts && k.cancelRequested == j.cancelRequested && k.deliverables == j.deliverables
            && (!RanOut(j, q.now) ==> k == j)
            && (RanOut(j, q.now) ==> k.worker == None && k.lease == None)
            && (RanOut(j, q.now) ==> (k.state.Cancelled? <==> j.cancelRequested))
            && (RanOut(j, q.now) && !j.cancelRequested ==> (k.state.Failed? <==> j.attempts == l.maxAttempts))
            && (RanOut(j, q.now) && !j.cancelRequested ==> (k.state.Queued? <==> j.attempts < l.maxAttempts))
  {
    assert JobOk(q.jobs[id], l);
    RecoveredJob(q, l, order, id);
  }

  /** A job not running is left alone. */
  lemma RecoverySparesOthers(q: Queue, l: Limits, order: seq<nat>, id: nat)
    requires SafeQueue(q, l) && id < |q.jobs| && !q.jobs[id].state.Running?
    ensures id < |RecoverExpired(q, l, order).jobs| && RecoverExpired(q, l, order).jobs[id] == q.jobs[id]
  {
    assert JobOk(q.jobs[id], l);
    RecoveredJob(q, l, order, id);
  }

  /** An expired job with attempts left can be claimed again: the next claim finds it or one before it. */
  lemma RetriedIsClaimable(q: Queue, l: Limits, order: seq<nat>, id: nat, worker: nat, locked: set<nat>)
    requires Positive(l) && SafeQueue(q, l) && id < |q.jobs| && RanOut(q.jobs[id], q.now)
    requires !q.jobs[id].cancelRequested && q.jobs[id].attempts < l.maxAttempts && id !in locked
    ensures var after := RecoverExpired(q, l, order);
            && id < |after.jobs|
            && (Count(after.jobs, OccupiesFor(after.jobs[id].user)) < l.perUserRunning
                && Count(after.jobs, Occupies) < l.globalRunning ==>
                  var claimed := Claim(after, l, worker, locked).1;
                  claimed.Some? && (claimed.value == id || Before(after, claimed.value, id)))
  {
    var after := RecoverExpired(q, l, order);
    RecoveryDecides(q, l, order, id);
    if Count(after.jobs, OccupiesFor(after.jobs[id].user)) < l.perUserRunning {
      assert Eligible(after, l, locked, id);
    }
    ClaimTakesFirst(after, l, worker, locked);
  }

  // --- verdicts ------------------------------------------------------------------------------

  /** The worker runs the job under a live lease. */
  predicate Runs(q: Queue, id: nat, worker: nat)
  {
    id < |q.jobs| && q.jobs[id].state.Running? && q.jobs[id].worker == Some(worker) && LeaseLive(q.jobs[id], q.now)
  }

  lemma CompletedJob(q: Queue, l: Limits, id: nat, worker: nat, verdict: Verdict)
    requires Runs(q, id, worker) && !q.jobs[id].cancelRequested
    requires !(verdict.CachedSuccess? && !verdict.keyMatches)
    ensures id < |Complete(q, l, id, worker, verdict).0.jobs|
    ensures Complete(q, l, id, worker, verdict).0.jobs[id] == Settled(q.jobs[id], l, verdict)
    ensures Complete(q, l, id, worker, verdict).1 == Recorded(Settled(q.jobs[id], l, verdict).state)
  {
    var told := WithJob(q, id, Settled(q.jobs[id], l, verdict));
    FinalizeEvolves(told, id, told.jobs[id].state.Succeeded?, l);
    var after := FinalizeBuild(told, id, told.jobs[id].state.Succeeded?).jobs;
    assert after[id] == after[..|told.jobs|][id];
  }

  /** The state that a verdict asks for, of a job that has used `attempts` of its attempts. */
  predicate Answers(state: JobState, verdict: Verdict, attempts: nat, l: Limits)
  {
    match state
    case Succeeded => verdict.Success? || (verdict.CachedSuccess? && verdict.keyMatches)
    case TimedOut => verdict.CompileFailure? && verdict.timedOut
    case Failed => (verdict.CompileFailure? && !verdict.timedOut)
                   || (verdict.InfrastructureFailure? && attempts >= l.maxAttempts)
    case Queued => verdict.InfrastructureFailure? && attempts < l.maxAttempts
    case _ => false
  }

  function DeliversAfter(verdict: Verdict, before: bool): bool
  {
    match verdict
    case Success(d) => d
    case CachedSuccess(_, d) => d
    case CompileFailure(_, d) => d
    case InfrastructureFailure => before
  }

  /**
   * A completion under a live lease is decided by the cancellation request first and by the verdict then; the job
   * gives up worker and lease, and keeps its attempts.
   */
  lemma VerdictDecides(q: Queue, l: Limits, id: nat, worker: nat, verdict: Verdict, state: JobState)
    requires Runs(q, id, worker)
    ensures var (after, r) := Complete(q, l, id, worker, verdict);
            && id < |after.jobs|
            && (q.jobs[id].cancelRequested ==> r == Recorded(Cancelled))
            && (!q.jobs[id].cancelRequested && verdict.CachedSuccess? && !verdict.keyMatches
                ==> r == Refused(KeyMismatch) && after == q)
            && (!q.jobs[id].cancelRequested && !(verdict.CachedSuccess? && !verdict.keyMatches)
                ==> (r == Recorded(state) <==> Answers(state, verdict, q.jobs[id].attempts, l))
                    && after.jobs[id].deliverables == DeliversAfter(verdict, q.jobs[id].deliverables))
            && (r.Recorded? ==> after.jobs[id].state == r.state && after.jobs[id].worker == None
                                && after.jobs[id].lease == None && after.jobs[id].attempts == q.jobs[id].attempts)
  {
    if !q.jobs[id].cancelRequested && !(verdict.CachedSuccess? && !verdict.keyMatches) {
      CompletedJob(q, l, id, worker, verdict);
    }
  }

  /** Anyone else's completion is refused, for what is wrong with it, and changes nothing. */
  lemma OthersCannotComplete(q: Queue, l: Limits, id: nat, worker: nat, verdict: Verdict)
    requires !Runs(q, id, worker)
    ensures Complete(q, l, id, worker, verdict).0 == q
    ensures Complete(q, l, id, worker, verdict).1
            == Refused(if id >= |q.jobs| then NotFound
                       else if q.jobs[id].state.Running? then LeaseLost else InvalidState(q.jobs[id].state))
  {
  }

  // --- every outcome has a cause ----------------------------------------------------------------

  /** The step is the report, by the worker that runs the job, from which it has its state. */
  ghost predicate Reports(q: Queue, l: Limits, a: Action, id: nat, state: JobState)
  {
    a.DoComplete? && a.id == id && Runs(q, id, a.worker) && !q.jobs[id].cancelRequested
    && Answers(state, a.verdict, q.jobs[id].attempts, l)
  }

  ghost predicate Reported(q: Queue, l: Limits, actions: seq<Action>, id: nat, state: JobState)
  {
    exists n :: 0 <= n < |actions| && Reports(Run(q, l, actions[..n]), l, actions[n], id, state)
  }

  /** Success and time-outs are reported, failures reported or without attempts left, cancellations asked for. */
  ghost predicate Explained(q: Queue, l: Limits, actions: seq<Action>, id: nat, j: Job)
  {
    && (j.state.Succeeded? || j.state.TimedOut? ==> Reported(q, l, actions, id, j.state))
    && (j.state.Failed? ==> Reported(q, l, actions, id, Failed) || j.attempts == l.maxAttempts)
    && (j.state.Cancelled? ==> j.cancelRequested)
  }

  lemma RecoveryEnds(q: Queue, l: Limits, order: seq<nat>, id: nat)
    requires SafeQueue(q, l) && id < |q.jobs| && !Terminal(q.jobs[id].state)
    ensures id < |RecoverExpired(q, l, order).jobs|
    ensures var k := RecoverExpired(q, l, order).jobs[id];
            && (Terminal(k.state) ==> k.state.Failed? || k.state.Cancelled?)
            && (k.state.Failed? ==> k.attempts == l.maxAttempts) && (k.state.Cancelled? ==> k.cancelRequested)
  {
    if q.jobs[id].state.Running? {
      RecoveryDecides(q, l, order, id);
    } else {
      RecoverySparesOthers(q, l, order, id);
    }
  }

  lemma ClaimEndsNothing(q: Queue, l: Limits, worker: nat, locked: set<nat>, id: nat)
    requires id < |q.jobs| && !Terminal(q.jobs[id].state)
    ensures id < |Claim(q, l, worker, locked).0.jobs| && !Terminal(Claim(q, l, worker, locked).0.jobs[id].state)
  {
  }

  lemma RunningEnds(q: Queue, l: Limits, a: Action, id: nat)
    requires Positive(l) && SafeQueue(q, l) && id < |q.jobs| && !Terminal(q.jobs[id].state)
    ensures id < |Perform(q, l, a).jobs|
    ensures var k := Perform(q, l, a).jobs[id];
            && (k.state.Succeeded? || k.state.TimedOut? ==> Reports(q, l, a, id, k.state))
            && (k.state.Failed? ==> Reports(q, l, a, id, Failed) || k.attempts == l.maxAttempts)
            && (k.state.Cancelled? ==> k.cancelRequested)
  {
    match a {
      case DoRecover(order) => RecoveryEnds(q, l, order, id);
      case DoClaim(worker, locked) => ClaimEndsNothing(q, l, worker, locked, id);
      case DoComplete(i, worker, verdict) => CompletionEnds(q, l, i, worker, verdict, id);
      case _ =>
    }
  }

  lemma CompletionEnds(q: Queue, l: Limits, i: nat, worker: nat, verdict: Verdict, id: nat)
    requires Positive(l) && SafeQueue(q, l) && id < |q.jobs| && !Terminal(q.jobs[id].state)
    ensures id < |Complete(q, l, i, worker, verdict).0.jobs|
    ensures var k := Complete(q, l, i, worker, verdict).0.jobs[id];
            Terminal(k.state) && k.state != Cancelled ==> Reports(q, l, DoComplete(i, worker, verdict), id, k.state)
    ensures var k := Complete(q, l, i, worker, verdict).0.jobs[id]; k.state.Cancelled? ==> k.cancelRequested
  {
    if Runs(q, i, worker) {
      VerdictDecides(q, l, i, worker, verdict, Complete(q, l, i, worker, verdict).0.jobs[i].state);
      if i != id { OtherJobsStay(q, l, i, worker, verdict, id); }
    } else {
      OthersCannotComplete(q, l, i, worker, verdict);
    }
  }

  lemma OtherJobsStay(q: Queue, l: Limits, i: nat, worker: nat, verdict: Verdict, id: nat)
    requires id < |q.jobs| && i != id
    ensures id < |Complete(q, l, i, worker, verdict).0.jobs|
    ensures Complete(q, l, i, worker, verdict).0.jobs[id] == q.jobs[id]
  {
    if Runs(q, i, worker) && !q.jobs[i].cancelRequested {
      var told := WithJob(q, i, Settled(q.jobs[i], l, verdict));
      FinalizeEvolves(told, i, told.jobs[i].state.Succeeded?, l);
      var after := FinalizeBuild(told, i, told.jobs[i].state.Succeeded?).jobs;
      assert after[id] == after[..|told.jobs|][id];
    }
  }

  lemma ReportedStays(q: Queue, l: Limits, most: seq<Action>, last: Action, id: nat, state: JobState)
    ensures Reported(q, l, most, id, state) ==> Reported(q, l, most + [last], id, state)
    ensures Reports(Run(q, l, most), l, last, id, state) ==> Reported(q, l, most + [last], id, state)
  {
    var actions := most + [last];
    assert actions[..|most|] == most;
    if Reported(q, l, most, id, state) {
      var n :| 0 <= n < |most| && Reports(Run(q, l, most[..n]), l, most[n], id, state);
      assert actions[..n] == most[..n] && actions[n] == most[n];
    }
  }

  /** In every run: no job fails, times out or succeeds unless that was reported or its last attempt was spent. */
  lemma {:induction false} OutcomesHaveCauses(l: Limits, actions: seq<Action>, id: nat)
    requires Positive(l) && id < |Run(EMPTY, l, actions).jobs|
    ensures Explained(EMPTY, l, actions, id, Run(EMPTY, l, actions).jobs[id])
  {
    if actions != [] {
      var most, last := actions[..|actions|-1], actions[|actions|-1];
      assert actions == most + [last];
      var q, state := Run(EMPTY, l, most), Run(EMPTY, l, actions).jobs[id].state;
      RunsAreSafe(l, most);
      ReportedStays(EMPTY, l, most, last, id, state);
      PerformEvolves(q, l, last);
      if id < |q.jobs| {
        OutcomesHaveCauses(l, most, id);
        if Terminal(q.jobs[id].state) {
          assert Evolves(q.jobs[id], Perform(q, l, last).jobs[id], l, ClaimedBy(q, l, last) == Some(id));
        } else {
          RunningEnds(q, l, last, id);
        }
      } else {
        assert Appended(Perform(q, l, last).jobs[id]);
      }
    }
  }

  // --- how long a lease lasts -----------------------------------------------------------------------

  /** A claim starts an attempt: one more is spent, and the worker holds the job for exactly the lease time. */
  lemma ClaimStartsAttempt(q: Queue, l: Limits, worker: nat, locked: set<nat>)
    ensures var (after, claimed) := Claim(q, l, worker, locked);
            claimed.Some? ==>
              var i := claimed.value;
              && i < |q.jobs| && |after.jobs| == |q.jobs| && q.jobs[i].state.Queued?
              && after.jobs[i].state.Running? && after.jobs[i].worker == Some(worker)
              && after.jobs[i].attempts == q.jobs[i].attempts + 1
              && (forall t: nat :: LeaseLive(after.jobs[i], t) <==> t < q.now + l.lease)
              && (forall k :: 0 <= k < |q.jobs| && k != i ==> after.jobs[k] == q.jobs[k])
  {
  }

  /** Whatever others do, the worker that claimed a job can complete it for the whole lease time. */
  lemma ClaimedJobCanFinish(q: Queue, l: Limits, worker: nat, locked: set<nat>, actions: seq<Action>)
    requires Claim(q, l, worker, locked).1.Some?
    requires var id := Claim(q, l, worker, locked).1.value;
             forall a :: a in actions ==> !(a.DoComplete? && a.id == id && a.worker == worker)
    ensures var (after, claimed) := Claim(q, l, worker, locked);
            Run(after, l, actions).now < q.now + l.lease ==> Runs(Run(after, l, actions), claimed.value, worker)
  {
    var (after, claimed) := Claim(q, l, worker, locked);
    ClaimStartsAttempt(q, l, worker, locked);
    if Run(after, l, actions).now < q.now + l.lease {
      LeaseIsExclusive(after, l, actions, claimed.value, worker, q.now + l.lease);
    }
  }

  /** Renewing is for the worker that runs the job, and gives it the whole lease time again. */
  lemma RenewalExtends(q: Queue, l: Limits, id: nat, worker: nat)
    ensures RenewLease(q, l, id, worker).1 == if Runs(q, id, worker) then None else Some(LeaseLost)
    ensures !Runs(q, id, worker) ==> RenewLease(q, l, id, worker).0 == q
    ensures Runs(q, id, worker) ==>
              var k := RenewLease(q, l, id, worker).0.jobs[id];
              k == q.jobs[id].(lease := k.lease) && forall t: nat :: LeaseLive(k, t) <==> t < q.now + l.lease
  {
  }

  // --- admission ---------------------------------------------------------------------------------------

  /** A caller without the permission, or one who owns neither the key's job nor the project, is refused. */
  lemma AdmissionRefused(q: Queue, l: Limits, user: nat, inputs: string, key: string, priority: int, permitted: bool,
                         owned: bool)
    ensures var (after, r) := Enqueue(q, l, user, inputs, key, priority, permitted, owned);
            var known := exists i :: 0 <= i < |q.jobs| && q.jobs[i].user == user && q.jobs[i].key == Some(key);
            && (!permitted || (!owned && !known) ==> r == NotPermitted && after == q)
            && (r == NotPermitted ==> !permitted || !owned)
  {
  }

  /** A cancellation is accepted exactly of an unfinished job with no reason or one of 1 to 512 bytes. */
  lemma CancellationAcceptedExactly(q: Queue, id: nat, reason: Option<nat>)
    ensures var (after, problem) := RequestCancellation(q, id, reason);
            && (problem.Some? ==> after == q)
            && match problem {
              case None =>
                && (reason.Some? ==> 1 <= reason.value <= 512) && id < |q.jobs| && !Terminal(q.jobs[id].state)
                && |after.jobs| == |q.jobs| && after.jobs[id].cancelRequested
                && (q.jobs[id].state.Queued? <==> after.jobs[id].state.Cancelled?)
                && (!q.jobs[id].state.Queued? ==> after.jobs[id] == q.jobs[id].(cancelRequested := true))
                && (forall k :: 0 <= k < |q.jobs| && k != id ==> after.jobs[k] == q.jobs[k])
              case Some(BadReason) => reason.Some? && (reason.value == 0 || reason.value > 512)
              case Some(NotFound) => id >= |q.jobs|
              case Some(InvalidState(state)) => id < |q.jobs| && state == q.jobs[id].state && Terminal(state)
              case Some(_) => false
            }
  {
  }
}
