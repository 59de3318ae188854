/** Safety, cancellation, bounded work and scheduling over every run of the compile queue. */
module QueueFacts {
  import opened Common
  import opened Counting
  import opened BuildQueue

  // --- how rows change -----------------------------------------------------------------

  /** A job holds a worker and a lease exactly while it runs, within its retry budget. */
  predicate JobOk(j: Job, l: Limits)
  {
    && !j.state.Claimed?
    && (j.worker.Some? <==> j.state.Running?) && (j.lease.Some? <==> j.state.Running?)
    && j.attempts <= l.maxAttempts
    && (j.state.Queued? ==> j.attempts < l.maxAttempts && !j.cancelRequested)
  }

  /** Twice the claims left, plus one while a claim is open. */
  function Weight(l: Limits): Job -> nat
  {
    (j: Job) =>
      if Terminal(j.state) || j.attempts > l.maxAttempts then 0
      else 2 * (l.maxAttempts - j.attempts) + if Occupies(j) then 1 else 0
  }

  /** One step of one existing row; only a claim spends an attempt and starts the row. */
  predicate Evolves(j: Job, k: Job, l: Limits, claimed: bool)
  {
    && (!claimed ==> k.attempts == j.attempts && (Occupies(k) ==> Occupies(j)))
    && k.user == j.user && k.inputs == j.inputs && k.key == j.key && k.priority == j.priority && k.created == j.created
    && (Terminal(j.state) ==> k == j)
    && (j.cancelRequested ==> k.cancelRequested)
    && (j.cancelRequested && JobOk(j, l) && !Terminal(j.state) ==> k.state.Running? || k.state.Cancelled?)
    && (JobOk(j, l) ==> JobOk(k, l) && Weight(l)(k) <= Weight(l)(j) &&
                        (k.state != j.state ==> Weight(l)(k) < Weight(l)(j)))
  }

  predicate Appended(j: Job)
  {
    j.state.Queued? && j.worker == None && j.lease == None && j.attempts == 0 && !j.cancelRequested
  }

  ghost predicate JobsEvolve(before: seq<Job>, after: seq<Job>, l: Limits, claimed: Option<nat>)
  {
    && |before| <= |after|
    && (forall i :: 0 <= i < |before| ==> Evolves(before[i], after[i], l, claimed == Some(i)))
    && (forall i :: |before| <= i < |after| ==> Appended(after[i]))
  }

  function ClaimedBy(q: Queue, l: Limits, a: Action): Option<nat>
  {
    if a.DoClaim? then Claim(q, l, a.worker, a.locked).1 else None
  }

  lemma SelfEvolves(j: Job, l: Limits)
    ensures Evolves(j, j, l, false)
  {
  }

  lemma RecoveredEvolves(j: Job, l: Limits, now: nat)
    ensures Evolves(j, Recovered(j, l, now), l, false)
  {
  }

  lemma FinalizeEvolves(q: Queue, id: nat, succeeded: bool, l: Limits)
    ensures JobsEvolve(q.jobs, FinalizeBuild(q, id, succeeded).jobs, l, None)
    ensures |FinalizeBuild(q, id, succeeded).jobs| <= |q.jobs| + 1
    ensures FinalizeBuild(q, id, succeeded).jobs[..|q.jobs|] == q.jobs
  {
    forall i | 0 <= i < |q.jobs| ensures Evolves(q.jobs[i], q.jobs[i], l, false) {
      SelfEvolves(q.jobs[i], l);
    }
  }

  lemma {:induction false} FinalizeAllEvolves(q: Queue, order: seq<nat>, l: Limits)
    ensures var jobs := FinalizeAll(q, order).jobs;
            |q.jobs| <= |jobs| && jobs[..|q.jobs|] == q.jobs && forall i :: |q.jobs| <= i < |jobs| ==> Appended(jobs[i])
  {
    if order != [] {
      FinalizeAllEvolves(q, order[..|order|-1], l);
      var u := FinalizeAll(q, order[..|order|-1]);
      FinalizeEvolves(u, order[|order|-1], false, l);
      var jobs := FinalizeAll(q, order).jobs;
      assert jobs[..|q.jobs|] == jobs[..|u.jobs|][..|q.jobs|];
    }
  }

  lemma SettledEvolves(j: Job, l: Limits, verdict: Verdict)
    requires j.state.Running? && !j.cancelRequested
    ensures Evolves(j, Settled(j, l, verdict), l, false)
  {
  }

  lemma AllEvolve(jobs: seq<Job>, l: Limits)
    ensures forall i :: 0 <= i < |jobs| ==> Evolves(jobs[i], jobs[i], l, false) && Evolves(jobs[i], jobs[i], l, true)
  {
  }

  lemma OneRowEvolves(jobs: seq<Job>, k: nat, j: Job, l: Limits, claimed: bool)
    requires k < |jobs| && Evolves(jobs[k], j, l, claimed)
    ensures JobsEvolve(jobs, jobs[k := j], l, if claimed then Some(k) else None)
  {
    AllEvolve(jobs, l);
  }

  lemma FinalizeAfterEvolves(before: seq<Job>, q: Queue, id: nat, succeeded: bool, l: Limits)
    requires JobsEvolve(before, q.jobs, l, None) && |before| == |q.jobs|
    ensures JobsEvolve(before, FinalizeBuild(q, id, succeeded).jobs, l, None)
  {
    FinalizeEvolves(q, id, succeeded, l);
    var after := FinalizeBuild(q, id, succeeded).jobs;
    assert forall i :: 0 <= i < |before| ==> after[i] == after[..|q.jobs|][i];
  }

  lemma CompleteEvolves(q: Queue, l: Limits, id: nat, worker: nat, verdict: Verdict)
    ensures JobsEvolve(q.jobs, Complete(q, l, id, worker, verdict).0.jobs, l, None)
  {
    AllEvolve(q.jobs, l);
    if LeaseProblem(q, id, worker).None? {
      if q.jobs[id].cancelRequested {
        OneRowEvolves(q.jobs, id, Finished(q.jobs[id], Cancelled), l, false);
      } else {
        SettledEvolves(q.jobs[id], l, verdict);
        var told := WithJob(q, id, Settled(q.jobs[id], l, verdict));
        OneRowEvolves(q.jobs, id, told.jobs[id], l, false);
        FinalizeAfterEvolves(q.jobs, told, id, told.jobs[id].state.Succeeded?, l);
      }
    }
  }

  lemma ClaimEvolves(q: Queue, l: Limits, worker: nat, locked: set<nat>)
    ensures JobsEvolve(q.jobs, Claim(q, l, worker, locked).0.jobs, l, Claim(q, l, worker, locked).1)
  {
    var (after, claimed) := Claim(q, l, worker, locked);
    if claimed.Some? {
      OneRowEvolves(q.jobs, claimed.value, after.jobs[claimed.value], l, true);
    } else {
      AllEvolve(q.jobs, l);
    }
  }

  lemma RecoverEvolves(q: Queue, l: Limits, order: seq<nat>)
    ensures JobsEvolve(q.jobs, RecoverExpired(q, l, order).jobs, l, None)
  {
    var mid := RecoverJobs(q, l);
    FinalizeAllEvolves(mid, order, l);
    var after := RecoverExpired(q, l, order);
    forall i | 0 <= i < |q.jobs| ensures Evolves(q.jobs[i], after.jobs[i], l, false) {
      assert after.jobs[i] == after.jobs[..|mid.jobs|][i] == mid.jobs[i];
      RecoveredEvolves(q.jobs[i], l, q.now);
    }
  }

  lemma PerformEvolves(q: Queue, l: Limits, a: Action)
    requires Positive(l)
    ensures JobsEvolve(q.jobs, Perform(q, l, a).jobs, l, ClaimedBy(q, l, a))
  {
    AllEvolve(q.jobs, l);
    match a {
      case DoClaim(worker, locked) => ClaimEvolves(q, l, worker, locked);
      case DoComplete(id, worker, verdict) => CompleteEvolves(q, l, id, worker, verdict);
      case DoRecover(order) => RecoverEvolves(q, l, order);
      case DoRenew(id, worker) =>
        if RenewLease(q, l, id, worker).1.None? {
          OneRowEvolves(q.jobs, id, RenewLease(q, l, id, worker).0.jobs[id], l, false);
        }
      case DoCancel(id, reason) =>
        if RequestCancellation(q, id, reason).1.None? {
          OneRowEvolves(q.jobs, id, CancelledNow(q.jobs[id]), l, false);
        }
      case _ =>
    }
  }

  // --- queue safety -------------------------------------------------------------------------

  ghost predicate WithinCaps(q: Queue, l: Limits)
  {
    && Count(q.jobs, Occupies) <= l.globalRunning
    && (forall user: nat :: Count(q.jobs, OccupiesFor(user)) <= l.perUserRunning)
  }

  ghost predicate SafeQueue(q: Queue, l: Limits)
  {
    (forall i :: 0 <= i < |q.jobs| ==> JobOk(q.jobs[i], l)) && WithinCaps(q, l)
  }

  lemma {:induction false} AppendedDoNotCount(jobs: seq<Job>, n: nat, p: Job -> bool)
    requires n <= |jobs| && forall i :: n <= i < |jobs| ==> !p(jobs[i])
    ensures Count(jobs, p) == Count(jobs[..n], p)
  {
    if n < |jobs| {
      AppendedDoNotCount(jobs[..|jobs|-1], n, p);
      assert jobs[..|jobs|-1][..n] == jobs[..n];
    } else {
      assert jobs[..n] == jobs;
    }
  }

  lemma QuietStepKeepsCount(before: seq<Job>, after: seq<Job>, l: Limits, p: Job -> bool)
    requires JobsEvolve(before, after, l, None)
    requires forall j :: p(j) ==> Occupies(j)
    requires forall j, k :: Evolves(j, k, l, false) && Occupies(j) && p(k) ==> p(j)
    ensures Count(after, p) <= Count(before, p)
  {
    AppendedDoNotCount(after, |before|, p);
    var kept := after[..|before|];
    forall i | 0 <= i < |before| && p(kept[i]) ensures p(before[i]) {
      assert Evolves(before[i], after[i], l, false);
    }
    CountShrinks(before, kept, p);
  }

  lemma ClaimKeepsCaps(q: Queue, l: Limits, worker: nat, locked: set<nat>)
    requires WithinCaps(q, l)
    ensures WithinCaps(Claim(q, l, worker, locked).0, l)
  {
    var (after, claimed) := Claim(q, l, worker, locked);
    if claimed.Some? {
      var i := claimed.value;
      CountUpdate(q.jobs, i, after.jobs[i], Occupies);
      forall user: nat ensures Count(after.jobs, OccupiesFor(user)) <= l.perUserRunning {
        CountUpdate(q.jobs, i, after.jobs[i], OccupiesFor(user));
      }
    }
  }

  lemma PerformSafe(q: Queue, l: Limits, a: Action)
    requires Positive(l) && SafeQueue(q, l)
    ensures SafeQueue(Perform(q, l, a), l)
  {
    PerformEvolves(q, l, a);
    var after := Perform(q, l, a);
    forall i | 0 <= i < |after.jobs| ensures JobOk(after.jobs[i], l) {
      if i < |q.jobs| {
        assert Evolves(q.jobs[i], after.jobs[i], l, ClaimedBy(q, l, a) == Some(i));
      } else {
        assert Appended(after.jobs[i]);
      }
    }
    if a.DoClaim? {
      ClaimKeepsCaps(q, l, a.worker, a.locked);
    } else {
      QuietStepKeepsCount(q.jobs, after.jobs, l, Occupies);
      forall user: nat ensures Count(after.jobs, OccupiesFor(user)) <= l.perUserRunning {
        QuietStepKeepsCount(q.jobs, after.jobs, l, OccupiesFor(user));
      }
    }
  }

  /** In every reachable state: caps hold, retry budgets hold, and exactly the running jobs hold leases. */
  lemma {:induction false} RunsAreSafe(l: Limits, actions: seq<Action>)
    requires Positive(l)
    ensures SafeQueue(Run(EMPTY, l, actions), l)
  {
    if actions != [] {
      RunsAreSafe(l, actions[..|actions|-1]);
      PerformSafe(Run(EMPTY, l, actions[..|actions|-1]), l, actions[|actions|-1]);
    }
  }

  lemma {:induction false} CandidateIsFirst(q: Queue, l: Limits, locked: set<nat>, n: nat)
    requires n <= |q.jobs|
    ensures Candidate(q, l, locked, n).None? ==> forall i :: 0 <= i < n ==> !Eligible(q, l, locked, i)
    ensures Candidate(q, l, locked, n).Some? ==>
              forall i :: 0 <= i < n && Eligible(q, l, locked, i) && i != Candidate(q, l, locked, n).value
                ==> Before(q, Candidate(q, l, locked, n).value, i)
  {
    if n > 0 {
      CandidateIsFirst(q, l, locked, n - 1);
    }
  }

  /**
   * A claim takes the first eligible unlocked row in queue order, and comes back empty only at the cap or with none.
   */
  lemma ClaimTakesFirst(q: Queue, l: Limits, worker: nat, locked: set<nat>)
    ensures var (after, claimed) := Claim(q, l, worker, locked);
            if claimed.None? then
              after == q && (Count(q.jobs, Occupies) >= l.globalRunning
                             || forall i :: 0 <= i < |q.jobs| ==> !Eligible(q, l, locked, i))
            else
              claimed.value < |q.jobs| && Eligible(q, l, locked, claimed.value)
              && forall i :: 0 <= i < |q.jobs| && Eligible(q, l, locked, i) && i != claimed.value
                  ==> Before(q, claimed.value, i)
  {
    CandidateIsFirst(q, l, locked, |q.jobs|);
  }

  // --- cancellation and terminal states ---------------------------------------------------------

  /**
   * From any safe state, a finished job never changes again, and an accepted cancellation can only end in Cancelled.
   */
  lemma {:induction false} CancellationIsFinal(q: Queue, l: Limits, actions: seq<Action>, id: nat)
    requires Positive(l) && SafeQueue(q, l) && id < |q.jobs|
    ensures SafeQueue(Run(q, l, actions), l) && id < |Run(q, l, actions).jobs|
    ensures Terminal(q.jobs[id].state) ==> Run(q, l, actions).jobs[id] == q.jobs[id]
    ensures q.jobs[id].cancelRequested && !Terminal(q.jobs[id].state) ==>
              var j := Run(q, l, actions).jobs[id];
              j.cancelRequested && (j.state.Running? || j.state.Cancelled?)
  {
    if actions != [] {
      var most := actions[..|actions|-1];
      CancellationIsFinal(q, l, most, id);
      var mid := Run(q, l, most);
      PerformEvolves(mid, l, actions[|actions|-1]);
      PerformSafe(mid, l, actions[|actions|-1]);
      assert Evolves(mid.jobs[id], Run(q, l, actions).jobs[id], l, ClaimedBy(mid, l, actions[|actions|-1]) == Some(id));
    }
  }

  lemma AcceptedCancellationIsRecorded(q: Queue, l: Limits, actions: seq<Action>, id: nat, reason: Option<nat>)
    requires Positive(l) && SafeQueue(q, l) && RequestCancellation(q, id, reason).1.None?
    ensures var j := Run(RequestCancellation(q, id, reason).0, l, actions).jobs;
            id < |j| && (Terminal(j[id].state) ==> j[id].state.Cancelled?)
  {
    var after := RequestCancellation(q, id, reason).0;
    PerformSafe(q, l, DoCancel(id, reason));
    CancellationIsFinal(after, l, actions, id);
  }
}
