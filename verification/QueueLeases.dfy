/** What clients and workers of the queue may rely on: idempotent admission and exclusive leases. */
module QueueLeases {
  import opened Common
  import opened Counting
  import opened BuildQueue
  import opened QueueFacts

  // --- admission ------------------------------------------------------------------------

  predicate SameRequest(j: Job, k: Job)
  {
    k.user == j.user && k.inputs == j.inputs && k.key == j.key && k.priority == j.priority && k.created == j.created
  }

  lemma {:induction false} RunKeepsRequests(q: Queue, l: Limits, actions: seq<Action>)
    requires Positive(l)
    ensures |q.jobs| <= |Run(q, l, actions).jobs|
    ensures forall i :: 0 <= i < |q.jobs| ==> SameRequest(q.jobs[i], Run(q, l, actions).jobs[i])
  {
    if actions != [] {
      var most, last := actions[..|actions|-1], actions[|actions|-1];
      RunKeepsRequests(q, l, most);
      var mid, after := Run(q, l, most), Run(q, l, actions);
      PerformEvolves(mid, l, last);
      forall i | 0 <= i < |q.jobs| ensures SameRequest(q.jobs[i], after.jobs[i]) {
        assert Evolves(mid.jobs[i], after.jobs[i], l, ClaimedBy(mid, l, last) == Some(i));
      }
    }
  }

  lemma FindIs(jobs: seq<Job>, user: nat, key: string, k: nat)
    requires k < |jobs| && jobs[k].user == user && jobs[k].key == Some(key)
    requires forall i :: 0 <= i < k ==> !(jobs[i].user == user && jobs[i].key == Some(key))
    ensures Find(jobs, user, key) == k
  {
  }

  /**
   * Once a key is admitted, however the queue goes on, a caller still permitted to submit gets the same job for the
   * same inputs and a conflict for others; one no longer permitted is refused. Nothing changes in any of the cases.
   */
  lemma AdmissionIsIdempotent(q: Queue, l: Limits, user: nat, inputs: string, key: string, priority: int,
                              permitted: bool, owned: bool, actions: seq<Action>,
                              again: string, priority': int, permitted': bool, owned': bool)
    requires Positive(l) && Enqueue(q, l, user, inputs, key, priority, permitted, owned).1.Admitted?
    ensures var (first, admitted) := Enqueue(q, l, user, inputs, key, priority, permitted, owned);
            var later := Run(first, l, actions);
            Enqueue(later, l, user, again, key, priority', permitted', owned')
            == (later, if !permitted' then NotPermitted else if again == inputs then admitted else IdempotencyConflict)
  {
    var (first, admitted) := Enqueue(q, l, user, inputs, key, priority, permitted, owned);
    var later := Run(first, l, actions);
    RunKeepsRequests(first, l, actions);
    forall i | 0 <= i < admitted.id ensures !(later.jobs[i].user == user && later.jobs[i].key == Some(key)) {
      assert SameRequest(first.jobs[i], later.jobs[i]);
    }
    assert SameRequest(first.jobs[admitted.id], later.jobs[admitted.id]);
    FindIs(later.jobs, user, key, admitted.id);
  }

  /** An enqueue that adds a job leaves its user within the outstanding cap, and nobody else's count changes. */
  lemma AdmissionRespectsCap(q: Queue, l: Limits, user: nat, inputs: string, key: string, priority: int,
                              permitted: bool, owned: bool, other: nat)
    ensures var after := Enqueue(q, l, user, inputs, key, priority, permitted, owned).0;
            && (after != q ==> Count(after.jobs, OutstandingFor(user)) <= l.perUserOutstanding)
            && (other != user ==> Count(after.jobs, OutstandingFor(other)) == Count(q.jobs, OutstandingFor(other)))
  {
    var after := Enqueue(q, l, user, inputs, key, priority, permitted, owned).0;
    var j := NewJob(user, inputs, Some(key), priority, q.now);
    CountPush(q.jobs, j, OutstandingFor(user));
    CountPush(q.jobs, j, OutstandingFor(other));
  }

  // --- leases -------------------------------------------------------------------------------

  lemma {:induction false} FinalizeAllKeepsClock(q: Queue, order: seq<nat>)
    ensures FinalizeAll(q, order).now == q.now
  {
    if order != [] {
      FinalizeAllKeepsClock(q, order[..|order|-1]);
    }
  }

  lemma PerformKeepsClock(q: Queue, l: Limits, a: Action)
    ensures Perform(q, l, a).now >= q.now
  {
    if a.DoRecover? {
      FinalizeAllKeepsClock(RecoverJobs(q, l), a.order);
    }
  }

  predicate HeldBy(j: Job, worker: nat, until: nat)
  {
    j.state.Running? && j.worker == Some(worker) && j.lease.Some? && j.lease.value >= until
  }

  lemma RecoveryKeepsHeld(q: Queue, l: Limits, order: seq<nat>, id: nat, worker: nat, until: nat)
    requires id < |q.jobs| && HeldBy(q.jobs[id], worker, until) && q.now < until
    ensures id < |RecoverExpired(q, l, order).jobs| && HeldBy(RecoverExpired(q, l, order).jobs[id], worker, until)
  {
    var mid := RecoverJobs(q, l);
    FinalizeAllEvolves(mid, order, l);
    assert RecoverExpired(q, l, order).jobs[id] == RecoverExpired(q, l, order).jobs[..|mid.jobs|][id];
  }

  lemma CompletionKeepsHeld(q: Queue, l: Limits, other: nat, w: nat, verdict: Verdict, id: nat, worker: nat, until: nat)
    requires id < |q.jobs| && HeldBy(q.jobs[id], worker, until) && !(other == id && w == worker)
    ensures id < |Complete(q, l, other, w, verdict).0.jobs|
            && HeldBy(Complete(q, l, other, w, verdict).0.jobs[id], worker, until)
  {
    if LeaseProblem(q, other, w).None? && !q.jobs[other].cancelRequested {
      var told := WithJob(q, other, Settled(q.jobs[other], l, verdict));
      FinalizeEvolves(told, other, told.jobs[other].state.Succeeded?, l);
      var after := FinalizeBuild(told, other, told.jobs[other].state.Succeeded?).jobs;
      assert after[id] == after[..|told.jobs|][id];
    }
  }

  lemma PerformKeepsHeld(q: Queue, l: Limits, a: Action, id: nat, worker: nat, until: nat)
    requires id < |q.jobs| && HeldBy(q.jobs[id], worker, until) && q.now < until <= q.now + l.lease
    requires !(a.DoComplete? && a.id == id && a.worker == worker)
    ensures id < |Perform(q, l, a).jobs| && HeldBy(Perform(q, l, a).jobs[id], worker, until)
  {
    match a {
      case DoRecover(order) => RecoveryKeepsHeld(q, l, order, id, worker, until);
      case DoComplete(other, w, verdict) => CompletionKeepsHeld(q, l, other, w, verdict, id, worker, until);
      case _ =>
    }
  }

  /**
   * Until its lease runs out a running job stays with its worker: whatever else happens, no one else can claim,
   * requeue, finish or cancel it away, and only that worker's own completion ends it.
   */
  lemma {:induction false} LeaseIsExclusive(q: Queue, l: Limits, actions: seq<Action>, id: nat, worker: nat, until: nat)
    requires id < |q.jobs| && HeldBy(q.jobs[id], worker, until) && until <= q.now + l.lease
    requires Run(q, l, actions).now < until
    requires forall a :: a in actions ==> !(a.DoComplete? && a.id == id && a.worker == worker)
    ensures id < |Run(q, l, actions).jobs| && HeldBy(Run(q, l, actions).jobs[id], worker, until)
    ensures q.now <= Run(q, l, actions).now
  {
    if actions != [] {
      var most, last := actions[..|actions|-1], actions[|actions|-1];
      var mid := Run(q, l, most);
      PerformKeepsClock(mid, l, last);
      LeaseIsExclusive(q, l, most, id, worker, until);
      PerformKeepsHeld(mid, l, last, id, worker, until);
    }
  }
}
