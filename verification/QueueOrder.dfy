/** Who is served next, and the caps, counted job by job. */
module QueueOrder {
  import opened Common
  import opened Counting
  import opened BuildQueue
  import opened QueueFacts
  import opened SchedulerFacts

  /** The jobs that occupy a worker. */
  ghost function Busy(q: Queue): set<int>
  {
    set k | 0 <= k < |q.jobs| && (q.jobs[k].state == Claimed || q.jobs[k].state == Running)
  }

  ghost function BusyFor(q: Queue, user: nat): set<int>
  {
    set k | 0 <= k < |q.jobs| && q.jobs[k].user == user && (q.jobs[k].state == Claimed || q.jobs[k].state == Running)
  }

  /** The user's jobs that are not finished. */
  ghost function OpenFor(q: Queue, user: nat): set<int>
  {
    set k | 0 <= k < |q.jobs| && q.jobs[k].user == user && q.jobs[k].state in {Queued, Claimed, Running}
  }

  lemma CountsAre(q: Queue, user: nat)
    ensures Count(q.jobs, Occupies) == |Busy(q)|
    ensures Count(q.jobs, OccupiesFor(user)) == |BusyFor(q, user)|
    ensures Count(q.jobs, OutstandingFor(user)) == |OpenFor(q, user)|
  {
    CountIsPositions(q.jobs, Occupies);
    CountIsPositions(q.jobs, OccupiesFor(user));
    CountIsPositions(q.jobs, OutstandingFor(user));
    assert Positions(q.jobs, Occupies) == Busy(q);
    assert Positions(q.jobs, OccupiesFor(user)) == BusyFor(q, user);
    assert Positions(q.jobs, OutstandingFor(user)) == OpenFor(q, user);
  }

  /** In every run no more jobs run than the caps allow, in all and for any user. */
  lemma RunsStayWithinCaps(l: Limits, actions: seq<Action>, user: nat)
    requires Positive(l)
    ensures var q := Run(EMPTY, l, actions);
            |Busy(q)| <= l.globalRunning && |BusyFor(q, user)| <= l.perUserRunning
  {
    RunsAreSafe(l, actions);
    CountsAre(Run(EMPTY, l, actions), user);
  }

  /** Queued, not skipped, and its user runs fewer jobs than allowed. */
  ghost predicate Waits(q: Queue, l: Limits, locked: set<nat>, i: nat)
  {
    i < |q.jobs| && q.jobs[i].state == Queued && i !in locked && |BusyFor(q, q.jobs[i].user)| < l.perUserRunning
  }

  /** The higher priority first, then the older job, then the smaller id. */
  predicate GoesFirst(q: Queue, i: nat, j: nat)
    requires i < |q.jobs| && j < |q.jobs|
  {
    var a, b := q.jobs[i], q.jobs[j];
    && a.priority >= b.priority
    && (a.priority == b.priority ==> a.created <= b.created)
    && (a.priority == b.priority && a.created == b.created ==> i < j)
  }

  lemma WaitsExactly(q: Queue, l: Limits, locked: set<nat>, i: nat)
    ensures Waits(q, l, locked, i) <==> i < |q.jobs| && Eligible(q, l, locked, i)
  {
    if i < |q.jobs| { CountsAre(q, q.jobs[i].user); }
  }

  /** A claim serves the first waiting job while a worker is free, and is empty only with none waiting or none free. */
  lemma ClaimServesFirst(q: Queue, l: Limits, worker: nat, locked: set<nat>)
    ensures match Claim(q, l, worker, locked).1 {
      case None => |Busy(q)| >= l.globalRunning || forall i: nat :: !Waits(q, l, locked, i)
      case Some(c) => |Busy(q)| < l.globalRunning && Waits(q, l, locked, c)
                      && forall i: nat :: Waits(q, l, locked, i) && i != c ==> GoesFirst(q, c, i)
    }
  {
    ClaimTakesFirst(q, l, worker, locked);
    CountsAre(q, 0);
    forall i: nat ensures Waits(q, l, locked, i) <==> i < |q.jobs| && Eligible(q, l, locked, i) {
      WaitsExactly(q, l, locked, i);
    }
  }

  /** A new key of a permitted owner is admitted exactly while its user has room, as it was asked for. */
  lemma AdmissionExactly(q: Queue, l: Limits, user: nat, inputs: string, key: string, priority: int)
    requires forall i :: 0 <= i < |q.jobs| ==> !(q.jobs[i].user == user && q.jobs[i].key == Some(key))
    ensures var (after, r) := Enqueue(q, l, user, inputs, key, priority, true, true);
            if |OpenFor(q, user)| < l.perUserOutstanding then
              && r == Admitted(|q.jobs|) && |after.jobs| == |q.jobs| + 1 && after.jobs[..|q.jobs|] == q.jobs
              && var j := after.jobs[|q.jobs|];
              && j.user == user && j.inputs == inputs && j.key == Some(key) && j.priority == priority
              && j.created == q.now && Appended(j)
            else r == TooManyOutstanding && after == q
  {
    CountsAre(q, user);
  }

  // --- what a build's status tells ------------------------------------------------------------

  /** An unfinished build waits exactly until its job is first claimed. */
  predicate StatusTells(q: Queue, i: nat)
    requires i in q.builds
  {
    i < |q.jobs| && (Unfinished(q.builds[i]) ==> (q.builds[i].status == Waiting <==> q.jobs[i].attempts == 0))
  }

  ghost predicate StatusesTell(q: Queue)
  {
    forall i :: i in q.builds ==> StatusTells(q, i)
  }

  lemma FinalizeTells(q: Queue, id: nat, succeeded: bool)
    requires StatusesTell(q)
    ensures StatusesTell(FinalizeBuild(q, id, succeeded))
  {
    var after := FinalizeBuild(q, id, succeeded);
    forall i | i in after.builds ensures StatusTells(after, i) {
      if i in q.builds { assert StatusTells(q, i); }
    }
  }

  lemma {:induction false} FailuresTell(q: Queue, order: seq<nat>)
    requires StatusesTell(q)
    ensures StatusesTell(FinalizeAll(q, order))
  {
    if order != [] {
      FailuresTell(q, order[..|order|-1]);
      FinalizeTells(FinalizeAll(q, order[..|order|-1]), order[|order|-1], false);
    }
  }

  lemma SameAttemptsTell(q: Queue, after: Queue)
    requires StatusesTell(q) && after.builds == q.builds && |q.jobs| <= |after.jobs|
    requires forall i :: 0 <= i < |q.jobs| ==> after.jobs[i].attempts == q.jobs[i].attempts
    ensures StatusesTell(after)
  {
    forall i | i in after.builds ensures StatusTells(after, i) {
      assert StatusTells(q, i);
    }
  }

  lemma CompletionTells(q: Queue, l: Limits, id: nat, worker: nat, verdict: Verdict)
    requires StatusesTell(q)
    ensures StatusesTell(Complete(q, l, id, worker, verdict).0)
  {
    if LeaseProblem(q, id, worker).None? {
      var told := WithJob(q, id, Settled(q.jobs[id], l, verdict));
      SameAttemptsTell(q, told);
      SameAttemptsTell(q, WithJob(q, id, Finished(q.jobs[id], Cancelled)));
      FinalizeTells(told, id, told.jobs[id].state.Succeeded?);
    }
  }

  lemma ClaimTells(q: Queue, l: Limits, worker: nat, locked: set<nat>)
    requires StatusesTell(q) && Consistent(q, {})
    ensures StatusesTell(Claim(q, l, worker, locked).0)
  {
    var (after, claimed) := Claim(q, l, worker, locked);
    forall i | i in after.builds ensures StatusTells(after, i) {
      assert StatusTells(q, i) && BuildOk(q, i, {});
    }
  }

  lemma SubmissionTells(q: Queue, r: Request)
    requires StatusesTell(q)
    ensures StatusesTell(SubmitAllowed(q, r).0)
  {
    var after := SubmitAllowed(q, r).0;
    forall i | i in after.builds ensures StatusTells(after, i) {
      if i in q.builds { assert StatusTells(q, i); }
    }
  }

  lemma PerformTells(q: Queue, l: Limits, a: Action)
    requires StatusesTell(q) && Consistent(q, {})
    ensures StatusesTell(Perform(q, l, a))
  {
    match a {
      case DoClaim(worker, locked) => ClaimTells(q, l, worker, locked);
      case DoRecover(order) =>
        SameAttemptsTell(q, RecoverJobs(q, l));
        FailuresTell(RecoverJobs(q, l), order);
      case DoComplete(id, worker, verdict) => CompletionTells(q, l, id, worker, verdict);
      case DoSubmit(r, allowed) => if allowed { SubmissionTells(q, r); }
      case _ => SameAttemptsTell(q, Perform(q, l, a));
    }
  }

  /** In every run an unfinished build says whether its job was ever claimed. */
  lemma {:induction false} RunsTell(l: Limits, actions: seq<Action>)
    ensures StatusesTell(Run(EMPTY, l, actions))
  {
    if actions != [] {
      RunsTell(l, actions[..|actions|-1]);
      RunsAreConsistent(l, actions[..|actions|-1]);
      PerformTells(Run(EMPTY, l, actions[..|actions|-1]), l, actions[|actions|-1]);
    }
  }
}
