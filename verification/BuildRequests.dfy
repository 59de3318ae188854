/** What the scheduler builds is what was submitted, and what it reuses is the newest build there is. */
module BuildRequests {
  import opened Common
  import opened BuildQueue
  import opened QueueFacts
  import opened QueueLeases
  import opened SchedulerFacts

  const MANUAL_PRIORITY: int := 10

  /** The build and its job are those of the request: its workspace and state, its user, inputs and urgency. */
  predicate MadeFor(r: Request, b: Build, j: Job)
  {
    && b.workspace == r.workspace && b.hash == r.hash
    && j.user == r.user && j.inputs == r.inputs && j.key == None
    && (j.priority == MANUAL_PRIORITY <==> r.manual) && (j.priority == 0 <==> !r.manual)
  }

  ghost predicate Served(q: Queue, asked: set<Request>, i: nat)
    requires i in q.builds
  {
    i < |q.jobs| && exists r :: r in asked && MadeFor(r, q.builds[i], q.jobs[i])
  }

  /** Every build and every pending request comes from one of these. */
  ghost predicate OnlyServes(q: Queue, asked: set<Request>)
  {
    && (forall i :: i in q.builds ==> Served(q, asked, i))
    && (forall w :: w in q.schedulers && q.schedulers[w].pending.Some? ==> q.schedulers[w].pending.value in asked)
  }

  /** The requests that were submitted and not refused. */
  function Asked(actions: seq<Action>): set<Request>
  {
    if actions == [] then {}
    else Asked(actions[..|actions|-1]) + match actions[|actions|-1] {
      case DoSubmit(r, allowed) => if allowed then {r} else {}
      case _ => {}
    }
  }

  /** Builds may change status and jobs their state, as long as what they were made for stays. */
  lemma ChangedRowsServe(q: Queue, after: Queue, asked: set<Request>)
    requires OnlyServes(q, asked) && after.builds.Keys == q.builds.Keys && |q.jobs| <= |after.jobs|
    requires forall i :: i in q.builds ==>
               after.builds[i].workspace == q.builds[i].workspace && after.builds[i].hash == q.builds[i].hash
    requires forall i :: 0 <= i < |q.jobs| ==> SameRequest(q.jobs[i], after.jobs[i])
    requires forall w :: w in after.schedulers && after.schedulers[w].pending.Some? ==>
               after.schedulers[w].pending.value in asked
    ensures OnlyServes(after, asked)
  {
    forall i | i in after.builds ensures Served(after, asked, i) {
      assert Served(q, asked, i);
      var r :| r in asked && MadeFor(r, q.builds[i], q.jobs[i]);
      assert SameRequest(q.jobs[i], after.jobs[i]);
      assert MadeFor(r, after.builds[i], after.jobs[i]);
    }
  }

  lemma AddedBuildServes(q: Queue, r: Request, asked: set<Request>)
    requires OnlyServes(q, asked) && r in asked
    ensures OnlyServes(AddBuild(q, r), asked)
  {
    var after := AddBuild(q, r);
    forall i | i in after.builds ensures Served(after, asked, i) {
      if i == |q.jobs| {
        assert MadeFor(r, after.builds[i], after.jobs[i]);
      } else {
        assert Served(q, asked, i);
        var s :| s in asked && MadeFor(s, q.builds[i], q.jobs[i]);
        assert MadeFor(s, after.builds[i], after.jobs[i]);
      }
    }
  }

  lemma FinalizeServes(q: Queue, id: nat, succeeded: bool, asked: set<Request>)
    requires OnlyServes(q, asked)
    ensures OnlyServes(FinalizeBuild(q, id, succeeded), asked)
  {
    if id in q.builds {
      var s := SchedulerOf(q, q.builds[id].workspace);
      var marked := q.(builds := SetStatus(q.builds, id, if succeeded then Built else Broken));
      ChangedRowsServe(q, marked, asked);
      if s.pending.Some? { AddedBuildServes(marked, s.pending.value, asked); }
    }
  }

  lemma {:induction false} FailuresServe(q: Queue, order: seq<nat>, asked: set<Request>)
    requires OnlyServes(q, asked)
    ensures OnlyServes(FinalizeAll(q, order), asked)
  {
    if order != [] {
      FailuresServe(q, order[..|order|-1], asked);
      FinalizeServes(FinalizeAll(q, order[..|order|-1]), order[|order|-1], false, asked);
    }
  }

  lemma CompletionServes(q: Queue, l: Limits, id: nat, worker: nat, verdict: Verdict, asked: set<Request>)
    requires OnlyServes(q, asked)
    ensures OnlyServes(Complete(q, l, id, worker, verdict).0, asked)
  {
    if LeaseProblem(q, id, worker).None? {
      var told := WithJob(q, id, Settled(q.jobs[id], l, verdict));
      ChangedRowsServe(q, told, asked);
      ChangedRowsServe(q, WithJob(q, id, Finished(q.jobs[id], Cancelled)), asked);
      FinalizeServes(told, id, told.jobs[id].state.Succeeded?, asked);
    }
  }

  lemma SubmissionServes(q: Queue, r: Request, asked: set<Request>)
    requires OnlyServes(q, asked)
    ensures OnlyServes(SubmitAllowed(q, r).0, asked + {r})
  {
    MoreServe(q, asked, r);
    AddedBuildServes(q, r, asked + {r});
  }

  lemma MoreServe(q: Queue, asked: set<Request>, r: Request)
    requires OnlyServes(q, asked)
    ensures OnlyServes(q, asked + {r})
  {
    forall i | i in q.builds ensures Served(q, asked + {r}, i) {
      assert Served(q, asked, i);
      var s :| s in asked && MadeFor(s, q.builds[i], q.jobs[i]);
      assert s in asked + {r};
    }
  }

  lemma ClaimServes(q: Queue, l: Limits, worker: nat, locked: set<nat>, asked: set<Request>)
    requires OnlyServes(q, asked)
    ensures OnlyServes(Claim(q, l, worker, locked).0, asked)
  {
    ChangedRowsServe(q, Claim(q, l, worker, locked).0, asked);
  }

  lemma ChangedJobsServe(q: Queue, jobs: seq<Job>, asked: set<Request>)
    requires OnlyServes(q, asked) && |q.jobs| <= |jobs|
    requires forall i :: 0 <= i < |q.jobs| ==> SameRequest(q.jobs[i], jobs[i])
    ensures OnlyServes(q.(jobs := jobs), asked)
  {
    ChangedRowsServe(q, q.(jobs := jobs), asked);
  }

  lemma EnqueueServes(q: Queue, l: Limits, user: nat, inputs: string, key: string, priority: int, permitted: bool,
                      owned: bool, asked: set<Request>)
    requires OnlyServes(q, asked)
    ensures OnlyServes(Enqueue(q, l, user, inputs, key, priority, permitted, owned).0, asked)
  {
    ChangedJobsServe(q, q.jobs + [NewJob(user, inputs, Some(key), priority, q.now)], asked);
  }

  lemma RenewalServes(q: Queue, l: Limits, id: nat, worker: nat, asked: set<Request>)
    requires OnlyServes(q, asked)
    ensures OnlyServes(RenewLease(q, l, id, worker).0, asked)
  {
    if id < |q.jobs| {
      ChangedJobsServe(q, q.jobs[id := q.jobs[id].(lease := Some(q.now + l.lease))], asked);
    }
  }

  lemma CancellationServes(q: Queue, id: nat, reason: Option<nat>, asked: set<Request>)
    requires OnlyServes(q, asked)
    ensures OnlyServes(RequestCancellation(q, id, reason).0, asked)
  {
    if id < |q.jobs| {
      ChangedJobsServe(q, q.jobs[id := CancelledNow(q.jobs[id])], asked);
    }
  }

  lemma SchedulerStepServes(q: Queue, l: Limits, a: Action, asked: set<Request>)
    requires OnlyServes(q, asked) && (a.DoRestore? || a.DoEdit? || a.DoWait?)
    ensures OnlyServes(Perform(q, l, a), asked)
  {
    ChangedRowsServe(q, Perform(q, l, a), asked);
  }

  lemma PerformServes(q: Queue, l: Limits, a: Action, asked: set<Request>)
    requires OnlyServes(q, asked)
    ensures OnlyServes(Perform(q, l, a), asked + if a.DoSubmit? && a.allowed then {a.request} else {})
  {
    match a {
      case DoRecover(order) =>
        ChangedRowsServe(q, RecoverJobs(q, l), asked);
        FailuresServe(RecoverJobs(q, l), order, asked);
      case DoComplete(id, worker, verdict) => CompletionServes(q, l, id, worker, verdict, asked);
      case DoSubmit(r, allowed) => if allowed { SubmissionServes(q, r, asked); }
      case DoClaim(worker, locked) => ClaimServes(q, l, worker, locked, asked);
      case DoEnqueue(user, inputs, key, priority, permitted, owned) =>
        EnqueueServes(q, l, user, inputs, key, priority, permitted, owned, asked);
      case DoRenew(id, worker) => RenewalServes(q, l, id, worker, asked);
      case DoCancel(id, reason) => CancellationServes(q, id, reason, asked);
      case _ => SchedulerStepServes(q, l, a, asked);
    }
  }

  /**
   * In every run each build was submitted: its job compiles the inputs of a request for exactly its workspace and
   * state, for that user and at that priority, and so does whatever is still pending.
   */
  lemma {:induction false} BuildsRunTheirRequests(l: Limits, actions: seq<Action>)
    ensures OnlyServes(Run(EMPTY, l, actions), Asked(actions))
  {
    if actions != [] {
      var most, last := actions[..|actions|-1], actions[|actions|-1];
      BuildsRunTheirRequests(l, most);
      PerformServes(Run(EMPTY, l, most), l, last, Asked(most));
      assert Asked(actions) == Asked(most) + if last.DoSubmit? && last.allowed then {last.request} else {};
    }
  }

  // --- reuse -------------------------------------------------------------------------------

  predicate IsComplete(q: Queue, w: nat, hash: Hash, id: nat)
  {
    && id < |q.jobs| && id in q.builds && q.builds[id].workspace == w && q.builds[id].hash == hash
    && q.builds[id].status.Built? && q.jobs[id].deliverables
  }

  lemma {:induction false} ReusableIsNewest(q: Queue, w: nat, hash: Hash, n: nat)
    requires n <= |q.jobs|
    ensures match Reusable(q, w, hash, n) {
      case None => forall id :: 0 <= id < n ==> !IsComplete(q, w, hash, id)
      case Some(id) => id < n && IsComplete(q, w, hash, id) && forall k :: id < k < n ==> !IsComplete(q, w, hash, k)
    }
  {
    if n > 0 && !IsComplete(q, w, hash, n - 1) {
      ReusableIsNewest(q, w, hash, n - 1);
    }
  }

  /** One new job for the request, queued now, and its build waits. */
  predicate IsStarted(q: Queue, after: Queue, r: Request)
  {
    && |after.jobs| == |q.jobs| + 1 && after.jobs[..|q.jobs|] == q.jobs && |q.jobs| in after.builds
    && MadeFor(r, after.builds[|q.jobs|], after.jobs[|q.jobs|]) && after.builds[|q.jobs|].status == Waiting
    && Appended(after.jobs[|q.jobs|]) && after.jobs[|q.jobs|].created == q.now
    && SchedulerOf(after, r.workspace).active == Some(|q.jobs|)
  }

  /**
   * When a build ends it is marked, shown exactly if it succeeded and is still the desired one, and the pending request
   * is started, or nothing is active if there is none.
   */
  lemma EndActivatesPending(q: Queue, id: nat, succeeded: bool)
    requires id in q.builds && id < |q.jobs|
    requires var s := SchedulerOf(q, q.builds[id].workspace);
             s.pending.Some? ==> s.pending.value.workspace == q.builds[id].workspace
    ensures var after, w := FinalizeBuild(q, id, succeeded), q.builds[id].workspace;
            var s, t := SchedulerOf(q, w), SchedulerOf(after, w);
            && id in after.builds && after.builds[id] == q.builds[id].(status := if succeeded then Built else Broken)
            && t.current == (if succeeded && s.desired == Some(q.builds[id].hash) then Some(id) else s.current)
            && t.desired == s.desired && t.pending == None
            && (if s.pending.Some? then IsStarted(q, after, s.pending.value)
                else t.active == None && after.jobs == q.jobs)
  {
  }

  /**
   * A submission shows the newest complete build of its state at once, and starts or awaits a build exactly if there
   * is none; either way its state is the desired one.
   */
  lemma SubmissionAnswers(q: Queue, r: Request)
    ensures var (after, how) := SubmitAllowed(q, r);
            && SchedulerOf(after, r.workspace).desired == Some(r.hash)
            && (how.Reused? <==> exists id :: IsComplete(q, r.workspace, r.hash, id))
            && (how.Reused? ==> IsComplete(q, r.workspace, r.hash, how.id)
                                && (forall k :: k > how.id ==> !IsComplete(q, r.workspace, r.hash, k))
                                && SchedulerOf(after, r.workspace).current == Some(how.id) && after.jobs == q.jobs)
            && (!how.Reused? ==> SchedulerOf(after, r.workspace).current == SchedulerOf(q, r.workspace).current)
            && (how.Started? ==> how.id == |q.jobs| && IsStarted(q, after, r))
            && (!how.Started? ==> after.jobs == q.jobs && after.builds == q.builds)
  {
    ReusableIsNewest(q, r.workspace, r.hash, |q.jobs|);
  }

  // --- edits ---------------------------------------------------------------------------------

  /** No submission or restoration of the workspace. */
  predicate Asks(a: Action, w: nat)
  {
    (a.DoSubmit? && a.allowed && a.request.workspace == w) || (a.DoRestore? && a.workspace == w)
  }

  predicate SameShown(q: Queue, after: Queue, w: nat)
  {
    && SchedulerOf(after, w).desired == SchedulerOf(q, w).desired
    && SchedulerOf(after, w).current == SchedulerOf(q, w).current
  }

  lemma CompletionShowsNothing(q: Queue, l: Limits, id: nat, worker: nat, verdict: Verdict, w: nat)
    requires SchedulerOf(q, w).desired == None
    ensures SameShown(q, Complete(q, l, id, worker, verdict).0, w)
  {
  }

  lemma RecoveryShowsNothing(q: Queue, l: Limits, order: seq<nat>, w: nat)
    ensures SameShown(q, RecoverExpired(q, l, order), w)
  {
    FailuresKeepDesired(RecoverJobs(q, l), order, w);
    FailuresKeepCurrent(RecoverJobs(q, l), order, w);
  }

  lemma StaysUndesired(q: Queue, l: Limits, a: Action, w: nat)
    requires SchedulerOf(q, w).desired == None && !Asks(a, w)
    ensures SameShown(q, Perform(q, l, a), w)
  {
    match a {
      case DoRecover(order) => RecoveryShowsNothing(q, l, order, w);
      case DoComplete(id, worker, verdict) => CompletionShowsNothing(q, l, id, worker, verdict, w);
      case _ =>
    }
  }

  lemma {:induction false} FailuresKeepDesired(q: Queue, order: seq<nat>, w: nat)
    ensures SchedulerOf(FinalizeAll(q, order), w).desired == SchedulerOf(q, w).desired
  {
    if order != [] {
      FailuresKeepDesired(q, order[..|order|-1], w);
    }
  }

  /** After an edit the shown build stays, whatever finishes, until the workspace is submitted or restored. */
  lemma {:induction false} EditKeepsCurrent(q: Queue, l: Limits, w: nat, actions: seq<Action>)
    requires forall a :: a in actions ==> !Asks(a, w)
    ensures var after := Run(Perform(q, l, DoEdit(w)), l, actions);
            SchedulerOf(after, w).desired == None && SchedulerOf(after, w).current == SchedulerOf(q, w).current
  {
    if actions != [] {
      var most, last := actions[..|actions|-1], actions[|actions|-1];
      EditKeepsCurrent(q, l, w, most);
      var mid := Run(Perform(q, l, DoEdit(w)), l, most);
      StaysUndesired(mid, l, last, w);
    }
  }
}
