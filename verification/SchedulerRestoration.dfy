/** What becomes of a restored workspace that nobody submits, edits or restores again. */
module SchedulerRestoration {
  import opened Common
  import opened BuildQueue
  import opened SchedulerFacts

  predicate Leaves(a: Action, w: nat)
  {
    match a
    case DoSubmit(r, allowed) => !allowed || r.workspace != w
    case DoRestore(v, _) => v != w
    case DoEdit(v) => v != w
    case _ => true
  }

  /** The workspace shows a build of this state. */
  predicate Shows(q: Queue, w: nat, hash: Hash)
  {
    var c := SchedulerOf(q, w).current;
    c.Some? && c.value in q.builds && q.builds[c.value].hash == hash
  }

  /** A build of this state is still queued or running, whoever started it. */
  ghost predicate UnderWay(q: Queue, w: nat, hash: Hash)
  {
    exists i :: i in q.builds && q.builds[i].workspace == w && q.builds[i].hash == hash && Unfinished(q.builds[i])
  }

  // --- a state that will arrive ----------------------------------------------------------------

  lemma {:induction false} HeldThroughout(q: Queue, l: Limits, actions: seq<Action>, w: nat, off: set<nat>)
    requires Consistent(q, {}) && Tracks(q, off) && w !in off && forall a :: a in actions ==> Leaves(a, w)
    ensures Consistent(Run(q, l, actions), {})
    ensures exists o: set<nat> :: w !in o && Tracks(Run(q, l, actions), o)
  {
    if actions == [] {
      assert Tracks(Run(q, l, actions), off);
    } else {
      var most, last := actions[..|actions|-1], actions[|actions|-1];
      HeldThroughout(q, l, most, w, off);
      var o :| w !in o && Tracks(Run(q, l, most), o);
      PerformConsistent(Run(q, l, most), l, last, o);
      assert Leaves(last, w) && w !in AfterAction(o, last);
    }
  }

  lemma SucceededIsUpToDate(q: Queue, w: nat, off: set<nat>)
    requires Consistent(q, {}) && Tracks(q, off) && w !in off && AllSucceeded(q, w)
    ensures UpToDate(q, w)
  {
    assert ActiveOpen(q, w) && Held(q, w);
    if w in q.schedulers { assert SchedulerOk(q, w); }
    forall i | i in q.builds ensures StatusMatches(q.builds[i], q.jobs[i]) {
      assert BuildOk(q, i, {});
    }
  }

  // --- a state that will not ----------------------------------------------------------------------

  /** The desired state is neither shown nor on its way. */
  ghost predicate Adrift(q: Queue, w: nat, hash: Hash)
  {
    && SchedulerOf(q, w).desired == Some(hash)
    && SchedulerOf(q, w).active == None && SchedulerOf(q, w).pending == None
    && !Shows(q, w, hash) && !UnderWay(q, w, hash)
  }

  lemma FinalizeKeepsAdrift(q: Queue, open: set<nat>, id: nat, succeeded: bool, w: nat, hash: Hash)
    requires Consistent(q, open) && Adrift(q, w, hash)
    requires id in q.builds ==> Unfinished(q.builds[id])
    ensures Adrift(FinalizeBuild(q, id, succeeded), w, hash)
  {
    if id in q.builds {
      BuildsHaveJobs(q, open);
      var after, v := FinalizeBuild(q, id, succeeded), q.builds[id].workspace;
      if v in q.schedulers { assert SchedulerOk(q, v); }
      assert v == w ==> q.builds[id].hash != hash;
      forall i | i in after.builds && after.builds[i].workspace == w && after.builds[i].hash == hash
        ensures !Unfinished(after.builds[i])
      {
        assert i in q.builds;
      }
    }
  }

  lemma {:induction false} FailuresKeepAdrift(q: Queue, open: set<nat>, order: seq<nat>, w: nat, hash: Hash)
    requires Consistent(q, open) && Adrift(q, w, hash) && AllFailed(q, open, order)
    ensures Adrift(FinalizeAll(q, order), w, hash)
  {
    if order != [] {
      var most, last := order[..|order|-1], order[|order|-1];
      AllFailedShrinks(q, open, order, most);
      FailuresKeepAdrift(q, open, most, w, hash);
      FinalizeAllConsistent(q, open, most, {});
      var u, rest := FinalizeAll(q, most), open - (set i | i in most);
      if last in u.builds { assert BuildOk(u, last, rest); }
      FinalizeKeepsAdrift(u, rest, last, false, w, hash);
    }
  }

  lemma RecoveryKeepsAdrift(q: Queue, l: Limits, order: seq<nat>, w: nat, hash: Hash)
    requires Consistent(q, {}) && Adrift(q, w, hash) && Enumerates(order, Untold(RecoverJobs(q, l)))
    ensures Adrift(RecoverExpired(q, l, order), w, hash)
  {
    var mid := RecoverJobs(q, l);
    RecoveredConsistent(q, l);
    assert Adrift(mid, w, hash);
    FailuresKeepAdrift(mid, Untold(mid), order, w, hash);
  }

  lemma CompletionKeepsAdrift(q: Queue, l: Limits, id: nat, worker: nat, verdict: Verdict, w: nat, hash: Hash)
    requires Consistent(q, {}) && Adrift(q, w, hash)
    ensures Adrift(Complete(q, l, id, worker, verdict).0, w, hash)
  {
    if LeaseProblem(q, id, worker).None? {
      if id in q.builds { assert BuildOk(q, id, {}); }
      var told := WithJob(q, id, Settled(q.jobs[id], l, verdict));
      if !q.jobs[id].cancelRequested && Terminal(told.jobs[id].state) {
        ToldConsistent(q, l, id, worker, verdict);
        assert Adrift(told, w, hash);
        FinalizeKeepsAdrift(told, {id}, id, told.jobs[id].state.Succeeded?, w, hash);
      }
    }
  }

  lemma ClaimKeepsAdrift(q: Queue, l: Limits, worker: nat, locked: set<nat>, w: nat, hash: Hash)
    requires Consistent(q, {}) && Adrift(q, w, hash)
    ensures Adrift(Claim(q, l, worker, locked).0, w, hash)
  {
    var (after, claimed) := Claim(q, l, worker, locked);
    forall i | i in after.builds && after.builds[i].workspace == w && after.builds[i].hash == hash
      ensures !Unfinished(after.builds[i])
    {
      assert BuildOk(q, i, {});
    }
  }

  lemma PerformKeepsAdrift(q: Queue, l: Limits, a: Action, w: nat, hash: Hash)
    requires Consistent(q, {}) && Adrift(q, w, hash) && Leaves(a, w)
    ensures Adrift(Perform(q, l, a), w, hash)
  {
    BuildsHaveJobs(q, {});
    match a {
      case DoClaim(worker, locked) => ClaimKeepsAdrift(q, l, worker, locked, w, hash);
      case DoRecover(order) =>
        if Enumerates(order, Untold(RecoverJobs(q, l))) { RecoveryKeepsAdrift(q, l, order, w, hash); }
      case DoComplete(id, worker, verdict) => CompletionKeepsAdrift(q, l, id, worker, verdict, w, hash);
      case _ =>
    }
  }

  lemma {:induction false} AdriftThroughout(q: Queue, l: Limits, actions: seq<Action>, w: nat, hash: Hash)
    requires Consistent(q, {}) && Adrift(q, w, hash) && forall a :: a in actions ==> Leaves(a, w)
    ensures Consistent(Run(q, l, actions), {}) && Adrift(Run(q, l, actions), w, hash)
  {
    if actions != [] {
      var most, last := actions[..|actions|-1], actions[|actions|-1];
      AdriftThroughout(q, l, most, w, hash);
      PerformConsistent(Run(q, l, most), l, last, {});
      PerformKeepsAdrift(Run(q, l, most), l, last, w, hash);
    }
  }

  // --- the restoration decides ------------------------------------------------------------------------

  lemma RestoredConsistent(q: Queue, w: nat, hash: Hash, off: set<nat>)
    requires Consistent(q, {}) && Tracks(q, off) && w in q.schedulers
    ensures Consistent(Restore(q, w, hash), {})
    ensures Shows(q, w, hash) || UnderWay(q, w, hash) ==> Tracks(Restore(q, w, hash), off - {w})
  {
    assert SchedulerOk(q, w);
    SchedulerChangeConsistent(q, w, Scheduler(Some(hash), None, q.schedulers[w].current, None), off);
    if UnderWay(q, w, hash) {
      assert HeldByBuild(Restore(q, w, hash), w, hash);
    }
  }

  /**
   * In every run: after a restoration, as long as nobody submits, edits or restores the workspace again, once all its
   * builds have succeeded it is up to date if and only if, at the restoration, the restored state was the one shown
   * or a build of it was under way.
   */
  lemma RestoredConverges(l: Limits, before: seq<Action>, w: nat, hash: Hash, later: seq<Action>)
    requires w in Run(EMPTY, l, before).schedulers && forall a :: a in later ==> Leaves(a, w)
    ensures var q := Run(EMPTY, l, before);
            var last := Run(Restore(q, w, hash), l, later);
            AllSucceeded(last, w) ==> (UpToDate(last, w) <==> Shows(q, w, hash) || UnderWay(q, w, hash))
  {
    var q := Run(EMPTY, l, before);
    var r, off := Restore(q, w, hash), Restored(before);
    var last := Run(r, l, later);
    RunsAreConsistent(l, before);
    RunsTrack(l, before);
    RestoredConsistent(q, w, hash, off);
    if Shows(q, w, hash) || UnderWay(q, w, hash) {
      HeldThroughout(r, l, later, w, off - {w});
      var o :| w !in o && Tracks(last, o);
      if AllSucceeded(last, w) { SucceededIsUpToDate(last, w, o); }
    } else {
      AdriftThroughout(r, l, later, w, hash);
    }
  }

  // --- a concrete case ----------------------------------------------------------------------------------

  const FIRST: Request := Request(0, "a", 0, "", false)

  /** Submit, claim and complete a build, then restore another state. */
  const RESTORED_RUN: seq<Action> :=
    [DoSubmit(FIRST, true), DoClaim(0, {}), DoComplete(0, 0, Success(true)), DoRestore(0, "b")]

  function Once(job: Job, status: BuildStatus, s: Scheduler): Queue
  {
    Queue([job], map[0 := Build(0, "a", status)], map[0 := s], 0)
  }

  lemma SubmitsOnce()
    ensures SubmitBuild(EMPTY, FIRST, true).0 == Once(NewJob(0, "", None, 0, 0), Waiting, Scheduler(Some("a"),
            Some(0), None, None))
  {
  }

  lemma ClaimsOnce(q: Queue, l: Limits)
    requires Positive(l) && q == Once(NewJob(0, "", None, 0, 0), Waiting, Scheduler(Some("a"), Some(0), None, None))
    ensures Claim(q, l, 0, {}).0 == ClaimJob(q, l, 0, 0)
  {
    assert q.jobs[..0] == [];
    assert Candidate(q, l, {}, 0) == None;
    assert Candidate(q, l, {}, 1) == Some(0);
  }

  lemma CompletesOnce(q: Queue, l: Limits, job: Job)
    requires q == Once(job, Building, Scheduler(Some("a"), Some(0), None, None))
    requires job.state.Running? && job.worker == Some(0) && LeaseLive(job, 0) && !job.cancelRequested
    ensures Complete(q, l, 0, 0, Success(true)).0
            == Once(Finished(job, Succeeded).(deliverables := true), Built, Scheduler(Some("a"), None, Some(0), None))
  {
  }

  lemma OneMoreAction(l: Limits, actions: seq<Action>, n: nat)
    requires n < |actions|
    ensures Run(EMPTY, l, actions[..n+1]) == Perform(Run(EMPTY, l, actions[..n]), l, actions[n])
  {
    assert actions[..n+1][..n] == actions[..n];
  }

  lemma BuiltOnce(l: Limits) returns (job: Job)
    requires Positive(l)
    ensures job.state.Succeeded?
    ensures Run(EMPTY, l, RESTORED_RUN[..3]) == Once(job, Built, Scheduler(Some("a"), None, Some(0), None))
  {
    assert RESTORED_RUN[..0] == [] && Run(EMPTY, l, RESTORED_RUN[..0]) == EMPTY;
    OneMoreAction(l, RESTORED_RUN, 0);
    SubmitsOnce();
    var submitted := SubmitBuild(EMPTY, FIRST, true).0;
    OneMoreAction(l, RESTORED_RUN, 1);
    ClaimsOnce(submitted, l);
    var claimed := ClaimJob(submitted, l, 0, 0);
    OneMoreAction(l, RESTORED_RUN, 2);
    CompletesOnce(claimed, l, claimed.jobs[0]);
    job := Finished(claimed.jobs[0], Succeeded).(deliverables := true);
  }

  lemma OutdatedOnce(q: Queue, job: Job)
    requires q == Once(job, Built, Scheduler(Some("a"), None, Some(0), None)) && job.state.Succeeded?
    ensures var r := Restore(q, 0, "b"); AllSucceeded(r, 0) && 0 in r.builds && !UpToDate(r, 0)
  {
  }

  /** A restored workspace can be quiet, all its builds succeeded, and not up to date. */
  lemma QuietButOutdated(l: Limits)
    requires Positive(l)
    ensures var q := Run(EMPTY, l, RESTORED_RUN); AllSucceeded(q, 0) && 0 in q.builds && !UpToDate(q, 0)
  {
    var job := BuiltOnce(l);
    assert RESTORED_RUN[..4] == RESTORED_RUN;
    OneMoreAction(l, RESTORED_RUN, 3);
    OutdatedOnce(Run(EMPTY, l, RESTORED_RUN[..3]), job);
  }
}
