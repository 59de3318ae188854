/** A workspace whose active build's job was cancelled: exactly which steps free it again. */
module SchedulerCancellation {
  import opened Common
  import opened BuildQueue
  import opened SchedulerFacts
  import opened SchedulerRestoration

  /** The active build will never be told. */
  predicate Stuck(q: Queue, w: nat, id: nat)
  {
    && SchedulerOf(q, w).active == Some(id) && id in q.builds && q.builds[id].workspace == w
    && id < |q.jobs| && q.jobs[id].state.Cancelled?
  }

  predicate BuildOf(q: Queue, w: nat, id: nat)
  {
    id in q.builds && q.builds[id].workspace == w
  }

  /** When a completion tells the build: under a live lease, not cancelled, with an outcome that ends the job. */
  predicate Ends(q: Queue, l: Limits, id: nat, worker: nat, verdict: Verdict)
  {
    && LeaseProblem(q, id, worker).None? && !q.jobs[id].cancelRequested
    && !(verdict.CachedSuccess? && !verdict.keyMatches)
    && Terminal(Settled(q.jobs[id], l, verdict).state)
  }

  /** A build of the workspace whose lease and attempts have run out. */
  ghost predicate FailsNow(q: Queue, l: Limits, w: nat)
  {
    exists i :: i in Untold(RecoverJobs(q, l)) && BuildOf(q, w, i)
  }

  /**
   * The steps that free the workspace: a restoration, a submission answered with an earlier build, and another build
   * of the workspace being told, by a completion or by a recovery.
   */
  ghost predicate Frees(q: Queue, l: Limits, a: Action, w: nat)
  {
    match a
    case DoRestore(v, _) => v == w
    case DoSubmit(r, allowed) => allowed && r.workspace == w && Reusable(q, w, r.hash, |q.jobs|).Some?
    case DoComplete(id, worker, verdict) => BuildOf(q, w, id) && Ends(q, l, id, worker, verdict)
    case DoRecover(order) => Enumerates(order, Untold(RecoverJobs(q, l))) && FailsNow(q, l, w)
    case _ => false
  }

  /** What stays: the active and the current build, and with them every build of the workspace. */
  ghost predicate SameBuilds(q: Queue, after: Queue, w: nat)
  {
    && SchedulerOf(after, w).active == SchedulerOf(q, w).active
    && SchedulerOf(after, w).current == SchedulerOf(q, w).current
    && forall i :: BuildOf(after, w, i) ==> BuildOf(q, w, i)
  }

  ghost predicate StaysStuck(q: Queue, after: Queue, w: nat, stuck: nat)
  {
    Stuck(after, w, stuck) && SameBuilds(q, after, w)
  }

  predicate Freed(q: Queue, w: nat, stuck: nat)
  {
    SchedulerOf(q, w).active != Some(stuck) && stuck < |q.jobs|
  }

  // --- telling one build -----------------------------------------------------------------------

  lemma ForeignFinalize(q: Queue, open: set<nat>, id: nat, succeeded: bool, w: nat, stuck: nat)
    requires Consistent(q, open) && Stuck(q, w, stuck) && !BuildOf(q, w, id)
    ensures StaysStuck(q, FinalizeBuild(q, id, succeeded), w, stuck)
  {
    if id in q.builds {
      BuildsHaveJobs(q, open);
      var v := q.builds[id].workspace;
      if v in q.schedulers { assert SchedulerOk(q, v); }
      assert |q.jobs| !in q.builds;
    }
  }

  /** A build of the workspace makes way for the pending request, or for nothing. */
  lemma OwnFinalize(q: Queue, id: nat, succeeded: bool, w: nat, stuck: nat)
    requires BuildOf(q, w, id) && stuck < |q.jobs|
    ensures Freed(FinalizeBuild(q, id, succeeded), w, stuck)
  {
  }

  lemma FreedForGood(q: Queue, id: nat, succeeded: bool, w: nat, stuck: nat)
    requires Freed(q, w, stuck)
    ensures Freed(FinalizeBuild(q, id, succeeded), w, stuck)
  {
  }

  // --- telling the failed builds ------------------------------------------------------------------

  lemma {:induction false} ForeignFailures(q: Queue, open: set<nat>, order: seq<nat>, w: nat, stuck: nat)
    requires Consistent(q, open) && Stuck(q, w, stuck) && AllFailed(q, open, order)
    requires forall i :: i in order ==> !BuildOf(q, w, i)
    ensures StaysStuck(q, FinalizeAll(q, order), w, stuck)
  {
    if order != [] {
      var most, last := order[..|order|-1], order[|order|-1];
      AllFailedShrinks(q, open, order, most);
      ForeignFailures(q, open, most, w, stuck);
      FinalizeAllConsistent(q, open, most, {});
      var u, rest := FinalizeAll(q, most), open - (set i | i in most);
      assert last in order;
      ForeignFinalize(u, rest, last, false, w, stuck);
    }
  }

  lemma {:induction false} OwnFailure(q: Queue, order: seq<nat>, w: nat, stuck: nat)
    requires stuck < |q.jobs| && (forall i :: i in q.builds ==> i < |q.jobs|)
    requires exists i :: i in order && BuildOf(q, w, i)
    ensures Freed(FinalizeAll(q, order), w, stuck)
  {
    var i :| i in order && BuildOf(q, w, i);
    var most, last := order[..|order|-1], order[|order|-1];
    assert order == most + [last];
    if i in most {
      OwnFailure(q, most, w, stuck);
      FreedForGood(FinalizeAll(q, most), last, false, w, stuck);
    } else {
      BuildsStay(q, most, w, last);
      OwnFinalize(FinalizeAll(q, most), last, false, w, stuck);
    }
  }

  lemma {:induction false} BuildsStay(q: Queue, order: seq<nat>, w: nat, id: nat)
    requires BuildOf(q, w, id) && id < |q.jobs|
    ensures BuildOf(FinalizeAll(q, order), w, id) && |q.jobs| <= |FinalizeAll(q, order).jobs|
  {
    if order != [] {
      BuildsStay(q, order[..|order|-1], w, id);
    }
  }

  lemma RecoveryFreesExactly(q: Queue, l: Limits, order: seq<nat>, w: nat, stuck: nat)
    requires Consistent(q, {}) && Stuck(q, w, stuck) && Enumerates(order, Untold(RecoverJobs(q, l)))
    ensures if FailsNow(q, l, w) then Freed(RecoverExpired(q, l, order), w, stuck)
            else StaysStuck(q, RecoverExpired(q, l, order), w, stuck)
  {
    var mid := RecoverJobs(q, l);
    RecoveredConsistent(q, l);
    assert StaysStuck(q, mid, w, stuck);
    BuildsHaveJobs(q, {});
    if FailsNow(q, l, w) {
      var i :| i in Untold(mid) && BuildOf(q, w, i);
      assert i in order && BuildOf(mid, w, i);
      OwnFailure(mid, order, w, stuck);
    } else {
      forall i | i in order ensures !BuildOf(mid, w, i) {
        assert i in Untold(mid);
      }
      ForeignFailures(mid, Untold(mid), order, w, stuck);
    }
  }

  // --- every other step ---------------------------------------------------------------------------------

  lemma CompletionFreesExactly(q: Queue, l: Limits, id: nat, worker: nat, verdict: Verdict, w: nat, stuck: nat)
    requires Consistent(q, {}) && Stuck(q, w, stuck)
    ensures var after := Complete(q, l, id, worker, verdict).0;
            if BuildOf(q, w, id) && Ends(q, l, id, worker, verdict) then Freed(after, w, stuck)
            else StaysStuck(q, after, w, stuck)
  {
    if LeaseProblem(q, id, worker).None? {
      if id in q.builds { assert BuildOk(q, id, {}); }
      var told := WithJob(q, id, Settled(q.jobs[id], l, verdict));
      if Ends(q, l, id, worker, verdict) {
        ToldConsistent(q, l, id, worker, verdict);
        assert StaysStuck(q, told, w, stuck);
        if BuildOf(q, w, id) {
          OwnFinalize(told, id, told.jobs[id].state.Succeeded?, w, stuck);
        } else {
          ForeignFinalize(told, {id}, id, told.jobs[id].state.Succeeded?, w, stuck);
        }
      }
    }
  }

  lemma ClaimStaysStuck(q: Queue, l: Limits, worker: nat, locked: set<nat>, w: nat, stuck: nat)
    requires Consistent(q, {}) && Stuck(q, w, stuck)
    ensures StaysStuck(q, Claim(q, l, worker, locked).0, w, stuck)
  {
  }

  lemma SubmissionFreesExactly(q: Queue, l: Limits, r: Request, w: nat, stuck: nat)
    requires Consistent(q, {}) && Stuck(q, w, stuck)
    ensures if Frees(q, l, DoSubmit(r, true), w) then Freed(SubmitAllowed(q, r).0, w, stuck)
            else StaysStuck(q, SubmitAllowed(q, r).0, w, stuck)
  {
    BuildsHaveJobs(q, {});
  }

  /** One step of any kind: it frees the workspace exactly under the guard, and otherwise everything stays. */
  lemma StepFreesExactly(q: Queue, l: Limits, a: Action, w: nat, stuck: nat)
    requires Consistent(q, {}) && Stuck(q, w, stuck)
    ensures if Frees(q, l, a, w) then Freed(Perform(q, l, a), w, stuck) else StaysStuck(q, Perform(q, l, a), w, stuck)
  {
    match a {
      case DoClaim(worker, locked) => ClaimStaysStuck(q, l, worker, locked, w, stuck);
      case DoRecover(order) =>
        if Enumerates(order, Untold(RecoverJobs(q, l))) { RecoveryFreesExactly(q, l, order, w, stuck); }
      case DoComplete(id, worker, verdict) => CompletionFreesExactly(q, l, id, worker, verdict, w, stuck);
      case DoSubmit(r, allowed) => if allowed { SubmissionFreesExactly(q, l, r, w, stuck); }
      case _ =>
    }
  }

  // --- runs -----------------------------------------------------------------------------------------------

  /** No step of the run frees the workspace. */
  ghost predicate NeverFreed(q: Queue, l: Limits, actions: seq<Action>, w: nat)
  {
    forall n :: 0 <= n < |actions| ==> !Frees(Run(q, l, actions[..n]), l, actions[n], w)
  }

  /** The cancelled build is the active one after every step of the run. */
  ghost predicate ActiveThroughout(q: Queue, l: Limits, actions: seq<Action>, w: nat, stuck: nat)
  {
    forall n :: 0 <= n <= |actions| ==> SchedulerOf(Run(q, l, actions[..n]), w).active == Some(stuck)
  }

  lemma NeverFreedGrows(q: Queue, l: Limits, most: seq<Action>, last: Action, w: nat)
    ensures NeverFreed(q, l, most + [last], w) <==> NeverFreed(q, l, most, w) && !Frees(Run(q, l, most), l, last, w)
  {
    var actions := most + [last];
    assert actions[..|most|] == most;
    forall n | 0 <= n < |most| ensures actions[..n] == most[..n] && actions[n] == most[n] {
    }
  }

  lemma ActiveGrows(q: Queue, l: Limits, most: seq<Action>, last: Action, w: nat, stuck: nat)
    ensures ActiveThroughout(q, l, most + [last], w, stuck)
        <==> ActiveThroughout(q, l, most, w, stuck)
             && SchedulerOf(Run(q, l, most + [last]), w).active == Some(stuck)
  {
    var actions := most + [last];
    assert actions[..|actions|] == actions;
    forall n | 0 <= n <= |most| ensures actions[..n] == most[..n] {
    }
  }

  /**
   * Once the active build's job is cancelled, in every run the build stays active if and only if no step frees the
   * workspace, and as long as none does, current stays and no build is started there.
   */
  lemma {:induction false} CancelledStaysActive(q: Queue, l: Limits, actions: seq<Action>, w: nat, stuck: nat)
    requires Consistent(q, {}) && Stuck(q, w, stuck)
    ensures ActiveThroughout(q, l, actions, w, stuck) <==> NeverFreed(q, l, actions, w)
    ensures Consistent(Run(q, l, actions), {})
    ensures NeverFreed(q, l, actions, w) ==> StaysStuck(q, Run(q, l, actions), w, stuck)
  {
    if actions != [] {
      var most, last := actions[..|actions|-1], actions[|actions|-1];
      assert actions == most + [last];
      CancelledStaysActive(q, l, most, w, stuck);
      PerformConsistent(Run(q, l, most), l, last, {});
      NeverFreedGrows(q, l, most, last, w);
      ActiveGrows(q, l, most, last, w, stuck);
      if NeverFreed(q, l, most, w) {
        StepFreesExactly(Run(q, l, most), l, last, w, stuck);
      }
    }
  }

  // --- a workspace with no other build ---------------------------------------------------------------------

  ghost predicate OnlyBuild(q: Queue, w: nat, id: nat)
  {
    forall i :: BuildOf(q, w, i) ==> i == id
  }

  lemma OnlyBuildReused(q: Queue, w: nat, id: nat, hash: Hash)
    requires OnlyBuild(q, w, id) && Reusable(q, w, hash, |q.jobs|).Some?
    ensures BuildOf(q, w, id) && q.builds[id].status.Built?
  {
    ReusableIsBuilt(q, w, hash, |q.jobs|);
    assert BuildOf(q, w, Reusable(q, w, hash, |q.jobs|).value);
  }

  lemma OnlyRestorationFrees(q: Queue, l: Limits, a: Action, w: nat, stuck: nat)
    requires Consistent(q, {}) && Stuck(q, w, stuck) && OnlyBuild(q, w, stuck)
    ensures Frees(q, l, a, w) <==> a.DoRestore? && a.workspace == w
  {
    assert BuildOk(q, stuck, {});
    match a {
      case DoSubmit(r, _) =>
        if Reusable(q, w, r.hash, |q.jobs|).Some? { OnlyBuildReused(q, w, stuck, r.hash); }
      case DoRecover(_) =>
        assert stuck !in Untold(RecoverJobs(q, l));
      case _ =>
    }
  }

  /**
   * With no other build in the workspace, no submission, edit or passing of time ever helps: in every run the
   * cancelled build stays active if and only if the workspace is not restored.
   */
  lemma {:induction false} OnlyBuildStaysActive(q: Queue, l: Limits, actions: seq<Action>, w: nat, stuck: nat)
    requires Consistent(q, {}) && Stuck(q, w, stuck) && OnlyBuild(q, w, stuck)
    ensures ActiveThroughout(q, l, actions, w, stuck)
        <==> forall a :: a in actions ==> !(a.DoRestore? && a.workspace == w)
    ensures ActiveThroughout(q, l, actions, w, stuck) ==> OnlyBuild(Run(q, l, actions), w, stuck)
  {
    CancelledStaysActive(q, l, actions, w, stuck);
    if actions != [] {
      var most, last := actions[..|actions|-1], actions[|actions|-1];
      assert actions == most + [last];
      OnlyBuildStaysActive(q, l, most, w, stuck);
      CancelledStaysActive(q, l, most, w, stuck);
      NeverFreedGrows(q, l, most, last, w);
      if NeverFreed(q, l, most, w) {
        OnlyRestorationFrees(Run(q, l, most), l, last, w, stuck);
      }
    }
  }

  // --- a concrete case ----------------------------------------------------------------------------------

  /** Submit a build, then cancel its job. */
  const CANCELLED_RUN: seq<Action> := [DoSubmit(FIRST, true), DoCancel(0, None)]

  lemma CancelsOnce(q: Queue)
    requires q == Once(NewJob(0, "", None, 0, 0), Waiting, Scheduler(Some("a"), Some(0), None, None))
    ensures var after := RequestCancellation(q, 0, None).0; Stuck(after, 0, 0) && OnlyBuild(after, 0, 0)
  {
  }

  /** A workspace whose active and only build will never finish is reached in two steps. */
  lemma CancelledOnce(l: Limits)
    ensures var q := Run(EMPTY, l, CANCELLED_RUN); Consistent(q, {}) && Stuck(q, 0, 0) && OnlyBuild(q, 0, 0)
  {
    RunsAreConsistent(l, CANCELLED_RUN);
    assert CANCELLED_RUN[..0] == [] && CANCELLED_RUN[..2] == CANCELLED_RUN;
    OneMoreAction(l, CANCELLED_RUN, 0);
    SubmitsOnce();
    OneMoreAction(l, CANCELLED_RUN, 1);
    CancelsOnce(Run(EMPTY, l, CANCELLED_RUN[..1]));
  }
}
