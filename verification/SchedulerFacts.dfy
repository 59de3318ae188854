/** What the build scheduler keeps in every reachable state, and why it converges. */
module SchedulerFacts {
  import opened Common
  import opened BuildQueue

  /** A build's status follows its job; a cancelled job leaves its build unfinished. */
  predicate StatusMatches(b: Build, j: Job)
  {
    && (b.status.Built? <==> j.state.Succeeded?)
    && (b.status.Broken? <==> j.state.Failed? || j.state.TimedOut?)
  }

  predicate BuildOk(q: Queue, i: nat, open: set<nat>)
    requires i in q.builds
  {
    && i < |q.jobs|
    && q.builds[i].workspace in q.schedulers
    && (if i in open then Unfinished(q.builds[i]) else StatusMatches(q.builds[i], q.jobs[i]))
  }

  predicate SchedulerOk(q: Queue, w: nat)
    requires w in q.schedulers
  {
    var s := q.schedulers[w];
    && (s.active.Some? ==> s.active.value in q.builds && q.builds[s.active.value].workspace == w)
    && (s.current.Some? ==> s.current.value in q.builds && q.builds[s.current.value].workspace == w
                            && q.builds[s.current.value].status.Built?)
    && (s.pending.Some? ==> s.pending.value.workspace == w && s.active.Some?
                            && q.builds[s.active.value].hash != s.pending.value.hash
                            && s.desired == Some(s.pending.value.hash))
    && (s.active.Some? && s.pending.None? && s.desired.Some? ==> s.desired == Some(q.builds[s.active.value].hash))
  }

  /** `open` holds finished jobs whose builds a transaction has yet to tell. */
  ghost predicate Consistent(q: Queue, open: set<nat>)
  {
    && (forall i :: i in q.builds ==> BuildOk(q, i, open))
    && (forall w :: w in q.schedulers ==> SchedulerOk(q, w))
  }

  /** An active build is unfinished. */
  predicate ActiveOpen(q: Queue, w: nat)
  {
    var a := SchedulerOf(q, w).active;
    a.Some? ==> a.value in q.builds && Unfinished(q.builds[a.value])
  }

  ghost predicate HeldByBuild(q: Queue, w: nat, hash: Hash)
  {
    exists i :: i in q.builds && q.builds[i].workspace == w && q.builds[i].hash == hash && !q.builds[i].status.Built?
  }

  /** The desired hash is current, pending, being built, or broken. */
  ghost predicate Held(q: Queue, w: nat)
  {
    var s := SchedulerOf(q, w);
    s.desired.Some? ==>
      || (s.current.Some? && s.current.value in q.builds && q.builds[s.current.value].hash == s.desired.value)
      || (s.pending.Some? && s.pending.value.hash == s.desired.value)
      || HeldByBuild(q, w, s.desired.value)
  }

  /** Every workspace outside `off` still works towards its desired hash. */
  ghost predicate Tracks(q: Queue, off: set<nat>)
  {
    forall w: nat :: ActiveOpen(q, w) && (w !in off ==> Held(q, w))
  }

  // --- finalizing one build ---------------------------------------------------------------

  predicate OutcomeOf(j: Job, succeeded: bool)
  {
    if succeeded then j.state.Succeeded? else j.state.Failed? || j.state.TimedOut?
  }

  lemma BuildsHaveJobs(q: Queue, open: set<nat>)
    requires Consistent(q, open)
    ensures forall i :: i in q.builds ==> i < |q.jobs|
  {
    forall i | i in q.builds ensures i < |q.jobs| {
      assert BuildOk(q, i, open);
    }
  }

  lemma FinalizedBuilds(q: Queue, open: set<nat>, id: nat, succeeded: bool)
    requires Consistent(q, open) && id in q.builds && id in open && OutcomeOf(q.jobs[id], succeeded)
    ensures var after := FinalizeBuild(q, id, succeeded);
            forall i :: i in after.builds ==> BuildOk(after, i, open - {id})
  {
    var after := FinalizeBuild(q, id, succeeded);
    assert BuildOk(q, id, open);
    assert SchedulerOk(q, q.builds[id].workspace);
    BuildsHaveJobs(q, open);
    forall i | i in after.builds ensures BuildOk(after, i, open - {id}) {
      if i in q.builds {
        assert BuildOk(q, i, open);
      }
    }
  }

  lemma FinalizedSchedulers(q: Queue, open: set<nat>, id: nat, succeeded: bool)
    requires Consistent(q, open) && id in q.builds && id in open && OutcomeOf(q.jobs[id], succeeded)
    ensures var after := FinalizeBuild(q, id, succeeded); forall v :: v in after.schedulers ==> SchedulerOk(after, v)
  {
    var after := FinalizeBuild(q, id, succeeded);
    assert BuildOk(q, id, open);
    BuildsHaveJobs(q, open);
    forall v | v in after.schedulers ensures SchedulerOk(after, v) {
      assert SchedulerOk(q, v);
      var c := q.schedulers[v].current;
      if c.Some? { assert c.value != id; }
    }
  }

  lemma FinalizeConsistent(q: Queue, open: set<nat>, id: nat, succeeded: bool)
    requires Consistent(q, open) && (id in q.builds ==> id in open && OutcomeOf(q.jobs[id], succeeded))
    ensures Consistent(FinalizeBuild(q, id, succeeded), open - {id})
  {
    if id in q.builds {
      FinalizedBuilds(q, open, id, succeeded);
      FinalizedSchedulers(q, open, id, succeeded);
    } else {
      forall i | i in q.builds ensures BuildOk(q, i, open - {id}) {
        assert BuildOk(q, i, open);
      }
    }
  }

  lemma FinalizeTracks(q: Queue, open: set<nat>, id: nat, succeeded: bool, off: set<nat>)
    requires Consistent(q, open) && Tracks(q, off)
    requires id in q.builds ==> id in open && OutcomeOf(q.jobs[id], succeeded)
    ensures Tracks(FinalizeBuild(q, id, succeeded), off)
  {
    if id in q.builds {
      var after := FinalizeBuild(q, id, succeeded);
      assert BuildOk(q, id, open);
      var w := q.builds[id].workspace;
      BuildsHaveJobs(q, open);
      forall v: nat ensures ActiveOpen(after, v) && (v !in off ==> Held(after, v)) {
        assert ActiveOpen(q, v) && (v !in off ==> Held(q, v));
        if v in q.schedulers { assert SchedulerOk(q, v); }
        if v !in off { FinalizeHolds(q, open, id, succeeded, v); }
      }
    }
  }

  lemma FinalizeHolds(q: Queue, open: set<nat>, id: nat, succeeded: bool, v: nat)
    requires Consistent(q, open) && id in q.builds && id in open && Held(q, v) && |q.jobs| !in q.builds
    ensures Held(FinalizeBuild(q, id, succeeded), v)
  {
    var after, s := FinalizeBuild(q, id, succeeded), SchedulerOf(q, v);
    assert BuildOk(q, id, open);
    if s.desired.Some? {
      if s.pending.Some? && s.pending.value.hash == s.desired.value {
        assert SchedulerOk(q, v);
        if v == q.builds[id].workspace {
          assert after.builds[|q.jobs|].hash == s.desired.value;
          assert HeldByBuild(after, v, s.desired.value);
        }
      } else if HeldByBuild(q, v, s.desired.value) {
        var i :| i in q.builds && q.builds[i].workspace == v && q.builds[i].hash == s.desired.value
            && !q.builds[i].status.Built?;
        if i != id || !succeeded {
          assert !after.builds[i].status.Built?;
        }
      }
    }
  }

  // --- one step of any kind ------------------------------------------------------------------

  /** Rows may be appended, and states may move, as long as the builds' outcomes are not touched. */
  lemma JobsChangeConsistent(q: Queue, jobs: seq<Job>, builds: map<nat, Build>, open: set<nat>, off: set<nat>)
    requires Consistent(q, {}) && |q.jobs| <= |jobs| && builds.Keys == q.builds.Keys
    requires forall i :: i in q.builds ==>
               builds[i].workspace == q.builds[i].workspace && builds[i].hash == q.builds[i].hash
               && (builds[i].status.Built? <==> q.builds[i].status.Built?)
               && (Unfinished(builds[i]) <==> Unfinished(q.builds[i]))
    requires forall i :: i in q.builds && i < |jobs| ==>
               if i in open then Unfinished(q.builds[i]) else StatusMatches(builds[i], jobs[i])
    ensures Consistent(q.(jobs := jobs, builds := builds), open)
    ensures Tracks(q, off) ==> Tracks(q.(jobs := jobs, builds := builds), off)
  {
    var after := q.(jobs := jobs, builds := builds);
    forall i | i in after.builds ensures BuildOk(after, i, open) {
      assert BuildOk(q, i, {});
    }
    forall w | w in after.schedulers ensures SchedulerOk(after, w) {
      assert SchedulerOk(q, w);
    }
    if Tracks(q, off) {
      forall w: nat ensures ActiveOpen(after, w) && (w !in off ==> Held(after, w)) {
        assert ActiveOpen(q, w) && (w !in off ==> Held(q, w));
        var s := SchedulerOf(q, w);
        if w !in off && s.desired.Some? && HeldByBuild(q, w, s.desired.value) {
          var i :| i in q.builds && q.builds[i].workspace == w && q.builds[i].hash == s.desired.value
              && !q.builds[i].status.Built?;
          assert !after.builds[i].status.Built?;
        }
      }
    }
  }

  lemma SchedulerChangeConsistent(q: Queue, w: nat, s: Scheduler, off: set<nat>)
    requires Consistent(q, {}) && SchedulerOk(q.(schedulers := q.schedulers[w := s]), w)
    ensures Consistent(q.(schedulers := q.schedulers[w := s]), {})
    ensures var after := q.(schedulers := q.schedulers[w := s]);
            Tracks(q, off) && ActiveOpen(after, w) ==> Tracks(after, off + {w})
    ensures var after := q.(schedulers := q.schedulers[w := s]);
            Tracks(q, off) && ActiveOpen(after, w) && Held(after, w) ==> Tracks(after, off - {w})
  {
    var after := q.(schedulers := q.schedulers[w := s]);
    forall i | i in after.builds ensures BuildOk(after, i, {}) {
      assert BuildOk(q, i, {});
    }
    forall v | v in after.schedulers ensures SchedulerOk(after, v) {
      if v != w { assert SchedulerOk(q, v); }
    }
    if Tracks(q, off) && ActiveOpen(after, w) {
      forall v: nat ensures ActiveOpen(after, v) && (v != w && v !in off ==> Held(after, v)) {
        assert ActiveOpen(q, v) && (v !in off ==> Held(q, v));
      }
    }
  }

  lemma EnqueueConsistent(q: Queue, l: Limits, user: nat, inputs: string, key: string, priority: int, permitted: bool,
                         owned: bool, off: set<nat>)
    requires Consistent(q, {})
    ensures Consistent(Enqueue(q, l, user, inputs, key, priority, permitted, owned).0, {})
    ensures Tracks(q, off) ==> Tracks(Enqueue(q, l, user, inputs, key, priority, permitted, owned).0, off)
  {
    var after := Enqueue(q, l, user, inputs, key, priority, permitted, owned).0;
    forall i | i in q.builds ensures BuildOk(q, i, {}) {
    }
    JobsChangeConsistent(q, after.jobs, q.builds, {}, off);
    assert after == q.(jobs := after.jobs, builds := q.builds);
  }

  lemma ClaimConsistent(q: Queue, l: Limits, worker: nat, locked: set<nat>, off: set<nat>)
    requires Consistent(q, {})
    ensures Consistent(Claim(q, l, worker, locked).0, {})
    ensures Tracks(q, off) ==> Tracks(Claim(q, l, worker, locked).0, off)
  {
    var after := Claim(q, l, worker, locked).0;
    forall i | i in q.builds ensures BuildOk(q, i, {}) {
    }
    JobsChangeConsistent(q, after.jobs, after.builds, {}, off);
    assert after == q.(jobs := after.jobs, builds := after.builds);
  }

  /** Changing one job without giving or taking an outcome. */
  lemma OneJobConsistent(q: Queue, id: nat, j: Job, off: set<nat>)
    requires Consistent(q, {}) && id < |q.jobs|
    requires !q.jobs[id].state.Succeeded? && !q.jobs[id].state.Failed? && !q.jobs[id].state.TimedOut?
    requires !j.state.Succeeded? && !j.state.Failed? && !j.state.TimedOut?
    ensures Consistent(WithJob(q, id, j), {})
    ensures Tracks(q, off) ==> Tracks(WithJob(q, id, j), off)
  {
    forall i | i in q.builds ensures BuildOk(q, i, {}) {
    }
    JobsChangeConsistent(q, q.jobs[id := j], q.builds, {}, off);
    assert WithJob(q, id, j) == q.(jobs := q.jobs[id := j], builds := q.builds);
  }

  /** A terminal verdict recorded on the job leaves only its own build to be told. */
  lemma ToldConsistent(q: Queue, l: Limits, id: nat, worker: nat, verdict: Verdict)
    requires Consistent(q, {}) && LeaseProblem(q, id, worker).None? && Terminal(Settled(q.jobs[id], l, verdict).state)
    ensures Consistent(WithJob(q, id, Settled(q.jobs[id], l, verdict)), {id})
    ensures forall off: set<nat> :: Tracks(q, off) ==> Tracks(WithJob(q, id, Settled(q.jobs[id], l, verdict)), off)
  {
    var jobs := q.jobs[id := Settled(q.jobs[id], l, verdict)];
    forall i | i in q.builds ensures BuildOk(q, i, {}) {
    }
    assert WithJob(q, id, jobs[id]) == q.(jobs := jobs, builds := q.builds);
    forall off: set<nat> ensures Tracks(q, off) ==> Tracks(q.(jobs := jobs, builds := q.builds), off) {
      JobsChangeConsistent(q, jobs, q.builds, {id}, off);
    }
    JobsChangeConsistent(q, jobs, q.builds, {id}, {});
  }

  lemma CompleteConsistent(q: Queue, l: Limits, id: nat, worker: nat, verdict: Verdict, off: set<nat>)
    requires Consistent(q, {})
    ensures Consistent(Complete(q, l, id, worker, verdict).0, {})
    ensures Tracks(q, off) ==> Tracks(Complete(q, l, id, worker, verdict).0, off)
  {
    if LeaseProblem(q, id, worker).None? && !(verdict.CachedSuccess? && !verdict.keyMatches
        && !q.jobs[id].cancelRequested) {
      if q.jobs[id].cancelRequested {
        OneJobConsistent(q, id, Finished(q.jobs[id], Cancelled), off);
      } else {
        var j := Settled(q.jobs[id], l, verdict);
        if Terminal(j.state) {
          ToldConsistent(q, l, id, worker, verdict);
          var told := WithJob(q, id, j);
          FinalizeConsistent(told, {id}, id, j.state.Succeeded?);
          assert {id} - {id} == {};
          if Tracks(q, off) { FinalizeTracks(told, {id}, id, j.state.Succeeded?, off); }
        } else {
          OneJobConsistent(q, id, j, off);
        }
      }
    }
  }

  lemma {:induction false} FinalizeAllKeepsJobs(q: Queue, order: seq<nat>)
    ensures var after := FinalizeAll(q, order);
            |q.jobs| <= |after.jobs| && forall i :: 0 <= i < |q.jobs| ==> after.jobs[i] == q.jobs[i]
  {
    if order != [] {
      FinalizeAllKeepsJobs(q, order[..|order|-1]);
    }
  }

  ghost predicate AllFailed(q: Queue, open: set<nat>, order: seq<nat>)
  {
    && (forall i :: i in order ==> i in open && i in q.builds && i < |q.jobs| && q.jobs[i].state.Failed?)
    && (forall i, j :: 0 <= i < j < |order| ==> order[i] != order[j])
  }

  lemma AllFailedShrinks(q: Queue, open: set<nat>, order: seq<nat>, most: seq<nat>)
    requires order != [] && most == order[..|order|-1] && AllFailed(q, open, order)
    ensures AllFailed(q, open, most) && order[|order|-1] in open - (set i | i in most)
    ensures open - (set i | i in order) == open - (set i | i in most) - {order[|order|-1]}
  {
    assert order == most + [order[|order|-1]];
  }

  lemma {:induction false} FinalizeAllConsistent(q: Queue, open: set<nat>, order: seq<nat>, off: set<nat>)
    requires Consistent(q, open) && AllFailed(q, open, order)
    ensures Consistent(FinalizeAll(q, order), open - (set i | i in order))
    ensures Tracks(q, off) ==> Tracks(FinalizeAll(q, order), off)
  {
    if order == [] {
      assert open - (set i | i in order) == open;
    } else {
      var most, last := order[..|order|-1], order[|order|-1];
      AllFailedShrinks(q, open, order, most);
      FinalizeAllConsistent(q, open, most, off);
      FinalizeAllKeepsJobs(q, most);
      var u, rest := FinalizeAll(q, most), open - (set i | i in most);
      assert u.jobs[last].state.Failed?;
      FinalizeConsistent(u, rest, last, false);
      if Tracks(q, off) { FinalizeTracks(u, rest, last, false, off); }
    }
  }

  /** After the bulk update the failed builds are the ones still to be told. */
  lemma RecoveredConsistent(q: Queue, l: Limits)
    requires Consistent(q, {})
    ensures Consistent(RecoverJobs(q, l), Untold(RecoverJobs(q, l)))
    ensures forall off: set<nat> :: Tracks(q, off) ==> Tracks(RecoverJobs(q, l), off)
  {
    var mid := RecoverJobs(q, l);
    var open := Untold(mid);
    forall i | i in q.builds ensures BuildOk(q, i, {}) {
    }
    assert mid == q.(jobs := mid.jobs, builds := q.builds);
    forall off: set<nat> ensures Tracks(q, off) ==> Tracks(mid, off) {
      JobsChangeConsistent(q, mid.jobs, q.builds, open, off);
    }
    JobsChangeConsistent(q, mid.jobs, q.builds, open, {});
  }

  lemma RecoverConsistent(q: Queue, l: Limits, order: seq<nat>, off: set<nat>)
    requires Consistent(q, {}) && Enumerates(order, Untold(RecoverJobs(q, l)))
    ensures Consistent(RecoverExpired(q, l, order), {})
    ensures Tracks(q, off) ==> Tracks(RecoverExpired(q, l, order), off)
  {
    var mid := RecoverJobs(q, l);
    RecoveredConsistent(q, l);
    FinalizeAllConsistent(mid, Untold(mid), order, off);
    assert Untold(mid) - (set i | i in order) == {};
  }

  lemma AddBuildConsistent(q: Queue, r: Request, s: Scheduler, off: set<nat>)
    requires Consistent(q, {}) && s.active == None && s.pending == None && s.desired == Some(r.hash)
    requires s.current == SchedulerOf(q, r.workspace).current
    ensures var after := AddBuild(q, r).(schedulers := q.schedulers[r.workspace := s.(active := Some(|q.jobs|))]);
            Consistent(after, {}) && (Tracks(q, off) ==> Tracks(after, off - {r.workspace}))
  {
    var id, w := |q.jobs|, r.workspace;
    var after := AddBuild(q, r).(schedulers := q.schedulers[w := s.(active := Some(id))]);
    BuildsHaveJobs(q, {});
    forall i | i in after.builds ensures BuildOk(after, i, {}) {
      if i != id { assert BuildOk(q, i, {}); }
    }
    forall v | v in after.schedulers ensures SchedulerOk(after, v) {
      if v in q.schedulers { assert SchedulerOk(q, v); }
    }
    if Tracks(q, off) {
      forall v: nat ensures ActiveOpen(after, v) && (v !in off - {w} ==> Held(after, v)) {
        assert ActiveOpen(q, v) && (v !in off ==> Held(q, v));
        if v == w {
          assert after.builds[id].hash == r.hash;
          assert HeldByBuild(after, v, r.hash);
        } else if v !in off && SchedulerOf(q, v).desired.Some? && HeldByBuild(q, v, SchedulerOf(q, v).desired.value) {
          var i :| i in q.builds && q.builds[i].workspace == v && q.builds[i].hash == SchedulerOf(q, v).desired.value
              && !q.builds[i].status.Built?;
          assert after.builds[i] == q.builds[i];
        }
      }
    }
  }

  lemma {:induction false} ReusableIsBuilt(q: Queue, w: nat, hash: Hash, n: nat)
    requires n <= |q.jobs| && Reusable(q, w, hash, n).Some?
    ensures var id := Reusable(q, w, hash, n).value;
            id < n && id in q.builds && q.builds[id].workspace == w && q.builds[id].hash == hash
            && q.builds[id].status.Built? && q.jobs[id].deliverables
  {
    if !(n - 1 in q.builds && q.builds[n-1].workspace == w && q.builds[n-1].hash == hash
         && q.builds[n-1].status.Built? && q.jobs[n-1].deliverables) {
      ReusableIsBuilt(q, w, hash, n - 1);
    }
  }

  lemma SubmitConsistent(q: Queue, r: Request, off: set<nat>)
    requires Consistent(q, {})
    ensures Consistent(SubmitAllowed(q, r).0, {})
    ensures Tracks(q, off) ==> Tracks(SubmitAllowed(q, r).0, off - {r.workspace})
  {
    var w := r.workspace;
    var s := SchedulerOf(q, w).(desired := Some(r.hash));
    if w in q.schedulers { assert SchedulerOk(q, w); }
    assert Tracks(q, off) ==> ActiveOpen(q, w);
    var (after, how) := SubmitAllowed(q, r);
    match how {
      case Reused(id) =>
        ReusableIsBuilt(q, w, r.hash, |q.jobs|);
        SchedulerChangeConsistent(q, w, Scheduler(s.desired, None, Some(id), None), off);
      case AlreadyActive(id) =>
        SchedulerChangeConsistent(q, w, s.(pending := None), off);
        if Tracks(q, off) { assert q.builds[id].hash == r.hash; assert HeldByBuild(after, w, r.hash); }
      case Pending(_) =>
        SchedulerChangeConsistent(q, w, s.(pending := Some(r)), off);
      case Started(_) =>
        AddBuildConsistent(q, r, s, off);
    }
  }

  function AfterAction(off: set<nat>, a: Action): set<nat>
  {
    match a
    case DoRestore(w, _) => off + {w}
    case DoSubmit(r, allowed) => if allowed then off - {r.workspace} else off
    case DoEdit(w) => off - {w}
    case _ => off
  }

  lemma PerformConsistent(q: Queue, l: Limits, a: Action, off: set<nat>)
    requires Consistent(q, {})
    ensures Consistent(Perform(q, l, a), {})
    ensures Tracks(q, off) ==> Tracks(Perform(q, l, a), AfterAction(off, a))
  {
    match a {
      case DoEnqueue(user, inputs, key, priority, permitted, owned) => EnqueueConsistent(q, l, user, inputs, key,
          priority, permitted, owned, off);
      case DoClaim(worker, locked) => ClaimConsistent(q, l, worker, locked, off);
      case DoRenew(id, worker) =>
        if RenewLease(q, l, id, worker).1.None? {
          OneJobConsistent(q, id, RenewLease(q, l, id, worker).0.jobs[id], off);
        }
      case DoCancel(id, reason) =>
        if RequestCancellation(q, id, reason).1.None? {
          OneJobConsistent(q, id, CancelledNow(q.jobs[id]), off);
        }
      case DoRecover(order) =>
        if Enumerates(order, Untold(RecoverJobs(q, l))) { RecoverConsistent(q, l, order, off); }
      case DoComplete(id, worker, verdict) => CompleteConsistent(q, l, id, worker, verdict, off);
      case DoSubmit(r, allowed) => if allowed { SubmitConsistent(q, r, off); }
      case DoRestore(w, hash) =>
        if w in q.schedulers {
          assert SchedulerOk(q, w);
          SchedulerChangeConsistent(q, w, Scheduler(Some(hash), None, q.schedulers[w].current, None), off);
        }
      case DoEdit(w) =>
        if w in q.schedulers {
          assert SchedulerOk(q, w);
          assert Tracks(q, off) ==> ActiveOpen(q, w);
          SchedulerChangeConsistent(q, w, q.schedulers[w].(desired := None, pending := None), off);
        }
      case DoWait(ticks) => WaitConsistent(q, ticks, off);
    }
  }

  lemma WaitConsistent(q: Queue, ticks: nat, off: set<nat>)
    requires Consistent(q, {})
    ensures Consistent(q.(now := q.now + ticks), {})
    ensures Tracks(q, off) ==> Tracks(q.(now := q.now + ticks), off)
  {
    var after := q.(now := q.now + ticks);
    forall i | i in after.builds ensures BuildOk(after, i, {}) { assert BuildOk(q, i, {}); }
    forall w | w in after.schedulers ensures SchedulerOk(after, w) { assert SchedulerOk(q, w); }
    if Tracks(q, off) {
      forall w: nat ensures ActiveOpen(after, w) && (w !in off ==> Held(after, w)) {
        assert ActiveOpen(q, w) && (w !in off ==> Held(q, w));
        var s := SchedulerOf(q, w);
        if w !in off && s.desired.Some? && HeldByBuild(q, w, s.desired.value) {
          var i :| i in q.builds && q.builds[i].workspace == w && q.builds[i].hash == s.desired.value
              && !q.builds[i].status.Built?;
          assert !after.builds[i].status.Built?;
        }
      }
    }
  }

  // --- over every run ------------------------------------------------------------------------------

  /**
   * In every reachable state the scheduler rows and build statuses are consistent, restorations and cancellations
   * included.
   */
  lemma {:induction false} RunsAreConsistent(l: Limits, actions: seq<Action>)
    ensures Consistent(Run(EMPTY, l, actions), {})
  {
    if actions != [] {
      RunsAreConsistent(l, actions[..|actions|-1]);
      PerformConsistent(Run(EMPTY, l, actions[..|actions|-1]), l, actions[|actions|-1], {});
    }
  }

  /** The workspaces whose last restoration was followed by no submission and no edit. */
  function Restored(actions: seq<Action>): set<nat>
  {
    if actions == [] then {} else AfterAction(Restored(actions[..|actions|-1]), actions[|actions|-1])
  }

  lemma {:induction false} RunsTrack(l: Limits, actions: seq<Action>)
    ensures Tracks(Run(EMPTY, l, actions), Restored(actions))
  {
    if actions != [] {
      var most := actions[..|actions|-1];
      RunsTrack(l, most);
      RunsAreConsistent(l, most);
      PerformConsistent(Run(EMPTY, l, most), l, actions[|actions|-1], Restored(most));
    }
  }

  ghost predicate AllSucceeded(q: Queue, w: nat)
  {
    forall i :: i in q.builds && q.builds[i].workspace == w ==> i < |q.jobs| && q.jobs[i].state.Succeeded?
  }

  ghost predicate UpToDate(q: Queue, w: nat)
  {
    var s := SchedulerOf(q, w);
    s.desired.Some? ==>
      s.current.Some? && s.current.value in q.builds && q.builds[s.current.value].hash == s.desired.value
  }

  /**
   * In every run, once every build of a workspace has succeeded nothing is active or pending, and unless the
   * workspace was restored without a submission since, its current build is the desired state.
   */
  lemma QuiescenceConverges(l: Limits, actions: seq<Action>, w: nat)
    ensures var q := Run(EMPTY, l, actions);
            AllSucceeded(q, w) ==>
              && SchedulerOf(q, w).active.None? && SchedulerOf(q, w).pending.None?
              && (w !in Restored(actions) ==> UpToDate(q, w))
  {
    var q := Run(EMPTY, l, actions);
    RunsTrack(l, actions);
    RunsAreConsistent(l, actions);
    assert ActiveOpen(q, w) && (w !in Restored(actions) ==> Held(q, w));
    if w in q.schedulers { assert SchedulerOk(q, w); }
    forall i | i in q.builds ensures StatusMatches(q.builds[i], q.jobs[i]) {
      assert BuildOk(q, i, {});
    }
  }

  // --- current never moves to anything but the desired state ------------------------------------------

  predicate PromotedDesired(q: Queue, w: nat)
  {
    var s := SchedulerOf(q, w);
    && s.current.Some? && s.current.value in q.builds
    && q.builds[s.current.value].status.Built?
    && s.desired == Some(q.builds[s.current.value].hash)
  }

  lemma {:induction false} FailuresKeepCurrent(q: Queue, order: seq<nat>, w: nat)
    ensures SchedulerOf(FinalizeAll(q, order), w).current == SchedulerOf(q, w).current
  {
    if order != [] {
      FailuresKeepCurrent(q, order[..|order|-1], w);
    }
  }

  lemma FinalizePromotes(q: Queue, id: nat, succeeded: bool, w: nat)
    requires forall i :: i in q.builds ==> i < |q.jobs|
    requires SchedulerOf(FinalizeBuild(q, id, succeeded), w).current != SchedulerOf(q, w).current
    ensures PromotedDesired(FinalizeBuild(q, id, succeeded), w)
  {
  }

  lemma SubmitPromotes(q: Queue, r: Request, w: nat)
    requires forall i :: i in q.builds ==> i < |q.jobs|
    requires SchedulerOf(SubmitAllowed(q, r).0, w).current != SchedulerOf(q, w).current
    ensures PromotedDesired(SubmitAllowed(q, r).0, w)
  {
    if Reusable(q, r.workspace, r.hash, |q.jobs|).Some? {
      ReusableIsBuilt(q, r.workspace, r.hash, |q.jobs|);
    }
  }

  lemma CompletePromotes(q: Queue, l: Limits, id: nat, worker: nat, verdict: Verdict, w: nat)
    requires forall i :: i in q.builds ==> i < |q.jobs|
    requires SchedulerOf(Complete(q, l, id, worker, verdict).0, w).current != SchedulerOf(q, w).current
    ensures PromotedDesired(Complete(q, l, id, worker, verdict).0, w)
  {
    var told := WithJob(q, id, Settled(q.jobs[id], l, verdict));
    FinalizePromotes(told, id, told.jobs[id].state.Succeeded?, w);
  }

  lemma OthersKeepCurrent(q: Queue, l: Limits, a: Action, w: nat)
    requires !a.DoComplete? && !a.DoSubmit?
    ensures SchedulerOf(Perform(q, l, a), w).current == SchedulerOf(q, w).current
  {
    if a.DoRecover? {
      FailuresKeepCurrent(RecoverJobs(q, l), a.order, w);
    }
  }

  /**
   * Whatever happens, a step that changes a workspace's current build makes it a succeeded build of the desired hash.
   */
  lemma CurrentOnlyBecomesDesired(q: Queue, l: Limits, a: Action, w: nat)
    requires Consistent(q, {})
    requires SchedulerOf(Perform(q, l, a), w).current != SchedulerOf(q, w).current
    ensures PromotedDesired(Perform(q, l, a), w)
    ensures a.DoComplete? || a.DoSubmit?
  {
    BuildsHaveJobs(q, {});
    match a {
      case DoSubmit(r, allowed) => SubmitPromotes(q, r, w);
      case DoComplete(id, worker, verdict) => CompletePromotes(q, l, id, worker, verdict, w);
      case _ => OthersKeepCurrent(q, l, a, w);
    }
  }
}
