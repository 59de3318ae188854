/** The repository methods of the compile queue: each transaction updates the tables in place. */
module CompileQueues {
  import opened Common
  import opened Counting
  import opened BuildQueue

  class CompileQueue {
    var jobs: seq<Job>
    var builds: map<nat, Build>
    var schedulers: map<nat, Scheduler>
    var now: nat
    const limits: Limits

    ghost function State(): Queue
      reads this
    {
      Queue(jobs, builds, schedulers, now)
    }

    constructor (limits: Limits)
      requires Positive(limits)
      ensures State() == EMPTY && this.limits == limits
    {
      jobs, builds, schedulers, now := [], map[], map[], 0;
      this.limits := limits;
    }

    method EnqueueJob(user: nat, inputs: string, key: string, priority: int, permitted: bool, owned: bool)
      returns (r: Admission)
      modifies `jobs
      ensures (State(), r) == Enqueue(old(State()), limits, user, inputs, key, priority, permitted, owned)
    {
      if !permitted {
        return NotPermitted;
      }
      var k := Find(jobs, user, key);
      if k < |jobs| {
        if jobs[k].inputs != inputs {
          return IdempotencyConflict;
        }
        return Admitted(k);
      }
      if !owned {
        return NotPermitted;
      }
      var outstanding := 0;
      for i := 0 to |jobs|
        invariant outstanding == Count(jobs[..i], OutstandingFor(user))
      {
        assert jobs[..i+1][..i] == jobs[..i];
        if jobs[i].user == user && (jobs[i].state.Queued? || jobs[i].state.Claimed? || jobs[i].state.Running?) {
          outstanding := outstanding + 1;
        }
      }
      assert jobs[..|jobs|] == jobs;
      if outstanding >= limits.perUserOutstanding {
        return TooManyOutstanding;
      }
      r := Admitted(|jobs|);
      jobs := jobs + [NewJob(user, inputs, Some(key), priority, now)];
    }

    /** The locked rows are those other transactions hold; they are skipped, not waited for. */
    method ClaimNext(worker: nat, locked: set<nat>) returns (claimed: Option<nat>)
      modifies `jobs, `builds
      ensures (State(), claimed) == Claim(old(State()), limits, worker, locked)
    {
      claimed := None;
      if Count(jobs, Occupies) >= limits.globalRunning {
        return;
      }
      var i := 0;
      while i < |jobs|
        invariant i <= |jobs|
        invariant claimed == Candidate(State(), limits, locked, i)
      {
        if jobs[i].state.Queued? && i !in locked && Count(jobs, OccupiesFor(jobs[i].user)) < limits.perUserRunning {
          if claimed.None? || jobs[i].priority > jobs[claimed.value].priority
             || (jobs[i].priority == jobs[claimed.value].priority && jobs[i].created < jobs[claimed.value].created) {
            claimed := Some(i);
          }
        }
        i := i + 1;
      }
      if claimed.Some? {
        var k := claimed.value;
        jobs := jobs[k := jobs[k].(state := Running, worker := Some(worker), lease := Some(now + limits.lease),
                                   attempts := jobs[k].attempts + 1)];
        if k in builds {
          builds := builds[k := builds[k].(status := Building)];
        }
      }
    }

    method Renew(id: nat, worker: nat) returns (problem: Option<QueueError>)
      modifies `jobs
      ensures (State(), problem) == RenewLease(old(State()), limits, id, worker)
    {
      if id >= |jobs| || !jobs[id].state.Running? || jobs[id].worker != Some(worker) || !LeaseLive(jobs[id], now) {
        return Some(LeaseLost);
      }
      jobs := jobs[id := jobs[id].(lease := Some(now + limits.lease))];
      problem := None;
    }

    method Cancel(id: nat, reason: Option<nat>) returns (problem: Option<QueueError>)
      modifies `jobs
      ensures (State(), problem) == RequestCancellation(old(State()), id, reason)
    {
      if reason.Some? && (reason.value == 0 || reason.value > MAX_REASON) {
        return Some(BadReason);
      }
      if id >= |jobs| {
        return Some(NotFound);
      }
      if Terminal(jobs[id].state) {
        return Some(InvalidState(jobs[id].state));
      }
      ghost var before := jobs;
      var queued := jobs[id].state.Queued?;
      jobs := jobs[id := jobs[id].(cancelRequested := true)];
      if queued {
        jobs := jobs[id := jobs[id].(state := Cancelled, worker := None, lease := None)];
      }
      assert jobs == before[id := CancelledNow(before[id])];
      problem := None;
    }

    /** finalize_v2_build, in the caller's transaction. */
    method Finalize(id: nat, succeeded: bool)
      modifies `jobs, `builds, `schedulers
      ensures State() == FinalizeBuild(old(State()), id, succeeded)
    {
      if id !in builds {
        return;
      }
      var w, hash := builds[id].workspace, builds[id].hash;
      var row := if w in schedulers then schedulers[w] else IDLE;
      builds := builds[id := builds[id].(status := if succeeded then Built else Broken)];
      if succeeded && row.desired == Some(hash) {
        schedulers := schedulers[w := row.(current := Some(id))];
      }
      var next: Option<nat> := None;
      if row.pending.Some? {
        var r := row.pending.value;
        next := Some(|jobs|);
        builds := builds[|jobs| := Build(r.workspace, r.hash, Waiting)];
        jobs := jobs + [NewJob(r.user, r.inputs, None, if r.manual then 10 else 0, now)];
      }
      var latest := if w in schedulers then schedulers[w] else IDLE;
      schedulers := schedulers[w := latest.(active := next, pending := None)];
    }

    /** The bulk update of the expired rows. */
    method RequeueExpired()
      modifies `jobs
      ensures State() == RecoverJobs(old(State()), limits)
    {
      var rows, at := jobs, now;
      jobs := seq(|rows|, i requires 0 <= i < |rows| => Recovered(rows[i], limits, at));
      assert jobs == RecoverJobs(old(State()), limits).jobs;
    }

    /** One finalization per failed build, in any order. */
    method TellFailed() returns (ghost order: seq<nat>)
      modifies `jobs, `builds, `schedulers
      ensures Enumerates(order, Untold(old(State())))
      ensures State() == FinalizeAll(old(State()), order)
    {
      var failed := set i | i in builds && i < |jobs| && jobs[i].state.Failed? && Unfinished(builds[i]);
      ghost var mid, all := State(), failed;
      order := [];
      while failed != {}
        invariant failed <= all
        invariant forall i :: i in order <==> i in all && i !in failed
        invariant forall i, j :: 0 <= i < j < |order| ==> order[i] != order[j]
        invariant State() == FinalizeAll(mid, order)
        decreases |failed|
      {
        var id :| id in failed;
        failed := failed - {id};
        Finalize(id, false);
        assert (order + [id])[..|order|] == order;
        order := order + [id];
      }
    }

    method RecoverExpiredLeases() returns (ghost order: seq<nat>)
      modifies `jobs, `builds, `schedulers
      ensures Enumerates(order, Untold(RecoverJobs(old(State()), limits)))
      ensures State() == RecoverExpired(old(State()), limits, order)
    {
      RequeueExpired();
      order := TellFailed();
    }

    method CompleteJob(id: nat, worker: nat, verdict: Verdict) returns (r: Completion)
      modifies `jobs, `builds, `schedulers
      ensures (State(), r) == Complete(old(State()), limits, id, worker, verdict)
    {
      if id >= |jobs| {
        return Refused(NotFound);
      }
      if !jobs[id].state.Running? {
        return Refused(InvalidState(jobs[id].state));
      }
      if jobs[id].worker != Some(worker) || !LeaseLive(jobs[id], now) {
        return Refused(LeaseLost);
      }
      if jobs[id].cancelRequested {
        jobs := jobs[id := Finished(jobs[id], Cancelled)];
        return Recorded(Cancelled);
      }
      match verdict {
        case Success(d) =>
          jobs := jobs[id := Finished(jobs[id], Succeeded).(deliverables := d)];
          Finalize(id, true);
          r := Recorded(Succeeded);
        case CachedSuccess(keyMatches, d) =>
          if !keyMatches {
            return Refused(KeyMismatch);
          }
          jobs := jobs[id := Finished(jobs[id], Succeeded).(deliverables := d)];
          Finalize(id, true);
          r := Recorded(Succeeded);
        case CompileFailure(timedOut, d) =>
          var state := if timedOut then TimedOut else Failed;
          jobs := jobs[id := Finished(jobs[id], state).(deliverables := d)];
          Finalize(id, false);
          r := Recorded(state);
        case InfrastructureFailure =>
          if jobs[id].attempts >= limits.maxAttempts {
            jobs := jobs[id := Finished(jobs[id], Failed)];
            Finalize(id, false);
            r := Recorded(Failed);
          } else {
            jobs := jobs[id := Finished(jobs[id], Queued)];
            r := Recorded(Queued);
          }
      }
    }

    method Submit(r: Request, allowed: bool) returns (how: Submission)
      modifies `jobs, `builds, `schedulers
      ensures (State(), how) == SubmitBuild(old(State()), r, allowed)
    {
      if !allowed {
        return Rejected;
      }
      var w := r.workspace;
      var row := if w in schedulers then schedulers[w] else IDLE;
      ghost var start := State();
      row := row.(desired := Some(r.hash));
      schedulers := schedulers[w := row];
      var n := |jobs|;
      while n > 0
        invariant 0 <= n <= |jobs|
        invariant State() == start.(schedulers := start.schedulers[w := row])
        invariant Reusable(start, w, r.hash, |jobs|) == Reusable(start, w, r.hash, n)
      {
        n := n - 1;
        if n in builds && builds[n].workspace == w && builds[n].hash == r.hash && builds[n].status.Built?
            && jobs[n].deliverables {
          schedulers := schedulers[w := Scheduler(row.desired, None, Some(n), None)];
          assert schedulers == start.schedulers[w := Scheduler(row.desired, None, Some(n), None)];
          return Reused(n);
        }
      }
      if row.active.Some? && row.active.value in builds {
        var active := row.active.value;
        if builds[active].hash == r.hash {
          schedulers := schedulers[w := row.(pending := None)];
          assert schedulers == start.schedulers[w := row.(pending := None)];
          how := AlreadyActive(active);
        } else {
          schedulers := schedulers[w := row.(pending := Some(r))];
          assert schedulers == start.schedulers[w := row.(pending := Some(r))];
          how := Pending(active);
        }
      } else {
        how := Started(|jobs|);
        schedulers := schedulers[w := row.(active := Some(|jobs|))];
        assert schedulers == start.schedulers[w := row.(active := Some(|jobs|))];
        builds := builds[|jobs| := Build(w, r.hash, Waiting)];
        jobs := jobs + [NewJob(r.user, r.inputs, None, if r.manual then 10 else 0, now)];
      }
    }

    method ResetForRestoration(w: nat, hash: Hash)
      modifies `schedulers
      ensures State() == Restore(old(State()), w, hash)
    {
      if w in schedulers {
        schedulers := schedulers[w := Scheduler(Some(hash), None, schedulers[w].current, None)];
      }
    }

    method InvalidateDesired(w: nat)
      modifies `schedulers
      ensures State() == Invalidate(old(State()), w)
    {
      if w in schedulers {
        schedulers := schedulers[w := schedulers[w].(desired := None, pending := None)];
      }
    }
  }
}
