/**
 * The compile queue and, per workspace, the exact-state build scheduler on top of it.
 * A row's id is its position in `jobs`; a V2 build carries the id of its job.
 */
module BuildQueue {
  import opened Common
  import opened Counting

  type Hash = string

  datatype JobState = Queued | Claimed | Running | Succeeded | Failed | TimedOut | Cancelled

  datatype Job = Job(
    user: nat,
    inputs: string,
    key: Option<string>,
    priority: int,
    created: nat,
    state: JobState,
    worker: Option<nat>,
    lease: Option<nat>,
    attempts: nat,
    cancelRequested: bool,
    deliverables: bool)

  datatype BuildStatus = Waiting | Building | Built | Broken

  datatype Build = Build(workspace: nat, hash: Hash, status: BuildStatus)

  datatype Request = Request(workspace: nat, hash: Hash, user: nat, inputs: string, manual: bool)

  datatype Scheduler = Scheduler(desired: Option<Hash>, active: Option<nat>, current: Option<nat>,
      pending: Option<Request>)

  datatype Queue = Queue(jobs: seq<Job>, builds: map<nat, Build>, schedulers: map<nat, Scheduler>, now: nat)

  datatype Limits = Limits(globalRunning: nat, perUserRunning: nat, perUserOutstanding: nat, lease: nat,
      maxAttempts: nat)

  /** QueueLimits::new refuses zeros. */
  predicate Positive(l: Limits)
  {
    l.globalRunning > 0 && l.perUserRunning > 0 && l.perUserOutstanding > 0 && l.lease > 0 && l.maxAttempts > 0
  }

  const IDLE := Scheduler(None, None, None, None)

  const EMPTY := Queue([], map[], map[], 0)

  predicate Terminal(s: JobState)
  {
    s.Succeeded? || s.Failed? || s.TimedOut? || s.Cancelled?
  }

  predicate Occupies(j: Job)
  {
    j.state.Claimed? || j.state.Running?
  }

  function OccupiesFor(user: nat): Job -> bool
  {
    (j: Job) => j.user == user && Occupies(j)
  }

  function OutstandingFor(user: nat): Job -> bool
  {
    (j: Job) => j.user == user && !Terminal(j.state)
  }

  predicate LeaseLive(j: Job, now: nat)
  {
    j.lease.Some? && j.lease.value > now
  }

  predicate Unfinished(b: Build)
  {
    b.status.Waiting? || b.status.Building?
  }

  function NewJob(user: nat, inputs: string, key: Option<string>, priority: int, now: nat): Job
  {
    Job(user, inputs, key, priority, now, Queued, None, None, 0, false, false)
  }

  // --- enqueue -------------------------------------------------------------------------

  datatype Admission = Admitted(id: nat) | IdempotencyConflict | NotPermitted | TooManyOutstanding

  function Find(jobs: seq<Job>, user: nat, key: string): (k: nat)
    ensures k <= |jobs|
    ensures k < |jobs| ==> jobs[k].user == user && jobs[k].key == Some(key)
    ensures forall i :: 0 <= i < k ==> !(jobs[i].user == user && jobs[i].key == Some(key))
  {
    if jobs == [] || (jobs[0].user == user && jobs[0].key == Some(key)) then 0 else 1 + Find(jobs[1..], user, key)
  }

  /**
   * `permitted` is whether the caller may submit compilations, looked up first of all; `owned` is the outcome of the
   * ownership and snapshot lookups, made only for a new key.
   */
  function Enqueue(q: Queue, l: Limits, user: nat, inputs: string, key: string, priority: int, permitted: bool,
                   owned: bool)
    : (Queue, Admission)
  {
    var k := Find(q.jobs, user, key);
    if !permitted then (q, NotPermitted)
    else if k < |q.jobs| then (q, if q.jobs[k].inputs == inputs then Admitted(k) else IdempotencyConflict)
    else if !owned then (q, NotPermitted)
    else if Count(q.jobs, OutstandingFor(user)) >= l.perUserOutstanding then (q, TooManyOutstanding)
    else (q.(jobs := q.jobs + [NewJob(user, inputs, Some(key), priority, q.now)]), Admitted(|q.jobs|))
  }

  // --- claim, renew, cancel ----------------------------------------------------------------

  predicate Eligible(q: Queue, l: Limits, locked: set<nat>, i: nat)
    requires i < |q.jobs|
  {
    q.jobs[i].state.Queued? && i !in locked && Count(q.jobs, OccupiesFor(q.jobs[i].user)) < l.perUserRunning
  }

  /** priority DESC, created_at ASC, id ASC */
  predicate Before(q: Queue, i: nat, j: nat)
    requires i < |q.jobs| && j < |q.jobs|
  {
    var a, b := q.jobs[i], q.jobs[j];
    || a.priority > b.priority
    || (a.priority == b.priority && a.created < b.created)
    || (a.priority == b.priority && a.created == b.created && i < j)
  }

  /** The first eligible row in queue order among the first `n`; `locked` rows are skipped. */
  function Candidate(q: Queue, l: Limits, locked: set<nat>, n: nat): Option<nat>
    requires n <= |q.jobs|
    ensures Candidate(q, l, locked, n).Some? ==>
              Candidate(q, l, locked, n).value < n && Eligible(q, l, locked, Candidate(q, l, locked, n).value)
  {
    if n == 0 then None
    else
      var c := Candidate(q, l, locked, n - 1);
      if Eligible(q, l, locked, n - 1) && (c.None? || Before(q, n - 1, c.value)) then Some(n - 1) else c
  }

  function SetStatus(builds: map<nat, Build>, id: nat, status: BuildStatus): map<nat, Build>
  {
    if id in builds then builds[id := builds[id].(status := status)] else builds
  }

  function ClaimJob(q: Queue, l: Limits, i: nat, worker: nat): Queue
    requires i < |q.jobs|
  {
    var j := q.jobs[i];
    q.(jobs := q.jobs[i := j.(state := Running, worker := Some(worker), lease := Some(q.now + l.lease),
        attempts := j.attempts + 1)],
       builds := SetStatus(q.builds, i, Building))
  }

  function Claim(q: Queue, l: Limits, worker: nat, locked: set<nat>): (Queue, Option<nat>)
  {
    if Count(q.jobs, Occupies) >= l.globalRunning then (q, None)
    else
      match Candidate(q, l, locked, |q.jobs|)
      case None => (q, None)
      case Some(i) => (ClaimJob(q, l, i, worker), Some(i))
  }

  datatype QueueError = BadReason | NotFound | InvalidState(state: JobState) | LeaseLost | KeyMismatch

  function RenewLease(q: Queue, l: Limits, id: nat, worker: nat): (Queue, Option<QueueError>)
  {
    if id < |q.jobs| && q.jobs[id].state.Running? && q.jobs[id].worker == Some(worker) && LeaseLive(q.jobs[id], q.now)
    then (q.(jobs := q.jobs[id := q.jobs[id].(lease := Some(q.now + l.lease))]), None)
    else (q, Some(LeaseLost))
  }

  function CancelledNow(j: Job): Job
  {
    if j.state.Queued? then j.(state := Cancelled, cancelRequested := true, worker := None, lease := None)
    else j.(cancelRequested := true)
  }

  const MAX_REASON: nat := 512

  /** `reason` is the length in bytes of the reason, if one is given. */
  function RequestCancellation(q: Queue, id: nat, reason: Option<nat>): (Queue, Option<QueueError>)
  {
    if reason.Some? && (reason.value == 0 || reason.value > MAX_REASON) then (q, Some(BadReason))
    else if id >= |q.jobs| then (q, Some(NotFound))
    else if Terminal(q.jobs[id].state) then (q, Some(InvalidState(q.jobs[id].state)))
    else (q.(jobs := q.jobs[id := CancelledNow(q.jobs[id])]), None)
  }

  // --- the scheduler behind a finished build --------------------------------------------------

  function SchedulerOf(q: Queue, w: nat): Scheduler
  {
    if w in q.schedulers then q.schedulers[w] else IDLE
  }

  function Priority(r: Request): int
  {
    if r.manual then 10 else 0
  }

  /** A job, a version and a build for one request; the version rows are not modelled. */
  function AddBuild(q: Queue, r: Request): Queue
  {
    q.(jobs := q.jobs + [NewJob(r.user, r.inputs, None, Priority(r), q.now)],
       builds := q.builds[|q.jobs| := Build(r.workspace, r.hash, Waiting)])
  }

  /** Promote only an exact match, then activate the newest pending request. */
  function FinalizeBuild(q: Queue, id: nat, succeeded: bool): Queue
  {
    if id !in q.builds then q
    else
      var b := q.builds[id];
      var s := SchedulerOf(q, b.workspace);
      var marked := q.(builds := SetStatus(q.builds, id, if succeeded then Built else Broken));
      var current := if succeeded && s.desired == Some(b.hash) then Some(id) else s.current;
      match s.pending
      case None =>
        marked.(schedulers := q.schedulers[b.workspace := Scheduler(s.desired, None, current, None)])
      case Some(r) =>
        var next := Scheduler(s.desired, Some(|q.jobs|), current, None);
        AddBuild(marked, r).(schedulers := q.schedulers[b.workspace := next])
  }

  // --- lease recovery ---------------------------------------------------------------------------

  predicate Expired(j: Job, now: nat)
  {
    Occupies(j) && j.lease.Some? && j.lease.value <= now
  }

  function Recovered(j: Job, l: Limits, now: nat): Job
  {
    if !Expired(j, now) then j
    else
      j.(state := if j.cancelRequested then Cancelled else if j.attempts >= l.maxAttempts then Failed else Queued,
         worker := None, lease := None)
  }

  function RecoverJobs(q: Queue, l: Limits): Queue
  {
    q.(jobs := seq(|q.jobs|, i requires 0 <= i < |q.jobs| => Recovered(q.jobs[i], l, q.now)))
  }

  /** Failed jobs whose build has not been told. */
  function Untold(q: Queue): set<nat>
  {
    set i | i in q.builds && i < |q.jobs| && q.jobs[i].state.Failed? && Unfinished(q.builds[i])
  }

  ghost predicate Enumerates(order: seq<nat>, s: set<nat>)
  {
    && (forall i :: i in order <==> i in s)
    && (forall i, j :: 0 <= i < j < |order| ==> order[i] != order[j])
  }

  function FinalizeAll(q: Queue, order: seq<nat>): Queue
  {
    if order == [] then q else FinalizeBuild(FinalizeAll(q, order[..|order|-1]), order[|order|-1], false)
  }

  /** `order` is the order in which the database lists the failed builds. */
  function RecoverExpired(q: Queue, l: Limits, order: seq<nat>): Queue
  {
    FinalizeAll(RecoverJobs(q, l), order)
  }

  // --- completions ----------------------------------------------------------------------------------

  datatype Verdict =
    | Success(deliverables: bool)
    | CachedSuccess(keyMatches: bool, deliverables: bool)
    | CompileFailure(timedOut: bool, deliverables: bool)
    | InfrastructureFailure

  datatype Completion = Recorded(state: JobState) | Refused(error: QueueError)

  function Finished(j: Job, state: JobState): Job
  {
    j.(state := state, worker := None, lease := None)
  }

  function LeaseProblem(q: Queue, id: nat, worker: nat): Option<QueueError>
  {
    if id >= |q.jobs| then Some(NotFound)
    else if !q.jobs[id].state.Running? then Some(InvalidState(q.jobs[id].state))
    else if q.jobs[id].worker != Some(worker) || !LeaseLive(q.jobs[id], q.now) then Some(LeaseLost)
    else None
  }

  function WithJob(q: Queue, id: nat, j: Job): Queue
    requires id < |q.jobs|
  {
    q.(jobs := q.jobs[id := j])
  }

  /** The job row after a verdict under a live lease. */
  function Settled(j: Job, l: Limits, verdict: Verdict): Job
  {
    match verdict
    case Success(d) => Finished(j, Succeeded).(deliverables := d)
    case CachedSuccess(_, d) => Finished(j, Succeeded).(deliverables := d)
    case CompileFailure(timedOut, d) => Finished(j, if timedOut then TimedOut else Failed).(deliverables := d)
    case InfrastructureFailure => Finished(j, if j.attempts >= l.maxAttempts then Failed else Queued)
  }

  function Complete(q: Queue, l: Limits, id: nat, worker: nat, verdict: Verdict): (Queue, Completion)
  {
    var problem := LeaseProblem(q, id, worker);
    if problem.Some? then (q, Refused(problem.value))
    else if q.jobs[id].cancelRequested then (WithJob(q, id, Finished(q.jobs[id], Cancelled)), Recorded(Cancelled))
    else if verdict.CachedSuccess? && !verdict.keyMatches then (q, Refused(KeyMismatch))
    else
      var j := Settled(q.jobs[id], l, verdict);
      var told := WithJob(q, id, j);
      (if Terminal(j.state) then FinalizeBuild(told, id, j.state.Succeeded?) else told, Recorded(j.state))
  }

  // --- submissions ---------------------------------------------------------------------------------------

  /** The newest succeeded build of exactly this state whose PDF, log and SyncTeX are recorded, among the first `n`. */
  function Reusable(q: Queue, w: nat, hash: Hash, n: nat): Option<nat>
    requires n <= |q.jobs|
  {
    if n == 0 then None
    else if n - 1 in q.builds && q.builds[n-1].workspace == w && q.builds[n-1].hash == hash
            && q.builds[n-1].status.Built? && q.jobs[n-1].deliverables then Some(n - 1)
    else Reusable(q, w, hash, n - 1)
  }

  datatype Submission =
    | Rejected
    | Reused(id: nat)
    | AlreadyActive(id: nat)
    | Pending(active: nat)
    | Started(id: nat)

  /** `allowed` is the outcome of validating the request and of the access and identity lookups. */
  function SubmitBuild(q: Queue, r: Request, allowed: bool): (Queue, Submission)
  {
    if !allowed then (q, Rejected) else SubmitAllowed(q, r)
  }

  function SubmitAllowed(q: Queue, r: Request): (Queue, Submission)
  {
    var s := SchedulerOf(q, r.workspace).(desired := Some(r.hash));
    match Reusable(q, r.workspace, r.hash, |q.jobs|)
    case Some(id) =>
      (q.(schedulers := q.schedulers[r.workspace := Scheduler(s.desired, None, Some(id), None)]), Reused(id))
    case None =>
      if s.active.Some? && s.active.value in q.builds then
        if q.builds[s.active.value].hash == r.hash
        then (q.(schedulers := q.schedulers[r.workspace := s.(pending := None)]), AlreadyActive(s.active.value))
        else (q.(schedulers := q.schedulers[r.workspace := s.(pending := Some(r))]), Pending(s.active.value))
      else
        (AddBuild(q, r).(schedulers := q.schedulers[r.workspace := s.(active := Some(|q.jobs|))]), Started(|q.jobs|))
  }

  // --- steps from outside the queue -----------------------------------------------------------------------

  /** The scheduler part of a restoration: the restored hash is desired and nothing is active. */
  function Restore(q: Queue, w: nat, hash: Hash): Queue
  {
    if w !in q.schedulers then q
    else q.(schedulers := q.schedulers[w := Scheduler(Some(hash), None, q.schedulers[w].current, None)])
  }

  /** A durable edit: no hash is desired until the next submission. */
  function Invalidate(q: Queue, w: nat): Queue
  {
    if w !in q.schedulers then q
    else q.(schedulers := q.schedulers[w := q.schedulers[w].(desired := None, pending := None)])
  }

  // --- runs --------------------------------------------------------------------------------------------------

  datatype Action =
    | DoEnqueue(user: nat, inputs: string, key: string, priority: int, permitted: bool, owned: bool)
    | DoClaim(worker: nat, locked: set<nat>)
    | DoRenew(id: nat, worker: nat)
    | DoCancel(id: nat, reason: Option<nat>)
    | DoRecover(order: seq<nat>)
    | DoComplete(id: nat, worker: nat, verdict: Verdict)
    | DoSubmit(request: Request, allowed: bool)
    | DoRestore(workspace: nat, hash: Hash)
    | DoEdit(workspace: nat)
    | DoWait(ticks: nat)

  ghost function Perform(q: Queue, l: Limits, a: Action): Queue
  {
    match a
    case DoEnqueue(user, inputs, key, priority, permitted, owned) =>
      Enqueue(q, l, user, inputs, key, priority, permitted, owned).0
    case DoClaim(worker, locked) => Claim(q, l, worker, locked).0
    case DoRenew(id, worker) => RenewLease(q, l, id, worker).0
    case DoCancel(id, reason) => RequestCancellation(q, id, reason).0
    case DoRecover(order) => if Enumerates(order, Untold(RecoverJobs(q, l))) then RecoverExpired(q, l, order) else q
    case DoComplete(id, worker, verdict) => Complete(q, l, id, worker, verdict).0
    case DoSubmit(request, allowed) => SubmitBuild(q, request, allowed).0
    case DoRestore(w, hash) => Restore(q, w, hash)
    case DoEdit(w) => Invalidate(q, w)
    case DoWait(ticks) => q.(now := q.now + ticks)
  }

  ghost function Run(q: Queue, l: Limits, actions: seq<Action>): Queue
  {
    if actions == [] then q else Perform(Run(q, l, actions[..|actions|-1]), l, actions[|actions|-1])
  }
}
