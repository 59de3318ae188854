/** Table, projection and event log agree over every run of a team project. */
module ProjectRuns {
  import opened Common
  import opened Projection
  import opened ProjectionFacts
  import opened Publish
  import opened PublishFacts
  import opened Staging
  import W = Workspace
  import P = FilePolicies

  /** The strict reader accepts the whole log and rebuilds the canonical table's contents. */
  ghost predicate Agrees(p: ProjectState)
  {
    W.Replay(p.log).Some? && W.Replay(p.log).value.files == Contents(p.files)
  }

  lemma {:induction false} ApplyAllKeepsMainLive(s: W.State, ops: seq<W.Operation>)
    requires W.MainLives(s) && W.ApplyAll(s, ops).Some?
    ensures W.MainLives(W.ApplyAll(s, ops).value)
  {
    if ops != [] {
      ApplyAllKeepsMainLive(s, ops[..|ops|-1]);
    }
  }

  lemma {:induction false} PassEmits(phase: Phase, d: Delta, files: seq<File>)
    requires Pass(phase, d, files).Delta? && (d.Delta? ==> |d.ops| >= d.changes)
    ensures |Pass(phase, d, files).ops| >= Pass(phase, d, files).changes
  {
    if files != [] {
      PassEmits(phase, d, files[..|files|-1]);
    }
  }

  lemma AllPassesEmit(table: Table, files: seq<File>)
    requires AllPasses(table, files).Delta?
    ensures |AllPasses(table, files).ops| >= AllPasses(table, files).changes
  {
    var d0 := Delta(table, [], 0);
    var d1 := Pass(Deletes, d0, files);
    var d2 := Pass(Renames, d1, files);
    PassCounts(Writes, d2, files);
    PassCounts(Renames, d1, files);
    PassEmits(Deletes, d0, files);
    PassEmits(Renames, d1, files);
    PassEmits(Writes, d2, files);
  }

  lemma AppendedEvent(log: seq<W.Event>, event: W.Event)
    requires W.Replay(log).Some?
    ensures W.Replay(log + [event]) == W.ApplyEvent(W.Replay(log).value, event)
  {
    assert (log + [event])[..|log|] == log;
  }

  /** What a validated tree's delta guarantees when no revision counter is exhausted. */
  ghost predicate Delivers(p: ProjectState, tree: Tree, d: Delta)
    requires Ready(tree.files, p.files)
  {
    && d.Delta?
    && IsLiveTree(d.table, tree.files, p.files)
    && d.changes + (if tree.main.Some? then 1 else 0) == tree.summary.total
  }

  ghost predicate Validated(p: ProjectState, tree: Tree, grants: Grants)
  {
    && WellFormed(tree.files, p.files)
    && tree.summary == Summarize(tree.files, tree.main)
    && tree.summary.total > 0
    && Conflicts(p, tree, grants) == []
  }

  lemma DeltaDelivers(p: ProjectState, tree: Tree, grants: Grants)
    requires Validated(p, tree, grants)
    ensures Ready(tree.files, p.files)
    ensures AllPasses(p.files, tree.files) == Aborted(Overflow) || Delivers(p, tree, AllPasses(p.files, tree.files))
  {
    NoConflictMeansClean(p, tree, grants);
    AllPassesSound(tree.files, p.files, W.State(Contents(p.files), None));
    var d := AllPasses(p.files, tree.files);
    if d.Delta? {
      FinishedTable(tree.files, p.files, d.table);
      ChangesMatchSummary(tree, p.files);
    }
  }

  lemma ChosenMainIsLive(p: ProjectState, tree: Tree, grants: Grants, main: Path)
    requires Validated(p, tree, grants) && NextMain(tree, W.ReplayMain(p.log)) == Some(main)
    ensures exists f :: f in tree.files && LiveAt(f, main)
  {
    assert MainConflicts(tree, Some(main), p.mainLocked, grants) == [];
    assert LiveAt(tree.files[FirstLive(tree.files, main)], main);
  }

  lemma EventAccepted(start: W.State, d: Delta, main: Option<Path>)
    requires d.Delta? && Replays(d, start) && W.MainLives(start)
    requires main.Some? ==> main.value in d.table
    requires d.ops != [] || main.Some?
    ensures W.ApplyEvent(start, EventOf(d, main)).Some?
    ensures W.ApplyEvent(start, EventOf(d, main)).value.files == Contents(d.table)
  {
    ApplyAllKeepsMainLive(start, d.ops);
    var event := EventOf(d, main);
    if main.Some? {
      assert event[..|event|-1] == d.ops;
    } else {
      assert event == d.ops;
    }
  }

  lemma CommitAgrees(p: ProjectState, user: nat, tree: Tree, grants: Grants)
    requires Agrees(p) && Validated(p, tree, grants) && AllPasses(p.files, tree.files).Delta?
    ensures Agrees(Commit(p, user, tree).project)
  {
    DeltaDelivers(p, tree, grants);
    var start, d := W.Replay(p.log).value, AllPasses(p.files, tree.files);
    AllPassesSound(tree.files, p.files, start);
    AllPassesEmit(p.files, tree.files);
    W.ReplayMainAgrees(p.log);
    var main := NextMain(tree, W.ReplayMain(p.log));
    if main.Some? {
      ChosenMainIsLive(p, tree, grants, main.value);
    }
    EventAccepted(start, d, main);
    AppendedEvent(p.log, EventOf(d, main));
  }

  lemma ProjectedTreeValidated(p: ProjectState, user: nat, grants: Grants)
    ensures var work := WorkOf(p, user);
            var r := Project(p.files, work.drafts, work.staged);
            r.Ok? && r.value.summary.total > 0 && Conflicts(p, r.value, grants) == [] ==> Validated(p, r.value, grants)
  {
    var work := WorkOf(p, user);
    if Project(p.files, work.drafts, work.staged).Ok? {
      ProjectWellFormed(p.files, work.drafts, work.staged);
    }
  }

  /**
   * The table is exactly the live projected tree, every change is counted, one event is appended,
   * and only the publisher's private work is gone.
   */
  ghost predicate Materializes(p: ProjectState, user: nat, step: Publication)
    requires step.outcome.Published?
  {
    var result := Project(p.files, WorkOf(p, user).drafts, WorkOf(p, user).staged);
    && result.Ok?
    && Ready(result.value.files, p.files)
    && IsLiveTree(step.project.files, result.value.files, p.files)
    && step.outcome.changes + (if result.value.main.Some? then 1 else 0) == result.value.summary.total
    && step.outcome.version == |step.project.log| == |p.log| + 1
    && step.outcome.generation == step.project.generation == p.generation + 1
    && step.project.log[..|p.log|] == p.log
    && WorkOf(step.project, user) == NO_WORK
    && (forall other: nat :: other != user ==> WorkOf(step.project, other) == WorkOf(p, other))
  }

  /** The rows and operations come from the delta; everything else is the same for every commit. */
  ghost predicate Commits(p: ProjectState, user: nat, d: Delta, step: Publication)
  {
    && d.Delta? && step.outcome.Published?
    && step.project.files == d.table && step.outcome.changes == d.changes
    && step.outcome.version == |step.project.log| == |p.log| + 1
    && step.outcome.generation == step.project.generation == p.generation + 1
    && step.project.log[..|p.log|] == p.log
    && WorkOf(step.project, user) == NO_WORK
    && (forall other: nat :: other != user ==> WorkOf(step.project, other) == WorkOf(p, other))
  }

  lemma CommitCommits(p: ProjectState, user: nat, tree: Tree, d: Delta)
    requires d == AllPasses(p.files, tree.files) && d.Delta?
    ensures Commits(p, user, d, Commit(p, user, tree))
  {
  }

  lemma DeliveredMaterializes(p: ProjectState, user: nat, tree: Tree, d: Delta, step: Publication)
    requires Project(p.files, WorkOf(p, user).drafts, WorkOf(p, user).staged) == Ok(tree)
    requires Ready(tree.files, p.files) && Delivers(p, tree, d) && Commits(p, user, d, step)
    ensures Materializes(p, user, step)
  {
  }

  lemma CommitMaterializes(p: ProjectState, user: nat, tree: Tree, grants: Grants)
    requires Validated(p, tree, grants) && AllPasses(p.files, tree.files).Delta?
    requires Project(p.files, WorkOf(p, user).drafts, WorkOf(p, user).staged) == Ok(tree)
    ensures Commit(p, user, tree).outcome.Published? && Materializes(p, user, Commit(p, user, tree))
  {
    DeltaDelivers(p, tree, grants);
    var d := AllPasses(p.files, tree.files);
    CommitCommits(p, user, tree, d);
    DeliveredMaterializes(p, user, tree, d, Commit(p, user, tree));
  }

  /**
   * From any state, publishing makes the canonical table exactly the live projected tree; it keeps table and log equal.
   */
  lemma PublishRefinesProjection(p: ProjectState, user: nat, grants: Grants)
    ensures var step := PublishChangeSet(p, user, grants);
            step.outcome.Published? ==> Materializes(p, user, step) && (Agrees(p) ==> Agrees(step.project))
  {
    if PublishChangeSet(p, user, grants).outcome.Published? {
      ProjectedTreeValidated(p, user, grants);
      var tree := Project(p.files, WorkOf(p, user).drafts, WorkOf(p, user).staged).value;
      CommitMaterializes(p, user, tree, grants);
      if Agrees(p) { CommitAgrees(p, user, tree, grants); }
    }
  }

  predicate ExpectedRefusal(outcome: Outcome)
  {
    match outcome
    case Rejected(conflicts) => conflicts != {}
    case Failed(f) => f.TreeFailed? || f == NothingStaged || f == Overflow
    case Published(_, _, _) => false
  }

  /** A refusal changes nothing, and no refusal is a key collision or a missing row. */
  lemma RefusedPublishChangesNothing(p: ProjectState, user: nat, grants: Grants)
    ensures !PublishChangeSet(p, user, grants).outcome.Published? ==>
              PublishChangeSet(p, user, grants).project == p
                  && ExpectedRefusal(PublishChangeSet(p, user, grants).outcome)
  {
    var work := WorkOf(p, user);
    var result := Project(p.files, work.drafts, work.staged);
    if result.Ok? && result.value.summary.total > 0 && Conflicts(p, result.value, grants) == [] {
      ProjectedTreeValidated(p, user, grants);
      CommitRefusal(p, user, result.value, grants);
    }
  }

  lemma CommitRefusal(p: ProjectState, user: nat, tree: Tree, grants: Grants)
    requires Validated(p, tree, grants)
    ensures Commit(p, user, tree).outcome.Published? || Commit(p, user, tree) == Publication(p, Failed(Overflow))
  {
    DeltaDelivers(p, tree, grants);
  }

  lemma PutAccepted(s: W.State, path: Path, content: Content)
    requires W.MainLives(s)
    ensures W.ApplyEvent(s, [W.PutFile(path, content)]) == Some(s.(files := s.files[path := content]))
  {
    var event := [W.PutFile(path, content)];
    assert event[..|event|-1] == [];
    assert W.ApplyAll(s, []) == Some(s);
  }

  /** One more event that puts one file keeps a log equal to its table. */
  lemma OnePutAgrees(p: ProjectState, after: ProjectState, path: Path, entry: Entry)
    requires Agrees(p) && after.log == p.log + [[W.PutFile(path, entry.content)]]
             && after.files == p.files[path := entry]
    ensures Agrees(after)
  {
    W.ReplayMainAgrees(p.log);
    AppendedEvent(p.log, [W.PutFile(path, entry.content)]);
    PutAccepted(W.Replay(p.log).value, path, entry.content);
    assert Contents(after.files) == Contents(p.files)[path := entry.content];
  }

  lemma PublishDraftAgrees(p: ProjectState, user: nat, grants: Grants, path: Path)
    ensures Agrees(p) ==> Agrees(PublishDraft(p, user, grants, path).project)
    ensures !PublishDraft(p, user, grants, path).outcome.DraftPublished?
            ==> PublishDraft(p, user, grants, path).project == p
  {
    var step := PublishDraft(p, user, grants, path);
    if step.outcome.DraftPublished? && Agrees(p) {
      OnePutAgrees(p, step.project, path, step.project.files[path]);
    }
  }

  // --- runs of every kind of step by every member ------------------------------------------

  datatype Action =
    | DoSaveDraft(user: nat, grants: Grants, path: Path, base: nat, content: Content, expected: Option<nat>)
    | DoStage(user: nat, grants: Grants, request: Request)
    | DoPublishDraft(user: nat, grants: Grants, path: Path)
    | DoPublish(user: nat, grants: Grants)
    | DoSetPolicy(grants: Grants, admin: bool, path: Path, policy: P.FilePolicy)

  ghost function SetPolicy(p: ProjectState, grants: Grants, admin: bool, path: Path, policy: P.FilePolicy): ProjectState
  {
    if ProjectManage in grants && path in p.files
        && P.Allowed(p.rules, admin, path, policy) then p.(rules := P.Upsert(p.rules, path, policy)) else p
  }

  ghost function Perform(p: ProjectState, a: Action): ProjectState
  {
    match a
    case DoSaveDraft(user, grants, path, base, content, expected) =>
      (match SaveDraft(p, user, grants, path, base, content, expected) case Accepted(next) => next case Refused(_) => p)
    case DoStage(user, grants, request) =>
      (match Stage(p, user, grants, request) case Accepted(next) => next case Refused(_) => p)
    case DoPublishDraft(user, grants, path) => PublishDraft(p, user, grants, path).project
    case DoPublish(user, grants) => PublishChangeSet(p, user, grants).project
    case DoSetPolicy(grants, admin, path, policy) => SetPolicy(p, grants, admin, path, policy)
  }

  ghost function Run(p: ProjectState, actions: seq<Action>): ProjectState
  {
    if actions == [] then p else Perform(Run(p, actions[..|actions|-1]), actions[|actions|-1])
  }

  lemma PerformAgrees(p: ProjectState, a: Action)
    requires Agrees(p)
    ensures Agrees(Perform(p, a))
  {
    match a {
      case DoPublishDraft(user, grants, path) => PublishDraftAgrees(p, user, grants, path);
      case DoPublish(user, grants) =>
        PublishRefinesProjection(p, user, grants);
        RefusedPublishChangesNothing(p, user, grants);
      case _ =>
    }
  }

  /**
   * After any run the strict reader still accepts the whole log, rebuilds exactly the canonical table,
   * and Main, however it is replayed, is unset or names a canonical file.
   */
  lemma {:induction false} RunAgrees(p: ProjectState, actions: seq<Action>)
    requires Agrees(p)
    ensures var q := Run(p, actions);
            && Agrees(q)
            && W.Replay(q.log).value.main == W.ReplayMain(q.log)
            && (W.ReplayMain(q.log).Some? ==> W.ReplayMain(q.log).value in q.files)
  {
    if actions != [] {
      RunAgrees(p, actions[..|actions|-1]);
      PerformAgrees(Run(p, actions[..|actions|-1]), actions[|actions|-1]);
    }
    W.ReplayMainAgrees(Run(p, actions).log);
  }
}
