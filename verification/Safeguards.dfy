/** What publications and saves cannot do: touch protected files, move a locked Main, lose another tab's edit. */
module Safeguards {
  import opened Common
  import opened Projection
  import opened ProjectionFacts
  import opened Publish
  import opened PublishFacts
  import opened ProjectRuns
  import opened Staging
  import W = Workspace
  import P = FilePolicies

  // --- protected files ------------------------------------------------------------------

  lemma {:induction false} QuietPathsAreWritable(f: File, paths: seq<Path>, p: ProjectState, grants: Grants, path: Path)
    requires Protected(f, paths, p, grants) == [] && path in paths
    ensures Writable(p, grants, path)
  {
    if path != paths[|paths|-1] {
      assert path in paths[..|paths|-1];
      QuietPathsAreWritable(f, paths[..|paths|-1], p, grants, path);
    }
  }

  /** A file that the change set touches without conflict has only writable paths. */
  lemma TouchedIsWritable(p: ProjectState, tree: Tree, grants: Grants, f: File, path: Path)
    requires WellFormed(tree.files, p.files) && Conflicts(p, tree, grants) == []
    requires f in tree.files && Required(f) != [] && path in PolicyPaths(f)
    ensures Writable(p, grants, path)
  {
    ConflictsCoverFiles(tree.files, Locked(tree.files, p.files), p, grants, f);
    assert Protected(f, PolicyPaths(f), p, grants) == [];
    QuietPathsAreWritable(f, PolicyPaths(f), p, grants, path);
  }

  lemma OldRowSurvives(p: ProjectState, tree: Tree, grants: Grants, table: Table, q: Path)
    requires WellFormed(tree.files, p.files) && Conflicts(p, tree, grants) == []
             && IsLiveTree(table, tree.files, p.files)
    requires !Writable(p, grants, q) && q in p.files
    ensures q in table && table[q] == p.files[q]
  {
    assert Originates(tree.files, q);
    var f :| f in tree.files && f.origin == Some(q);
    assert FileOk(f, p.files);
    assert q in PolicyPaths(f);
    if Required(f) != [] {
      TouchedIsWritable(p, tree, grants, f, q);
    }
    assert table[f.path] == Row(f, p.files);
  }

  /** A live file at a path without a canonical row is new there. */
  lemma NewcomerIsTouched(f: File, table: Table, q: Path)
    requires FileOk(f, table) && LiveAt(f, q) && q !in table
    ensures Required(f) != [] && q in PolicyPaths(f)
  {
    assert f.added || f.renamed;
    var paths := PolicyPaths(f);
    assert paths[|paths|-1] == q;
  }

  lemma NoNewRow(p: ProjectState, tree: Tree, grants: Grants, table: Table, q: Path)
    requires WellFormed(tree.files, p.files) && Conflicts(p, tree, grants) == []
             && IsLiveTree(table, tree.files, p.files)
    requires !Writable(p, grants, q) && q !in p.files
    ensures q !in table
  {
    forall f | f in tree.files ensures !LiveAt(f, q) {
      if LiveAt(f, q) {
        NewcomerIsTouched(f, p.files, q);
        TouchedIsWritable(p, tree, grants, f, q);
      }
    }
  }

  /** Without the protected-write grant a publication leaves the row at every non-editable path exactly as it was. */
  lemma ProtectedRowsSurvive(p: ProjectState, user: nat, grants: Grants, q: Path)
    requires FileProtectedWrite !in grants && P.Effective(p.rules, p.fallback, q) != P.Editable
    ensures var after := PublishChangeSet(p, user, grants).project;
            (q in after.files <==> q in p.files) && (q in p.files ==> after.files[q] == p.files[q])
  {
    PublishRefinesProjection(p, user, grants);
    RefusedPublishChangesNothing(p, user, grants);
    var step := PublishChangeSet(p, user, grants);
    if step.outcome.Published? {
      var work := WorkOf(p, user);
      ProjectWellFormed(p.files, work.drafts, work.staged);
      var tree := Project(p.files, work.drafts, work.staged).value;
      if q in p.files {
        OldRowSurvives(p, tree, grants, step.project.files, q);
      } else {
        NoNewRow(p, tree, grants, step.project.files, q);
      }
    }
  }

  // --- a locked Main ---------------------------------------------------------------------

  /** Main is where it was, or gone. */
  predicate Stays(main: Option<Path>, ops: seq<W.Operation>)
  {
    W.MainThrough(main, ops) == main || W.MainThrough(main, ops) == None
  }

  predicate Harmless(op: W.Operation, main: Option<Path>)
  {
    !op.SetMainFile? && !(op.RenameFile? && main == Some(op.from))
  }

  lemma OneMoreStays(main: Option<Path>, ops: seq<W.Operation>, op: W.Operation)
    requires Stays(main, ops) && Harmless(op, main)
    ensures Stays(main, ops + [op])
  {
    assert (ops + [op])[..|ops|] == ops;
  }

  lemma EmitStays(phase: Phase, d: Delta, f: File, main: Option<Path>)
    requires d.Delta? && Takes(phase, f) && Stays(main, d.ops) && Emit(phase, d, f).Delta?
    requires main.Some? ==> !FollowsMain(f, main.value)
    ensures Stays(main, Emit(phase, d, f).ops)
  {
    match phase {
      case Deletes => OneMoreStays(main, d.ops, W.DeleteFile(f.origin.value));
      case Renames =>
        var moved := d.ops + [W.RenameFile(f.origin.value, f.path)];
        OneMoreStays(main, d.ops, W.RenameFile(f.origin.value, f.path));
        if f.modified {
          OneMoreStays(main, moved, W.PutFile(f.path, f.content));
        } else {
          assert Emit(phase, d, f).ops == moved;
        }
      case Writes => OneMoreStays(main, d.ops, W.PutFile(f.path, f.content));
    }
  }

  lemma {:induction false} PassStays(phase: Phase, d: Delta, files: seq<File>, main: Option<Path>)
    requires Pass(phase, d, files).Delta? && (d.Delta? ==> Stays(main, d.ops))
    requires main.Some? ==> forall f :: f in files ==> !FollowsMain(f, main.value)
    ensures Stays(main, Pass(phase, d, files).ops)
  {
    if files != [] {
      var most := files[..|files|-1];
      PassStays(phase, d, most, main);
      if Takes(phase, files[|files|-1]) {
        EmitStays(phase, Pass(phase, d, most), files[|files|-1], main);
      }
    }
  }

  lemma AllPassesStay(table: Table, files: seq<File>, main: Option<Path>)
    requires AllPasses(table, files).Delta?
    requires main.Some? ==> forall f :: f in files ==> !FollowsMain(f, main.value)
    ensures Stays(main, AllPasses(table, files).ops)
  {
    var start := Delta(table, [], 0);
    var deleted := Pass(Deletes, start, files);
    var renamed := Pass(Renames, deleted, files);
    PassCounts(Writes, renamed, files);
    PassCounts(Renames, deleted, files);
    PassStays(Deletes, start, files, main);
    PassStays(Renames, deleted, files, main);
    PassStays(Writes, renamed, files, main);
  }

  lemma NoFollower(tree: Tree, main: Path)
    requires NextMain(tree, Some(main)) == None
    ensures forall f :: f in tree.files ==> !FollowsMain(f, main)
  {
  }

  lemma EventStays(log: seq<W.Event>, event: W.Event)
    requires Stays(W.ReplayMain(log), event)
    ensures W.ReplayMain(log + [event]) == W.ReplayMain(log) || W.ReplayMain(log + [event]) == None
  {
    assert (log + [event])[..|log|] == log;
  }

  lemma UnmovedMain(p: ProjectState, tree: Tree, grants: Grants)
    requires p.mainLocked && Conflicts(p, tree, grants) == []
    ensures NextMain(tree, W.ReplayMain(p.log)) == None
  {
    var main := NextMain(tree, W.ReplayMain(p.log));
    assert MainConflicts(tree, main, true, grants) == [];
  }

  lemma CommittedMainStays(p: ProjectState, user: nat, tree: Tree)
    requires NextMain(tree, W.ReplayMain(p.log)) == None && AllPasses(p.files, tree.files).Delta?
    ensures SameOrGone(W.ReplayMain(p.log), W.ReplayMain(Commit(p, user, tree).project.log))
  {
    var main, d := W.ReplayMain(p.log), AllPasses(p.files, tree.files);
    if main.Some? { NoFollower(tree, main.value); }
    AllPassesStay(p.files, tree.files, main);
    assert EventOf(d, None) == d.ops;
    EventStays(p.log, d.ops);
  }

  lemma PublishedIsCommit(p: ProjectState, user: nat, grants: Grants)
    requires PublishChangeSet(p, user, grants).outcome.Published?
    ensures var r := Project(p.files, WorkOf(p, user).drafts, WorkOf(p, user).staged);
            && r.Ok? && Conflicts(p, r.value, grants) == [] && AllPasses(p.files, r.value.files).Delta?
            && PublishChangeSet(p, user, grants) == Commit(p, user, r.value)
  {
  }

  predicate SameOrGone(before: Option<Path>, after: Option<Path>)
  {
    after == before || after == None
  }

  /** While Main is locked a publication can only leave it or delete its file; it never moves elsewhere. */
  lemma LockedMainStays(p: ProjectState, user: nat, grants: Grants)
    requires p.mainLocked
    ensures SameOrGone(W.ReplayMain(p.log), W.ReplayMain(PublishChangeSet(p, user, grants).project.log))
  {
    if PublishChangeSet(p, user, grants).outcome.Published? {
      PublishedIsCommit(p, user, grants);
      var tree := Project(p.files, WorkOf(p, user).drafts, WorkOf(p, user).staged).value;
      UnmovedMain(p, tree, grants);
      CommittedMainStays(p, user, tree);
    } else {
      RefusedPublishChangesNothing(p, user, grants);
    }
  }

  // --- two tabs ------------------------------------------------------------------------------

  /** The step does not take the member's draft at `path` away. */
  predicate KeepsDraft(a: Action, user: nat, path: Path)
  {
    match a
    case DoPublish(u, _) => u != user
    case DoPublishDraft(u, _, q) => u != user || q != path
    case _ => true
  }

  predicate HasDraftFrom(p: ProjectState, user: nat, path: Path, revision: nat)
  {
    path in WorkOf(p, user).drafts && WorkOf(p, user).drafts[path].revision >= revision
  }

  lemma CommitIsPrivate(p: ProjectState, user: nat, tree: Tree, other: nat)
    requires other != user
    ensures WorkOf(Commit(p, user, tree).project, other) == WorkOf(p, other)
  {
  }

  lemma ChangeSetIsPrivate(p: ProjectState, user: nat, grants: Grants, other: nat)
    requires other != user
    ensures WorkOf(PublishChangeSet(p, user, grants).project, other) == WorkOf(p, other)
  {
    if PublishChangeSet(p, user, grants).outcome.Published? {
      PublishedIsCommit(p, user, grants);
      CommitIsPrivate(p, user, Project(p.files, WorkOf(p, user).drafts, WorkOf(p, user).staged).value, other);
    } else {
      RefusedPublishChangesNothing(p, user, grants);
    }
  }

  lemma PublishingIsPrivate(p: ProjectState, user: nat, grants: Grants, path: Path, other: nat)
    requires other != user
    ensures WorkOf(PublishChangeSet(p, user, grants).project, other) == WorkOf(p, other)
    ensures WorkOf(PublishDraft(p, user, grants, path).project, other) == WorkOf(p, other)
  {
    ChangeSetIsPrivate(p, user, grants, other);
  }

  lemma StepKeepsDraft(p: ProjectState, a: Action, user: nat, path: Path, revision: nat)
    requires HasDraftFrom(p, user, path, revision) && KeepsDraft(a, user, path)
    ensures HasDraftFrom(Perform(p, a), user, path, revision)
  {
    match a {
      case DoPublish(u, grants) => PublishingIsPrivate(p, u, grants, path, user);
      case DoPublishDraft(u, grants, q) =>
        if u != user { PublishingIsPrivate(p, u, grants, q, user); }
      case _ =>
    }
  }

  lemma {:induction false} RunKeepsDraft(p: ProjectState, actions: seq<Action>, user: nat, path: Path, revision: nat)
    requires HasDraftFrom(p, user, path, revision) && forall a :: a in actions ==> KeepsDraft(a, user, path)
    ensures HasDraftFrom(Run(p, actions), user, path, revision)
  {
    if actions != [] {
      RunKeepsDraft(p, actions[..|actions|-1], user, path, revision);
      StepKeepsDraft(Run(p, actions[..|actions|-1]), actions[|actions|-1], user, path, revision);
    }
  }

  lemma AcceptedSaveAdvances(p: ProjectState, user: nat, grants: Grants, path: Path, base: nat, content: Content,
                             expected: nat)
    requires SaveDraft(p, user, grants, path, base, content, Some(expected)).Accepted?
    ensures HasDraftFrom(SaveDraft(p, user, grants, path, base, content, Some(expected)).project, user, path,
            expected + 1)
  {
  }

  lemma OutdatedSaveIsRefused(p: ProjectState, user: nat, grants: Grants, path: Path, base: nat, content: Content,
                              expected: nat)
    requires HasDraftFrom(p, user, path, expected + 1)
    ensures SaveDraft(p, user, grants, path, base, content, Some(expected)).Refused?
  {
    assert KeepDraft(WorkOf(p, user), path, base, content, Some(expected)).Err?;
  }

  /**
   * Of two saves that expect the same draft revision at most one is accepted, whatever they carry and whatever any
   * member does in between, as long as the draft is not published away.
   */
  lemma SecondTabIsRefused(p: ProjectState, user: nat, grants: Grants, path: Path, expected: nat, base: nat,
                           content: Content,
                           actions: seq<Action>, grants': Grants, base': nat, content': Content)
    requires forall a :: a in actions ==> KeepsDraft(a, user, path)
    ensures var first := SaveDraft(p, user, grants, path, base, content, Some(expected));
            first.Accepted? ==>
              SaveDraft(Run(first.project, actions), user, grants', path, base', content', Some(expected)).Refused?
  {
    var first := SaveDraft(p, user, grants, path, base, content, Some(expected));
    if first.Accepted? {
      AcceptedSaveAdvances(p, user, grants, path, base, content, expected);
      RunKeepsDraft(first.project, actions, user, path, expected + 1);
      OutdatedSaveIsRefused(Run(first.project, actions), user, grants', path, base', content', expected);
    }
  }
}
