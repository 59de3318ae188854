/** The repository methods: each transaction updates one project's tables in place. */
module TeamProjects {
  import opened Common
  import opened Projection
  import opened Publish
  import opened Staging
  import W = Workspace
  import P = FilePolicies
  import Runs = ProjectRuns

  class TeamProject {
    var files: Table
    var members: map<nat, Member>
    var log: seq<W.Event>
    var generation: nat
    const mainLocked: bool
    var rules: seq<P.Rule>
    const fallback: P.FilePolicy

    ghost predicate Valid()
      reads this
    {
      P.Keyed(rules)
    }

    ghost function State(): ProjectState
      reads this
    {
      ProjectState(files, members, log, generation, mainLocked, rules, fallback)
    }

    constructor (files: Table, log: seq<W.Event>, mainLocked: bool, rules: seq<P.Rule>, fallback: P.FilePolicy)
      requires P.Keyed(rules)
      ensures Valid()
      ensures State() == ProjectState(files, map[], log, 1, mainLocked, rules, fallback)
    {
      this.files, this.members, this.log, this.generation := files, map[], log, 1;
      this.mainLocked, this.rules, this.fallback := mainLocked, rules, fallback;
    }

    // --- validation ------------------------------------------------------------------

    method MayWrite(grants: Grants, path: Path) returns (ok: bool)
      requires Valid()
      ensures ok == Writable(State(), grants, path)
    {
      var policy := P.PolicyForPath(rules, fallback, path);
      ok := policy == P.Editable || FileProtectedWrite in grants;
    }

    method PermissionConflicts(f: File, grants: Grants) returns (found: seq<ChangeConflict>)
      ensures found == Denied(f, Required(f), grants)
    {
      found := [];
      var needed := Required(f);
      for i := 0 to |needed|
        invariant found == Denied(f, needed[..i], grants)
      {
        assert needed[..i+1][..i] == needed[..i];
        if needed[i] !in grants {
          found := found + [ChangeConflict(Shown(f), Some(f.path), PermissionChanged)];
        }
      }
      assert needed[..|needed|] == needed;
    }

    method PolicyConflicts(f: File, grants: Grants) returns (found: seq<ChangeConflict>)
      requires Valid()
      ensures found == Protected(f, PolicyPaths(f), State(), grants)
    {
      found := [];
      var paths := PolicyPaths(f);
      for i := 0 to |paths|
        invariant found == Protected(f, paths[..i], State(), grants)
      {
        assert paths[..i+1][..i] == paths[..i];
        var ok := MayWrite(grants, paths[i]);
        if !ok {
          found := found + [ChangeConflict(paths[i], Some(f.path), PolicyChanged)];
        }
      }
      assert paths[..|paths|] == paths;
    }

    method ConflictsOfFile(f: File, locked: map<Path, nat>, grants: Grants) returns (found: seq<ChangeConflict>)
      requires Valid()
      ensures found == FileConflicts(f, locked, State(), grants)
    {
      found := SourceConflicts(f, locked) + DestinationConflicts(f, locked);
      if Required(f) != [] {
        var denied := PermissionConflicts(f, grants);
        var protected := PolicyConflicts(f, grants);
        found := found + (denied + protected);
      }
    }

    method FindFileConflicts(tree: seq<File>, grants: Grants) returns (found: seq<ChangeConflict>)
      requires Valid()
      ensures found == AllFileConflicts(tree, Locked(tree, files), State(), grants)
    {
      found := [];
      var locked := Locked(tree, files);
      for i := 0 to |tree|
        invariant found == AllFileConflicts(tree[..i], locked, State(), grants)
      {
        assert tree[..i+1][..i] == tree[..i];
        var more := ConflictsOfFile(tree[i], locked, grants);
        found := found + more;
      }
      assert tree[..|tree|] == tree;
    }

    method FindMainConflicts(tree: Tree, main: Option<Path>, grants: Grants) returns (found: seq<ChangeConflict>)
      ensures found == MainConflicts(tree, main, mainLocked, grants)
    {
      found := [];
      if main.Some? {
        if mainLocked {
          found := found + [ChangeConflict(main.value, None, MainLocked)];
        }
        if tree.main.Some? && FileSetMain !in grants {
          found := found + [ChangeConflict(main.value, None, PermissionChanged)];
        }
        if !HasLive(tree.files, main.value) {
          found := found + [ChangeConflict(main.value, None, MainTargetMissing)];
        }
      }
    }

    method FindConflicts(tree: Tree, main: Option<Path>, grants: Grants) returns (conflicts: seq<ChangeConflict>)
      requires Valid() && main == NextMain(tree, W.ReplayMain(log))
      ensures conflicts == Conflicts(State(), tree, grants)
    {
      conflicts := FindFileConflicts(tree.files, grants);
      var more := FindMainConflicts(tree, main, grants);
      conflicts := conflicts + more;
    }

    // --- the three passes over the table ------------------------------------------------

    method DeleteRows(tree: seq<File>) returns (ops: seq<W.Operation>, changes: nat)
      modifies `files
      ensures Delta(files, ops, changes) == Pass(Deletes, Delta(old(files), [], 0), tree)
    {
      ops, changes := [], 0;
      for i := 0 to |tree|
        invariant Delta(files, ops, changes) == Pass(Deletes, Delta(old(files), [], 0), tree[..i])
      {
        assert tree[..i+1][..i] == tree[..i];
        if tree[i].pendingDelete && tree[i].origin.Some? {
          files := files - {tree[i].origin.value};
          ops := ops + [W.DeleteFile(tree[i].origin.value)];
          changes := changes + 1;
        }
      }
      assert tree[..|tree|] == tree;
    }

    method MoveRows(tree: seq<File>, ops0: seq<W.Operation>, changes0: nat)
      returns (failed: Option<Failure>, ops: seq<W.Operation>, changes: nat)
      modifies `files
      ensures Pass(Renames, Delta(old(files), ops0, changes0), tree) ==
              if failed.Some? then Aborted(failed.value) else Delta(files, ops, changes)
    {
      failed, ops, changes := None, ops0, changes0;
      ghost var start := Delta(files, ops0, changes0);
      for i := 0 to |tree|
        invariant failed.None? && Pass(Renames, start, tree[..i]) == Delta(files, ops, changes)
      {
        assert tree[..i+1][..i] == tree[..i];
        var f := tree[i];
        if !f.pendingDelete && f.renamed {
          if f.origin.None? {
            failed := Some(Missing);
          } else if NextRevision(f).Err? {
            failed := Some(NextRevision(f).error);
          } else {
            files := files - {f.origin.value};
            if f.path in files {
              failed := Some(DuplicateKey);
            } else {
              files := files[f.path := Entry(f.content, NextRevision(f).value)];
              ops := ops + [W.RenameFile(f.origin.value, f.path)];
              if f.modified {
                ops := ops + [W.PutFile(f.path, f.content)];
              }
              changes := changes + 1;
            }
          }
          if failed.Some? {
            PassStops(Renames, start, tree, i + 1);
            return;
          }
        }
      }
      assert tree[..|tree|] == tree;
    }

    method WriteRows(tree: seq<File>, ops0: seq<W.Operation>, changes0: nat)
      returns (failed: Option<Failure>, ops: seq<W.Operation>, changes: nat)
      modifies `files
      ensures Pass(Writes, Delta(old(files), ops0, changes0), tree) ==
              if failed.Some? then Aborted(failed.value) else Delta(files, ops, changes)
    {
      failed, ops, changes := None, ops0, changes0;
      ghost var start := Delta(files, ops0, changes0);
      for i := 0 to |tree|
        invariant Pass(Writes, start, tree[..i]) == Delta(files, ops, changes)
      {
        assert tree[..i+1][..i] == tree[..i];
        var f := tree[i];
        if !f.pendingDelete && !f.renamed && (f.modified || f.added) {
          if NextRevision(f).Err? {
            failed := Some(NextRevision(f).error);
            PassStops(Writes, start, tree, i + 1);
            return;
          }
          files := files[f.path := Entry(f.content, NextRevision(f).value)];
          ops := ops + [W.PutFile(f.path, f.content)];
          changes := changes + 1;
        }
      }
      assert tree[..|tree|] == tree;
    }

    // --- publication ------------------------------------------------------------------------

    method PublishChanges(user: nat, grants: Grants) returns (outcome: Outcome)
      requires Valid()
      modifies this
      ensures Valid()
      ensures Publication(State(), outcome) == PublishChangeSet(old(State()), user, grants)
    {
      var work := if user in members then members[user] else NO_WORK;
      var projected := PrivateWorkingTree(files, work.drafts, work.staged);
      if projected.Err? {
        return Failed(TreeFailed(projected.error));
      }
      var tree := projected.value;
      if tree.summary.total == 0 {
        return Failed(NothingStaged);
      }
      var current := W.FindMain(log);
      var main := NextMain(tree, current);
      var conflicts := FindConflicts(tree, main, grants);
      if conflicts != [] {
        return Rejected(Deduplicated(conflicts));
      }
      outcome := CommitTree(user, tree, main);
    }

    /** Everything after validation; a failed statement rolls the table back. */
    method CommitTree(user: nat, tree: Tree, main: Option<Path>) returns (outcome: Outcome)
      requires Valid() && main == NextMain(tree, W.ReplayMain(log))
      modifies this
      ensures Valid()
      ensures Publication(State(), outcome) == Commit(old(State()), user, tree)
    {
      var saved := files;
      var ops, changes := DeleteRows(tree.files);
      var failed;
      failed, ops, changes := MoveRows(tree.files, ops, changes);
      if failed.None? {
        failed, ops, changes := WriteRows(tree.files, ops, changes);
      } else {
        PassOfAborted(Writes, failed.value, tree.files);
      }
      if failed.Some? {
        files := saved;
        return Failed(failed.value);
      }
      assert AllPasses(saved, tree.files) == Delta(files, ops, changes);
      if main.Some? {
        ops := ops + [W.SetMainFile(main.value)];
      }
      assert ops == EventOf(AllPasses(saved, tree.files), main);
      log := log + [ops];
      generation := generation + 1;
      members := members[user := NO_WORK];
      outcome := Published(generation, |log|, changes);
    }

    method PublishOneDraft(user: nat, grants: Grants, path: Path) returns (outcome: DraftOutcome)
      requires Valid()
      modifies this
      ensures Valid()
      ensures DraftPublication(State(), outcome) == PublishDraft(old(State()), user, grants, path)
    {
      var work := if user in members then members[user] else NO_WORK;
      var ok := MayWrite(grants, path);
      if FileWrite !in grants || !ok {
        return DraftFailed(Forbidden);
      }
      if path !in work.drafts {
        return DraftFailed(Missing);
      }
      var d := work.drafts[path];
      var current := if path in files then files[path].revision else 0;
      if d.base != current {
        return DraftConflict(current);
      }
      if current + 1 > MAX_REVISION {
        return DraftFailed(Overflow);
      }
      files := files[path := Entry(d.content, current + 1)];
      log := log + [[W.PutFile(path, d.content)]];
      generation := generation + 1;
      members := members[user := work.(drafts := work.drafts - {path})];
      outcome := DraftPublished(generation, |log|, current + 1);
    }

    // --- private work and policies --------------------------------------------------------------

    method StageOperation(user: nat, grants: Grants, request: Request) returns (refusal: Option<Refusal>)
      requires Valid()
      modifies `members
      ensures Stage(old(State()), user, grants, request) ==
              if refusal.Some? then Refused(refusal.value) else Accepted(State())
      ensures refusal.Some? ==> State() == old(State())
    {
      refusal := None;
      var allowed := false;
      match request {
        case DeleteFile(source) =>
          var ok := MayWrite(grants, source);
          allowed := FileDelete in grants && ok;
        case RenameFile(source, destination) =>
          var from := MayWrite(grants, source);
          var to := MayWrite(grants, destination);
          allowed := FileRename in grants && from && to;
        case SetMainFile(_) =>
          allowed := FileSetMain in grants && !mainLocked;
      }
      if !allowed {
        return Some(NotAllowed);
      }
      var work := if user in members then members[user] else NO_WORK;
      var projected := PrivateWorkingTree(files, work.drafts, work.staged);
      if projected.Err? {
        return Some(Unprojectable(projected.error));
      }
      var tree := projected.value;
      if request.DeleteFile? && tree.main == Some(request.source) {
        return Some(Clash);
      }
      var op := OperationFor(tree, request);
      if op.None? {
        return Some(NoSuchFile);
      }
      if request.RenameFile? && HasLive(tree.files, request.destination) {
        return Some(Clash);
      }
      var kept := if request.SetMainFile? then WithoutMain(work.staged) else work.staged;
      members := members[user := work.(staged := kept + [op.value])];
    }

    method SaveMemberDraft(user: nat, grants: Grants, path: Path, base: nat, content: Content, expected: Option<nat>)
      returns (refusal: Option<Refusal>)
      requires Valid()
      modifies `members
      ensures SaveDraft(old(State()), user, grants, path, base, content, expected) ==
              if refusal.Some? then Refused(refusal.value) else Accepted(State())
      ensures refusal.Some? ==> State() == old(State())
    {
      refusal := None;
      var ok := MayWrite(grants, path);
      if FileWrite !in grants || !ok {
        return Some(NotAllowed);
      }
      var work := if user in members then members[user] else NO_WORK;
      var projected := PrivateWorkingTree(files, work.drafts, work.staged);
      if projected.Err? {
        return Some(Unprojectable(projected.error));
      }
      var tree := projected.value.files;
      if !Shows(tree, path) && FileCreate !in grants {
        return Some(NotAllowed);
      }
      if Gone(tree, path) {
        return Some(Clash);
      }
      var kept := KeepDraft(work, path, base, content, expected);
      if kept.Err? {
        return Some(kept.error);
      }
      members := members[user := kept.value];
    }

    method SetFilePolicy(grants: Grants, admin: bool, path: Path, policy: P.FilePolicy) returns (accepted: bool)
      requires Valid()
      modifies `rules
      ensures Valid()
      ensures State() == Runs.SetPolicy(old(State()), grants, admin, path, policy)
      ensures accepted <==> ProjectManage in grants && path in files && P.Allowed(old(rules), admin, path, policy)
    {
      if ProjectManage !in grants || path !in files {
        return false;
      }
      if !admin {
        var floor := P.TemplatePolicyForPath(rules, path);
        if floor.Some? && P.Rank(policy) < P.Rank(floor.value) {
          return false;
        }
      }
      P.UpsertMembers(rules, path, policy);
      rules := P.Upsert(rules, path, policy);
      accepted := true;
    }
  }

  lemma {:induction false} PassOfAborted(phase: Phase, e: Failure, files: seq<File>)
    ensures Pass(phase, Aborted(e), files) == Aborted(e)
  {
    if files != [] {
      PassOfAborted(phase, e, files[..|files|-1]);
    }
  }

  lemma {:induction false} PassStops(phase: Phase, d: Delta, files: seq<File>, n: nat)
    requires n <= |files| && Pass(phase, d, files[..n]).Aborted?
    ensures Pass(phase, d, files) == Pass(phase, d, files[..n])
    decreases |files| - n
  {
    if n == |files| {
      assert files[..n] == files;
    } else {
      assert files[..n+1][..n] == files[..n];
      PassStops(phase, d, files, n + 1);
    }
  }
}
