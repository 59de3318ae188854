/** When a change set is published, why it is rejected, and which grants a publication must have had. */
module PublicationRules {
  import opened Common
  import opened Counting
  import opened PathOrder
  import opened Projection
  import opened ProjectionFacts
  import opened Publish
  import opened PublishFacts
  import opened ProjectRuns
  import W = Workspace

  predicate Touched(f: File)
  {
    f.pendingDelete || f.added || f.renamed || f.modified
  }

  /** The projected file still builds on the row as it is. */
  predicate Current(f: File, table: Table)
  {
    f.origin.Some? ==> f.origin.value in table && f.revision == Some(table[f.origin.value].revision)
  }

  /** A file that is new at its path finds no row there. */
  predicate Free(f: File, table: Table)
  {
    !f.pendingDelete && f.origin != Some(f.path) ==> f.path !in table
  }

  predicate Granted(f: File, grants: Grants)
  {
    && (f.pendingDelete ==> FileDelete in grants)
    && (!f.pendingDelete && f.added ==> FileCreate in grants)
    && (!f.pendingDelete && f.renamed ==> FileRename in grants)
    && (!f.pendingDelete && (f.added || f.modified) ==> FileWrite in grants)
  }

  /** The paths a touched file leaves or enters may be written. */
  ghost predicate Unprotected(f: File, p: ProjectState, grants: Grants)
  {
    Touched(f) ==>
      && (f.origin.Some? ==> Writable(p, grants, f.origin.value))
      && (!f.pendingDelete ==> Writable(p, grants, f.path))
  }

  /** The file that is Main now shows at another path. */
  predicate MovesMain(p: ProjectState, f: File)
  {
    !f.pendingDelete && f.renamed && f.origin.Some? && W.ReplayMain(p.log) == f.origin
  }

  /** Main is chosen with the grant for it and not while it is locked, and a locked Main is not moved with its file. */
  ghost predicate MainAllowed(p: ProjectState, tree: Tree, grants: Grants)
  {
    && (tree.main.Some? ==> !p.mainLocked && FileSetMain in grants)
    && (p.mainLocked ==> forall f :: f in tree.files ==> !MovesMain(p, f))
  }

  predicate CounterLeft(f: File, table: Table)
  {
    !f.pendingDelete && !f.added && (f.renamed || f.modified) && f.origin.Some? && f.origin.value in table
    ==> table[f.origin.value].revision < MAX_REVISION
  }

  ghost predicate Acceptable(p: ProjectState, tree: Tree, grants: Grants)
  {
    && (forall f :: f in tree.files ==>
          Current(f, p.files) && Free(f, p.files) && Granted(f, grants) && Unprotected(f, p, grants))
    && MainAllowed(p, tree, grants)
  }

  // --- file by file ----------------------------------------------------------------------

  lemma {:induction false} DeniedExactly(f: File, needed: seq<Permission>, grants: Grants)
    ensures Denied(f, needed, grants) == [] <==> forall n :: n in needed ==> n in grants
    ensures forall c :: c in Denied(f, needed, grants) ==>
              c == ChangeConflict(Shown(f), Some(f.path), PermissionChanged)
  {
    if needed != [] {
      DeniedExactly(f, needed[..|needed|-1], grants);
      assert needed == needed[..|needed|-1] + [needed[|needed|-1]];
    }
  }

  lemma {:induction false} ProtectedExactly(f: File, paths: seq<Path>, p: ProjectState, grants: Grants,
                                            c: ChangeConflict)
    ensures c in Protected(f, paths, p, grants)
        <==> c.path in paths && !Writable(p, grants, c.path) && c == ChangeConflict(c.path, Some(f.path), PolicyChanged)
  {
    if paths != [] {
      ProtectedExactly(f, paths[..|paths|-1], p, grants, c);
      assert paths == paths[..|paths|-1] + [paths[|paths|-1]];
    }
  }

  lemma RequiredExactly(f: File, table: Table, grants: Grants)
    requires FileOk(f, table)
    ensures Required(f) == [] <==> !Touched(f)
    ensures (forall n :: n in Required(f) ==> n in grants) <==> Granted(f, grants)
  {
    if f.pendingDelete {
      assert FileDelete in Required(f);
    } else if f.added {
      assert FileCreate in Required(f) && FileWrite in Required(f);
    } else {
      if f.renamed { assert FileRename in Required(f); }
      if f.modified { assert FileWrite in Required(f); }
    }
  }

  lemma PolicyPathsExactly(f: File, table: Table, q: Path)
    requires FileOk(f, table)
    ensures Touched(f) ==> (q in PolicyPaths(f) <==> f.origin == Some(q) || (!f.pendingDelete && f.path == q))
  {
    if f.origin == Some(q) { assert PolicyPaths(f)[0] == q; }
    if (f.added || f.renamed) && !f.pendingDelete { assert PolicyPaths(f)[|PolicyPaths(f)|-1] == f.path; }
  }

  ghost predicate Objection(f: File, table: Table, p: ProjectState, grants: Grants, c: ChangeConflict)
  {
    match c.reason
    case ChangedSinceEdit =>
      f.origin == Some(c.path) && c.destination == Some(f.path)
      && c.path in table && f.revision != Some(table[c.path].revision)
    case DestinationExists =>
      !f.pendingDelete && f.path in table && f.origin != Some(f.path)
      && (if f.added then c.path == f.path && c.destination == None
          else f.origin == Some(c.path) && c.destination == Some(f.path))
    case PermissionChanged =>
      !Granted(f, grants) && c.destination == Some(f.path) && (if f.added then c.path == f.path
                                                               else f.origin == Some(c.path))
    case PolicyChanged =>
      Touched(f) && !Writable(p, grants, c.path) && c.destination == Some(f.path)
      && (f.origin == Some(c.path) || (!f.pendingDelete && f.path == c.path))
    case _ => false
  }

  ghost predicate WholeTable(locked: map<Path, nat>, table: Table)
  {
    locked == map o | o in table :: table[o].revision
  }

  lemma SourceExactly(f: File, locked: map<Path, nat>, table: Table, c: ChangeConflict)
    requires FileOk(f, table) && WholeTable(locked, table)
    ensures c in SourceConflicts(f, locked)
        <==> c.reason.ChangedSinceEdit? && f.origin == Some(c.path) && c.destination == Some(f.path)
             && f.revision != Some(table[c.path].revision)
  {
  }

  lemma DestinationExactly(f: File, locked: map<Path, nat>, table: Table, c: ChangeConflict)
    requires FileOk(f, table) && WholeTable(locked, table)
    ensures c in DestinationConflicts(f, locked)
        <==> c.reason.DestinationExists? && !f.pendingDelete && f.path in table && f.origin != Some(f.path)
             && (if f.added then c.path == f.path && c.destination == None
                 else f.origin == Some(c.path) && c.destination == Some(f.path))
  {
  }

  lemma DeniedMembers(f: File, table: Table, grants: Grants, c: ChangeConflict)
    requires FileOk(f, table)
    ensures c in Denied(f, Required(f), grants)
        <==> !Granted(f, grants) && c == ChangeConflict(Shown(f), Some(f.path), PermissionChanged)
  {
    RequiredExactly(f, table, grants);
    DeniedExactly(f, Required(f), grants);
    var denied := Denied(f, Required(f), grants);
    if denied != [] { assert denied[0] in denied; }
  }

  lemma ProtectedMembers(f: File, p: ProjectState, grants: Grants, c: ChangeConflict)
    requires FileOk(f, p.files) && Touched(f)
    ensures c in Protected(f, PolicyPaths(f), p, grants)
        <==> c.reason.PolicyChanged? && !Writable(p, grants, c.path) && c.destination == Some(f.path)
             && (f.origin == Some(c.path) || (!f.pendingDelete && f.path == c.path))
  {
    ProtectedExactly(f, PolicyPaths(f), p, grants, c);
    PolicyPathsExactly(f, p.files, c.path);
  }

  lemma AccessExactly(f: File, p: ProjectState, grants: Grants, c: ChangeConflict)
    requires FileOk(f, p.files)
    ensures var found := if Required(f) == [] then []
                         else Denied(f, Required(f), grants) + Protected(f, PolicyPaths(f), p, grants);
            c in found <==> (c.reason.PermissionChanged? || c.reason.PolicyChanged?)
                            && Objection(f, p.files, p, grants, c)
  {
    RequiredExactly(f, p.files, grants);
    if Touched(f) {
      DeniedMembers(f, p.files, grants, c);
      ProtectedMembers(f, p, grants, c);
    }
  }

  lemma RevisionExactly(f: File, locked: map<Path, nat>, p: ProjectState, grants: Grants, c: ChangeConflict)
    requires FileOk(f, p.files) && WholeTable(locked, p.files)
    ensures c in SourceConflicts(f, locked) + DestinationConflicts(f, locked)
        <==> (c.reason.ChangedSinceEdit? || c.reason.DestinationExists?) && Objection(f, p.files, p, grants, c)
  {
    SourceExactly(f, locked, p.files, c);
    DestinationExactly(f, locked, p.files, c);
  }

  lemma FileConflictsExactly(f: File, locked: map<Path, nat>, p: ProjectState, grants: Grants, c: ChangeConflict)
    requires FileOk(f, p.files) && WholeTable(locked, p.files)
    ensures c in FileConflicts(f, locked, p, grants) <==> Objection(f, p.files, p, grants, c)
  {
    RevisionExactly(f, locked, p, grants, c);
    AccessExactly(f, p, grants, c);
    var access := if Required(f) == [] then []
                  else Denied(f, Required(f), grants) + Protected(f, PolicyPaths(f), p, grants);
    assert FileConflicts(f, locked, p, grants)
           == (SourceConflicts(f, locked) + DestinationConflicts(f, locked)) + access;
    if Objection(f, p.files, p, grants, c) { OnlyFourReasons(f, p, grants, c); }
  }

  lemma OnlyFourReasons(f: File, p: ProjectState, grants: Grants, c: ChangeConflict)
    requires Objection(f, p.files, p, grants, c)
    ensures c.reason.ChangedSinceEdit? || c.reason.DestinationExists? || c.reason.PermissionChanged?
            || c.reason.PolicyChanged?
  {
  }

  /** Some file objects. */
  ghost predicate Objected(files: seq<File>, p: ProjectState, grants: Grants, c: ChangeConflict)
  {
    exists f :: f in files && Objection(f, p.files, p, grants, c)
  }

  lemma {:induction false} FilesObjectExactly(files: seq<File>, locked: map<Path, nat>, p: ProjectState,
                                              grants: Grants, c: ChangeConflict)
    requires WholeTable(locked, p.files) && forall f :: f in files ==> FileOk(f, p.files)
    ensures c in AllFileConflicts(files, locked, p, grants) <==> Objected(files, p, grants, c)
  {
    if files != [] {
      var most, last := files[..|files|-1], files[|files|-1];
      assert files == most + [last];
      FilesObjectExactly(most, locked, p, grants, c);
      FileConflictsExactly(last, locked, p, grants, c);
    }
  }

  // --- Main --------------------------------------------------------------------------------

  /** The Main that the publication would record. */
  ghost predicate NewMain(p: ProjectState, tree: Tree, m: Path)
  {
    || tree.main == Some(m)
    || (tree.main == None
        && exists f :: f in tree.files && f.path == m && MovesMain(p, f))
  }

  lemma OneFollower(files: seq<File>, current: Path, k: nat, i: nat)
    requires Pairwise(files, Apart) && k < |files| && i < |files|
    requires FollowsMain(files[k], current) && FollowsMain(files[i], current)
    ensures k == i
  {
    assert k == i || Apart(files[k], files[i]);
  }

  lemma NextMainExactly(p: ProjectState, tree: Tree, m: Path)
    requires WellFormed(tree.files, p.files)
    ensures NextMain(tree, W.ReplayMain(p.log)) == Some(m) <==> NewMain(p, tree, m)
  {
    var current := W.ReplayMain(p.log);
    if tree.main.None? && current.Some? {
      var k := FirstFollower(tree.files, current.value);
      if k < |tree.files| { assert tree.files[k] in tree.files; }
      if f :| f in tree.files && f.path == m && MovesMain(p, f) {
        var i :| 0 <= i < |tree.files| && tree.files[i] == f;
        assert FollowsMain(f, current.value);
        OneFollower(tree.files, current.value, k, i);
      }
    }
  }

  ghost predicate MainObjection(p: ProjectState, tree: Tree, grants: Grants, c: ChangeConflict)
  {
    c.destination == None &&
    match c.reason
    case MainLocked => p.mainLocked && NewMain(p, tree, c.path)
    case PermissionChanged => tree.main == Some(c.path) && FileSetMain !in grants
    case _ => false
  }

  lemma NewMainShows(p: ProjectState, tree: Tree, m: Path)
    requires NewMain(p, tree, m)
    requires tree.main.Some? ==> exists f :: f in tree.files && LiveAt(f, tree.main.value)
    ensures HasLive(tree.files, m)
  {
    var f :| f in tree.files && LiveAt(f, m);
    if !HasLive(tree.files, m) { NotLive(tree.files, m); }
  }

  lemma MainConflictsExactly(p: ProjectState, tree: Tree, grants: Grants, c: ChangeConflict)
    requires WellFormed(tree.files, p.files)
    requires tree.main.Some? ==> exists f :: f in tree.files && LiveAt(f, tree.main.value)
    ensures c in MainConflicts(tree, NextMain(tree, W.ReplayMain(p.log)), p.mainLocked, grants)
        <==> MainObjection(p, tree, grants, c)
  {
    var main := NextMain(tree, W.ReplayMain(p.log));
    NextMainExactly(p, tree, c.path);
    if main.Some? {
      NextMainExactly(p, tree, main.value);
      NewMainShows(p, tree, main.value);
    }
  }

  // --- the whole list ------------------------------------------------------------------------

  ghost predicate FromProjection(p: ProjectState, tree: Tree)
  {
    && WellFormed(tree.files, p.files) && tree.summary == Summarize(tree.files, tree.main)
    && (tree.main.Some? ==> exists f :: f in tree.files && LiveAt(f, tree.main.value))
  }

  /** What is reported, and no more: the reason, the path and the destination of every objection. */
  lemma ConflictsExactly(p: ProjectState, tree: Tree, grants: Grants, c: ChangeConflict)
    requires FromProjection(p, tree)
    ensures c in Conflicts(p, tree, grants)
        <==> Objected(tree.files, p, grants, c) || MainObjection(p, tree, grants, c)
  {
    LockedIsWholeTable(tree.files, p.files);
    FilesObjectExactly(tree.files, Locked(tree.files, p.files), p, grants, c);
    MainConflictsExactly(p, tree, grants, c);
  }

  lemma ObjectionMeans(f: File, p: ProjectState, grants: Grants)
    requires FileOk(f, p.files)
    ensures (forall c :: !Objection(f, p.files, p, grants, c))
        <==> Current(f, p.files) && Free(f, p.files) && Granted(f, grants) && Unprotected(f, p, grants)
  {
    var o := if f.origin.Some? then f.origin.value else f.path;
    if !Current(f, p.files) {
      assert Objection(f, p.files, p, grants, ChangeConflict(o, Some(f.path), ChangedSinceEdit));
    }
    if !Free(f, p.files) {
      var c := ChangeConflict(o, if f.added then None else Some(f.path), DestinationExists);
      assert Objection(f, p.files, p, grants, c);
    }
    if !Granted(f, grants) {
      assert Objection(f, p.files, p, grants, ChangeConflict(o, Some(f.path), PermissionChanged));
    }
    if !Unprotected(f, p, grants) {
      var q := if f.origin.Some? && !Writable(p, grants, o) then o else f.path;
      assert Objection(f, p.files, p, grants, ChangeConflict(q, Some(f.path), PolicyChanged));
    }
  }

  lemma MainObjectionMeans(p: ProjectState, tree: Tree, grants: Grants)
    ensures (forall c :: !MainObjection(p, tree, grants, c)) <==> MainAllowed(p, tree, grants)
  {
    if tree.main.Some? && !(!p.mainLocked && FileSetMain in grants) {
      var reason := if p.mainLocked then MainLocked else PermissionChanged;
      assert MainObjection(p, tree, grants, ChangeConflict(tree.main.value, None, reason));
    }
    if p.mainLocked && tree.main.None? {
      if f :| f in tree.files && MovesMain(p, f) {
        assert MainObjection(p, tree, grants, ChangeConflict(f.path, None, MainLocked));
      }
    }
  }

  lemma QuietIsAcceptable(p: ProjectState, tree: Tree, grants: Grants)
    requires FromProjection(p, tree) && Conflicts(p, tree, grants) == []
    ensures Acceptable(p, tree, grants)
  {
    forall f, c | f in tree.files ensures !Objection(f, p.files, p, grants, c) {
      ConflictsExactly(p, tree, grants, c);
      assert !Objected(tree.files, p, grants, c);
    }
    forall f | f in tree.files
      ensures Current(f, p.files) && Free(f, p.files) && Granted(f, grants) && Unprotected(f, p, grants)
    {
      ObjectionMeans(f, p, grants);
    }
    forall c ensures !MainObjection(p, tree, grants, c) {
      ConflictsExactly(p, tree, grants, c);
    }
    MainObjectionMeans(p, tree, grants);
  }

  lemma AcceptableIsQuiet(p: ProjectState, tree: Tree, grants: Grants)
    requires FromProjection(p, tree) && Acceptable(p, tree, grants)
    ensures Conflicts(p, tree, grants) == []
  {
    var conflicts := Conflicts(p, tree, grants);
    if conflicts != [] {
      var c := conflicts[0];
      ConflictsExactly(p, tree, grants, c);
      MainObjectionMeans(p, tree, grants);
      if Objected(tree.files, p, grants, c) {
        var f :| f in tree.files && Objection(f, p.files, p, grants, c);
        ObjectionMeans(f, p, grants);
      }
    }
  }

  lemma QuietExactly(p: ProjectState, tree: Tree, grants: Grants)
    requires FromProjection(p, tree)
    ensures Conflicts(p, tree, grants) == [] <==> Acceptable(p, tree, grants)
  {
    if Conflicts(p, tree, grants) == [] {
      QuietIsAcceptable(p, tree, grants);
    }
    if Acceptable(p, tree, grants) {
      AcceptableIsQuiet(p, tree, grants);
    }
  }

  // --- revision counters -----------------------------------------------------------------------

  predicate CountsOn(f: File)
  {
    NextRevision(f).Err? && (Takes(Renames, f) || Takes(Writes, f))
  }

  lemma {:induction false} PassStopsExactly(phase: Phase, d: Delta, files: seq<File>)
    ensures d.Aborted? ==> Pass(phase, d, files) == d
    ensures Pass(phase, d, files).Delta? && !phase.Deletes?
            ==> forall f :: f in files && Takes(phase, f) ==> NextRevision(f).Ok?
    ensures d.Delta? && Pass(phase, d, files) == Aborted(Overflow)
            ==> exists f :: f in files && Takes(phase, f) && NextRevision(f) == Err(Overflow)
    ensures d.Delta? && phase.Deletes? ==> Pass(phase, d, files).Delta?
  {
    if files != [] {
      var most, last := files[..|files|-1], files[|files|-1];
      assert files == most + [last];
      PassStopsExactly(phase, d, most);
      if d.Delta? && Pass(phase, d, files) == Aborted(Overflow) {
        if Pass(phase, d, most).Delta? {
          assert last in files && Takes(phase, last) && NextRevision(last) == Err(Overflow);
        } else {
          var f :| f in most && Takes(phase, f) && NextRevision(f) == Err(Overflow);
          assert f in files;
        }
      }
    }
  }

  lemma CounterExactly(f: File, table: Table)
    requires FileOk(f, table) && Current(f, table)
    ensures CounterLeft(f, table) <==> (Takes(Renames, f) || Takes(Writes, f) ==> NextRevision(f) != Err(Overflow))
    ensures Takes(Renames, f) || Takes(Writes, f) ==> NextRevision(f).Ok? || NextRevision(f) == Err(Overflow)
  {
  }

  lemma OverflowExactly(p: ProjectState, tree: Tree, grants: Grants)
    requires FromProjection(p, tree) && tree.summary.total > 0 && Conflicts(p, tree, grants) == []
    ensures AllPasses(p.files, tree.files).Delta? <==> forall f :: f in tree.files ==> CounterLeft(f, p.files)
  {
    QuietExactly(p, tree, grants);
    DeltaDelivers(p, tree, grants);
    var d0 := Delta(p.files, [], 0);
    var d1 := Pass(Deletes, d0, tree.files);
    var d2 := Pass(Renames, d1, tree.files);
    PassStopsExactly(Deletes, d0, tree.files);
    PassStopsExactly(Renames, d1, tree.files);
    PassStopsExactly(Writes, d2, tree.files);
    forall f | f in tree.files
      ensures CounterLeft(f, p.files) <==> (Takes(Renames, f) || Takes(Writes, f) ==> NextRevision(f) != Err(Overflow))
      ensures Takes(Renames, f) || Takes(Writes, f) ==> NextRevision(f).Ok? || NextRevision(f) == Err(Overflow)
    {
      CounterExactly(f, p.files);
    }
  }

  // --- the decision ---------------------------------------------------------------------------------

  lemma {:induction false} CountsSome(files: seq<File>, p: File -> bool)
    ensures Count(files, p) > 0 <==> exists f :: f in files && p(f)
  {
    if files != [] {
      var most, last := files[..|files|-1], files[|files|-1];
      assert files == most + [last];
      CountsSome(most, p);
      if p(last) { assert last in files; }
      if f :| f in most && p(f) { assert f in files; }
    }
  }

  lemma SomethingStaged(p: ProjectState, tree: Tree)
    requires FromProjection(p, tree)
    ensures tree.summary.total > 0 <==> tree.main.Some? || exists f :: f in tree.files && Touched(f)
  {
    CountsSome(tree.files, IsModified);
    CountsSome(tree.files, IsAdded);
    CountsSome(tree.files, IsRenamed);
    CountsSome(tree.files, IsDeleted);
    if f :| f in tree.files && Touched(f) {
      assert FileOk(f, p.files);
      assert IsModified(f) || IsAdded(f) || IsRenamed(f) || IsDeleted(f);
    }
    if f :| f in tree.files && (IsModified(f) || IsAdded(f) || IsRenamed(f) || IsDeleted(f)) {
      assert Touched(f);
    }
  }

  /** Something is staged, nothing objects, and no revision counter is used up. */
  ghost predicate Publishable(p: ProjectState, tree: Tree, grants: Grants)
  {
    && (tree.main.Some? || exists f :: f in tree.files && Touched(f))
    && Acceptable(p, tree, grants)
    && (forall f :: f in tree.files ==> CounterLeft(f, p.files))
  }

  lemma ProjectedTree(p: ProjectState, user: nat)
    requires Project(p.files, WorkOf(p, user).drafts, WorkOf(p, user).staged).Ok?
    ensures FromProjection(p, Project(p.files, WorkOf(p, user).drafts, WorkOf(p, user).staged).value)
  {
    ProjectWellFormed(p.files, WorkOf(p, user).drafts, WorkOf(p, user).staged);
  }

  lemma CommitDecided(p: ProjectState, user: nat, tree: Tree)
    ensures !Commit(p, user, tree).outcome.Rejected?
    ensures Commit(p, user, tree).outcome.Published? <==> AllPasses(p.files, tree.files).Delta?
  {
  }

  lemma Decided(p: ProjectState, user: nat, grants: Grants, tree: Tree)
    requires Project(p.files, WorkOf(p, user).drafts, WorkOf(p, user).staged) == Ok(tree)
    ensures PublishChangeSet(p, user, grants).outcome.Published?
        <==> tree.summary.total > 0 && Conflicts(p, tree, grants) == [] && AllPasses(p.files, tree.files).Delta?
    ensures PublishChangeSet(p, user, grants).outcome.Rejected?
        ==> PublishChangeSet(p, user, grants).outcome.conflicts == set c | c in Conflicts(p, tree, grants)
  {
    var step, conflicts := PublishChangeSet(p, user, grants), Conflicts(p, tree, grants);
    CommitDecided(p, user, tree);
    if tree.summary.total > 0 {
      assert step == if conflicts != [] then Publication(p, Rejected(Deduplicated(conflicts)))
                     else Commit(p, user, tree);
    }
  }

  lemma PublishableExactly(p: ProjectState, tree: Tree, grants: Grants)
    requires FromProjection(p, tree)
    ensures tree.summary.total > 0 && Conflicts(p, tree, grants) == [] && AllPasses(p.files, tree.files).Delta?
        <==> Publishable(p, tree, grants)
  {
    SomethingStaged(p, tree);
    QuietExactly(p, tree, grants);
    if tree.summary.total > 0 && Conflicts(p, tree, grants) == [] {
      OverflowExactly(p, tree, grants);
    }
  }

  /**
   * From any state and for any grants: a change set is published if and only if the private tree can be projected,
   * shows a change, builds on current rows and free paths, all grants it needs are there, no path it touches is
   * protected, Main may move as it asks, and no revision counter is used up.
   */
  lemma PublishedExactly(p: ProjectState, user: nat, grants: Grants)
    ensures var r := Project(p.files, WorkOf(p, user).drafts, WorkOf(p, user).staged);
            PublishChangeSet(p, user, grants).outcome.Published? <==> r.Ok? && Publishable(p, r.value, grants)
  {
    var r := Project(p.files, WorkOf(p, user).drafts, WorkOf(p, user).staged);
    if r.Ok? {
      ProjectedTree(p, user);
      Decided(p, user, grants, r.value);
      PublishableExactly(p, r.value, grants);
    }
  }

  /** A rejection reports exactly the objections. */
  lemma RejectedExactly(p: ProjectState, user: nat, grants: Grants, c: ChangeConflict)
    requires PublishChangeSet(p, user, grants).outcome.Rejected?
    ensures var r := Project(p.files, WorkOf(p, user).drafts, WorkOf(p, user).staged);
            r.Ok? && (c in PublishChangeSet(p, user, grants).outcome.conflicts
                      <==> Objected(r.value.files, p, grants, c) || MainObjection(p, r.value, grants, c))
  {
    var tree := Project(p.files, WorkOf(p, user).drafts, WorkOf(p, user).staged).value;
    ProjectedTree(p, user);
    Decided(p, user, grants, tree);
    ConflictsExactly(p, tree, grants, c);
  }

  // --- grants ------------------------------------------------------------------------------------------

  /** What becoming this file asks for, by what it is and what it was. */
  predicate WasGranted(f: File, table: Table, grants: Grants)
  {
    && (f.pendingDelete ==> FileDelete in grants)
    && (f.origin == None ==> FileCreate in grants && FileWrite in grants)
    && (!f.pendingDelete && f.origin.Some? && f.origin != Some(f.path) ==> FileRename in grants)
    && (!f.pendingDelete && f.origin.Some? && f.origin.value in table && f.content != table[f.origin.value].content ==>
          FileWrite in grants)
  }

  lemma FileWasGranted(f: File, table: Table, grants: Grants)
    requires FileOk(f, table) && Granted(f, grants)
    ensures WasGranted(f, table, grants)
  {
  }

  lemma TreeWasGranted(p: ProjectState, tree: Tree, grants: Grants)
    requires WellFormed(tree.files, p.files) && Acceptable(p, tree, grants)
    ensures forall f :: f in tree.files ==> WasGranted(f, p.files, grants)
  {
    forall f | f in tree.files ensures WasGranted(f, p.files, grants) {
      FileWasGranted(f, p.files, grants);
    }
  }

  /** What a publication does to files needs the grants for it, whatever was granted when the work was done. */
  lemma PublishedWasGranted(p: ProjectState, user: nat, grants: Grants)
    requires PublishChangeSet(p, user, grants).outcome.Published?
    ensures var r := Project(p.files, WorkOf(p, user).drafts, WorkOf(p, user).staged);
            && r.Ok? && (r.value.main.Some? ==> FileSetMain in grants)
            && forall f :: f in r.value.files ==> WasGranted(f, p.files, grants)
  {
    PublishedExactly(p, user, grants);
    ProjectedTree(p, user);
    TreeWasGranted(p, Project(p.files, WorkOf(p, user).drafts, WorkOf(p, user).staged).value, grants);
  }

  lemma ShownRow(f: File, table: Table, grants: Grants, q: Path)
    requires FileOk(f, table) && Free(f, table) && WasGranted(f, table, grants) && LiveAt(f, q)
    ensures q !in table ==> (FileCreate in grants && FileWrite in grants) || FileRename in grants
    ensures q in table && f.content != table[q].content ==> FileWrite in grants
    ensures FileWrite !in grants ==> exists o :: o in table && table[o].content == f.content
  {
  }

  lemma FileFrom(files: seq<File>, table: Table, q: Path) returns (f: File)
    requires WellFormed(files, table) && q in table
    ensures f in files && f.origin == Some(q)
  {
    assert Originates(files, q);
    f :| f in files && f.origin == Some(q);
  }

  ghost predicate AllShow(files: seq<File>, after: Table)
  {
    forall f :: f in files && !f.pendingDelete ==> f.path in after
  }

  lemma LiveTreeShows(files: seq<File>, table: Table, after: Table)
    requires forall g :: g in files ==> FileOk(g, table)
    requires IsLiveTree(after, files, table)
    ensures AllShow(files, after)
  {
  }

  lemma GoneFile(f: File, table: Table, after: Table, grants: Grants, q: Path)
    requires WasGranted(f, table, grants) && f.origin == Some(q) && q !in after
    requires !f.pendingDelete ==> f.path in after
    ensures FileDelete in grants || FileRename in grants
  {
  }

  lemma LiveFileAt(files: seq<File>, table: Table, after: Table, q: Path) returns (f: File)
    requires WellFormed(files, table) && IsLiveTree(after, files, table) && q in after
    ensures f in files && LiveAt(f, q) && FileOk(f, table) && after[q].content == f.content
  {
    f :| f in files && LiveAt(f, q);
    assert after[f.path] == Row(f, table);
  }

  /** The same read off the tables before and after. */
  lemma TableChangesWereGranted(p: ProjectState, user: nat, grants: Grants, q: Path)
    requires PublishChangeSet(p, user, grants).outcome.Published?
    ensures var after := PublishChangeSet(p, user, grants).project.files;
            && (q in p.files && q !in after ==> FileDelete in grants || FileRename in grants)
            && (q !in p.files && q in after ==> (FileCreate in grants && FileWrite in grants) || FileRename in grants)
            && (q in p.files && q in after && after[q].content != p.files[q].content ==> FileWrite in grants)
            && (q in after && FileWrite !in grants
                ==> exists o :: o in p.files && p.files[o].content == after[q].content)
  {
    PublishRefinesProjection(p, user, grants);
    PublishedExactly(p, user, grants);
    PublishedWasGranted(p, user, grants);
    var tree := Project(p.files, WorkOf(p, user).drafts, WorkOf(p, user).staged).value;
    var after := PublishChangeSet(p, user, grants).project.files;
    if q in after {
      var f := LiveFileAt(tree.files, p.files, after, q);
      ShownRow(f, p.files, grants, q);
    } else if q in p.files {
      var f := FileFrom(tree.files, p.files, q);
      LiveTreeShows(tree.files, p.files, after);
      GoneFile(f, p.files, after, grants, q);
    }
  }

  // --- refusals are true ---------------------------------------------------------------------------------

  lemma FailedHow(p: ProjectState, user: nat, grants: Grants, tree: Tree)
    requires Project(p.files, WorkOf(p, user).drafts, WorkOf(p, user).staged) == Ok(tree)
    requires PublishChangeSet(p, user, grants).outcome.Failed?
    ensures var failure, d := PublishChangeSet(p, user, grants).outcome.failure, AllPasses(p.files, tree.files);
            if tree.summary.total == 0 then failure == NothingStaged
            else Conflicts(p, tree, grants) == [] && d.Aborted? && failure == d.failure
  {
    var step, conflicts := PublishChangeSet(p, user, grants), Conflicts(p, tree, grants);
    if tree.summary.total > 0 {
      assert step == if conflicts != [] then Publication(p, Rejected(Deduplicated(conflicts)))
                     else Commit(p, user, tree);
      CommitFails(p, user, tree);
    }
  }

  lemma CommitFails(p: ProjectState, user: nat, tree: Tree)
    ensures var d := AllPasses(p.files, tree.files);
            if d.Aborted? then Commit(p, user, tree).outcome == Failed(d.failure)
            else Commit(p, user, tree).outcome.Published?
  {
  }

  lemma OverflowedFile(p: ProjectState, tree: Tree, grants: Grants)
    requires FromProjection(p, tree) && tree.summary.total > 0 && Conflicts(p, tree, grants) == []
    requires AllPasses(p.files, tree.files).Aborted?
    ensures AllPasses(p.files, tree.files).failure == Overflow
    ensures exists f :: f in tree.files && !CounterLeft(f, p.files)
  {
    OverflowExactly(p, tree, grants);
    DeltaDelivers(p, tree, grants);
  }

  /** The file tree holds nothing to publish. */
  ghost predicate NothingToPublish(tree: Tree)
  {
    tree.main.None? && forall f :: f in tree.files ==> !Touched(f)
  }

  ghost predicate CounterUsedUp(tree: Tree, table: Table)
  {
    exists f :: f in tree.files && !CounterLeft(f, table)
  }

  /** Short of a rejection a change set is refused as unprojectable, as empty, or for a counter that is used up. */
  lemma FailedExactly(p: ProjectState, user: nat, grants: Grants)
    requires PublishChangeSet(p, user, grants).outcome.Failed?
    ensures var r := Project(p.files, WorkOf(p, user).drafts, WorkOf(p, user).staged);
            var failure := PublishChangeSet(p, user, grants).outcome.failure;
            if r.Err? then failure == TreeFailed(r.error)
            else if NothingToPublish(r.value) then failure == NothingStaged
            else failure == Overflow && CounterUsedUp(r.value, p.files)
  {
    var r := Project(p.files, WorkOf(p, user).drafts, WorkOf(p, user).staged);
    if r.Ok? {
      ProjectedTree(p, user);
      SomethingStaged(p, r.value);
      FailedHow(p, user, grants, r.value);
      if r.value.summary.total > 0 { OverflowedFile(p, r.value, grants); }
    }
  }
}
