/** Renames and deletes based on an outdated revision never reach the canonical table. */
module StaleOperations {
  import opened Common
  import opened PathOrder
  import opened Projection
  import opened ProjectionFacts
  import opened StagingExact
  import opened SavingViews
  import opened NewFiles
  import opened DraftTexts
  import opened PublishedTexts
  import opened Publish
  import opened PublicationRules
  import opened ProjectRuns
  import opened SavedEdits
  import opened Staging
  import opened Safeguards

  /** Where a row's file is after some operations, whether it is deleted, and the revision they recorded last. */
  datatype Trail = Trail(path: Path, deleted: bool, base: Option<nat>, touched: bool)

  predicate Reaches(t: Trail, op: Staged)
  {
    !op.SetMain? && !t.deleted && op.source == t.path
  }

  function Move(t: Trail, op: Staged): Trail
    requires Reaches(t, op)
  {
    Trail(if op.Rename? then op.destination else t.path, op.Delete?, if op.base.Some? then op.base else t.base, true)
  }

  /** A row's file follows the operations on its own path, whatever they do to others. */
  function Follow(o: Path, ops: seq<Staged>): Trail
  {
    if ops == [] then Trail(o, false, None, false)
    else
      var t, op := Follow(o, ops[..|ops|-1]), ops[|ops|-1];
      if Reaches(t, op) then Move(t, op) else t
  }

  lemma FollowPush(o: Path, ops: seq<Staged>, op: Staged)
    ensures Follow(o, ops + [op]) == if Reaches(Follow(o, ops), op) then Move(Follow(o, ops), op) else Follow(o, ops)
  {
    assert (ops + [op])[..|ops|] == ops;
  }

  /** The revision the file is shown with: the one recorded last, else the row's. */
  function Recorded(t: Trail, row: Entry): nat
  {
    if t.base.Some? then t.base.value else row.revision
  }

  predicate OnTrail(f: File, o: Path, t: Trail, row: Entry)
  {
    f.origin == Some(o) && !f.added && f.path == t.path && f.pendingDelete == t.deleted
    && f.revision == Some(Recorded(t, row))
  }

  ghost predicate Trails(files: seq<File>, o: Path, t: Trail, row: Entry)
  {
    exists f :: f in files && OnTrail(f, o, t, row)
  }

  // --- the steps move the file along its trail ------------------------------------------------

  lemma {:induction false} AddDraftsTrails(v: View, drafts: Drafts, paths: seq<Path>, o: Path, t: Trail, row: Entry)
    requires (forall q :: q in paths ==> q in drafts) && Trails(v.files, o, t, row)
    ensures Trails(AddDrafts(v, drafts, paths).files, o, t, row)
  {
    if paths != [] {
      AddDraftsTrails(v, drafts, paths[..|paths|-1], o, t, row);
    }
  }

  lemma OpeningTrails(table: Table, drafts: Drafts, o: Path)
    requires o in table
    ensures Trails(Opening(table, drafts).files, o, Trail(o, false, None, false), table[o])
  {
    var paths := Listing(table.Keys);
    CanonicalFilesAt(table, paths);
    var i :| 0 <= i < |paths| && paths[i] == o;
    assert Rows(table).files[i] in Rows(table).files;
    AddDraftsTrails(Rows(table), drafts, Listing(drafts.Keys), o, Trail(o, false, None, false), table[o]);
  }

  lemma OwnStepTrails(v: View, table: Table, drafts: Drafts, op: Staged, o: Path, t: Trail, row: Entry)
    requires WellFormed(v.files, table) && Trails(v.files, o, t, row) && Reaches(t, op) && Step(v, drafts, op).Ok?
    ensures Trails(Step(v, drafts, op).value.files, o, Move(t, op), row)
  {
    var i :| 0 <= i < |v.files| && OnTrail(v.files[i], o, t, row);
    NotLiveElsewhere(v.files, table, op.source, i);
    var u := Step(v, drafts, op).value;
    assert OnTrail(u.files[i], o, Move(t, op), row);
  }

  lemma NotLiveElsewhere(files: seq<File>, table: Table, p: Path, i: nat)
    requires WellFormed(files, table) && i < |files| && LiveAt(files[i], p)
    ensures HasLive(files, p) && FirstLive(files, p) == i
  {
    LiveIff(files, p);
    OnlyOneLive(files, table, p);
  }

  lemma OtherStepTrails(v: View, drafts: Drafts, op: Staged, o: Path, t: Trail, row: Entry)
    requires Trails(v.files, o, t, row) && !Reaches(t, op) && Step(v, drafts, op).Ok?
    ensures Trails(Step(v, drafts, op).value.files, o, t, row)
  {
    var f :| f in v.files && OnTrail(f, o, t, row);
    var u := Step(v, drafts, op).value;
    if op.SetMain? {
      assert f in u.files;
    } else {
      var r := Reach(v, drafts, op.source).value;
      var k := FirstLive(r.files, op.source);
      assert f in r.files && LiveAt(r.files[k], op.source);
      OtherFilesStay(r.files, k, if op.Rename? then RenameAt(r, k, op).files[k]
                                 else r.files[k].(revision := Captured(r.files[k], op.base), pendingDelete := true), f);
    }
  }

  lemma {:induction false} StepsTrail(table: Table, drafts: Drafts, ops: seq<Staged>, o: Path)
    requires o in table && Steps(Opening(table, drafts), drafts, ops).Ok?
    ensures Trails(ViewOf(table, drafts, ops).files, o, Follow(o, ops), table[o])
  {
    if ops == [] {
      OpeningTrails(table, drafts, o);
    } else {
      var most, op := ops[..|ops|-1], ops[|ops|-1];
      StepsTrail(table, drafts, most, o);
      SteppedWellFormed(table, drafts, most);
      if Reaches(Follow(o, most), op) {
        OwnStepTrails(ViewOf(table, drafts, most), table, drafts, op, o, Follow(o, most), table[o]);
      } else {
        OtherStepTrails(ViewOf(table, drafts, most), drafts, op, o, Follow(o, most), table[o]);
      }
    }
  }

  // --- drafts leave the revision alone -----------------------------------------------------------

  /** No draft of the member lands in the row's file, so the operations fix its revision. */
  predicate Undrafted(work: Member, o: Path)
  {
    var t := Follow(o, work.staged);
    o !in work.drafts && (!t.deleted ==> t.path !in work.drafts)
  }

  lemma TreeTrails(table: Table, work: Member, o: Path)
    requires o in table && Undrafted(work, o) && Project(table, work.drafts, work.staged).Ok?
    ensures Trails(Project(table, work.drafts, work.staged).value.files, o, Follow(o, work.staged), table[o])
  {
    var drafts, v := work.drafts, ViewOf(table, work.drafts, work.staged);
    StepsTrail(table, drafts, work.staged, o);
    var i :| 0 <= i < |v.files| && OnTrail(v.files[i], o, Follow(o, work.staged), table[o]);
    var f := ViewFileText(table, drafts, work.staged, i);
    var last := LastTaken(v, drafts, Listing(drafts.Keys), i);
    if last.Some? {
      TakenIsNear(v, drafts, i, last.value);
    }
    assert f == v.files[i];
  }

  /** A published operation recorded the revision of the row it was published over. */
  lemma PublishedOperationWasCurrent(p: ProjectState, user: nat, grants: Grants, o: Path)
    requires o in p.files && Undrafted(WorkOf(p, user), o) && PublishChangeSet(p, user, grants).outcome.Published?
    ensures var t := Follow(o, WorkOf(p, user).staged);
            t.base.Some? ==> t.base.value == p.files[o].revision
  {
    var work := WorkOf(p, user);
    PublishedExactly(p, user, grants);
    TreeTrails(p.files, work, o);
    var f :| f in Project(p.files, work.drafts, work.staged).value.files
             && OnTrail(f, o, Follow(o, work.staged), p.files[o]);
    assert Current(f, p.files);
  }

  // --- a row that is gone ----------------------------------------------------------------------------

  /** Nothing is moved to the row's path before its own file is touched. */
  ghost predicate Orderly(o: Path, ops: seq<Staged>)
  {
    ops != [] ==>
      && Orderly(o, ops[..|ops|-1])
      && (Follow(o, ops[..|ops|-1]).touched || !MovesTo(ops[|ops|-1], o))
  }

  lemma OrderlyPush(o: Path, ops: seq<Staged>, op: Staged)
    ensures Orderly(o, ops + [op]) <==> Orderly(o, ops) && (Follow(o, ops).touched || !MovesTo(op, o))
  {
    assert (ops + [op])[..|ops|] == ops;
  }

  lemma {:induction false} UntouchedIsHome(o: Path, ops: seq<Staged>)
    ensures !Follow(o, ops).touched ==> Follow(o, ops) == Trail(o, false, None, false)
  {
    if ops != [] {
      UntouchedIsHome(o, ops[..|ops|-1]);
    }
  }

  lemma {:induction false} StepsAreOrderly(table: Table, drafts: Drafts, ops: seq<Staged>, o: Path)
    requires o in table && Steps(Opening(table, drafts), drafts, ops).Ok?
    ensures Orderly(o, ops)
  {
    if ops != [] {
      var most, op := ops[..|ops|-1], ops[|ops|-1];
      StepsAreOrderly(table, drafts, most, o);
      StepsTrail(table, drafts, most, o);
      UntouchedIsHome(o, most);
      if !Follow(o, most).touched && MovesTo(op, o) {
        var f :| f in ViewOf(table, drafts, most).files && OnTrail(f, o, Follow(o, most), table[o]);
        OccupiedRefuses(ViewOf(table, drafts, most), drafts, op, f);
      }
    }
  }

  lemma OccupiedRefuses(v: View, drafts: Drafts, op: Staged, f: File)
    requires f in v.files && op.Rename? && LiveAt(f, op.destination)
    ensures Step(v, drafts, op).Err?
  {
    if Reach(v, drafts, op.source).Ok? {
      var r := Reach(v, drafts, op.source).value;
      assert f in r.files;
      LiveIff(r.files, op.destination);
    }
  }

  lemma StepStaysAway(v: View, drafts: Drafts, op: Staged, o: Path)
    requires Unoccupied(v.files, o) && !Fresh(drafts, o) && !MovesTo(op, o) && Step(v, drafts, op).Ok?
    ensures !TakesFrom(op, o) && Unoccupied(Step(v, drafts, op).value.files, o)
  {
  }

  /** Over a table without the row, operations that touch its file do not apply. */
  lemma {:induction false} MissingRowRefuses(table: Table, drafts: Drafts, ops: seq<Staged>, o: Path)
    requires o !in table && !Fresh(drafts, o) && Orderly(o, ops) && Steps(Opening(table, drafts), drafts, ops).Ok?
    ensures !Follow(o, ops).touched && Unoccupied(ViewOf(table, drafts, ops).files, o)
  {
    if ops == [] {
      OpeningAt(table, drafts, o);
    } else {
      var most, op := ops[..|ops|-1], ops[|ops|-1];
      MissingRowRefuses(table, drafts, most, o);
      UntouchedIsHome(o, most);
      StepStaysAway(ViewOf(table, drafts, most), drafts, op, o);
    }
  }

  // --- what a staged operation records -----------------------------------------------------------------

  /** The tree shows the row's file at that path, at that revision. */
  ghost predicate ShowsRow(files: seq<File>, path: Path, o: Path, revision: nat)
  {
    exists f :: f in files && LiveAt(f, path) && f.origin == Some(o) && f.revision == Some(revision)
  }

  lemma {:induction false} MainDoesNotMove(o: Path, ops: seq<Staged>)
    ensures Follow(o, WithoutMain(ops)) == Follow(o, ops)
    ensures Orderly(o, WithoutMain(ops)) <==> Orderly(o, ops)
  {
    if ops != [] {
      var most, op := ops[..|ops|-1], ops[|ops|-1];
      MainDoesNotMove(o, most);
      if op.SetMain? {
        assert WithoutMain(ops) == WithoutMain(most);
      } else {
        FollowPush(o, WithoutMain(most), op);
        OrderlyPush(o, WithoutMain(most), op);
      }
    }
  }

  /** A trail that the member's operations have fixed at `revision`. */
  ghost predicate Fixed(work: Member, o: Path, revision: nat)
  {
    Follow(o, work.staged).touched && Follow(o, work.staged).base == Some(revision) && Orderly(o, work.staged)
  }

  lemma StagedWork(p: ProjectState, user: nat, grants: Grants, request: Request) returns (op: Staged)
    requires Stage(p, user, grants, request).Accepted?
    ensures var work := WorkOf(p, user);
            && Project(p.files, work.drafts, work.staged).Ok?
            && OperationFor(Project(p.files, work.drafts, work.staged).value, request) == Some(op)
            && WorkOf(Stage(p, user, grants, request).project, user)
               == work.(staged := (if request.SetMainFile? then WithoutMain(work.staged) else work.staged) + [op])
  {
    var work := WorkOf(p, user);
    op := OperationFor(Project(p.files, work.drafts, work.staged).value, request).value;
  }

  /** The operation records the revision its source shows. */
  lemma RecordsShown(files: seq<File>, table: Table, main: Option<Path>, summary: Summary, request: Request, f: File)
    requires WellFormed(files, table) && f in files && !request.SetMainFile? && LiveAt(f, request.source)
    ensures OperationFor(Tree(files, main, summary), request).Some?
    ensures var op := OperationFor(Tree(files, main, summary), request).value;
            !op.SetMain? && op.source == request.source && op.base == f.revision
            && (op.Rename? <==> request.RenameFile?) && (op.Rename? ==> op.destination == request.destination)
  {
    var i :| 0 <= i < |files| && files[i] == f;
    NotLiveElsewhere(files, table, request.source, i);
  }

  lemma ReachingFixes(o: Path, ops: seq<Staged>, op: Staged, work: Member, revision: nat)
    requires work.staged == ops + [op] && Reaches(Follow(o, ops), op) && op.base == Some(revision)
    requires Orderly(o, ops) && (Follow(o, ops).touched || !MovesTo(op, o))
    ensures Fixed(work, o, revision)
  {
    FollowPush(o, ops, op);
    OrderlyPush(o, ops, op);
  }

  /** Staged on a row's file, an operation records the revision the row's trail has. */
  lemma OwnOperation(table: Table, work: Member, tree: Tree, request: Request, o: Path)
    requires o in table && Undrafted(work, o) && Project(table, work.drafts, work.staged) == Ok(tree)
    requires !request.SetMainFile? && !Follow(o, work.staged).deleted
             && request.source == Follow(o, work.staged).path
    ensures OperationFor(tree, request).Some?
    ensures var op := OperationFor(tree, request).value;
            && Reaches(Follow(o, work.staged), op) && op.base == Some(Recorded(Follow(o, work.staged), table[o]))
            && (op.Rename? <==> request.RenameFile?) && (op.Rename? ==> op.destination == request.destination)
  {
    TreeTrails(table, work, o);
    ProjectWellFormed(table, work.drafts, work.staged);
    TrailFileRecords(table, tree, request, o, Follow(o, work.staged));
  }

  lemma TrailFileRecords(table: Table, tree: Tree, request: Request, o: Path, t: Trail)
    requires o in table && WellFormed(tree.files, table) && Trails(tree.files, o, t, table[o])
    requires !request.SetMainFile? && !t.deleted && request.source == t.path
    ensures OperationFor(tree, request).Some?
    ensures var op := OperationFor(tree, request).value;
            && Reaches(t, op) && op.base == Some(Recorded(t, table[o]))
            && (op.Rename? <==> request.RenameFile?) && (op.Rename? ==> op.destination == request.destination)
  {
    var g :| g in tree.files && OnTrail(g, o, t, table[o]);
    RecordsShown(tree.files, table, tree.main, tree.summary, request, g);
  }

  /** What the tree shows of a row is its trail. */
  lemma ShownIsTrail(table: Table, work: Member, path: Path, o: Path, revision: nat)
    requires o in table && Undrafted(work, o) && Project(table, work.drafts, work.staged).Ok?
    requires ShowsRow(Project(table, work.drafts, work.staged).value.files, path, o, revision)
    ensures var t := Follow(o, work.staged); !t.deleted && t.path == path && Recorded(t, table[o]) == revision
  {
    var files := Project(table, work.drafts, work.staged).value.files;
    TreeTrails(table, work, o);
    ProjectWellFormed(table, work.drafts, work.staged);
    var f :| f in files && LiveAt(f, path) && f.origin == Some(o) && f.revision == Some(revision);
    var g :| g in files && OnTrail(g, o, Follow(o, work.staged), table[o]);
    OneFilePerRow(files, f, g);
  }

  lemma FirstStageFixes(p: ProjectState, user: nat, grants: Grants, request: Request, o: Path, revision: nat)
    requires !request.SetMainFile? && Stage(p, user, grants, request).Accepted?
    requires o in p.files && Undrafted(WorkOf(p, user), o)
    requires var work := WorkOf(p, user);
             Project(p.files, work.drafts, work.staged).Ok?
             && ShowsRow(Project(p.files, work.drafts, work.staged).value.files, request.source, o, revision)
    ensures Fixed(WorkOf(Stage(p, user, grants, request).project, user), o, revision)
  {
    var work := WorkOf(p, user);
    var tree := Project(p.files, work.drafts, work.staged).value;
    ShownIsTrail(p.files, work, request.source, o, revision);
    var op := StagedWork(p, user, grants, request);
    OwnOperation(p.files, work, tree, request, o);
    StepsAreOrderly(p.files, work.drafts, work.staged, o);
    UntouchedIsHome(o, work.staged);
    if request.RenameFile? { AwayFromHome(p, user, grants, request); }
    ReachingFixes(o, work.staged, op, WorkOf(Stage(p, user, grants, request).project, user), revision);
  }

  lemma OneFilePerRow(files: seq<File>, f: File, g: File)
    requires Pairwise(files, Apart) && f in files && g in files && f.origin.Some? && f.origin == g.origin
    ensures f == g
  {
    var i :| 0 <= i < |files| && files[i] == f;
    var j :| 0 <= j < |files| && files[j] == g;
    assert i == j || Apart(files[i], files[j]);
  }

  /** No rename goes to its own source. */
  lemma AwayFromHome(p: ProjectState, user: nat, grants: Grants, request: Request)
    requires Stage(p, user, grants, request).Accepted? && request.RenameFile?
    ensures request.source != request.destination
  {
  }

  // --- runs ---------------------------------------------------------------------------------------------

  predicate Unpublished(a: Action, user: nat)
  {
    !(a.DoPublish? && a.user == user)
  }

  lemma LaterStageKeeps(p: ProjectState, user: nat, grants: Grants, request: Request, o: Path, revision: nat)
    requires Stage(p, user, grants, request).Accepted? && Undrafted(WorkOf(p, user), o)
    requires Fixed(WorkOf(p, user), o, revision)
    ensures Fixed(WorkOf(Stage(p, user, grants, request).project, user), o, revision)
  {
    var work := WorkOf(p, user);
    var tree := Project(p.files, work.drafts, work.staged).value;
    var op := StagedWork(p, user, grants, request);
    var kept := if request.SetMainFile? then WithoutMain(work.staged) else work.staged;
    if o !in p.files { MissingRowRefuses(p.files, work.drafts, work.staged, o); }
    MainDoesNotMove(o, work.staged);
    if Reaches(Follow(o, work.staged), op) {
      SameSource(tree, request, op);
      OwnOperation(p.files, work, tree, request, o);
      ReachingFixes(o, kept, op, WorkOf(Stage(p, user, grants, request).project, user), revision);
    } else {
      FollowPush(o, kept, op);
      OrderlyPush(o, kept, op);
    }
  }

  lemma SameSource(tree: Tree, request: Request, op: Staged)
    requires OperationFor(tree, request) == Some(op) && !op.SetMain?
    ensures !request.SetMainFile? && op.source == request.source
  {
  }

  lemma StepKeepsFixed(p: ProjectState, a: Action, user: nat, o: Path, revision: nat)
    requires Unpublished(a, user) && Undrafted(WorkOf(p, user), o) && Fixed(WorkOf(p, user), o, revision)
    ensures Fixed(WorkOf(Perform(p, a), user), o, revision)
  {
    match a {
      case DoPublish(u, grants) => PublishingIsPrivate(p, u, grants, o, user);
      case DoPublishDraft(u, grants, path) => DraftKeepsStaged(p, u, grants, path, user);
      case DoStage(u, grants, request) =>
        if Stage(p, u, grants, request).Accepted? && u == user {
          LaterStageKeeps(p, user, grants, request, o, revision);
        }
      case DoSaveDraft(u, grants, path, base, content, expected) =>
        if SaveDraft(p, u, grants, path, base, content, expected).Accepted? {
          SaveReplacesDraft(p, u, grants, path, base, content, expected);
        }
      case _ =>
    }
  }

  lemma DraftKeepsStaged(p: ProjectState, u: nat, grants: Grants, path: Path, user: nat)
    ensures WorkOf(PublishDraft(p, u, grants, path).project, user).staged == WorkOf(p, user).staged
  {
  }

  ghost predicate UndraftedThroughout(p: ProjectState, actions: seq<Action>, user: nat, o: Path)
  {
    forall n :: 0 <= n <= |actions| ==> Undrafted(WorkOf(Run(p, actions[..n]), user), o)
  }

  lemma {:induction false} RunKeepsFixed(p: ProjectState, actions: seq<Action>, user: nat, o: Path, revision: nat)
    requires (forall a :: a in actions ==> Unpublished(a, user)) && UndraftedThroughout(p, actions, user, o)
    requires Fixed(WorkOf(p, user), o, revision)
    ensures Fixed(WorkOf(Run(p, actions), user), o, revision)
  {
    if actions != [] {
      var most, last := actions[..|actions|-1], actions[|actions|-1];
      assert actions[..|most|] == most && last in actions;
      forall n | 0 <= n <= |most| ensures Undrafted(WorkOf(Run(p, most[..n]), user), o) {
        assert actions[..n] == most[..n];
      }
      RunKeepsFixed(p, most, user, o, revision);
      StepKeepsFixed(Run(p, most), last, user, o, revision);
    }
  }

  /** Where the row has another revision by now, or is gone, the change set is not published and nothing changes. */
  lemma FixedIsRefused(p: ProjectState, user: nat, grants: Grants, o: Path, revision: nat)
    requires Undrafted(WorkOf(p, user), o) && Fixed(WorkOf(p, user), o, revision)
    requires o !in p.files || p.files[o].revision != revision
    ensures !PublishChangeSet(p, user, grants).outcome.Published? && PublishChangeSet(p, user, grants).project == p
  {
    RefusedPublishChangesNothing(p, user, grants);
    if PublishChangeSet(p, user, grants).outcome.Published? {
      PublishedExactly(p, user, grants);
      if o in p.files {
        PublishedOperationWasCurrent(p, user, grants, o);
      } else {
        MissingRowRefuses(p.files, WorkOf(p, user).drafts, WorkOf(p, user).staged, o);
      }
    }
  }

  lemma FixedRunIsRefused(p: ProjectState, actions: seq<Action>, user: nat, later: Grants, o: Path, revision: nat)
    requires (forall a :: a in actions ==> Unpublished(a, user)) && UndraftedThroughout(p, actions, user, o)
    requires Fixed(WorkOf(p, user), o, revision)
    ensures var q := Run(p, actions);
            o !in q.files || q.files[o].revision != revision ==>
              !PublishChangeSet(q, user, later).outcome.Published? && PublishChangeSet(q, user, later).project == q
  {
    var q := Run(p, actions);
    RunKeepsFixed(p, actions, user, o, revision);
    assert actions[..|actions|] == actions;
    if o !in q.files || q.files[o].revision != revision {
      FixedIsRefused(q, user, later, o, revision);
    }
  }

  /**
   * A rename or delete of a file that shows a row at some revision is accepted. Whatever everyone does next, if the row
   * then has another revision or is gone, the member's change set is not published and nothing changes, as long as
   * operations and not a draft fix the revision of that file.
   */
  lemma StaleOperationNeverPublishes(p: ProjectState, user: nat, grants: Grants, request: Request, o: Path,
                                     revision: nat, actions: seq<Action>, later: Grants)
    requires !request.SetMainFile? && Stage(p, user, grants, request).Accepted? && o in p.files
    requires var work := WorkOf(p, user);
             && Undrafted(work, o) && Project(p.files, work.drafts, work.staged).Ok?
             && ShowsRow(Project(p.files, work.drafts, work.staged).value.files, request.source, o, revision)
    requires forall a :: a in actions ==> Unpublished(a, user)
    requires UndraftedThroughout(Stage(p, user, grants, request).project, actions, user, o)
    ensures var q := Run(Stage(p, user, grants, request).project, actions);
            o !in q.files || q.files[o].revision != revision ==>
              !PublishChangeSet(q, user, later).outcome.Published? && PublishChangeSet(q, user, later).project == q
  {
    FirstStageFixes(p, user, grants, request, o, revision);
    FixedRunIsRefused(Stage(p, user, grants, request).project, actions, user, later, o, revision);
  }
}
