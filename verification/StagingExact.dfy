/** Exactly when private work can be projected, and when a staged rename or delete keeps it so. */
module StagingExact {
  import opened Common
  import opened PathOrder
  import opened Projection
  import opened ProjectionFacts
  import opened DraftMerging
  import opened Publish
  import opened Staging

  /** Every waiting draft has a place, and pending Main names a file. */
  ghost predicate Coheres(v: View, drafts: Drafts)
  {
    AllHoused(v, drafts) && (v.main.Some? ==> Appears(v, drafts, v.main.value))
  }

  ghost predicate Replays(r: Result<View, Error>, drafts: Drafts)
  {
    r.Ok? && Coheres(r.value, drafts)
  }

  lemma SteppedWellFormed(table: Table, drafts: Drafts, ops: seq<Staged>)
    requires Steps(Opening(table, drafts), drafts, ops).Ok?
    ensures WellFormed(Steps(Opening(table, drafts), drafts, ops).value.files, table)
  {
    OpeningWellFormed(table, drafts);
    StepsWellFormed(Opening(table, drafts), table, drafts, ops);
  }

  /**
   * For every table, drafts and operations: the projection succeeds if and only if the steps do and their view coheres.
   */
  lemma ProjectsExactly(table: Table, drafts: Drafts, ops: seq<Staged>)
    ensures Project(table, drafts, ops).Ok? <==> Replays(Steps(Opening(table, drafts), drafts, ops), drafts)
  {
    var r := Steps(Opening(table, drafts), drafts, ops);
    if r.Ok? {
      SteppedWellFormed(table, drafts, ops);
      MergingExactly(r.value, table, drafts, if r.value.main.Some? then r.value.main.value else "");
    }
  }

  lemma TreeShows(table: Table, drafts: Drafts, ops: seq<Staged>, q: Path)
    requires Project(table, drafts, ops).Ok?
    ensures var tree, v := Project(table, drafts, ops).value, Steps(Opening(table, drafts), drafts, ops).value;
            tree.main == v.main && (HasLive(tree.files, q) <==> Appears(v, drafts, q))
  {
    var v := Steps(Opening(table, drafts), drafts, ops).value;
    SteppedWellFormed(table, drafts, ops);
    MergingExactly(v, table, drafts, q);
    LiveThroughSort(Overlays(v, drafts, Listing(drafts.Keys)).value.files, q);
  }

  // --- one more operation -------------------------------------------------------------------

  /** The guard on the source: a file, or a draft of a file that never existed. */
  predicate Reachable(v: View, drafts: Drafts, source: Path)
  {
    HasLive(v.files, source) || (source in drafts && drafts[source].base == 0)
  }

  /** The view with the operation's one file edited. */
  function Edited(v: View, drafts: Drafts, op: Staged): View
    requires !op.SetMain? && Reachable(v, drafts, op.source)
  {
    var r := Reach(v, drafts, op.source).value;
    var k := FirstLive(r.files, op.source);
    if k == |r.files| then r else if op.Rename? then RenameAt(r, k, op) else DeleteAt(r, k, op)
  }

  /** A deleted file sits at `p`, or will once the operation is staged. */
  ghost predicate Emptied(v: View, op: Staged, p: Path)
    requires !op.SetMain?
  {
    || Buried(v.files, p)
    || (op.Delete? && p == op.source && HasLive(v.files, p) && !v.files[FirstLive(v.files, p)].added)
  }

  /**
   * What a caller must check before staging `op`, which records the revision the tree shows for its source:
   * the source is a file or a new draft; every draft that waits where a deleted file sits finds a live file at its
   * path, or one that came from there and, whatever drafts merged before it wrote, still carries its base revision;
   * and pending Main, if it is only a draft, is not absorbed by such a file.
   */
  ghost predicate Fits(v: View, drafts: Drafts, op: Staged)
    requires !op.SetMain?
  {
    && Reachable(v, drafts, op.source)
    && var u := Edited(v, drafts, op);
    && (forall p :: p in drafts && Emptied(v, op, p) && Waiting(u, drafts, p) ==> Received(u, drafts, p))
    && (v.main.Some? && v.main != Some(op.source) && !HasLive(v.files, v.main.value)
        ==> !Received(u, drafts, v.main.value))
  }

  /** What an accepted request says about the steps so far. */
  ghost predicate Open(v: View, table: Table, drafts: Drafts, op: Staged)
  {
    && !op.SetMain? && WellFormed(v.files, table) && Coheres(v, drafts)
    && Appears(v, drafts, op.source)
    && (op.Rename? ==> !Appears(v, drafts, op.destination))
    && (op.Delete? ==> v.main != Some(op.source))
  }

  lemma LiveIff(files: seq<File>, q: Path)
    ensures HasLive(files, q) <==> exists f :: f in files && LiveAt(f, q)
  {
    if HasLive(files, q) {
      assert files[FirstLive(files, q)] in files;
    }
  }

  lemma ReachedSource(v: View, drafts: Drafts, source: Path)
    requires Reachable(v, drafts, source)
    ensures var r := Reach(v, drafts, source).value;
            HasLive(r.files, source) && r.main == v.main
            && (forall p :: Buried(r.files, p) <==> Buried(v.files, p))
            && (forall q :: q != source ==> (HasLive(r.files, q) <==> HasLive(v.files, q)))
            && (!HasLive(v.files, source) ==> r.files[FirstLive(r.files, source)].added)
  {
    if !HasLive(v.files, source) {
      var g := AddedFile(source, drafts[source]);
      var r := v.files + [g];
      assert r[|v.files|] == g && LiveAt(g, source);
      assert forall f :: f in r <==> f in v.files || f == g;
      forall q ensures HasLive(r, q) <==> HasLive(v.files, q) || q == source {
        LiveIff(v.files, q);
        LiveIff(r, q);
      }
    }
  }

  /** Staging `op` is refused by the steps exactly when its source cannot be reached. */
  lemma StepExactly(v: View, table: Table, drafts: Drafts, op: Staged)
    requires Open(v, table, drafts, op)
    ensures Step(v, drafts, op).Ok? <==> Reachable(v, drafts, op.source)
    ensures Reachable(v, drafts, op.source) ==> Step(v, drafts, op) == Ok(Edited(v, drafts, op))
  {
    if Reachable(v, drafts, op.source) {
      ReachedSource(v, drafts, op.source);
    }
  }

  lemma ReplacedBurial(files: seq<File>, k: nat, g: File, p: Path)
    requires k < |files| && !files[k].pendingDelete
    ensures Buried(files[k := g], p) <==> Buried(files, p) || (g.pendingDelete && g.path == p)
  {
    var next := files[k := g];
    if f :| f in files && f.pendingDelete && f.path == p {
      var i :| 0 <= i < |files| && files[i] == f;
      assert next[i] in next && next[i].pendingDelete && next[i].path == p;
    }
    if f :| f in next && f.pendingDelete && f.path == p {
      var i :| 0 <= i < |next| && next[i] == f;
      if i != k { assert files[i] in files; }
    }
    if g.pendingDelete && g.path == p { assert next[k] in next; }
  }

  lemma RemovedBurial(files: seq<File>, k: nat, p: Path)
    requires k < |files| && !files[k].pendingDelete
    ensures Buried(files[..k] + files[k+1..], p) <==> Buried(files, p)
  {
    var rest := files[..k] + files[k+1..];
    forall i | 0 <= i < |files| && i != k ensures files[i] in rest {
      assert rest[if i < k then i else i - 1] == files[i];
    }
  }

  lemma EditedBurial(v: View, table: Table, drafts: Drafts, op: Staged, p: Path)
    requires Open(v, table, drafts, op) && Reachable(v, drafts, op.source)
    ensures Buried(Edited(v, drafts, op).files, p) <==> Emptied(v, op, p)
  {
    ReachedSource(v, drafts, op.source);
    var r := Reach(v, drafts, op.source).value;
    var k := FirstLive(r.files, op.source);
    if op.Delete? && r.files[k].added {
      RemovedBurial(r.files, k, p);
    } else {
      ReplacedBurial(r.files, k, Edited(v, drafts, op).files[k], p);
    }
  }

  lemma ReplacedLive(files: seq<File>, k: nat, g: File, q: Path)
    requires k < |files| && files[k].path != q && !LiveAt(g, q)
    ensures HasLive(files[k := g], q) <==> HasLive(files, q)
    ensures HasLive(files[..k] + files[k+1..], q) <==> HasLive(files, q)
  {
    var next, rest := files[k := g], files[..k] + files[k+1..];
    LiveIff(files, q);
    LiveIff(next, q);
    LiveIff(rest, q);
    forall i | 0 <= i < |files| && i != k ensures files[i] in next && files[i] in rest {
      assert next[i] == files[i] && rest[if i < k then i else i - 1] == files[i];
    }
  }

  /** Every other path is live after the edit exactly when it was before. */
  lemma EditedLive(v: View, table: Table, drafts: Drafts, op: Staged, q: Path)
    requires Open(v, table, drafts, op) && Reachable(v, drafts, op.source)
    requires q != op.source && (op.Rename? ==> q != op.destination)
    ensures HasLive(Edited(v, drafts, op).files, q) <==> HasLive(v.files, q)
  {
    ReachedSource(v, drafts, op.source);
    var r := Reach(v, drafts, op.source).value;
    var k := FirstLive(r.files, op.source);
    var f := r.files[k];
    ReplacedLive(r.files, k, if op.Rename? then RenameAt(r, k, op).files[k]
                             else f.(revision := Captured(f, op.base), pendingDelete := true), q);
  }

  lemma RenamedAppears(v: View, table: Table, drafts: Drafts, op: Staged)
    requires Open(v, table, drafts, op) && Reachable(v, drafts, op.source) && op.Rename?
    ensures HasLive(Edited(v, drafts, op).files, op.destination)
  {
    ReachedSource(v, drafts, op.source);
    var r := Reach(v, drafts, op.source).value;
    assert LiveAt(Edited(v, drafts, op).files[FirstLive(r.files, op.source)], op.destination);
  }

  /** After the edit the view coheres exactly when the operation fits. */
  lemma EditCoheresExactly(v: View, table: Table, drafts: Drafts, op: Staged)
    requires Open(v, table, drafts, op) && Reachable(v, drafts, op.source)
    ensures Coheres(Edited(v, drafts, op), drafts) <==> Fits(v, drafts, op)
  {
    var u := Edited(v, drafts, op);
    ReachedSource(v, drafts, op.source);
    forall p | p in drafts ensures Buried(u.files, p) <==> Emptied(v, op, p) {
      EditedBurial(v, table, drafts, op, p);
    }
    if v.main.Some? {
      if v.main == Some(op.source) {
        RenamedAppears(v, table, drafts, op);
      } else {
        EditedLive(v, table, drafts, op, v.main.value);
      }
    }
  }

  /** The operations a member has staged, applied to the opening view. */
  function Stepped(p: ProjectState, user: nat): Result<View, Error>
  {
    Steps(Opening(p.files, WorkOf(p, user).drafts), WorkOf(p, user).drafts, WorkOf(p, user).staged)
  }

  lemma AcceptedOpens(p: ProjectState, user: nat, grants: Grants, request: Request)
    requires !request.SetMainFile? && Stage(p, user, grants, request).Accepted?
    ensures var work := WorkOf(p, user);
            var op := OperationFor(Project(p.files, work.drafts, work.staged).value, request);
            op.Some? && Stepped(p, user).Ok? && Open(Stepped(p, user).value, p.files, work.drafts, op.value)
  {
    var work := WorkOf(p, user);
    var op := OperationFor(Project(p.files, work.drafts, work.staged).value, request).value;
    ProjectsExactly(p.files, work.drafts, work.staged);
    SteppedWellFormed(p.files, work.drafts, work.staged);
    TreeShows(p.files, work.drafts, work.staged, op.source);
    if op.Rename? { TreeShows(p.files, work.drafts, work.staged, op.destination); }
  }

  /**
   * Every accepted rename or delete, in every project: the private tree stays projectable if and only if the
   * operation that is staged fits.
   */
  lemma StagedFitsExactly(p: ProjectState, user: nat, grants: Grants, request: Request)
    requires !request.SetMainFile? && Stage(p, user, grants, request).Accepted?
    ensures var work, after := WorkOf(p, user), WorkOf(Stage(p, user, grants, request).project, user);
            var op := OperationFor(Project(p.files, work.drafts, work.staged).value, request).value;
            Project(p.files, after.drafts, after.staged).Ok? <==> Fits(Stepped(p, user).value, work.drafts, op)
  {
    var work, v := WorkOf(p, user), Stepped(p, user).value;
    var op := OperationFor(Project(p.files, work.drafts, work.staged).value, request).value;
    AcceptedOpens(p, user, grants, request);
    AppendedStep(Opening(p.files, work.drafts), work.drafts, work.staged, op);
    ProjectsExactly(p.files, work.drafts, work.staged + [op]);
    StepExactly(v, p.files, work.drafts, op);
    if Reachable(v, work.drafts, op.source) {
      EditCoheresExactly(v, p.files, work.drafts, op);
    }
  }
}
