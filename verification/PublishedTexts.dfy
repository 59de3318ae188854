/** From drafts to the published table: which text every file gets, and which drafts are not published. */
module PublishedTexts {
  import opened Common
  import opened PathOrder
  import opened Projection
  import opened ProjectionFacts
  import opened DraftMerging
  import opened StagingExact
  import opened SavingViews
  import opened DraftTexts
  import opened Publish
  import opened PublishFacts
  import opened ProjectRuns
  import W = Workspace

  /** The view after the operations. */
  function ViewOf(table: Table, drafts: Drafts, ops: seq<Staged>): View
    requires Steps(Opening(table, drafts), drafts, ops).Ok?
  {
    Steps(Opening(table, drafts), drafts, ops).value
  }

  /** File `f` of the tree is file `i` of the view, as merging left it, or a draft's own. */
  ghost predicate MergedFrom(v: View, drafts: Drafts, i: nat, f: File)
  {
    if i < |v.files| then SamePlace(v.files[i], f) && ShowsLast(v, drafts, Listing(drafts.Keys), i, f)
    else f.origin == None && ShowsOwn(drafts, f)
  }

  lemma MergedTexts(table: Table, drafts: Drafts, ops: seq<Staged>)
    requires Project(table, drafts, ops).Ok?
    ensures var v := ViewOf(table, drafts, ops);
            && WellFormed(v.files, table) && Overlays(v, drafts, Listing(drafts.Keys)).Ok?
            && Texts(v, drafts, Listing(drafts.Keys), Overlays(v, drafts, Listing(drafts.Keys)).value)
            && Merged(v, drafts, Listing(drafts.Keys), Overlays(v, drafts, Listing(drafts.Keys)).value)
  {
    var v, paths := ViewOf(table, drafts, ops), Listing(drafts.Keys);
    assert paths[..|paths|] == paths;
    SteppedWellFormed(table, drafts, ops);
    LoopTexts(v, table, drafts, |paths|);
    LoopExactly(v, table, drafts, |paths|);
  }

  lemma PlaceOf(v: View, drafts: Drafts, paths: seq<Path>, w: View, i: nat)
    requires Merged(v, drafts, paths, w) && i < |w.files|
    ensures if i < |v.files| then SamePlace(v.files[i], w.files[i])
            else NewFile(v, drafts, paths, w.files[i])
  {
    if i < |v.files| { assert KeptFile(v, drafts, paths, i, w.files[i]); }
  }

  /** Every file of the tree, and the text that merging gave it. */
  lemma TreeFileText(table: Table, drafts: Drafts, ops: seq<Staged>, f: File) returns (i: nat)
    requires Project(table, drafts, ops).Ok? && f in Project(table, drafts, ops).value.files
    ensures MergedFrom(ViewOf(table, drafts, ops), drafts, i, f)
  {
    MergedTexts(table, drafts, ops);
    var v := ViewOf(table, drafts, ops);
    var w := Overlays(v, drafts, Listing(drafts.Keys)).value;
    SortByMember(w.files, PathOf, f);
    i :| 0 <= i < |w.files| && w.files[i] == f;
    PlaceOf(v, drafts, Listing(drafts.Keys), w, i);
  }

  /** Conversely, file `i` of the view is in the tree. */
  lemma ViewFileText(table: Table, drafts: Drafts, ops: seq<Staged>, i: nat) returns (f: File)
    requires Project(table, drafts, ops).Ok? && i < |ViewOf(table, drafts, ops).files|
    ensures f in Project(table, drafts, ops).value.files && MergedFrom(ViewOf(table, drafts, ops), drafts, i, f)
  {
    MergedTexts(table, drafts, ops);
    var v := ViewOf(table, drafts, ops);
    var w := Overlays(v, drafts, Listing(drafts.Keys)).value;
    f := w.files[i];
    SortByMember(w.files, PathOf, f);
    PlaceOf(v, drafts, Listing(drafts.Keys), w, i);
  }

  // --- whose text a file shows ---------------------------------------------------------------

  ghost predicate ShowsOneOf(drafts: Drafts, f: File)
  {
    exists p :: p in drafts && Carries(f, drafts[p]) && (p == f.path || f.origin == Some(p) || Fresh(drafts, p))
  }

  ghost predicate ShowsItsDraft(drafts: Drafts, f: File)
  {
    exists p :: p in drafts && Carries(f, drafts[p]) && (p == f.path || f.origin == Some(p))
  }

  /** A new file shows a draft, a modified one the draft at its path or its old path, any other its row. */
  ghost predicate TextIsRight(table: Table, drafts: Drafts, f: File)
  {
    if f.added then ShowsOneOf(drafts, f)
    else if f.modified then ShowsItsDraft(drafts, f)
    else f.draftRevision == None && f.origin.Some? && f.origin.value in table
         && f.content == table[f.origin.value].content
  }

  lemma TakenIsNear(v: View, drafts: Drafts, i: nat, p: Path)
    requires i < |v.files| && Accepts(v, drafts, i, p)
    ensures !v.files[i].pendingDelete && (v.files[i].path == p || v.files[i].origin == Some(p))
  {
    assert Stands(v, drafts, i, p);
  }

  lemma EveryTextIsRight(table: Table, drafts: Drafts, ops: seq<Staged>, f: File)
    requires Project(table, drafts, ops).Ok? && f in Project(table, drafts, ops).value.files
    ensures TextIsRight(table, drafts, f)
  {
    var v, paths := ViewOf(table, drafts, ops), Listing(drafts.Keys);
    var i := TreeFileText(table, drafts, ops, f);
    StepsAreSourced(table, drafts, ops);
    if i < |v.files| {
      var g, last := v.files[i], LastTaken(v, drafts, paths, i);
      assert Sourced(g, table, drafts, v.consumed);
      if last.Some? {
        TakenIsNear(v, drafts, i, last.value);
      } else if f.added {
        var p :| p in v.consumed && Fresh(drafts, p) && Carries(g, drafts[p]);
        assert Carries(f, drafts[p]);
      }
    } else {
      assert Carries(f, drafts[f.path]);
    }
  }

  // --- when a draft is shown --------------------------------------------------------------------

  ghost predicate ShowsDraft(files: seq<File>, d: Draft)
  {
    exists f :: f in files && Carries(f, d)
  }

  /** File `i`, which takes or shows the draft at `p`, takes the draft at `q` after it. */
  ghost predicate Replaces(v: View, drafts: Drafts, i: nat, p: Path, q: Path)
    requires p in drafts
  {
    && i < |v.files| && Waiting(v, drafts, q) && Accepts(v, drafts, i, q)
    && (if Waiting(v, drafts, p) then Accepts(v, drafts, i, p) && Below(p, q) else Carries(v.files[i], drafts[p]))
  }

  ghost predicate Overwritten(v: View, drafts: Drafts, p: Path)
    requires p in drafts
  {
    exists i: nat, q :: Replaces(v, drafts, i, p, q)
  }

  lemma {:induction false} LastIsLatest(v: View, drafts: Drafts, paths: seq<Path>, i: nat, p: Path)
    requires i < |v.files| && Strict(paths) && p in paths && Waiting(v, drafts, p) && Accepts(v, drafts, i, p)
    ensures var last := LastTaken(v, drafts, paths, i); last.Some? && (last.value == p || Below(p, last.value))
  {
    var most, last := paths[..|paths|-1], paths[|paths|-1];
    assert paths == most + [last];
    if !(Waiting(v, drafts, last) && Accepts(v, drafts, i, last)) {
      LastIsLatest(v, drafts, most, i, p);
    } else if p != last {
      var j :| 0 <= j < |paths| && paths[j] == p;
      assert Below(paths[j], paths[|paths|-1]);
    }
  }

  lemma TakenIsShown(table: Table, drafts: Drafts, ops: seq<Staged>, p: Path, i: nat)
    requires Project(table, drafts, ops).Ok? && p in drafts
    requires var v := ViewOf(table, drafts, ops); i < |v.files| && Waiting(v, drafts, p) && Accepts(v, drafts, i, p)
    ensures ShowsDraft(Project(table, drafts, ops).value.files, drafts[p])
            || Overwritten(ViewOf(table, drafts, ops), drafts, p)
  {
    var v := ViewOf(table, drafts, ops);
    var f := ViewFileText(table, drafts, ops, i);
    LastIsLatest(v, drafts, Listing(drafts.Keys), i, p);
    var last := LastTaken(v, drafts, Listing(drafts.Keys), i).value;
    assert last != p ==> Replaces(v, drafts, i, p, last);
  }

  lemma NewIsShown(table: Table, drafts: Drafts, ops: seq<Staged>, p: Path)
    requires Project(table, drafts, ops).Ok? && p in drafts && p in ViewOf(table, drafts, ops).consumed
    requires ShownNew(ViewOf(table, drafts, ops).files, drafts[p])
    ensures ShowsDraft(Project(table, drafts, ops).value.files, drafts[p])
            || Overwritten(ViewOf(table, drafts, ops), drafts, p)
  {
    var v := ViewOf(table, drafts, ops);
    var i :| 0 <= i < |v.files| && v.files[i].added && Carries(v.files[i], drafts[p]);
    var f := ViewFileText(table, drafts, ops, i);
    var last := LastTaken(v, drafts, Listing(drafts.Keys), i);
    assert last.Some? ==> Replaces(v, drafts, i, p, last.value);
  }

  lemma FirstTaker(v: View, drafts: Drafts, p: Path) returns (k: nat)
    requires Received(v, drafts, p)
    ensures Accepts(v, drafts, k, p)
  {
    var i :| 0 <= i < |v.files| && Stands(v, drafts, i, p);
    k := FirstUpTo(v, drafts, p, i);
  }

  lemma {:induction false} FirstUpTo(v: View, drafts: Drafts, p: Path, i: nat) returns (k: nat)
    requires i < |v.files| && Stands(v, drafts, i, p)
    ensures Accepts(v, drafts, k, p)
    decreases i
  {
    if j: nat :| j < i && Stands(v, drafts, j, p) {
      k := FirstUpTo(v, drafts, p, j);
    } else {
      k := i;
    }
  }

  lemma LodgedIsShown(table: Table, drafts: Drafts, ops: seq<Staged>, p: Path)
    requires Project(table, drafts, ops).Ok? && p in drafts && Lodged(ViewOf(table, drafts, ops), drafts, p)
    ensures exists f :: f in Project(table, drafts, ops).value.files && f.path == p && Carries(f, drafts[p])
  {
    MergedTexts(table, drafts, ops);
    var v, paths := ViewOf(table, drafts, ops), Listing(drafts.Keys);
    var w := Overlays(v, drafts, paths).value;
    assert HasLive(w.files, p);
    var i := FirstLive(w.files, p);
    PlaceOf(v, drafts, paths, w, i);
    assert i >= |v.files| by {
      if i < |v.files| { assert Stands(v, drafts, i, p); }
    }
    SortByMember(w.files, PathOf, w.files[i]);
  }

  /**
   * Every draft is shown, unless an operation deleted the new file it had made, or the file that took it took another
   * draft after it.
   */
  lemma DraftsAreShown(table: Table, drafts: Drafts, ops: seq<Staged>, p: Path)
    requires Project(table, drafts, ops).Ok? && p in drafts
    ensures var v := ViewOf(table, drafts, ops);
            || ShowsDraft(Project(table, drafts, ops).value.files, drafts[p])
            || Discarded(Opening(table, drafts), drafts, ops, drafts[p])
            || Overwritten(v, drafts, p)
  {
    var v := ViewOf(table, drafts, ops);
    if p in v.consumed {
      ConsumedShows(table, drafts, ops, p);
      if ShownNew(v.files, drafts[p]) { NewIsShown(table, drafts, ops, p); }
    } else if Received(v, drafts, p) {
      var k := FirstTaker(v, drafts, p);
      TakenIsShown(table, drafts, ops, p, k);
    } else {
      LodgedIsShown(table, drafts, ops, p);
    }
  }

  /** When a draft is overwritten, its file shows another draft, the last one it took. */
  lemma OverwrittenShowsLast(table: Table, drafts: Drafts, ops: seq<Staged>, i: nat, p: Path, q: Path)
    requires Project(table, drafts, ops).Ok? && p in drafts && Replaces(ViewOf(table, drafts, ops), drafts, i, p, q)
    ensures var v := ViewOf(table, drafts, ops);
            exists f, last :: f in Project(table, drafts, ops).value.files && SamePlace(v.files[i], f)
                              && last in drafts && Carries(f, drafts[last]) && (last == q || Below(q, last))
  {
    var v := ViewOf(table, drafts, ops);
    var f := ViewFileText(table, drafts, ops, i);
    LastIsLatest(v, drafts, Listing(drafts.Keys), i, q);
    var last := LastTaken(v, drafts, Listing(drafts.Keys), i).value;
    assert SamePlace(v.files[i], f) && Carries(f, drafts[last]);
  }

  // --- publication -----------------------------------------------------------------------------------

  /** A live file's text is in the table and in the workspace that the log rebuilds. */
  lemma ShownIsPublished(p: ProjectState, user: nat, grants: Grants, f: File)
    requires PublishChangeSet(p, user, grants).outcome.Published?
    requires var r := Project(p.files, WorkOf(p, user).drafts, WorkOf(p, user).staged);
             r.Ok? && f in r.value.files && !f.pendingDelete
    ensures var after := PublishChangeSet(p, user, grants).project;
            && f.path in after.files && after.files[f.path].content == f.content
            && (Agrees(p) ==> W.Replay(after.log).Some? && f.path in W.Replay(after.log).value.files
                              && W.Replay(after.log).value.files[f.path] == f.content)
  {
    PublishRefinesProjection(p, user, grants);
    var after := PublishChangeSet(p, user, grants).project;
    var tree := Project(p.files, WorkOf(p, user).drafts, WorkOf(p, user).staged).value;
    assert after.files[f.path] == Row(f, p.files);
    if Agrees(p) { assert Contents(after.files)[f.path] == f.content; }
  }

  ghost predicate HoldsText(p: ProjectState, path: Path, content: Content)
  {
    && path in p.files && p.files[path].content == content
    && (Agrees(p) ==> W.Replay(p.log).value.files[path] == content)
  }

  /** No published draft loses its text, except those that were deleted or overwritten before. */
  lemma PublishedDraftsAreKept(p: ProjectState, user: nat, grants: Grants, path: Path)
    requires PublishChangeSet(p, user, grants).outcome.Published? && path in WorkOf(p, user).drafts
    ensures var work, after := WorkOf(p, user), PublishChangeSet(p, user, grants).project;
            && Project(p.files, work.drafts, work.staged).Ok?
            && ((exists q :: HoldsText(after, q, work.drafts[path].content))
                || Discarded(Opening(p.files, work.drafts), work.drafts, work.staged, work.drafts[path])
                || Overwritten(ViewOf(p.files, work.drafts, work.staged), work.drafts, path))
  {
    PublishRefinesProjection(p, user, grants);
    var work := WorkOf(p, user);
    DraftsAreShown(p.files, work.drafts, work.staged, path);
    if f :| f in Project(p.files, work.drafts, work.staged).value.files && Carries(f, work.drafts[path]) {
      ShownIsPublished(p, user, grants, f);
      assert HoldsText(PublishChangeSet(p, user, grants).project, f.path, work.drafts[path].content);
    }
  }
}
