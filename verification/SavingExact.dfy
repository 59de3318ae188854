/** Exactly when an accepted save leaves the private tree projectable. */
module SavingExact {
  import opened Common
  import opened PathOrder
  import opened Projection
  import opened ProjectionFacts
  import opened DraftMerging
  import opened Publish
  import opened Staging
  import opened StagingExact
  import opened SavingViews
  import opened NewFiles

  lemma SavedWork(p: ProjectState, user: nat, grants: Grants, path: Path, base: nat, content: Content,
                  expected: Option<nat>)
    requires SaveDraft(p, user, grants, path, base, content, expected).Accepted?
    ensures var work, after := WorkOf(p, user), SaveDraft(p, user, grants, path, base, content, expected).project;
            && Project(p.files, work.drafts, work.staged).Ok? && after.files == p.files
            && !Gone(Project(p.files, work.drafts, work.staged).value.files, path)
            && WorkOf(after, user).staged == work.staged
            && WorkOf(after, user).drafts == work.drafts[path := WorkOf(after, user).drafts[path]]
            && WorkOf(after, user).drafts[path].base == base
  {
  }

  lemma SamePlacesGone(files: seq<File>, merged: seq<File>, shown: seq<File>, q: Path)
    requires |files| <= |merged| && (forall f :: f in merged ==> f in shown) && !Gone(shown, q)
    requires forall i :: 0 <= i < |files| ==> SamePlace(files[i], merged[i])
    ensures !Gone(files, q)
  {
    forall i | 0 <= i < |files|
      ensures !(files[i].pendingDelete && Mentions(files[i], q))
      ensures !(!files[i].pendingDelete && files[i].origin == Some(q) && files[i].path != q)
    {
      assert merged[i] in shown;
    }
  }

  /** Merging neither deletes nor moves a file, so a path not gone from the tree was not gone before. */
  lemma NotGoneBefore(table: Table, drafts: Drafts, ops: seq<Staged>, q: Path)
    requires Project(table, drafts, ops).Ok? && !Gone(Project(table, drafts, ops).value.files, q)
    ensures !Gone(Steps(Opening(table, drafts), drafts, ops).value.files, q)
  {
    var v, paths := Steps(Opening(table, drafts), drafts, ops).value, Listing(drafts.Keys);
    assert paths[..|paths|] == paths;
    SteppedWellFormed(table, drafts, ops);
    LoopExactly(v, table, drafts, |paths|);
    var u := Overlays(v, drafts, paths).value;
    forall i | 0 <= i < |v.files| ensures SamePlace(v.files[i], u.files[i]) {
      assert KeptFile(v, drafts, paths, i, u.files[i]);
    }
    forall f | f in u.files ensures f in SortBy(u.files, PathOf) {
      SortByMember(u.files, PathOf, f);
    }
    SamePlacesGone(v.files, u.files, SortBy(u.files, PathOf), q);
  }

  /** What a member's work looks like before a save at `q`. */
  ghost predicate Before(table: Table, drafts: Drafts, ops: seq<Staged>, q: Path, v: View)
  {
    && Steps(Opening(table, drafts), drafts, ops) == Ok(v)
    && WellFormed(v.files, table) && Coheres(v, drafts) && !Gone(v.files, q)
  }

  /**
   * What a caller must check before saving a draft of base `base` at `q`, given the drafts with it. At the path of a
   * row, and when the draft is one of a new file before and after or neither before nor after: no operation has used
   * the old draft as a new file that the new one is not, and every waiting draft still has a place. A draft of a new
   * file may appear unless an operation moves a file to its path, and disappear unless one takes the file it made.
   */
  ghost predicate StaysFit(table: Table, drafts: Drafts, ops: seq<Staged>, q: Path, base: nat, v: View, saved: Drafts)
  {
    if q in table || (Fresh(drafts, q) <==> base == 0) then
      (Fresh(drafts, q) && base != 0 ==> q !in v.consumed) && Coheres(v, saved)
    else if base == 0 then NoneMovesTo(ops, q)
    else NoneTakesFrom(ops, q)
  }

  /** The operations read only which drafts are fresh. */
  lemma SameKindFits(table: Table, drafts: Drafts, ops: seq<Staged>, q: Path, d: Draft, v: View)
    requires Before(table, drafts, ops, q, v) && (Fresh(drafts, q) <==> d.base == 0)
    ensures Project(table, drafts[q := d], ops).Ok? <==> Coheres(v, drafts[q := d])
  {
    var saved := drafts[q := d];
    SameOpening(table, drafts, q, d);
    SameSteps(Opening(table, drafts), Opening(table, saved), drafts, saved, ops);
    SameCoherence(v, Steps(Opening(table, saved), saved, ops).value, saved);
    ProjectsExactly(table, saved, ops);
  }

  /** At a row's path a fresh draft makes no file until an operation needs one. */
  lemma RowKeepsFitting(table: Table, drafts: Drafts, ops: seq<Staged>, q: Path, d: Draft, v: View)
    requires Before(table, drafts, ops, q, v) && q in table && (Fresh(drafts, q) <==> d.base != 0)
    ensures Project(table, drafts[q := d], ops).Ok?
        <==> (Fresh(drafts, q) ==> q !in v.consumed) && Coheres(v, drafts[q := d])
  {
    var saved := drafts[q := d];
    OpeningIgnores(table, drafts, q);
    OpeningIgnores(table, saved, q);
    assert saved - {q} == drafts - {q};
    if Fresh(drafts, q) {
      AllSameUnlessTaken(Opening(table, drafts), saved, drafts, q, ops);
    } else {
      AllSameUnlessTaken(Opening(table, drafts), drafts, saved, q, ops);
    }
    ProjectsExactly(table, saved, ops);
  }

  lemma NewcomerIsUnrelated(table: Table, drafts: Drafts, ops: seq<Staged>, q: Path, v: View)
    requires Before(table, drafts, ops, q, v) && q !in table && !HasLive(v.files, q)
    ensures Unrelated(v, q)
  {
    forall f | f in v.files ensures f.path != q && f.origin != Some(q) {
      assert FileOk(f, table);
      NotLive(v.files, q);
    }
  }

  lemma CreatingFits(table: Table, drafts: Drafts, ops: seq<Staged>, q: Path, d: Draft, v: View)
    requires Before(table, drafts, ops, q, v) && q !in table && !Fresh(drafts, q) && d.base == 0
    ensures Project(table, drafts[q := d], ops).Ok? <==> NoneMovesTo(ops, q)
  {
    var saved := drafts[q := d];
    assert saved - {q} == drafts - {q};
    OpeningAdds(table, drafts, saved, q);
    AddingFile(Opening(table, drafts), Opening(table, saved), drafts, saved, q, ops);
    ProjectsExactly(table, saved, ops);
    if NoneMovesTo(ops, q) {
      var w := Steps(Opening(table, saved), saved, ops).value;
      var k: nat :| OneMore(v, w, q, d, k);
      NewcomerIsUnrelated(table, drafts, ops, q, v);
      SameFit(v, w, drafts, saved, q);
    }
  }

  lemma ForgettingFits(table: Table, drafts: Drafts, ops: seq<Staged>, q: Path, d: Draft, w: View)
    requires Before(table, drafts, ops, q, w) && q !in table && Fresh(drafts, q) && d.base != 0
    ensures Project(table, drafts[q := d], ops).Ok? <==> NoneTakesFrom(ops, q)
  {
    var saved := drafts[q := d];
    assert saved - {q} == drafts - {q};
    OpeningAdds(table, saved, drafts, q);
    RemovingFile(Opening(table, saved), Opening(table, drafts), saved, drafts, q, ops);
    ProjectsExactly(table, saved, ops);
    if NoneTakesFrom(ops, q) {
      var v := Steps(Opening(table, saved), saved, ops).value;
      RemainderIsUnrelated(table, drafts, ops, q, v, w);
      SameFit(v, w, saved, drafts, q);
    }
  }

  lemma RemainderIsUnrelated(table: Table, drafts: Drafts, ops: seq<Staged>, q: Path, v: View, w: View)
    requires Before(table, drafts, ops, q, w) && q !in table && q in drafts && Extra(v, w, q, drafts[q])
    ensures Unrelated(v, q)
  {
    var k: nat :| OneMore(v, w, q, drafts[q], k);
    NotLive(v.files, q);
    forall f | f in v.files ensures f.path != q && f.origin != Some(q) {
      assert f in w.files && FileOk(f, table);
      assert Mentions(f, q) ==> !f.pendingDelete;
    }
  }

  /** Every accepted save, in every project: the private tree stays projectable if and only if the new draft fits. */
  lemma SavedFitsExactly(p: ProjectState, user: nat, grants: Grants, path: Path, base: nat, content: Content,
                         expected: Option<nat>)
    requires SaveDraft(p, user, grants, path, base, content, expected).Accepted?
    ensures var work, after := WorkOf(p, user), SaveDraft(p, user, grants, path, base, content, expected).project;
            var saved := WorkOf(after, user).drafts;
            && Stepped(p, user).Ok?
            && (Project(after.files, saved, WorkOf(after, user).staged).Ok?
                <==> StaysFit(p.files, work.drafts, work.staged, path, base, Stepped(p, user).value, saved))
  {
    var work, after := WorkOf(p, user), SaveDraft(p, user, grants, path, base, content, expected).project;
    SavedWork(p, user, grants, path, base, content, expected);
    ProjectsExactly(p.files, work.drafts, work.staged);
    NotGoneBefore(p.files, work.drafts, work.staged, path);
    SteppedWellFormed(p.files, work.drafts, work.staged);
    var v, d := Stepped(p, user).value, WorkOf(after, user).drafts[path];
    assert Before(p.files, work.drafts, work.staged, path, v);
    if Fresh(work.drafts, path) <==> base == 0 {
      SameKindFits(p.files, work.drafts, work.staged, path, d, v);
    } else if path in p.files {
      RowKeepsFitting(p.files, work.drafts, work.staged, path, d, v);
    } else if base == 0 {
      CreatingFits(p.files, work.drafts, work.staged, path, d, v);
    } else {
      ForgettingFits(p.files, work.drafts, work.staged, path, d, v);
    }
  }
}
