/** A saved edit keeps its text through every run, and publishing it publishes exactly that text. */
module SavedEdits {
  import opened Common
  import opened PathOrder
  import opened Projection
  import opened ProjectionFacts
  import opened DraftMerging
  import opened SavingViews
  import opened NewFiles
  import opened DraftTexts
  import opened PublishedTexts
  import opened Publish
  import opened PublishFacts
  import opened ProjectRuns
  import opened StaleDrafts
  import opened Staging
  import opened Safeguards

  // --- a path that no operation names ----------------------------------------------------------

  ghost predicate NewAt(v: View, p: Path, d: Draft)
  {
    p in v.consumed && exists f :: f in v.files && f.added && f.path == p && Carries(f, d)
  }

  lemma {:induction false} AddDraftsUnoccupied(v: View, drafts: Drafts, paths: seq<Path>, p: Path)
    requires (forall q :: q in paths ==> q in drafts) && Unoccupied(v.files, p) && !Fresh(drafts, p)
    ensures Unoccupied(AddDrafts(v, drafts, paths).files, p)
  {
    if paths != [] {
      AddDraftsUnoccupied(v, drafts, paths[..|paths|-1], p);
    }
  }

  lemma OpeningAt(table: Table, drafts: Drafts, p: Path)
    requires p !in table
    ensures Fresh(drafts, p) ==> NewAt(Opening(table, drafts), p, drafts[p])
    ensures !Fresh(drafts, p) ==> Unoccupied(Opening(table, drafts).files, p) && p !in Opening(table, drafts).consumed
  {
    if Fresh(drafts, p) {
      assert (drafts - {p}) - {p} == drafts - {p};
      OpeningAdds(table, drafts - {p}, drafts, p);
      var w := Opening(table, drafts);
      var k: nat :| OneMore(Opening(table, drafts - {p}), w, p, drafts[p], k);
      assert w.files[k] in w.files;
    } else {
      OpeningIgnores(table, drafts, p);
      RowsAreElsewhere(table, p);
      AddDraftsUnoccupied(Rows(table), drafts, Listing(drafts.Keys), p);
    }
  }

  lemma OtherFilesStay(files: seq<File>, k: nat, g: File, f: File)
    requires k < |files| && f in files && files[k] != f
    ensures f in files[k := g] && f in files[..k] + files[k+1..]
  {
    var i :| 0 <= i < |files| && files[i] == f;
    assert files[k := g][i] == f;
    assert (files[..k] + files[k+1..])[if i < k then i else i - 1] == f;
  }

  lemma StepKeepsNew(v: View, drafts: Drafts, op: Staged, p: Path, d: Draft)
    requires NewAt(v, p, d) && !Names(op, p) && Step(v, drafts, op).Ok?
    ensures NewAt(Step(v, drafts, op).value, p, d)
  {
    var f :| f in v.files && f.added && f.path == p && Carries(f, d);
    var u := Step(v, drafts, op).value;
    if op.SetMain? {
      assert f in u.files;
    } else {
      var r := Reach(v, drafts, op.source).value;
      var k := FirstLive(r.files, op.source);
      assert f in r.files && r.files[k].path == op.source;
      OtherFilesStay(r.files, k, if op.Rename? then RenameAt(r, k, op).files[k]
                                 else r.files[k].(revision := Captured(r.files[k], op.base), pendingDelete := true), f);
    }
  }

  lemma StepKeepsUnoccupied(v: View, drafts: Drafts, op: Staged, p: Path)
    requires Unoccupied(v.files, p) && p !in v.consumed && !Names(op, p) && Step(v, drafts, op).Ok?
    ensures Unoccupied(Step(v, drafts, op).value.files, p) && p !in Step(v, drafts, op).value.consumed
  {
  }

  lemma {:induction false} StepsAt(table: Table, drafts: Drafts, ops: seq<Staged>, p: Path)
    requires p !in table && (forall op :: op in ops ==> !Names(op, p)) && Steps(Opening(table, drafts), drafts, ops).Ok?
    ensures Fresh(drafts, p) ==> NewAt(ViewOf(table, drafts, ops), p, drafts[p])
    ensures !Fresh(drafts, p)
            ==> Unoccupied(ViewOf(table, drafts, ops).files, p) && p !in ViewOf(table, drafts, ops).consumed
  {
    if ops == [] {
      OpeningAt(table, drafts, p);
    } else {
      var most, op := ops[..|ops|-1], ops[|ops|-1];
      StepsAt(table, drafts, most, p);
      if Fresh(drafts, p) {
        StepKeepsNew(ViewOf(table, drafts, most), drafts, op, p, drafts[p]);
      } else {
        StepKeepsUnoccupied(ViewOf(table, drafts, most), drafts, op, p);
      }
    }
  }

  ghost predicate ShowsAt(files: seq<File>, p: Path, d: Draft)
  {
    exists f :: f in files && f.path == p && Carries(f, d)
  }

  /** The file in place at `p` takes the draft at `p`, and no other. */
  lemma HolderTakesOwn(v: View, table: Table, drafts: Drafts, i: nat, p: Path, r: nat)
    requires WellFormed(v.files, table) && i < |v.files| && Holds(v.files[i], p, r) && Waiting(v, drafts, p)
    ensures LastTaken(v, drafts, Listing(drafts.Keys), i) == Some(p)
  {
    assert Stands(v, drafts, i, p);
    var k := FirstTaker(v, drafts, p);
    TakenIsNear(v, drafts, k, p);
    assert k == i || Apart(v.files[k], v.files[i]);
    LastIsLatest(v, drafts, Listing(drafts.Keys), i, p);
    TakenIsNear(v, drafts, i, LastTaken(v, drafts, Listing(drafts.Keys), i).value);
  }

  lemma CanonicalDraftShows(table: Table, drafts: Drafts, ops: seq<Staged>, p: Path)
    requires p in table && p in drafts && (forall op :: op in ops ==> !Names(op, p)) && Project(table, drafts, ops).Ok?
    ensures ShowsAt(Project(table, drafts, ops).value.files, p, drafts[p])
  {
    SteppedInPlace(table, Member(drafts, ops), p);
    var v := ViewOf(table, drafts, ops);
    var i :| 0 <= i < |v.files| && Holds(v.files[i], p, table[p].revision);
    HolderTakesOwn(v, table, drafts, i, p, table[p].revision);
    var f := ViewFileText(table, drafts, ops, i);
    assert f.path == p && Carries(f, drafts[p]);
  }

  lemma FreshDraftShows(table: Table, drafts: Drafts, ops: seq<Staged>, p: Path)
    requires p !in table && (forall op :: op in ops ==> !Names(op, p)) && Project(table, drafts, ops).Ok?
    requires Fresh(drafts, p)
    ensures ShowsAt(Project(table, drafts, ops).value.files, p, drafts[p])
  {
    StepsAt(table, drafts, ops, p);
    MergedTexts(table, drafts, ops);
    var v := ViewOf(table, drafts, ops);
    var i :| 0 <= i < |v.files| && v.files[i].added && v.files[i].path == p && Carries(v.files[i], drafts[p]);
    assert FileOk(v.files[i], table);
    var last := LastTaken(v, drafts, Listing(drafts.Keys), i);
    if last.Some? { TakenIsNear(v, drafts, i, last.value); }
    var f := ViewFileText(table, drafts, ops, i);
    assert f == v.files[i];
  }

  lemma StrayDraftShows(table: Table, drafts: Drafts, ops: seq<Staged>, p: Path)
    requires p !in table && (forall op :: op in ops ==> !Names(op, p)) && Project(table, drafts, ops).Ok?
    requires p in drafts && !Fresh(drafts, p)
    ensures ShowsAt(Project(table, drafts, ops).value.files, p, drafts[p])
  {
    StepsAt(table, drafts, ops, p);
    MergedTexts(table, drafts, ops);
    var v := ViewOf(table, drafts, ops);
    forall i | 0 <= i < |v.files| ensures !Stands(v, drafts, i, p) {
      assert v.files[i] in v.files && FileOk(v.files[i], table);
    }
    LodgedIsShown(table, drafts, ops, p);
  }

  /** A draft at a path that no operation names is shown at that path, whatever else is staged or saved. */
  lemma UnmovedDraftShows(table: Table, drafts: Drafts, ops: seq<Staged>, p: Path)
    requires p in drafts && (forall op :: op in ops ==> !Names(op, p)) && Project(table, drafts, ops).Ok?
    ensures ShowsAt(Project(table, drafts, ops).value.files, p, drafts[p])
  {
    if p in table {
      CanonicalDraftShows(table, drafts, ops, p);
    } else if Fresh(drafts, p) {
      FreshDraftShows(table, drafts, ops, p);
    } else {
      StrayDraftShows(table, drafts, ops, p);
    }
  }

  // --- runs ---------------------------------------------------------------------------------------

  /** The step neither publishes nor replaces the member's draft at `path`. */
  predicate KeepsText(a: Action, user: nat, path: Path)
  {
    KeepsDraft(a, user, path) && !(a.DoSaveDraft? && a.user == user && a.path == path)
  }

  ghost predicate HasDraft(p: ProjectState, user: nat, path: Path, d: Draft)
  {
    path in WorkOf(p, user).drafts && WorkOf(p, user).drafts[path] == d
  }

  lemma StepKeepsText(p: ProjectState, a: Action, user: nat, path: Path, d: Draft)
    requires HasDraft(p, user, path, d) && KeepsText(a, user, path)
    ensures HasDraft(Perform(p, a), user, path, d)
  {
    match a {
      case DoPublish(u, grants) => PublishingIsPrivate(p, u, grants, path, user);
      case DoPublishDraft(u, grants, q) =>
        if u != user { PublishingIsPrivate(p, u, grants, q, user); }
      case _ =>
    }
  }

  lemma {:induction false} RunKeepsText(p: ProjectState, actions: seq<Action>, user: nat, path: Path, d: Draft)
    requires HasDraft(p, user, path, d) && forall a :: a in actions ==> KeepsText(a, user, path)
    ensures HasDraft(Run(p, actions), user, path, d)
  {
    if actions != [] {
      RunKeepsText(p, actions[..|actions|-1], user, path, d);
      StepKeepsText(Run(p, actions[..|actions|-1]), actions[|actions|-1], user, path, d);
    }
  }

  function RevisionOf(work: Member, path: Path): nat
  {
    if path in work.drafts then work.drafts[path].revision else 0
  }

  lemma SavedIsKept(p: ProjectState, user: nat, grants: Grants, path: Path, base: nat, content: Content,
                    expected: Option<nat>)
    requires SaveDraft(p, user, grants, path, base, content, expected).Accepted?
    ensures var kept := KeepDraft(WorkOf(p, user), path, base, content, expected);
            kept.Ok?
            && SaveDraft(p, user, grants, path, base, content, expected).project == WithWork(p, user, kept.value)
  {
  }

  lemma OneMemberChanges(p: ProjectState, user: nat, work: Member)
    ensures WorkOf(WithWork(p, user, work), user) == work
    ensures forall other: nat :: other != user ==> WorkOf(WithWork(p, user, work), other) == WorkOf(p, other)
    ensures WithWork(p, user, work) == p.(members := WithWork(p, user, work).members)
  {
  }

  lemma KeptIsSaved(work: Member, path: Path, base: nat, content: Content, expected: Option<nat>)
    requires KeepDraft(work, path, base, content, expected).Ok?
    ensures KeepDraft(work, path, base, content, expected).value
            == Member(work.drafts[path := Draft(base, RevisionOf(work, path) + 1, content)], work.staged)
  {
  }

  /** An accepted save replaces the member's draft at that path, one revision up, and touches nothing else. */
  lemma SaveReplacesDraft(p: ProjectState, user: nat, grants: Grants, path: Path, base: nat, content: Content,
                          expected: Option<nat>)
    requires SaveDraft(p, user, grants, path, base, content, expected).Accepted?
    ensures var work, after := WorkOf(p, user), SaveDraft(p, user, grants, path, base, content, expected).project;
            && WorkOf(after, user)
               == Member(work.drafts[path := Draft(base, RevisionOf(work, path) + 1, content)], work.staged)
            && (forall other: nat :: other != user ==> WorkOf(after, other) == WorkOf(p, other))
            && after == p.(members := after.members)
  {
    SavedIsKept(p, user, grants, path, base, content, expected);
    KeptIsSaved(WorkOf(p, user), path, base, content, expected);
    OneMemberChanges(p, user, KeepDraft(WorkOf(p, user), path, base, content, expected).value);
  }

  /**
   * Whatever everyone does after an accepted save, publishing the change set puts exactly the saved text at that path,
   * in the table and in the workspace the log rebuilds, unless the member saved there again, published it already or
   * staged an operation that names the path.
   */
  lemma SavedTextIsPublished(p: ProjectState, user: nat, grants: Grants, path: Path, base: nat, content: Content,
                             expected: Option<nat>, actions: seq<Action>, later: Grants)
    requires SaveDraft(p, user, grants, path, base, content, expected).Accepted?
    requires forall a :: a in actions ==> KeepsText(a, user, path)
    requires var q := Run(SaveDraft(p, user, grants, path, base, content, expected).project, actions);
             && (forall op :: op in WorkOf(q, user).staged ==> !Names(op, path))
             && PublishChangeSet(q, user, later).outcome.Published?
    ensures var q := Run(SaveDraft(p, user, grants, path, base, content, expected).project, actions);
            HoldsText(PublishChangeSet(q, user, later).project, path, content)
  {
    var saved := SaveDraft(p, user, grants, path, base, content, expected).project;
    SaveReplacesDraft(p, user, grants, path, base, content, expected);
    var d := WorkOf(saved, user).drafts[path];
    RunKeepsText(saved, actions, user, path, d);
    UnmovedTextPublishes(Run(saved, actions), user, later, path);
  }

  lemma UnmovedTextPublishes(p: ProjectState, user: nat, grants: Grants, path: Path)
    requires path in WorkOf(p, user).drafts && forall op :: op in WorkOf(p, user).staged ==> !Names(op, path)
    requires PublishChangeSet(p, user, grants).outcome.Published?
    ensures HoldsText(PublishChangeSet(p, user, grants).project, path, WorkOf(p, user).drafts[path].content)
  {
    PublishRefinesProjection(p, user, grants);
    var work := WorkOf(p, user);
    UnmovedDraftShows(p.files, work.drafts, work.staged, path);
    var f :| f in Project(p.files, work.drafts, work.staged).value.files && f.path == path
             && Carries(f, work.drafts[path]);
    ShownIsPublished(p, user, grants, f);
  }

  /**
   * A single draft is published exactly if its author may write the file, it was edited from the row as it is, and the
   * counter has room; then exactly that row and that draft change.
   */
  lemma DraftPublishedExactly(p: ProjectState, user: nat, grants: Grants, path: Path)
    ensures var work, step := WorkOf(p, user), PublishDraft(p, user, grants, path);
            var current := if path in p.files then p.files[path].revision else 0;
            && (step.outcome.DraftPublished?
                <==> FileWrite in grants && Writable(p, grants, path) && path in work.drafts
                     && work.drafts[path].base == current < MAX_REVISION)
            && (step.outcome.DraftPublished? ==>
                  && step.project.files == p.files[path := Entry(work.drafts[path].content, current + 1)]
                  && WorkOf(step.project, user) == Member(work.drafts - {path}, work.staged)
                  && |step.project.log| == |p.log| + 1 && step.project.log[..|p.log|] == p.log
                  && step.outcome == DraftPublished(p.generation + 1, |p.log| + 1, current + 1)
                  && step.project.generation == p.generation + 1
                  && (Agrees(p) ==> HoldsText(step.project, path, work.drafts[path].content)))
  {
    var step := PublishDraft(p, user, grants, path);
    PublishDraftAgrees(p, user, grants, path);
    if step.outcome.DraftPublished? && Agrees(p) {
      assert Contents(step.project.files)[path] == WorkOf(p, user).drafts[path].content;
    }
  }

  /** A refusal to publish a draft names what is wrong with it and changes nothing. */
  lemma DraftRefusals(p: ProjectState, user: nat, grants: Grants, path: Path)
    ensures var work, step := WorkOf(p, user), PublishDraft(p, user, grants, path);
            var current := if path in p.files then p.files[path].revision else 0;
            && (!step.outcome.DraftPublished? ==> step.project == p)
            && match step.outcome {
              case DraftPublished(_, _, _) => true
              case DraftConflict(seen) => path in work.drafts && seen == current != work.drafts[path].base
              case DraftFailed(Forbidden) => FileWrite !in grants || !Writable(p, grants, path)
              case DraftFailed(Missing) => path !in work.drafts
              case DraftFailed(Overflow) => current >= MAX_REVISION
              case DraftFailed(_) => false
            }
  {
  }
}
