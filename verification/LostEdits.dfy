/** A concrete case in which an older draft of the same file overwrites a saved edit, and publication drops it. */
module LostEdits {
  import opened Common
  import opened PathOrder
  import opened Projection
  import opened ProjectionFacts
  import opened Publish
  import opened PublishFacts
  import opened PublicationRules
  import opened ProjectRuns
  import opened Staging
  import opened StagingExamples
  import Examples
  import FilePolicies

  const OLD := Content("old", 3)

  const ROW_B: Table := map["b" := Entry(Content("", 0), 1)]

  /** File `b` was edited, then moved to `a`. */
  const MOVE: seq<Staged> := [Rename("b", "a", Some(1))]

  const DRAFT_OF_B: Drafts := map["b" := Draft(1, 1, OLD)]

  const DRAFTS_OF_B_AND_A: Drafts := map["a" := Draft(1, 1, EDIT), "b" := Draft(1, 1, OLD)]

  function ProjectWith(drafts: Drafts): ProjectState
  {
    ProjectState(ROW_B, map[0 := Member(drafts, MOVE)], [], 1, false, [], FilePolicies.Editable)
  }

  const MOVED_B := File("a", Some("b"), Some(1), Content("", 0), None, false, false, true, false)

  lemma MovedView(drafts: Drafts)
    requires forall p :: p in drafts ==> drafts[p].base != 0
    ensures Steps(Opening(ROW_B, drafts), drafts, MOVE) == Ok(View([MOVED_B], {}, None))
  {
    var row := CanonicalFile("b", ROW_B["b"]);
    var v := View([row], {}, None);
    assert ROW_B.Keys == {"b"};
    ListingOne("b");
    Examples.OneRow(ROW_B, "b");
    NoneAdded(v, drafts, Listing(drafts.Keys));
    assert Opening(ROW_B, drafts) == v;
    assert MOVE[..0] == [] && Steps(v, drafts, []) == Ok(v);
    assert Steps(v, drafts, MOVE) == Step(v, drafts, MOVE[0]);
    assert !HasLive(v.files, "a") && FirstLive(v.files, "b") == 0;
    assert RenameAt(v, 0, MOVE[0]).files == [MOVED_B];
  }

  lemma OverlaidAlone(f: File, p: Path, d: Draft)
    requires Receives(f, p, d)
    ensures Overlay(View([f], {}, None), p, d) == Ok(View([Overwrite(f, d)], {}, None))
  {
    var files := [f];
    assert FirstReceiver(files, p, d) == 0;
    assert files[0 := Overwrite(f, d)] == [Overwrite(f, d)];
  }

  lemma TreeOf(drafts: Drafts, f: File)
    requires Steps(Opening(ROW_B, drafts), drafts, MOVE).Ok?
    requires Overlays(Steps(Opening(ROW_B, drafts), drafts, MOVE).value, drafts, Listing(drafts.Keys))
             == Ok(View([f], {}, None))
    ensures var r := Project(ROW_B, drafts, MOVE); r.Ok? && r.value.files == [f] && r.value.main == None
  {
    Examples.SortedSingle(f);
  }

  lemma TreeBefore()
    ensures var r := Project(ROW_B, DRAFT_OF_B, MOVE);
            r.Ok? && r.value.files == [Overwrite(MOVED_B, DRAFT_OF_B["b"])] && r.value.main == None
  {
    MovedView(DRAFT_OF_B);
    assert DRAFT_OF_B.Keys == {"b"};
    ListingOne("b");
    var one := ["b"];
    assert one[..|one|-1] == [];
    OverlaidAlone(MOVED_B, "b", DRAFT_OF_B["b"]);
    assert Overlays(View([MOVED_B], {}, None), DRAFT_OF_B, one) == Overlay(View([MOVED_B], {}, None), "b",
        DRAFT_OF_B["b"]);
    TreeOf(DRAFT_OF_B, Overwrite(MOVED_B, DRAFT_OF_B["b"]));
  }

  /** The draft at the new path is merged first, the one at the old path over it. */
  const OVERWRITTEN: File := Overwrite(Overwrite(MOVED_B, Draft(1, 1, EDIT)), Draft(1, 1, OLD))

  lemma BothOverlaid(drafts: Drafts)
    requires drafts == DRAFTS_OF_B_AND_A
    ensures Overlays(View([MOVED_B], {}, None), drafts, ["a", "b"]) == Ok(View([OVERWRITTEN], {}, None))
  {
    var first := Overwrite(MOVED_B, Draft(1, 1, EDIT));
    OverlaidAlone(MOVED_B, "a", Draft(1, 1, EDIT));
    OverlaidAlone(first, "b", Draft(1, 1, OLD));
    TwoOverlays(View([MOVED_B], {}, None), drafts, "a", "b");
  }

  lemma BothListed()
    ensures Listing(DRAFTS_OF_B_AND_A.Keys) == ["a", "b"]
  {
    assert DRAFTS_OF_B_AND_A.Keys == {"a", "b"};
    ListingTwo("a", "b");
  }

  lemma TreeAfter()
    ensures var r := Project(ROW_B, DRAFTS_OF_B_AND_A, MOVE);
            r.Ok? && r.value.files == [OVERWRITTEN] && r.value.main == None
  {
    MovedView(DRAFTS_OF_B_AND_A);
    BothListed();
    BothOverlaid(DRAFTS_OF_B_AND_A);
    TreeOf(DRAFTS_OF_B_AND_A, OVERWRITTEN);
  }

  lemma NothingGone(files: seq<File>)
    requires files == [Overwrite(MOVED_B, DRAFT_OF_B["b"])]
    ensures !Gone(files, "a")
  {
  }

  lemma KeptBoth()
    ensures KeepDraft(Member(DRAFT_OF_B, MOVE), "a", 1, EDIT, None) == Ok(Member(DRAFTS_OF_B_AND_A, MOVE))
    ensures WorkOf(ProjectWith(DRAFT_OF_B), 0) == Member(DRAFT_OF_B, MOVE)
  {
    assert DRAFT_OF_B["a" := Draft(1, 1, EDIT)] == DRAFTS_OF_B_AND_A;
  }

  lemma SavedProject(kept: Member)
    requires kept == Member(DRAFTS_OF_B_AND_A, MOVE)
    ensures WithWork(ProjectWith(DRAFT_OF_B), 0, kept) == ProjectWith(DRAFTS_OF_B_AND_A)
  {
    assert map[0 := Member(DRAFT_OF_B, MOVE)][0 := kept] == map[0 := kept];
  }

  lemma SaveIsAccepted()
    ensures SaveDraft(ProjectWith(DRAFT_OF_B), 0, {FileWrite, FileCreate}, "a", 1, EDIT, None)
            == Accepted(ProjectWith(DRAFTS_OF_B_AND_A))
  {
    var p := ProjectWith(DRAFT_OF_B);
    TreeBefore();
    EveryoneWrites(p, {FileWrite, FileCreate}, "a");
    var tree, kept := Project(ROW_B, DRAFT_OF_B, MOVE).value, Member(DRAFTS_OF_B_AND_A, MOVE);
    NothingGone(tree.files);
    KeptBoth();
    SaveGoesThrough(p, {FileWrite, FileCreate}, "a", 1, tree, kept);
    SavedProject(kept);
  }

  lemma AloneIsPublishable(p: ProjectState, tree: Tree, grants: Grants)
    requires p.files == ROW_B && !p.mainLocked && tree.files == [OVERWRITTEN] && tree.main == None
    requires {FileWrite, FileRename} <= grants && Writable(p, grants, "a") && Writable(p, grants, "b")
    ensures Publishable(p, tree, grants)
  {
    assert tree.files[0] == OVERWRITTEN && Touched(OVERWRITTEN);
    assert "a" !in ROW_B;
  }

  lemma PublishIsAccepted(p: ProjectState, grants: Grants)
    requires p == ProjectWith(DRAFTS_OF_B_AND_A) && {FileWrite, FileRename} <= grants
    ensures PublishChangeSet(p, 0, grants).outcome.Published?
  {
    TreeAfter();
    EveryoneWrites(p, grants, "a");
    EveryoneWrites(p, grants, "b");
    AloneIsPublishable(p, Project(ROW_B, DRAFTS_OF_B_AND_A, MOVE).value, grants);
    PublishedExactly(p, 0, grants);
  }

  lemma OnlyRow(after: Table, files: seq<File>, f: File)
    requires files == [f] && FileOk(f, ROW_B) && !f.pendingDelete
    requires IsLiveTree(after, files, ROW_B)
    ensures after == map[f.path := Row(f, ROW_B)]
  {
    assert files[0] == f && f in files;
    forall q | q in after ensures q == f.path {
      var g :| g in files && LiveAt(g, q);
    }
  }

  lemma PublishedRow(p: ProjectState, grants: Grants)
    requires p == ProjectWith(DRAFTS_OF_B_AND_A) && {FileWrite, FileRename} <= grants
    ensures PublishChangeSet(p, 0, grants).outcome.Published?
    ensures PublishChangeSet(p, 0, grants).project.files == map["a" := Entry(OLD, 2)]
  {
    PublishIsAccepted(p, grants);
    TreeAfter();
    PublishRefinesProjection(p, 0, grants);
    assert Row(OVERWRITTEN, ROW_B) == Entry(OLD, 2);
    OnlyRow(PublishChangeSet(p, 0, grants).project.files, [OVERWRITTEN], OVERWRITTEN);
  }

  /** The newer edit, saved and accepted last, is gone: the file is published with the older text. */
  lemma NewerEditIsLost()
    ensures var decision := SaveDraft(ProjectWith(DRAFT_OF_B), 0, {FileWrite, FileCreate}, "a", 1, EDIT, None);
            && decision.Accepted?
            && var step := PublishChangeSet(decision.project, 0, {FileWrite, FileRename});
            && step.outcome.Published? && step.project.files == map["a" := Entry(OLD, 2)]
  {
    SaveIsAccepted();
    PublishedRow(ProjectWith(DRAFTS_OF_B_AND_A), {FileWrite, FileRename});
  }
}
