/** Concrete private work in which a rename, or a save, makes the tree unprojectable. */
module StagingExamples {
  import opened Common
  import opened PathOrder
  import opened Projection
  import opened ProjectionFacts
  import opened DraftMerging
  import opened Publish
  import opened Staging
  import opened StagingExact
  import FilePolicies

  const ROWS: Table := map["a" := Entry(Content("", 0), 1), "o" := Entry(Content("", 0), 1)]

  /** File `a` is moved to `x`, file `o` to `a` and deleted there. */
  function Crossing(x: Path): seq<Staged>
  {
    [Rename("a", x, Some(1)), Rename("o", "a", Some(1)), Delete("a", Some(1))]
  }

  function Moved(x: Path, revision: nat): File
  {
    File(x, Some("a"), Some(revision), Content("", 0), None, false, false, true, false)
  }

  const DELETED: File := File("a", Some("o"), Some(1), Content("", 0), None, false, false, true, true)

  function Crossed(x: Path): View
  {
    View([Moved(x, 1), DELETED], {}, None)
  }

  lemma RowsInOrder()
    ensures CanonicalFiles(ROWS, Listing(ROWS.Keys)) == [CanonicalFile("a", ROWS["a"]), CanonicalFile("o", ROWS["o"])]
  {
    assert ROWS.Keys == {"a", "o"};
    ListingTwo("a", "o");
    CanonicalFilesAt(ROWS, ["a", "o"]);
  }

  lemma OpeningRows(drafts: Drafts)
    requires forall p :: p in drafts ==> drafts[p].base != 0
    ensures Opening(ROWS, drafts) == View([CanonicalFile("a", ROWS["a"]), CanonicalFile("o", ROWS["o"])], {}, None)
  {
    RowsInOrder();
    NoneAdded(View(CanonicalFiles(ROWS, Listing(ROWS.Keys)), {}, None), drafts, Listing(drafts.Keys));
  }

  lemma {:induction false} NoneAdded(v: View, drafts: Drafts, paths: seq<Path>)
    requires forall p :: p in paths ==> p in drafts && drafts[p].base != 0
    ensures AddDrafts(v, drafts, paths) == v
  {
    if paths != [] {
      NoneAdded(v, drafts, paths[..|paths|-1]);
    }
  }

  lemma CrossedView(x: Path, drafts: Drafts)
    requires x != "a" && x != "o" && forall p :: p in drafts ==> drafts[p].base != 0
    ensures Steps(Opening(ROWS, drafts), drafts, Crossing(x)) == Ok(Crossed(x))
  {
    OpeningRows(drafts);
    FirstStep(x, Opening(ROWS, drafts), drafts);
    SecondStep(x, View([Moved(x, 1), CanonicalFile("o", ROWS["o"])], {}, None), drafts);
    ThreeSteps(Opening(ROWS, drafts), drafts, Crossing(x));
  }

  lemma ThreeSteps(v: View, drafts: Drafts, ops: seq<Staged>)
    requires |ops| == 3 && Step(v, drafts, ops[0]).Ok? && Step(Step(v, drafts, ops[0]).value, drafts, ops[1]).Ok?
    ensures Steps(v, drafts, ops) == Step(Step(Step(v, drafts, ops[0]).value, drafts, ops[1]).value, drafts, ops[2])
  {
    assert ops[..2][..1] == ops[..1] && ops[..1][..0] == [];
    assert Steps(v, drafts, ops[..1]) == Step(v, drafts, ops[0]);
    assert Steps(v, drafts, ops[..2]) == Step(Step(v, drafts, ops[0]).value, drafts, ops[1]);
  }

  lemma FirstStep(x: Path, v: View, drafts: Drafts)
    requires x != "a" && x != "o"
    requires v == View([CanonicalFile("a", ROWS["a"]), CanonicalFile("o", ROWS["o"])], {}, None)
    ensures Step(v, drafts, Rename("a", x, Some(1))) == Ok(View([Moved(x, 1), CanonicalFile("o", ROWS["o"])], {}, None))
  {
    var op := Rename("a", x, Some(1));
    assert FirstLive(v.files, "a") == 0 && v.files[1..] == [CanonicalFile("o", ROWS["o"])];
    assert !HasLive(v.files, x);
    assert RenameAt(v, 0, op).files == [Moved(x, 1), CanonicalFile("o", ROWS["o"])];
  }

  lemma SecondStep(x: Path, v: View, drafts: Drafts)
    requires x != "a" && x != "o" && v == View([Moved(x, 1), CanonicalFile("o", ROWS["o"])], {}, None)
    ensures var w := v.(files := [Moved(x, 1), DELETED.(pendingDelete := false)]);
            Step(v, drafts, Rename("o", "a", Some(1))) == Ok(w)
                && Step(w, drafts, Delete("a", Some(1))) == Ok(Crossed(x))
  {
    var w := v.(files := [Moved(x, 1), DELETED.(pendingDelete := false)]);
    assert v.files[1..] == [CanonicalFile("o", ROWS["o"])] && w.files[1..] == [DELETED.(pendingDelete := false)];
    assert FirstLive(v.files, "o") == 1 && !HasLive(v.files, "a");
    assert RenameAt(v, 1, Rename("o", "a", Some(1))).files == w.files;
    assert FirstLive(w.files, "a") == 1;
    assert DeleteAt(w, 1, Delete("a", Some(1))).files == Crossed(x).files;
  }

  const EDIT := Content("edit", 4)

  /** One member with the crossing staged; nobody is restricted. */
  function Project0(x: Path, drafts: Drafts): ProjectState
  {
    ProjectState(ROWS, map[0 := Member(drafts, Crossing(x))], [], 1, false, [], FilePolicies.Editable)
  }

  const DRAFT_OF_A: Drafts := map["a" := Draft(1, 1, EDIT)]

  lemma EveryoneWrites(p: ProjectState, grants: Grants, path: Path)
    requires p.rules == [] && p.fallback == FilePolicies.Editable
    ensures Writable(p, grants, path)
  {
  }

  /** The draft at `a` follows its file to `x`. */
  lemma MovedTakesDraft(x: Path, drafts: Drafts)
    requires x != "a" && "a" in drafts && drafts["a"].base == 1
    ensures Overlay(Crossed(x), "a", drafts["a"]) == Ok(View([Overwrite(Moved(x, 1), drafts["a"]), DELETED], {}, None))
  {
    var v := Crossed(x);
    assert FirstReceiver(v.files, "a", drafts["a"]) == 0;
    assert v.files[0 := Overwrite(v.files[0], drafts["a"])] == [Overwrite(Moved(x, 1), drafts["a"]), DELETED];
  }

  lemma CrossedTree(x: Path)
    requires x != "a" && x != "o"
    ensures var r := Project(ROWS, DRAFT_OF_A, Crossing(x));
            r.Ok? && forall f :: f in r.value.files <==> f == Overwrite(Moved(x, 1), DRAFT_OF_A["a"]) || f == DELETED
  {
    CrossedView(x, DRAFT_OF_A);
    assert DRAFT_OF_A.Keys == {"a"};
    ListingOne("a");
    MovedTakesDraft(x, DRAFT_OF_A);
    var one := ["a"];
    assert one[..|one|-1] == [];
    var files := [Overwrite(Moved(x, 1), DRAFT_OF_A["a"]), DELETED];
    assert Overlays(Crossed(x), DRAFT_OF_A, one) == Ok(View(files, {}, None));
    forall f ensures f in SortBy(files, PathOf) <==> f == files[0] || f == files[1] {
      SortByMember(files, PathOf, f);
    }
  }

  /** The file moved to `x` no longer answers for `a` once a draft at `x` has a lower path and another base. */
  lemma LowerDraftStrands(x: Path, drafts: Drafts)
    requires Below(x, "a") && x in drafts && drafts[x].base == 2 && "a" in drafts && drafts["a"].base == 1
    ensures !Coheres(Crossed(x), drafts)
  {
    var v := Crossed(x);
    assert !AnswersBefore(v, drafts, 0, x);
    assert Carried(v, drafts, 0) == Some(2);
    assert !Stands(v, drafts, 0, "a") && !Stands(v, drafts, 1, "a");
    assert DELETED in v.files && Buried(v.files, "a");
    assert !Housed(v, drafts, "a");
  }

  const DRAFTS_OF_BOTH: Drafts := DRAFT_OF_A["A" := Draft(2, 1, EDIT)]

  lemma SaveGoesThrough(p: ProjectState, grants: Grants, path: Path, base: nat, tree: Tree, kept: Member)
    requires FileWrite in grants && FileCreate in grants && Writable(p, grants, path)
    requires Project(p.files, WorkOf(p, 0).drafts, WorkOf(p, 0).staged) == Ok(tree) && !Gone(tree.files, path)
    requires KeepDraft(WorkOf(p, 0), path, base, EDIT, None) == Ok(kept)
    ensures SaveDraft(p, 0, grants, path, base, EDIT, None) == Accepted(WithWork(p, 0, kept))
  {
  }

  lemma NotGone(tree: Tree)
    requires forall f :: f in tree.files <==> f == Overwrite(Moved("A", 1), DRAFT_OF_A["a"]) || f == DELETED
    ensures !Gone(tree.files, "A")
  {
  }

  lemma SaveAccepted()
    ensures var p := Project0("A", DRAFT_OF_A);
            SaveDraft(p, 0, {FileWrite, FileCreate}, "A", 2, EDIT, None)
            == Accepted(WithWork(p, 0, Member(DRAFTS_OF_BOTH, Crossing("A"))))
  {
    var p := Project0("A", DRAFT_OF_A);
    CrossedTree("A");
    EveryoneWrites(p, {FileWrite, FileCreate}, "A");
    var tree := Project(ROWS, DRAFT_OF_A, Crossing("A")).value;
    NotGone(tree);
    KeptOnce();
    SaveGoesThrough(p, {FileWrite, FileCreate}, "A", 2, tree, Member(DRAFTS_OF_BOTH, Crossing("A")));
  }

  lemma KeptOnce()
    ensures KeepDraft(Member(DRAFT_OF_A, Crossing("A")), "A", 2, EDIT, None) == Ok(Member(DRAFTS_OF_BOTH,
            Crossing("A")))
    ensures WorkOf(Project0("A", DRAFT_OF_A), 0) == Member(DRAFT_OF_A, Crossing("A"))
  {
    assert "A" !in DRAFT_OF_A;
  }

  lemma SavedIsStranded()
    ensures Project(ROWS, DRAFTS_OF_BOTH, Crossing("A")).Err?
  {
    CrossedView("A", DRAFTS_OF_BOTH);
    LowerDraftStrands("A", DRAFTS_OF_BOTH);
    ProjectsExactly(ROWS, DRAFTS_OF_BOTH, Crossing("A"));
  }

  /** An accepted save leaves an unprojectable tree. */
  lemma SavingCanBreak()
    ensures var p := Project0("A", DRAFT_OF_A);
            var decision := SaveDraft(p, 0, {FileWrite, FileCreate}, "A", 2, EDIT, None);
            && decision.Accepted?
            && Project(p.files, WorkOf(decision.project, 0).drafts, WorkOf(decision.project, 0).staged).Err?
  {
    SaveAccepted();
    SavedIsStranded();
  }

  const DRAFTS_OF_A_AND_M: Drafts := map["a" := Draft(1, 1, EDIT), "m" := Draft(2, 1, EDIT)]

  function Twice(): seq<File>
  {
    [Overwrite(Overwrite(Moved("m", 1), Draft(1, 1, EDIT)), Draft(2, 1, EDIT)), DELETED]
  }

  lemma SecondDraft(v: View)
    requires v == View([Overwrite(Moved("m", 1), Draft(1, 1, EDIT)), DELETED], {}, None)
    ensures Overlay(v, "m", Draft(2, 1, EDIT)) == Ok(View(Twice(), {}, None))
  {
    assert FirstReceiver(v.files, "m", Draft(2, 1, EDIT)) == 0;
    assert v.files[0 := Overwrite(v.files[0], Draft(2, 1, EDIT))] == Twice();
  }

  lemma TwoOverlays(v: View, drafts: Drafts, p: Path, q: Path)
    requires p in drafts && q in drafts && Overlay(v, p, drafts[p]).Ok?
    ensures Overlays(v, drafts, [p, q]) == Overlay(Overlay(v, p, drafts[p]).value, q, drafts[q])
  {
    var paths := [p, q];
    assert paths[..|paths|-1] == [p] && [p][..|[p]|-1] == [];
    assert Overlays(v, drafts, [p]) == Overlay(v, p, drafts[p]);
  }

  /** Both drafts reach the moved file, the one at its new path last. */
  lemma MovedTakesBoth()
    ensures var r := Project(ROWS, DRAFTS_OF_A_AND_M, Crossing("m"));
            && r.Ok? && HasLive(r.value.files, "m") && !HasLive(r.value.files, "z")
            && r.value.files[FirstLive(r.value.files, "m")].revision == Some(2) && r.value.main == None
  {
    CrossedView("m", DRAFTS_OF_A_AND_M);
    BothOverlays();
    SortedPair(Twice());
    ProjectOf(ROWS, DRAFTS_OF_A_AND_M, Crossing("m"), Crossed("m"), View(Twice(), {}, None));
  }

  lemma ProjectOf(table: Table, drafts: Drafts, ops: seq<Staged>, v: View, u: View)
    requires Steps(Opening(table, drafts), drafts, ops) == Ok(v)
    requires Overlays(v, drafts, Listing(drafts.Keys)) == Ok(u) && u.main == None
    ensures Project(table, drafts, ops).Ok? && Project(table, drafts, ops).value.files == SortBy(u.files, PathOf)
    ensures Project(table, drafts, ops).value.main == None
  {
  }

  lemma StageGoesThrough(p: ProjectState, grants: Grants, request: Request, tree: Tree, op: Staged)
    requires Touches(p, grants, request) && Project(p.files, WorkOf(p, 0).drafts, WorkOf(p, 0).staged) == Ok(tree)
    requires request.RenameFile? && OperationFor(tree, request) == Some(op) && !HasLive(tree.files, request.destination)
    ensures Stage(p, 0, grants, request).Accepted?
  {
  }

  lemma BothOverlays()
    ensures Overlays(Crossed("m"), DRAFTS_OF_A_AND_M, Listing(DRAFTS_OF_A_AND_M.Keys)) == Ok(View(Twice(), {}, None))
  {
    var drafts := DRAFTS_OF_A_AND_M;
    assert drafts.Keys == {"a", "m"};
    ListingTwo("a", "m");
    MovedTakesDraft("m", drafts);
    SecondDraft(Overlay(Crossed("m"), "a", drafts["a"]).value);
    TwoOverlays(Crossed("m"), drafts, "a", "m");
  }

  lemma SortedPair(files: seq<File>)
    requires |files| == 2 && LiveAt(files[0], "m") && files[1] == DELETED
    ensures var s := SortBy(files, PathOf); HasLive(s, "m") && s[FirstLive(s, "m")] == files[0] && !HasLive(s, "z")
  {
    var s := SortBy(files, PathOf);
    LiveThroughSort(files, "m");
    LiveThroughSort(files, "z");
    assert HasLive(files, "m");
    SortByMember(files, PathOf, s[FirstLive(s, "m")]);
  }

  lemma RenameAccepted()
    ensures Stage(Project0("m", DRAFTS_OF_A_AND_M), 0, {FileRename}, RenameFile("m", "z")).Accepted?
    ensures var r := Project(ROWS, DRAFTS_OF_A_AND_M, Crossing("m"));
            r.Ok? && OperationFor(r.value, RenameFile("m", "z")) == Some(Rename("m", "z", Some(2)))
  {
    var p := Project0("m", DRAFTS_OF_A_AND_M);
    EveryoneWrites(p, {FileRename}, "m");
    EveryoneWrites(p, {FileRename}, "z");
    MovedTakesBoth();
    var tree := Project(ROWS, DRAFTS_OF_A_AND_M, Crossing("m")).value;
    StageGoesThrough(p, {FileRename}, RenameFile("m", "z"), tree, Rename("m", "z", Some(2)));
  }

  /** An accepted rename leaves an unprojectable tree: it records the other draft's base. */
  lemma RenameCanBreak()
    ensures var p := Project0("m", DRAFTS_OF_A_AND_M);
            var decision := Stage(p, 0, {FileRename}, RenameFile("m", "z"));
            && decision.Accepted?
            && Project(p.files, WorkOf(decision.project, 0).drafts, WorkOf(decision.project, 0).staged).Err?
  {
    RenameAccepted();
    CrossedProject("m", DRAFTS_OF_A_AND_M);
    MovedOnStrands(DRAFTS_OF_A_AND_M, Rename("m", "z", Some(2)));
    UnfitBreaks(Project0("m", DRAFTS_OF_A_AND_M), {FileRename}, RenameFile("m", "z"), Crossed("m"), Rename("m", "z",
        Some(2)));
  }

  lemma CrossedProject(x: Path, drafts: Drafts)
    requires x != "a" && x != "o" && forall p :: p in drafts ==> drafts[p].base != 0
    ensures var p := Project0(x, drafts);
            Stepped(p, 0) == Ok(Crossed(x)) && p.files == ROWS && WorkOf(p, 0) == Member(drafts, Crossing(x))
  {
    CrossedView(x, drafts);
  }

  lemma UnfitBreaks(p: ProjectState, grants: Grants, request: Request, v: View, op: Staged)
    requires !request.SetMainFile? && Stage(p, 0, grants, request).Accepted? && Stepped(p, 0) == Ok(v)
    requires Project(p.files, WorkOf(p, 0).drafts, WorkOf(p, 0).staged).Ok?
    requires OperationFor(Project(p.files, WorkOf(p, 0).drafts, WorkOf(p, 0).staged).value, request) == Some(op)
    requires !op.SetMain? && !Fits(v, WorkOf(p, 0).drafts, op)
    ensures var after := WorkOf(Stage(p, 0, grants, request).project, 0);
            Project(p.files, after.drafts, after.staged).Err?
  {
    StagedFitsExactly(p, 0, grants, request);
  }

  lemma MovedOnStrands(drafts: Drafts, op: Staged)
    requires drafts == DRAFTS_OF_A_AND_M && op == Rename("m", "z", Some(2))
    ensures !Fits(Crossed("m"), drafts, op)
  {
    var v := Crossed("m");
    assert FirstLive(v.files, "m") == 0;
    var u := Edited(v, drafts, op);
    assert u.files == [Moved("z", 2), DELETED];
    assert Carried(u, drafts, 0) == Some(2);
    assert !Stands(u, drafts, 0, "a") && !Stands(u, drafts, 1, "a");
    assert DELETED in v.files && Buried(v.files, "a");
    assert Emptied(v, op, "a") && Waiting(u, drafts, "a") && !Received(u, drafts, "a");
  }
}
