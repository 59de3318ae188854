/** Concrete saves that make, or unmake, a draft of a new file and leave an unprojectable tree. */
module SavingExamples {
  import opened Common
  import opened PathOrder
  import opened Projection
  import opened ProjectionFacts
  import opened Publish
  import opened Staging
  import opened StagingExamples
  import opened NewFiles
  import opened SavingExact
  import FilePolicies

  const WRITER: Grants := {FileWrite, FileCreate}

  function OpenProject(table: Table, work: Member): ProjectState
  {
    ProjectState(table, map[0 := work], [], 1, false, [], FilePolicies.Editable)
  }

  lemma TwoSteps(v: View, drafts: Drafts, ops: seq<Staged>)
    requires |ops| == 2 && Step(v, drafts, ops[0]).Ok?
    ensures Steps(v, drafts, ops) == Step(Step(v, drafts, ops[0]).value, drafts, ops[1])
  {
    assert ops[..1][..0] == [];
    assert Steps(v, drafts, ops[..1]) == Step(v, drafts, ops[0]);
  }

  /** A tree of one file that neither is at `t` nor came from there. */
  lemma LoneFile(table: Table, drafts: Drafts, ops: seq<Staged>, v: View, f: File)
    requires Steps(Opening(table, drafts), drafts, ops) == Ok(v) && v.files == [f] && v.main == None
    requires forall p :: p in drafts ==> p in v.consumed
    requires !Mentions(f, "t")
    ensures Project(table, drafts, ops).Ok? && !Gone(Project(table, drafts, ops).value.files, "t")
  {
    ConsumedOnly(v, drafts, Listing(drafts.Keys));
    forall g | g in SortBy([f], PathOf) ensures g == f {
      SortByMember([f], PathOf, g);
    }
  }

  lemma {:induction false} ConsumedOnly(v: View, drafts: Drafts, paths: seq<Path>)
    requires forall p :: p in paths ==> p in drafts && p in v.consumed
    ensures Overlays(v, drafts, paths) == Ok(v)
  {
    if paths != [] {
      ConsumedOnly(v, drafts, paths[..|paths|-1]);
    }
  }

  // --- a new file where another one passed through ----------------------------------------------

  const ROW_A: Table := map["a" := Entry(Content("", 0), 1)]

  /** File `a` is moved to `t` and on to `b`. */
  const PASSING: seq<Staged> := [Rename("a", "t", Some(1)), Rename("t", "b", Some(1))]

  lemma PassedView()
    ensures Opening(ROW_A, map[]) == View([CanonicalFile("a", ROW_A["a"])], {}, None)
    ensures Steps(Opening(ROW_A, map[]), map[], PASSING) == Ok(View([Moved("b", 1)], {}, None))
  {
    assert ROW_A.Keys == {"a"};
    ListingOne("a");
    CanonicalFilesAt(ROW_A, ["a"]);
    var none: Drafts := map[];
    assert none.Keys == {};
    var v := View([CanonicalFile("a", ROW_A["a"])], {}, None);
    assert CanonicalFiles(ROW_A, ["a"]) == v.files;
    assert RenameAt(v, 0, PASSING[0]).files == [Moved("t", 1)];
    var w := v.(files := [Moved("t", 1)]);
    assert RenameAt(w, 0, PASSING[1]).files == [Moved("b", 1)];
    assert Step(v, none, PASSING[0]) == Ok(w);
    TwoSteps(v, none, PASSING);
  }

  /** An accepted save of a new file leaves an unprojectable tree: an earlier move went through its path. */
  lemma CreatingCanBreak()
    ensures var p := OpenProject(ROW_A, Member(map[], PASSING));
            var decision := SaveDraft(p, 0, WRITER, "t", 0, EDIT, None);
            && decision.Accepted?
            && Project(p.files, WorkOf(decision.project, 0).drafts, WorkOf(decision.project, 0).staged).Err?
  {
    var work := Member(map[], PASSING);
    var p := OpenProject(ROW_A, work);
    PassedView();
    LoneFile(ROW_A, work.drafts, PASSING, View([Moved("b", 1)], {}, None), Moved("b", 1));
    SaveIsAccepted(p, work, 0);
    SavedFitsExactly(p, 0, WRITER, "t", 0, EDIT, None);
    assert MovesTo(PASSING[0], "t") && PASSING[0] in PASSING;
  }

  lemma SaveIsAccepted(p: ProjectState, work: Member, base: nat)
    requires p.rules == [] && p.fallback == FilePolicies.Editable && WorkOf(p, 0) == work
    requires Project(p.files, work.drafts, work.staged).Ok?
    requires !Gone(Project(p.files, work.drafts, work.staged).value.files, "t")
    requires base <= 1 && ("t" in work.drafts ==> work.drafts["t"].revision == 1)
    ensures SaveDraft(p, 0, WRITER, "t", base, EDIT, None).Accepted?
  {
    EveryoneWrites(p, WRITER, "t");
    var tree := Project(p.files, work.drafts, work.staged).value;
    SaveGoesThrough(p, WRITER, "t", base, tree, KeepDraft(work, "t", base, EDIT, None).value);
  }

  // --- a new file that operations have moved -------------------------------------------------------

  const NEW_T: Drafts := map["t" := Draft(0, 1, EDIT)]

  /** The new file is moved to `b`. */
  const MOVING: seq<Staged> := [Rename("t", "b", None)]

  const NEW_B: File := AddedFile("b", Draft(0, 1, EDIT))

  lemma MovedView()
    ensures Steps(Opening(map[], NEW_T), NEW_T, MOVING) == Ok(View([NEW_B], {"t"}, None))
  {
    assert NEW_T.Keys == {"t"};
    ListingOne("t");
    var none: Table := map[];
    assert none.Keys == {};
    var one := ["t"];
    assert one[..|one|-1] == [];
    var v := View([AddedFile("t", NEW_T["t"])], {"t"}, None);
    var rows := View(CanonicalFiles(none, Listing(none.Keys)), {}, None);
    assert rows == View([], {}, None);
    assert AddDrafts(rows, NEW_T, []) == rows;
    assert AddDrafts(rows, NEW_T, one) == TakeDraft(rows, "t", NEW_T["t"]);
    assert Opening(none, NEW_T) == v;
    assert RenameAt(v, 0, MOVING[0]).files == [NEW_B];
    assert MOVING[..0] == [];
    assert Steps(v, NEW_T, []) == Ok(v);
    assert Steps(v, NEW_T, MOVING) == Step(v, NEW_T, MOVING[0]);
    assert Step(v, NEW_T, MOVING[0]) == Ok(RenameAt(v, 0, MOVING[0]));
  }

  /** An accepted save over a new file leaves an unprojectable tree: it names a base, and the file it made is moved. */
  lemma ForgettingCanBreak()
    ensures var p := OpenProject(map[], Member(NEW_T, MOVING));
            var decision := SaveDraft(p, 0, WRITER, "t", 1, EDIT, None);
            && decision.Accepted?
            && Project(p.files, WorkOf(decision.project, 0).drafts, WorkOf(decision.project, 0).staged).Err?
  {
    var work := Member(NEW_T, MOVING);
    var p := OpenProject(map[], work);
    MovedView();
    LoneFile(map[], NEW_T, MOVING, View([NEW_B], {"t"}, None), NEW_B);
    SaveIsAccepted(p, work, 1);
    SavedFitsExactly(p, 0, WRITER, "t", 1, EDIT, None);
    assert TakesFrom(MOVING[0], "t") && MOVING[0] in MOVING;
  }
}
