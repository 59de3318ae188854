/** The smallest project with private work: the theorems' hypotheses are met, and staging can break it. */
module Examples {
  import opened Common
  import opened Counting
  import opened PathOrder
  import opened Projection
  import opened ProjectionFacts
  import opened Publish
  import opened Staging
  import opened StaleDrafts
  import Runs = ProjectRuns
  import W = Workspace
  import FilePolicies

  /** One canonical file, one member with an edit of it. */
  function EditedFile(path: Path, content: Content, edit: Content): ProjectState
  {
    ProjectState(map[path := Entry(content, 1)], map[0 := Member(map[path := Draft(1, 1, edit)], [])],
                 [[W.PutFile(path, content)]], 1, false, [], FilePolicies.Editable)
  }

  lemma OneRow(table: Table, path: Path)
    requires table.Keys == {path}
    ensures CanonicalFiles(table, [path]) == [CanonicalFile(path, table[path])]
  {
    CanonicalFilesAt(table, [path]);
  }

  lemma UnaddedDraft(v: View, drafts: Drafts, path: Path)
    requires path in drafts && drafts[path].base != 0
    ensures AddDrafts(v, drafts, [path]) == v
  {
    assert AddDrafts(v, drafts, [path][..0]) == v;
  }

  lemma OneOverlay(v: View, row: File, drafts: Drafts, path: Path)
    requires v == View([row], {}, None) && path in drafts && LiveAt(row, path)
    ensures Overlays(v, drafts, [path]) == Ok(View([Overwrite(row, drafts[path])], {}, None))
  {
    assert Overlays(v, drafts, [path][..0]) == Ok(v);
    assert v.files[0] == row && v.files[0 := Overwrite(row, drafts[path])] == [Overwrite(row, drafts[path])];
  }

  /** What the owner of the edit sees: the one file, modified. */
  function EditedRow(path: Path, content: Content, edit: Content): File
  {
    Overwrite(CanonicalFile(path, Entry(content, 1)), Draft(1, 1, edit))
  }

  lemma EditedTree(path: Path, content: Content, edit: Content)
    ensures var p, row := EditedFile(path, content, edit), EditedRow(path, content, edit);
            && Steps(Opening(p.files, WorkOf(p, 0).drafts), WorkOf(p, 0).drafts, [])
               == Ok(View([CanonicalFile(path, Entry(content, 1))], {}, None))
            && Project(p.files, WorkOf(p, 0).drafts, WorkOf(p, 0).staged)
               == Ok(Tree([row], None, Summary(1, 0, 0, 0, false, 1)))
  {
    var p := EditedFile(path, content, edit);
    var work := WorkOf(p, 0);
    assert p.files.Keys == {path} && work.drafts.Keys == {path} && work.drafts[path] == Draft(1, 1, edit);
    var row := CanonicalFile(path, Entry(content, 1));
    var start := View([row], {}, None);
    ListingOne(path);
    OneRow(p.files, path);
    UnaddedDraft(start, work.drafts, path);
    OneOverlay(start, row, work.drafts, path);
    SortedSingle(EditedRow(path, content, edit));
    CountSingle(EditedRow(path, content, edit));
  }

  lemma SortedSingle(f: File)
    ensures SortBy([f], PathOf) == [f]
  {
    var none: seq<File> := [f][1..];
    assert none == [] && SortBy(none, PathOf) == [];
  }

  lemma CountSingle(f: File)
    requires f.modified && !f.added && !f.renamed && !f.pendingDelete
    ensures Summarize([f], None) == Summary(1, 0, 0, 0, false, 1)
  {
    CountOne(f, IsModified);
    CountOne(f, IsAdded);
    CountOne(f, IsRenamed);
    CountOne(f, IsDeleted);
  }

  lemma CountOne(f: File, p: File -> bool)
    ensures Count([f], p) == if p(f) then 1 else 0
  {
    var one := [f];
    assert one[..|one|-1] == [];
  }

  lemma PassOne(phase: Phase, d: Delta, f: File)
    requires d.Delta?
    ensures Pass(phase, d, [f]) == if Takes(phase, f) then Emit(phase, d, f) else d
  {
    var one := [f];
    assert one[..|one|-1] == [];
  }

  lemma SinglePasses(table: Table, f: File)
    requires f.modified && !f.added && !f.renamed && !f.pendingDelete && f.revision == Some(1)
    ensures AllPasses(table, [f]) == Delta(table[f.path := Entry(f.content, 2)], [W.PutFile(f.path, f.content)], 1)
  {
    var d := Delta(table, [], 0);
    PassOne(Deletes, d, f);
    PassOne(Renames, d, f);
    PassOne(Writes, d, f);
  }

  /** Log and table agree, and the edit publishes: one change, revision 2, one event. */
  lemma EditPublishes(path: Path, content: Content, edit: Content)
    ensures var p := EditedFile(path, content, edit);
            var step := PublishChangeSet(p, 0, {FileWrite});
            && Runs.Agrees(p)
            && step.outcome == Published(2, 2, 1)
            && step.project.files == map[path := Entry(edit, 2)]
  {
    var p, row := EditedFile(path, content, edit), EditedRow(path, content, edit);
    EditedTree(path, content, edit);
    SinglePasses(p.files, row);
    ReplaysOnce(path, content);
    NoConflicts(p, row, path);
    CommitsOnce(p, row, path);
  }

  lemma CommitsOnce(p: ProjectState, row: File, path: Path)
    requires AllPasses(p.files, [row])
             == Delta(p.files[path := Entry(row.content, 2)], [W.PutFile(path, row.content)], 1)
    requires |p.log| == 1 && p.generation == 1 && p.files.Keys == {path}
    ensures var step := Commit(p, 0, Tree([row], None, Summary(1, 0, 0, 0, false, 1)));
            step.outcome == Published(2, 2, 1) && step.project.files == map[path := Entry(row.content, 2)]
  {
    assert p.files[path := Entry(row.content, 2)] == map[path := Entry(row.content, 2)];
  }

  lemma ReplaysOnce(path: Path, content: Content)
    ensures W.Replay([[W.PutFile(path, content)]]) == Some(W.State(map[path := content], None))
    ensures W.ReplayMain([[W.PutFile(path, content)]]) == None
  {
    var event := [W.PutFile(path, content)];
    var log := [event];
    assert event[..0] == [] && log[..0] == [];
    assert W.ApplyAll(W.EMPTY, event) == Some(W.State(map[path := content], None));
    assert W.MainThrough(None, event) == None;
  }

  lemma NoConflicts(p: ProjectState, row: File, path: Path)
    requires path in p.files && p.files[path].revision == 1 && p.rules == [] && p.fallback == FilePolicies.Editable
    requires row.path == path && row.origin == Some(path) && row.revision == Some(1)
    requires row.modified && !row.added && !row.renamed && !row.pendingDelete && W.ReplayMain(p.log) == None
    ensures Conflicts(p, Tree([row], None, Summary(1, 0, 0, 0, false, 1)), {FileWrite}) == []
  {
    var tree := Tree([row], None, Summary(1, 0, 0, 0, false, 1));
    var locked := Locked(tree.files, p.files);
    assert tree.files[0] == row && path in locked;
    QuietFile(p, row, locked, path);
    OneFile(p, row, locked);
    assert MainConflicts(tree, NextMain(tree, W.ReplayMain(p.log)), p.mainLocked, {FileWrite}) == [];
  }

  lemma OneFile(p: ProjectState, row: File, locked: map<Path, nat>)
    requires FileConflicts(row, locked, p, {FileWrite}) == []
    ensures AllFileConflicts([row], locked, p, {FileWrite}) == []
  {
    var one := [row];
    assert one[..|one|-1] == [];
  }

  lemma QuietFile(p: ProjectState, row: File, locked: map<Path, nat>, path: Path)
    requires path in locked && locked[path] == 1 && p.rules == [] && p.fallback == FilePolicies.Editable
    requires row.path == path && row.origin == Some(path) && row.revision == Some(1)
    requires row.modified && !row.added && !row.renamed && !row.pendingDelete
    ensures FileConflicts(row, locked, p, {FileWrite}) == []
  {
    var needed, paths := [FileWrite], [path];
    assert needed[..|needed|-1] == [] && paths[..|paths|-1] == [];
    assert Required(row) == needed && PolicyPaths(row) == paths;
    assert Writable(p, {FileWrite}, path);
    var none: seq<Path> := paths[..0];
    assert Protected(row, none, p, {FileWrite}) == [] && paths[|paths|-1] == path;
    assert Protected(row, paths, p, {FileWrite}) == [];
    assert Denied(row, needed, {FileWrite}) == [];
  }

  /** A concrete case: staging does not always leave a projectable tree. */
  lemma StagingCanBreak(path: Path, content: Content, edit: Content)
    ensures var p := EditedFile(path, content, edit);
            var decision := Stage(p, 0, {FileDelete}, DeleteFile(path));
            && decision.Accepted?
            && Project(p.files, WorkOf(decision.project, 0).drafts, WorkOf(decision.project, 0).staged).Err?
  {
    var p := EditedFile(path, content, edit);
    EditedTree(path, content, edit);
    var row := EditedRow(path, content, edit);
    assert LiveAt([row][0], path);
    assert Stage(p, 0, {FileDelete}, DeleteFile(path)).Accepted?;
    DeleteUnderDraftBreaks(p, 0, {FileDelete}, path);
  }
}
