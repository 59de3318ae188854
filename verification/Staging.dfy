/** save_draft and stage_structural_operation: private work only. */
module Staging {
  import opened Common
  import opened PathOrder
  import opened Projection
  import opened ProjectionFacts
  import opened Publish

  datatype Request =
    | DeleteFile(source: Path)
    | RenameFile(source: Path, destination: Path)
    | SetMainFile(destination: Path)

  datatype Refusal = NotAllowed | NoSuchFile | Clash | StaleDraft | Unprojectable(error: Error) | Overflowed

  datatype Decision = Accepted(project: ProjectState) | Refused(refusal: Refusal)

  ghost predicate Touches(p: ProjectState, grants: Grants, request: Request)
  {
    match request
    case DeleteFile(source) => FileDelete in grants && Writable(p, grants, source)
    case RenameFile(source, destination) =>
      FileRename in grants && Writable(p, grants, source) && Writable(p, grants, destination)
    case SetMainFile(_) => FileSetMain in grants && !p.mainLocked
  }

  function WithoutMain(ops: seq<Staged>): seq<Staged>
  {
    if ops == [] then []
    else WithoutMain(ops[..|ops|-1]) + if ops[|ops|-1].SetMain? then [] else [ops[|ops|-1]]
  }

  /** The operation row, with the revision its source shows in the tree. */
  function OperationFor(tree: Tree, request: Request): Option<Staged>
  {
    match request
    case SetMainFile(destination) => if HasLive(tree.files, destination) then Some(SetMain(destination)) else None
    case DeleteFile(source) =>
      if HasLive(tree.files, source) then Some(Delete(source, tree.files[FirstLive(tree.files, source)].revision))
          else None
    case RenameFile(source, destination) =>
      if HasLive(tree.files, source)
      then Some(Rename(source, destination, tree.files[FirstLive(tree.files, source)].revision)) else None
  }

  ghost function Stage(p: ProjectState, user: nat, grants: Grants, request: Request): Decision
  {
    var work := WorkOf(p, user);
    if !Touches(p, grants, request) then Refused(NotAllowed)
    else
      match Project(p.files, work.drafts, work.staged)
      case Err(e) => Refused(Unprojectable(e))
      case Ok(tree) =>
        if request.DeleteFile? && tree.main == Some(request.source) then Refused(Clash)
        else
          match OperationFor(tree, request)
          case None => Refused(NoSuchFile)
          case Some(op) =>
            if request.RenameFile? && HasLive(tree.files, request.destination) then Refused(Clash)
            else
              var kept := if request.SetMainFile? then WithoutMain(work.staged) else work.staged;
              Accepted(WithWork(p, user, work.(staged := kept + [op])))
  }

  predicate Mentions(f: File, path: Path)
  {
    f.path == path || f.origin == Some(path)
  }

  /** The path, or the file that came from it, still shows in the tree. */
  predicate Shows(files: seq<File>, path: Path)
  {
    exists f | f in files :: !f.pendingDelete && Mentions(f, path)
  }

  /** The path was deleted or moved away in the tree. */
  predicate Gone(files: seq<File>, path: Path)
  {
    (exists f | f in files :: f.pendingDelete && Mentions(f, path))
    || (exists f | f in files :: !f.pendingDelete && f.origin == Some(path) && f.path != path)
  }

  function KeepDraft(work: Member, path: Path, base: nat, content: Content, expected: Option<nat>): Result<Member,
                     Refusal>
  {
    var current := if path in work.drafts then work.drafts[path].revision else 0;
    if expected.Some? && expected.value != current then Err(StaleDraft)
    else if current + 1 > MAX_REVISION || base > MAX_REVISION || content.size > MAX_REVISION then Err(Overflowed)
    else Ok(work.(drafts := work.drafts[path := Draft(base, current + 1, content)]))
  }

  ghost function SaveDraft(p: ProjectState, user: nat, grants: Grants, path: Path, base: nat, content: Content,
                           expected: Option<nat>): Decision
  {
    var work := WorkOf(p, user);
    if FileWrite !in grants || !Writable(p, grants, path) then Refused(NotAllowed)
    else
      match Project(p.files, work.drafts, work.staged)
      case Err(e) => Refused(Unprojectable(e))
      case Ok(tree) =>
        if !Shows(tree.files, path) && FileCreate !in grants then Refused(NotAllowed)
        else if Gone(tree.files, path) then Refused(Clash)
        else
          match KeepDraft(work, path, base, content, expected)
          case Err(refusal) => Refused(refusal)
          case Ok(kept) => Accepted(WithWork(p, user, kept))
  }

  // --- when a staged operation leaves a projectable tree ---------------------------------

  lemma StepIgnoresMain(v: View, drafts: Drafts, op: Staged)
    requires Step(v, drafts, op).Ok? && !op.SetMain?
    ensures Step(v.(main := None), drafts, op) == Ok(Step(v, drafts, op).value.(main := None))
  {
  }

  lemma {:induction false} DroppingMainKeepsFiles(v: View, drafts: Drafts, ops: seq<Staged>)
    requires Steps(v, drafts, ops).Ok? && v.main == None
    ensures Steps(v, drafts, WithoutMain(ops)) == Ok(Steps(v, drafts, ops).value.(main := None))
  {
    if ops != [] {
      var last := ops[|ops|-1];
      DroppingMainKeepsFiles(v, drafts, ops[..|ops|-1]);
      if last.SetMain? {
        assert WithoutMain(ops) == WithoutMain(ops[..|ops|-1]);
      } else {
        assert WithoutMain(ops)[..|WithoutMain(ops)|-1] == WithoutMain(ops[..|ops|-1]);
        StepIgnoresMain(Steps(v, drafts, ops[..|ops|-1]).value, drafts, last);
      }
    }
  }

  lemma {:induction false} OverlaysIgnoreMain(v: View, main: Option<Path>, drafts: Drafts, paths: seq<Path>)
    requires forall p :: p in paths ==> p in drafts
    ensures Overlays(v.(main := main), drafts, paths) ==
            match Overlays(v, drafts, paths) { case Err(e) => Err(e) case Ok(u) => Ok(u.(main := main)) }
  {
    if paths != [] {
      OverlaysIgnoreMain(v, main, drafts, paths[..|paths|-1]);
    }
  }

  lemma LiveThroughSort(files: seq<File>, p: Path)
    ensures HasLive(SortBy(files, PathOf), p) <==> HasLive(files, p)
  {
    if HasLive(files, p) {
      SortByMember(files, PathOf, files[FirstLive(files, p)]);
    }
    if HasLive(SortBy(files, PathOf), p) {
      SortByMember(files, PathOf, SortBy(files, PathOf)[FirstLive(SortBy(files, PathOf), p)]);
    }
  }

  lemma {:induction false} AddDraftsKeepsMain(v: View, drafts: Drafts, paths: seq<Path>)
    requires forall p :: p in paths ==> p in drafts
    ensures AddDrafts(v, drafts, paths).main == v.main
  {
    if paths != [] {
      AddDraftsKeepsMain(v, drafts, paths[..|paths|-1]);
    }
  }

  /** Choosing Main never makes the private tree unprojectable. */
  lemma SetMainStaysProjectable(p: ProjectState, user: nat, grants: Grants, destination: Path)
    requires Stage(p, user, grants, SetMainFile(destination)).Accepted?
    ensures var after := WorkOf(Stage(p, user, grants, SetMainFile(destination)).project, user);
            var r := Project(p.files, after.drafts, after.staged);
            r.Ok? && r.value.main == Some(destination)
            && r.value.files == Project(p.files, after.drafts, WorkOf(p, user).staged).value.files
  {
    var work := WorkOf(p, user);
    var drafts, ops := work.drafts, work.staged;
    var kept := WithoutMain(ops) + [SetMain(destination)];
    assert kept[..|kept|-1] == WithoutMain(ops);
    AddDraftsKeepsMain(View(CanonicalFiles(p.files, Listing(p.files.Keys)), {}, None), drafts, Listing(drafts.Keys));
    var start := Opening(p.files, drafts);
    DroppingMainKeepsFiles(start, drafts, ops);
    var v := Steps(start, drafts, ops).value;
    OverlaysIgnoreMain(v, Some(destination), drafts, Listing(drafts.Keys));
    assert Steps(start, drafts, kept) == Ok(v.(main := Some(destination)));
    LiveThroughSort(Overlays(v, drafts, Listing(drafts.Keys)).value.files, destination);
  }

  lemma OpeningWellFormed(table: Table, drafts: Drafts)
    ensures WellFormed(Opening(table, drafts).files, table)
  {
    CanonicalFilesWellFormed(table);
    AddDraftsWellFormed(View(CanonicalFiles(table, Listing(table.Keys)), {}, None), table, drafts,
        Listing(drafts.Keys));
  }

  lemma AppendedStep(v: View, drafts: Drafts, ops: seq<Staged>, op: Staged)
    ensures Steps(v, drafts, ops + [op]) ==
            match Steps(v, drafts, ops) { case Err(e) => Err(e) case Ok(u) => Step(u, drafts, op) }
  {
    assert (ops + [op])[..|ops|] == ops;
  }
}
