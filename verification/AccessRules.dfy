/** Exactly when private work is accepted, read off the grants, the policies and the tree the member sees. */
module AccessRules {
  import opened Common
  import opened Projection
  import opened ProjectionFacts
  import opened Publish
  import opened StagingExact
  import opened Staging
  import P = FilePolicies

  ghost predicate Open(p: ProjectState, user: nat, path: Path)
  {
    exists f :: f in TreeFiles(p, user) && LiveAt(f, path)
  }

  /** What the member sees. */
  function TreeFiles(p: ProjectState, user: nat): seq<File>
  {
    match Project(p.files, WorkOf(p, user).drafts, WorkOf(p, user).staged)
    case Ok(tree) => tree.files
    case Err(_) => []
  }

  ghost predicate Projects(p: ProjectState, user: nat)
  {
    Project(p.files, WorkOf(p, user).drafts, WorkOf(p, user).staged).Ok?
  }

  function StagedMain(p: ProjectState, user: nat): Option<Path>
  {
    match Project(p.files, WorkOf(p, user).drafts, WorkOf(p, user).staged)
    case Ok(tree) => tree.main
    case Err(_) => None
  }

  ghost predicate MayTouch(p: ProjectState, grants: Grants, path: Path)
  {
    FileProtectedWrite in grants || P.Effective(p.rules, p.fallback, path).Editable?
  }

  lemma SourceFound(p: ProjectState, user: nat, path: Path)
    requires Projects(p, user)
    ensures HasLive(TreeFiles(p, user), path) <==> Open(p, user, path)
  {
    LiveIff(TreeFiles(p, user), path);
  }

  /** A delete is accepted exactly of a visible file that is not the staged Main, by who may delete and write it. */
  lemma DeleteAcceptedExactly(p: ProjectState, user: nat, grants: Grants, source: Path)
    ensures Stage(p, user, grants, DeleteFile(source)).Accepted?
        <==> FileDelete in grants && MayTouch(p, grants, source) && Projects(p, user)
             && Open(p, user, source) && StagedMain(p, user) != Some(source)
  {
    if Projects(p, user) { SourceFound(p, user, source); }
  }

  /** A rename is accepted exactly of a visible file to a free path, by who may rename and write both. */
  lemma RenameAcceptedExactly(p: ProjectState, user: nat, grants: Grants, source: Path, destination: Path)
    ensures Stage(p, user, grants, RenameFile(source, destination)).Accepted?
        <==> FileRename in grants && MayTouch(p, grants, source) && MayTouch(p, grants, destination)
             && Projects(p, user) && Open(p, user, source) && !Open(p, user, destination)
  {
    if Projects(p, user) {
      SourceFound(p, user, source);
      SourceFound(p, user, destination);
    }
  }

  /** A choice of Main is accepted exactly of a visible file while Main is not locked, by who may choose it. */
  lemma SetMainAcceptedExactly(p: ProjectState, user: nat, grants: Grants, destination: Path)
    ensures Stage(p, user, grants, SetMainFile(destination)).Accepted?
        <==> FileSetMain in grants && !p.mainLocked && Projects(p, user) && Open(p, user, destination)
  {
    if Projects(p, user) { SourceFound(p, user, destination); }
  }

  /** The operation that a request stages, with the revision `seen` of the file it names. */
  function Recording(request: Request, seen: Option<nat>): Staged
  {
    match request
    case DeleteFile(source) => Delete(source, seen)
    case RenameFile(source, destination) => Rename(source, destination, seen)
    case SetMainFile(destination) => SetMain(destination)
  }

  function Named(request: Request): Path
  {
    if request.SetMainFile? then request.destination else request.source
  }

  /** An accepted request appends one operation, which records the file as seen; there is one choice of Main at most. */
  lemma StagedIsRecorded(p: ProjectState, user: nat, grants: Grants, request: Request, f: File)
    requires Stage(p, user, grants, request).Accepted? && f in TreeFiles(p, user) && LiveAt(f, Named(request))
    ensures var work, after := WorkOf(p, user), Stage(p, user, grants, request).project;
            var kept := if request.SetMainFile? then WithoutMain(work.staged) else work.staged;
            && WorkOf(after, user) == Member(work.drafts, kept + [Recording(request, f.revision)])
            && (forall other: nat :: other != user ==> WorkOf(after, other) == WorkOf(p, other))
            && after == p.(members := after.members)
  {
    var work := WorkOf(p, user);
    ProjectWellFormed(p.files, work.drafts, work.staged);
    var tree := Project(p.files, work.drafts, work.staged).value;
    RecordedOf(tree, p.files, request, f);
    StageAppends(p, user, grants, request, tree);
  }

  lemma RecordedOf(tree: Tree, table: Table, request: Request, f: File)
    requires WellFormed(tree.files, table) && f in tree.files && LiveAt(f, Named(request))
    ensures OperationFor(tree, request) == Some(Recording(request, f.revision))
  {
    var i :| 0 <= i < |tree.files| && tree.files[i] == f;
    LiveIff(tree.files, Named(request));
    OnlyOneLive(tree.files, table, Named(request));
  }

  lemma StageAppends(p: ProjectState, user: nat, grants: Grants, request: Request, tree: Tree)
    requires Stage(p, user, grants, request).Accepted? && OperationFor(tree, request).Some?
    requires Project(p.files, WorkOf(p, user).drafts, WorkOf(p, user).staged) == Ok(tree)
    ensures var work := WorkOf(p, user);
            var kept := if request.SetMainFile? then WithoutMain(work.staged) else work.staged;
            Stage(p, user, grants, request).project
            == WithWork(p, user, Member(work.drafts, kept + [OperationFor(tree, request).value]))
  {
  }

  lemma {:induction false} OnlyMainIsDropped(ops: seq<Staged>)
    ensures forall op :: op in WithoutMain(ops) <==> op in ops && !op.SetMain?
    ensures (forall op :: op in ops ==> !op.SetMain?) ==> WithoutMain(ops) == ops
  {
    if ops != [] {
      OnlyMainIsDropped(ops[..|ops|-1]);
      assert ops == ops[..|ops|-1] + [ops[|ops|-1]];
    }
  }

  // --- saves ---------------------------------------------------------------------------------

  /** A file at the path, or one that came from it, is still there. */
  ghost predicate Present(p: ProjectState, user: nat, path: Path)
  {
    exists f :: f in TreeFiles(p, user) && !f.pendingDelete && (f.path == path || f.origin == Some(path))
  }

  /** A file at the path or from it is deleted, or one from it is elsewhere. */
  ghost predicate LeftBehind(p: ProjectState, user: nat, path: Path)
  {
    exists f :: f in TreeFiles(p, user)
                && (if f.pendingDelete then f.path == path || f.origin == Some(path)
                    else f.origin == Some(path) && f.path != path)
  }

  function SavedRevision(p: ProjectState, user: nat, path: Path): nat
  {
    if path in WorkOf(p, user).drafts then WorkOf(p, user).drafts[path].revision else 0
  }

  lemma PresentExactly(p: ProjectState, user: nat, path: Path)
    ensures Shows(TreeFiles(p, user), path) <==> Present(p, user, path)
    ensures Gone(TreeFiles(p, user), path) <==> LeftBehind(p, user, path)
  {
  }

  /**
   * A save is accepted exactly if the member may write the path, may create it if nothing is there, nothing from there
   * was deleted or moved away, it expects the draft as it is, and the numbers fit their columns.
   */
  lemma SaveAcceptedExactly(p: ProjectState, user: nat, grants: Grants, path: Path, base: nat, content: Content,
                            expected: Option<nat>)
    ensures SaveDraft(p, user, grants, path, base, content, expected).Accepted?
        <==> FileWrite in grants && MayTouch(p, grants, path) && Projects(p, user)
             && (Present(p, user, path) || FileCreate in grants) && !LeftBehind(p, user, path)
             && (expected.Some? ==> expected.value == SavedRevision(p, user, path))
             && SavedRevision(p, user, path) < MAX_REVISION && base <= MAX_REVISION && content.size <= MAX_REVISION
  {
    PresentExactly(p, user, path);
  }

  // --- refusals are true ------------------------------------------------------------------------

  /** The grants and policies that a request needs are there. */
  ghost predicate MayRequest(p: ProjectState, grants: Grants, request: Request)
  {
    match request
    case DeleteFile(source) => FileDelete in grants && MayTouch(p, grants, source)
    case RenameFile(source, destination) =>
      FileRename in grants && MayTouch(p, grants, source) && MayTouch(p, grants, destination)
    case SetMainFile(_) => FileSetMain in grants && !p.mainLocked
  }

  /** Every refusal of a request names what is wrong with it. */
  lemma StageRefusals(p: ProjectState, user: nat, grants: Grants, request: Request)
    requires Stage(p, user, grants, request).Refused?
    ensures match Stage(p, user, grants, request).refusal {
      case NotAllowed => !MayRequest(p, grants, request)
      case Unprojectable(e) => Project(p.files, WorkOf(p, user).drafts, WorkOf(p, user).staged) == Err(e)
      case NoSuchFile => !Open(p, user, Named(request))
      case Clash => (request.DeleteFile? && StagedMain(p, user) == Some(request.source))
                    || (request.RenameFile? && Open(p, user, request.destination))
      case _ => false
    }
  {
    if Projects(p, user) {
      SourceFound(p, user, Named(request));
      if request.RenameFile? { SourceFound(p, user, request.destination); }
    }
  }

  /** Every refusal of a save names what is wrong with it. */
  lemma SaveRefusals(p: ProjectState, user: nat, grants: Grants, path: Path, base: nat, content: Content,
                     expected: Option<nat>)
    requires SaveDraft(p, user, grants, path, base, content, expected).Refused?
    ensures match SaveDraft(p, user, grants, path, base, content, expected).refusal {
      case NotAllowed => FileWrite !in grants || !MayTouch(p, grants, path)
                         || (FileCreate !in grants && !Present(p, user, path))
      case Unprojectable(e) => Project(p.files, WorkOf(p, user).drafts, WorkOf(p, user).staged) == Err(e)
      case Clash => LeftBehind(p, user, path)
      case StaleDraft => expected.Some? && expected.value != SavedRevision(p, user, path)
      case Overflowed => SavedRevision(p, user, path) >= MAX_REVISION || base > MAX_REVISION
                         || content.size > MAX_REVISION
      case NoSuchFile => false
    }
  {
    PresentExactly(p, user, path);
  }
}
