/** publish_draft and publish_change_set as functions of the project's tables and event log. */
module Publish {
  import opened Common
  import opened Projection
  import W = Workspace
  import P = FilePolicies

  const MAX_REVISION: nat := 0x7FFF_FFFF_FFFF_FFFF

  datatype Permission =
    | FileCreate | FileWrite | FileRename | FileDelete | FileSetMain | FileProtectedWrite | ProjectManage

  /** What the permission resolver grants the caller. */
  type Grants = set<Permission>

  datatype Reason =
    | ChangedSinceEdit | DestinationExists | MissingSource | MainTargetMissing
    | MainLocked | PolicyChanged | PermissionChanged

  datatype ChangeConflict = ChangeConflict(path: Path, destination: Option<Path>, reason: Reason)

  datatype Member = Member(drafts: Drafts, staged: seq<Staged>)

  /** One team project: its canonical table, its private work and its workspace's durable events. */
  datatype ProjectState = ProjectState(
    files: Table,
    members: map<nat, Member>,
    log: seq<W.Event>,
    generation: nat,
    mainLocked: bool,
    rules: seq<P.Rule>,
    fallback: P.FilePolicy)

  const NO_WORK := Member(map[], [])

  function WorkOf(p: ProjectState, user: nat): Member
  {
    if user in p.members then p.members[user] else NO_WORK
  }

  function WithWork(p: ProjectState, user: nat, work: Member): ProjectState
  {
    p.(members := p.members[user := work])
  }

  datatype Failure = TreeFailed(error: Error) | NothingStaged | Forbidden | Missing | DuplicateKey | Overflow

  datatype Outcome =
    | Published(generation: nat, version: nat, changes: nat)
    | Rejected(conflicts: set<ChangeConflict>)
    | Failed(failure: Failure)

  // --- validation --------------------------------------------------------------------

  /** The rows locked for the whole change set: those some projected file originates from. */
  function Locked(files: seq<File>, table: Table): map<Path, nat>
  {
    map o | o in table && (exists f :: f in files && f.origin == Some(o)) :: table[o].revision
  }

  function Shown(f: File): Path
  {
    if f.origin.Some? then f.origin.value else f.path
  }

  function SourceConflicts(f: File, locked: map<Path, nat>): seq<ChangeConflict>
  {
    if f.origin.None? || f.revision.None? then []
    else if f.origin.value !in locked then [ChangeConflict(f.origin.value, Some(f.path), MissingSource)]
    else if locked[f.origin.value] != f.revision.value
    then [ChangeConflict(f.origin.value, Some(f.path), ChangedSinceEdit)]
    else []
  }

  function DestinationConflicts(f: File, locked: map<Path, nat>): seq<ChangeConflict>
  {
    (if f.renamed && !f.pendingDelete && f.origin != Some(f.path) && f.path in locked
     then [ChangeConflict(Shown(f), Some(f.path), DestinationExists)] else []) +
    (if f.added && !f.pendingDelete && f.path in locked
     then [ChangeConflict(f.path, None, DestinationExists)] else [])
  }

  /** Empty exactly for files the change set does not touch. */
  function Required(f: File): seq<Permission>
  {
    if f.pendingDelete then [FileDelete]
    else if f.added then [FileCreate, FileWrite]
    else if f.renamed && f.modified then [FileRename, FileWrite]
    else if f.renamed then [FileRename]
    else if f.modified then [FileWrite]
    else []
  }

  function Denied(f: File, needed: seq<Permission>, grants: Grants): seq<ChangeConflict>
  {
    if needed == [] then []
    else Denied(f, needed[..|needed|-1], grants) +
         if needed[|needed|-1] in grants then [] else [ChangeConflict(Shown(f), Some(f.path), PermissionChanged)]
  }

  function PolicyPaths(f: File): seq<Path>
  {
    (if f.origin.Some? then [f.origin.value] else []) +
    (if (f.added || f.renamed) && !f.pendingDelete then [f.path] else [])
  }

  ghost predicate Writable(p: ProjectState, grants: Grants, path: Path)
  {
    P.Effective(p.rules, p.fallback, path) == P.Editable || FileProtectedWrite in grants
  }

  ghost function Protected(f: File, paths: seq<Path>, p: ProjectState, grants: Grants): seq<ChangeConflict>
  {
    if paths == [] then []
    else Protected(f, paths[..|paths|-1], p, grants) +
         if Writable(p, grants, paths[|paths|-1]) then []
         else [ChangeConflict(paths[|paths|-1], Some(f.path), PolicyChanged)]
  }

  ghost function FileConflicts(f: File, locked: map<Path, nat>, p: ProjectState, grants: Grants): seq<ChangeConflict>
  {
    SourceConflicts(f, locked) + DestinationConflicts(f, locked) +
    (if Required(f) == [] then [] else Denied(f, Required(f), grants) + Protected(f, PolicyPaths(f), p, grants))
  }

  ghost function AllFileConflicts(files: seq<File>, locked: map<Path, nat>, p: ProjectState,
                                  grants: Grants): seq<ChangeConflict>
  {
    if files == [] then []
    else AllFileConflicts(files[..|files|-1], locked, p, grants) + FileConflicts(files[|files|-1], locked, p, grants)
  }

  predicate FollowsMain(f: File, current: Path)
  {
    !f.pendingDelete && f.renamed && f.origin == Some(current)
  }

  function FirstFollower(files: seq<File>, current: Path): (k: nat)
    ensures k <= |files|
    ensures forall i :: 0 <= i < k ==> !FollowsMain(files[i], current)
    ensures k < |files| ==> FollowsMain(files[k], current)
  {
    if files == [] || FollowsMain(files[0], current) then 0 else 1 + FirstFollower(files[1..], current)
  }

  /** The Main an event records: the staged one, else the rename of the current one. */
  function NextMain(tree: Tree, current: Option<Path>): Option<Path>
  {
    if tree.main.Some? then tree.main
    else if current.None? then None
    else
      var k := FirstFollower(tree.files, current.value);
      if k < |tree.files| then Some(tree.files[k].path) else None
  }

  function MainConflicts(tree: Tree, main: Option<Path>, locked: bool, grants: Grants): seq<ChangeConflict>
  {
    if main.None? then []
    else
      (if locked then [ChangeConflict(main.value, None, MainLocked)] else []) +
      (if tree.main.Some? && FileSetMain !in grants
       then [ChangeConflict(main.value, None, PermissionChanged)] else []) +
      (if HasLive(tree.files, main.value) then [] else [ChangeConflict(main.value, None, MainTargetMissing)])
  }

  ghost function Conflicts(p: ProjectState, tree: Tree, grants: Grants): seq<ChangeConflict>
  {
    AllFileConflicts(tree.files, Locked(tree.files, p.files), p, grants) +
    MainConflicts(tree, NextMain(tree, W.ReplayMain(p.log)), p.mainLocked, grants)
  }

  /** The list is sorted on every field and stripped of repeats, so its set determines it. */
  function Deduplicated(conflicts: seq<ChangeConflict>): (r: set<ChangeConflict>)
    ensures r == {} <==> conflicts == []
  {
    var r := set c | c in conflicts;
    assert conflicts != [] ==> conflicts[0] in r;
    r
  }

  // --- the delta ---------------------------------------------------------------------------

  datatype Phase = Deletes | Renames | Writes

  /** Table and operations so far, or the statement that made the transaction roll back. */
  datatype Delta =
    | Delta(table: Table, ops: seq<W.Operation>, changes: nat)
    | Aborted(failure: Failure)

  predicate Takes(phase: Phase, f: File)
  {
    match phase
    case Deletes => f.pendingDelete && f.origin.Some?
    case Renames => !f.pendingDelete && f.renamed
    case Writes => !f.pendingDelete && !f.renamed && (f.modified || f.added)
  }

  function NextRevision(f: File): Result<nat, Failure>
  {
    if f.added then Ok(1)
    else if f.revision.None? then Err(Missing)
    else if f.revision.value + 1 > MAX_REVISION then Err(Overflow)
    else Ok(f.revision.value + 1)
  }

  function Emit(phase: Phase, d: Delta, f: File): Delta
    requires d.Delta? && Takes(phase, f)
  {
    match phase
    case Deletes =>
      Delta(d.table - {f.origin.value}, d.ops + [W.DeleteFile(f.origin.value)], d.changes + 1)
    case Renames =>
      if f.origin.None? then Aborted(Missing)
      else
        (match NextRevision(f)
         case Err(e) => Aborted(e)
         case Ok(revision) =>
           var freed := d.table - {f.origin.value};
           // a plain INSERT: the primary key must be free
           if f.path in freed then Aborted(DuplicateKey)
           else
             Delta(freed[f.path := Entry(f.content, revision)],
                   d.ops + [W.RenameFile(f.origin.value, f.path)]
                   + (if f.modified then [W.PutFile(f.path, f.content)] else []),
                   d.changes + 1))
    case Writes =>
      (match NextRevision(f)
       case Err(e) => Aborted(e)
       case Ok(revision) =>
         Delta(d.table[f.path := Entry(f.content, revision)], d.ops + [W.PutFile(f.path, f.content)], d.changes + 1))
  }

  function Pass(phase: Phase, start: Delta, files: seq<File>): Delta
  {
    if files == [] then start
    else
      var before := Pass(phase, start, files[..|files|-1]);
      if before.Delta? && Takes(phase, files[|files|-1]) then Emit(phase, before, files[|files|-1]) else before
  }

  function AllPasses(table: Table, files: seq<File>): Delta
  {
    Pass(Writes, Pass(Renames, Pass(Deletes, Delta(table, [], 0), files), files), files)
  }

  function EventOf(delta: Delta, main: Option<Path>): W.Event
    requires delta.Delta?
  {
    delta.ops + if main.Some? then [W.SetMainFile(main.value)] else []
  }

  // --- the two publications ------------------------------------------------------------------

  datatype Publication = Publication(project: ProjectState, outcome: Outcome)

  ghost function PublishChangeSet(p: ProjectState, user: nat, grants: Grants): Publication
  {
    var work := WorkOf(p, user);
    match Project(p.files, work.drafts, work.staged)
    case Err(e) => Publication(p, Failed(TreeFailed(e)))
    case Ok(tree) =>
      if tree.summary.total == 0 then Publication(p, Failed(NothingStaged))
      else
        var conflicts := Conflicts(p, tree, grants);
        if conflicts != [] then Publication(p, Rejected(Deduplicated(conflicts))) else Commit(p, user, tree)
  }

  /** The validated part of the transaction: rewrite the table, append one event, drop the private work. */
  function Commit(p: ProjectState, user: nat, tree: Tree): Publication
  {
    var d := AllPasses(p.files, tree.files);
    if d.Aborted? then Publication(p, Failed(d.failure))
    else
      var log := p.log + [EventOf(d, NextMain(tree, W.ReplayMain(p.log)))];
      Publication(WithWork(p, user, NO_WORK).(files := d.table, log := log, generation := p.generation + 1),
                  Published(p.generation + 1, |log|, d.changes))
  }

  datatype DraftOutcome =
    | DraftPublished(generation: nat, version: nat, revision: nat)
    | DraftConflict(current: nat)
    | DraftFailed(failure: Failure)

  datatype DraftPublication = DraftPublication(project: ProjectState, outcome: DraftOutcome)

  ghost function PublishDraft(p: ProjectState, user: nat, grants: Grants, path: Path): DraftPublication
  {
    var work := WorkOf(p, user);
    if FileWrite !in grants || !Writable(p, grants, path) then DraftPublication(p, DraftFailed(Forbidden))
    else if path !in work.drafts then DraftPublication(p, DraftFailed(Missing))
    else
      var d := work.drafts[path];
      var current := if path in p.files then p.files[path].revision else 0;
      if d.base != current then DraftPublication(p, DraftConflict(current))
      else if current + 1 > MAX_REVISION then DraftPublication(p, DraftFailed(Overflow))
      else
        var log := p.log + [[W.PutFile(path, d.content)]];
        DraftPublication(WithWork(p, user, work.(drafts := work.drafts - {path}))
                    .(files := p.files[path := Entry(d.content, current + 1)], log := log,
                        generation := p.generation + 1),
                  DraftPublished(p.generation + 1, |log|, current + 1))
  }
}
