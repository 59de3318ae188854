/** The private working tree: one member's drafts and staged operations over the canonical table. */
module Projection {
  import opened Common
  import opened Counting
  import opened PathOrder

  // --- tables -------------------------------------------------------------------

  datatype Entry = Entry(content: Content, revision: nat)
  type Table = map<Path, Entry>

  datatype Draft = Draft(base: nat, revision: nat, content: Content)
  type Drafts = map<Path, Draft>

  datatype Staged =
    | Rename(source: Path, destination: Path, base: Option<nat>)
    | Delete(source: Path, base: Option<nat>)
    | SetMain(destination: Path)

  datatype Error = NotFound | Conflict

  // --- the projected tree --------------------------------------------------------

  datatype File = File(
    path: Path,
    origin: Option<Path>,
    revision: Option<nat>,
    content: Content,
    draftRevision: Option<nat>,
    added: bool,
    modified: bool,
    renamed: bool,
    pendingDelete: bool)

  datatype Summary = Summary(modified: nat, added: nat, renamed: nat, deleted: nat, mainChanged: bool, total: nat)

  datatype Tree = Tree(files: seq<File>, main: Option<Path>, summary: Summary)

  /** What the projection carries from one loop to the next. */
  datatype View = View(files: seq<File>, consumed: set<Path>, main: Option<Path>)

  function CanonicalFile(p: Path, e: Entry): File
  {
    File(p, Some(p), Some(e.revision), e.content, None, false, false, false, false)
  }

  function AddedFile(p: Path, d: Draft): File
  {
    File(p, None, None, d.content, Some(d.revision), true, false, false, false)
  }

  predicate LiveAt(f: File, p: Path)
  {
    !f.pendingDelete && f.path == p
  }

  /** A draft belongs to the live file at its path, or to the one that still carries its origin and base. */
  predicate Receives(f: File, p: Path, d: Draft)
  {
    !f.pendingDelete && (f.path == p || (f.origin == Some(p) && f.revision == Some(d.base)))
  }

  function FirstLive(files: seq<File>, p: Path): (k: nat)
    ensures k <= |files|
    ensures forall i :: 0 <= i < k ==> !LiveAt(files[i], p)
    ensures k < |files| ==> LiveAt(files[k], p)
  {
    if files == [] || LiveAt(files[0], p) then 0 else 1 + FirstLive(files[1..], p)
  }

  function FirstReceiver(files: seq<File>, p: Path, d: Draft): (k: nat)
    ensures k <= |files|
    ensures forall i :: 0 <= i < k ==> !Receives(files[i], p, d)
    ensures k < |files| ==> Receives(files[k], p, d)
  {
    if files == [] || Receives(files[0], p, d) then 0 else 1 + FirstReceiver(files[1..], p, d)
  }

  predicate HasLive(files: seq<File>, p: Path)
  {
    FirstLive(files, p) < |files|
  }

  // --- stage one: canonical rows and draft-only files ------------------------------

  function CanonicalFiles(table: Table, paths: seq<Path>): seq<File>
    requires forall p :: p in paths ==> p in table
  {
    if paths == [] then []
    else CanonicalFiles(table, paths[..|paths|-1]) + [CanonicalFile(paths[|paths|-1], table[paths[|paths|-1]])]
  }

  function TakeDraft(v: View, p: Path, d: Draft): View
  {
    v.(files := v.files + [AddedFile(p, d)], consumed := v.consumed + {p})
  }

  function AddDrafts(v: View, drafts: Drafts, paths: seq<Path>): View
    requires forall p :: p in paths ==> p in drafts
  {
    if paths == [] then v
    else
      var before := AddDrafts(v, drafts, paths[..|paths|-1]);
      var p := paths[|paths|-1];
      if drafts[p].base == 0 && (forall f | f in before.files :: f.path != p)
      then TakeDraft(before, p, drafts[p])
      else before
  }

  // --- stage two: the ordered operations --------------------------------------------

  /** A source that is not live may still be an unread draft-only file. */
  function Reach(v: View, drafts: Drafts, source: Path): Result<View, Error>
  {
    if HasLive(v.files, source) then Ok(v)
    else if source in drafts && drafts[source].base == 0 then Ok(TakeDraft(v, source, drafts[source]))
    else Err(NotFound)
  }

  function Captured(f: File, base: Option<nat>): Option<nat>
  {
    if f.origin.Some? && base.Some? then base else f.revision
  }

  function RenameAt(v: View, k: nat, op: Staged): View
    requires op.Rename? && k < |v.files|
  {
    var f := v.files[k];
    View(v.files[k := f.(revision := Captured(f, op.base), path := op.destination, renamed := f.origin.Some?)],
         v.consumed,
         if v.main == Some(op.source) then Some(op.destination) else v.main)
  }

  function DeleteAt(v: View, k: nat, op: Staged): View
    requires op.Delete? && k < |v.files|
  {
    var f := v.files[k].(revision := Captured(v.files[k], op.base));
    if f.added then v.(files := v.files[..k] + v.files[k+1..])
    else v.(files := v.files[k := f.(pendingDelete := true)])
  }

  function Step(v: View, drafts: Drafts, op: Staged): Result<View, Error>
  {
    match op
    case Rename(source, destination, base) =>
      (match Reach(v, drafts, source)
       case Err(e) => Err(e)
       case Ok(u) =>
         if HasLive(u.files, destination) then Err(Conflict)
         else if !HasLive(u.files, source) then Err(NotFound)
         else Ok(RenameAt(u, FirstLive(u.files, source), op)))
    case Delete(source, base) =>
      (match Reach(v, drafts, source)
       case Err(e) => Err(e)
       case Ok(u) =>
         if !HasLive(u.files, source) then Err(NotFound)
         else if u.main == Some(source) then Err(Conflict)
         else Ok(DeleteAt(u, FirstLive(u.files, source), op)))
    case SetMain(destination) => Ok(v.(main := Some(destination)))
  }

  function Steps(v: View, drafts: Drafts, ops: seq<Staged>): Result<View, Error>
  {
    if ops == [] then Ok(v)
    else
      match Steps(v, drafts, ops[..|ops|-1])
      case Err(e) => Err(e)
      case Ok(u) => Step(u, drafts, ops[|ops|-1])
  }

  // --- stage three: drafts over what the operations left ------------------------------

  function Overwrite(f: File, d: Draft): File
  {
    var g := f.(content := d.content, draftRevision := Some(d.revision));
    if f.added then g else g.(modified := true, revision := Some(d.base))
  }

  function Overlay(v: View, p: Path, d: Draft): Result<View, Error>
  {
    if p in v.consumed then Ok(v)
    else
      var k := FirstReceiver(v.files, p, d);
      if k < |v.files| then Ok(v.(files := v.files[k := Overwrite(v.files[k], d)]))
      else if exists f | f in v.files :: f.pendingDelete && f.path == p then Err(Conflict)
      else Ok(v.(files := v.files + [AddedFile(p, d)]))
  }

  function Overlays(v: View, drafts: Drafts, paths: seq<Path>): Result<View, Error>
    requires forall p :: p in paths ==> p in drafts
  {
    if paths == [] then Ok(v)
    else
      match Overlays(v, drafts, paths[..|paths|-1])
      case Err(e) => Err(e)
      case Ok(u) => Overlay(u, paths[|paths|-1], drafts[paths[|paths|-1]])
  }

  // --- the whole projection --------------------------------------------------------------

  function PathOf(f: File): Path { f.path }
  predicate IsModified(f: File) { f.modified && !f.renamed && !f.pendingDelete }
  predicate IsAdded(f: File) { f.added && !f.pendingDelete }
  predicate IsRenamed(f: File) { f.renamed && !f.pendingDelete }
  predicate IsDeleted(f: File) { f.pendingDelete && f.origin.Some? }

  function Summarize(files: seq<File>, main: Option<Path>): Summary
  {
    var m, a, r, d := Count(files, IsModified), Count(files, IsAdded), Count(files, IsRenamed), Count(files, IsDeleted);
    Summary(m, a, r, d, main.Some?, m + a + r + d + if main.Some? then 1 else 0)
  }

  function Opening(table: Table, drafts: Drafts): View
  {
    AddDrafts(View(CanonicalFiles(table, Listing(table.Keys)), {}, None), drafts, Listing(drafts.Keys))
  }

  function Finish(v: View): Result<Tree, Error>
  {
    if v.main.Some? && !HasLive(v.files, v.main.value) then Err(Conflict)
    else Ok(Tree(SortBy(v.files, PathOf), v.main, Summarize(v.files, v.main)))
  }

  function Project(table: Table, drafts: Drafts, ops: seq<Staged>): Result<Tree, Error>
  {
    match Steps(Opening(table, drafts), drafts, ops)
    case Err(e) => Err(e)
    case Ok(v) =>
      match Overlays(v, drafts, Listing(drafts.Keys))
      case Err(e) => Err(e)
      case Ok(u) => Finish(u)
  }

  // --- private_working_tree_tx, loop by loop -----------------------------------------------

  method PrivateWorkingTree(table: Table, drafts: Drafts, ops: seq<Staged>) returns (r: Result<Tree, Error>)
    ensures r == Project(table, drafts, ops)
  {
    var files, consumed := LoadFiles(table, drafts);
    var main: Option<Path> := None;
    for i := 0 to |ops|
      invariant Steps(Opening(table, drafts), drafts, ops[..i]) == Ok(View(files, consumed, main))
    {
      assert ops[..i+1][..i] == ops[..i];
      var failed, f, c, m := ApplyOne(files, consumed, main, drafts, ops[i]);
      if failed.Some? {
        StepsFail(Opening(table, drafts), drafts, ops, i + 1);
        return Err(failed.value);
      }
      files, consumed, main := f, c, m;
    }
    assert ops[..|ops|] == ops;
    var failed;
    failed, files := MergeDrafts(files, consumed, main, drafts);
    if failed.Some? {
      return Err(failed.value);
    }
    if main.Some? && !HasLive(files, main.value) {
      return Err(Conflict);
    }
    var summary := Summarize(files, main);
    files := SortBy(files, PathOf);
    r := Ok(Tree(files, main, summary));
  }

  method LoadFiles(table: Table, drafts: Drafts) returns (files: seq<File>, consumed: set<Path>)
    ensures View(files, consumed, None) == Opening(table, drafts)
  {
    files := LoadRows(table);
    files, consumed := LoadDrafts(files, drafts);
  }

  method LoadRows(table: Table) returns (files: seq<File>)
    ensures files == CanonicalFiles(table, Listing(table.Keys))
  {
    files := [];
    var rows := Listing(table.Keys);
    for i := 0 to |rows|
      invariant files == CanonicalFiles(table, rows[..i])
    {
      assert rows[..i+1][..i] == rows[..i];
      files := files + [File(rows[i], Some(rows[i]), Some(table[rows[i]].revision), table[rows[i]].content,
                             None, false, false, false, false)];
    }
    assert rows[..|rows|] == rows;
  }

  method LoadDrafts(rows: seq<File>, drafts: Drafts) returns (files: seq<File>, consumed: set<Path>)
    ensures View(files, consumed, None) == AddDrafts(View(rows, {}, None), drafts, Listing(drafts.Keys))
  {
    files, consumed := rows, {};
    var paths := Listing(drafts.Keys);
    for i := 0 to |paths|
      invariant View(files, consumed, None) == AddDrafts(View(rows, {}, None), drafts, paths[..i])
    {
      assert paths[..i+1][..i] == paths[..i];
      var d := drafts[paths[i]];
      if d.base == 0 && !exists f | f in files :: f.path == paths[i] {
        consumed := consumed + {paths[i]};
        files := files + [AddedFile(paths[i], d)];
      }
    }
    assert paths[..|paths|] == paths;
  }

  lemma OverlaysPush(v: View, drafts: Drafts, paths: seq<Path>, n: nat)
    requires n < |paths| && forall p :: p in paths ==> p in drafts
    ensures Overlays(v, drafts, paths[..n+1]) ==
            match Overlays(v, drafts, paths[..n]) {
              case Err(e) => Err(e)
              case Ok(u) => Overlay(u, paths[n], drafts[paths[n]])
            }
  {
    assert paths[..n+1][..n] == paths[..n];
  }

  method MergeDrafts(files0: seq<File>, consumed: set<Path>, ghost main: Option<Path>, drafts: Drafts)
    returns (failed: Option<Error>, files: seq<File>)
    ensures Overlays(View(files0, consumed, main), drafts, Listing(drafts.Keys)) ==
            if failed.Some? then Err(failed.value) else Ok(View(files, consumed, main))
  {
    files := files0;
    var paths := Listing(drafts.Keys);
    ghost var start := View(files0, consumed, main);
    for i := 0 to |paths|
      invariant Overlays(start, drafts, paths[..i]) == Ok(View(files, consumed, main))
    {
      OverlaysPush(start, drafts, paths, i);
      failed, files := MergeOne(files, consumed, main, paths[i], drafts[paths[i]]);
      if failed.Some? {
        OverlaysFail(start, drafts, paths, i + 1);
        return;
      }
    }
    assert paths[..|paths|] == paths;
    failed := None;
  }

  /** The body of the draft loop. */
  method MergeOne(files0: seq<File>, consumed: set<Path>, ghost main: Option<Path>, p: Path, d: Draft)
    returns (failed: Option<Error>, files: seq<File>)
    ensures Overlay(View(files0, consumed, main), p, d) ==
            if failed.Some? then Err(failed.value) else Ok(View(files, consumed, main))
  {
    failed, files := None, files0;
    if p in consumed {
      return;
    }
    var k := FirstReceiver(files, p, d);
    if k < |files| {
      files := files[k := files[k].(content := d.content, draftRevision := Some(d.revision))];
      if !files[k].added {
        files := files[k := files[k].(modified := true, revision := Some(d.base))];
      }
      assert files == files0[k := Overwrite(files0[k], d)];
    } else if exists f | f in files :: f.pendingDelete && f.path == p {
      failed := Some(Conflict);
    } else {
      files := files + [AddedFile(p, d)];
    }
  }

  /** The body of the operation loop. */
  method ApplyOne(files0: seq<File>, consumed0: set<Path>, main0: Option<Path>, drafts: Drafts, op: Staged)
    returns (failed: Option<Error>, files: seq<File>, consumed: set<Path>, main: Option<Path>)
    ensures Step(View(files0, consumed0, main0), drafts, op) ==
            if failed.Some? then Err(failed.value) else Ok(View(files, consumed, main))
  {
    match op {
      case Rename(_, _, _) => failed, files, consumed, main := RenameOne(files0, consumed0, main0, drafts, op);
      case Delete(_, _) =>
        failed, files, consumed := DeleteOne(files0, consumed0, main0, drafts, op);
        main := main0;
      case SetMain(destination) => failed, files, consumed, main := None, files0, consumed0, Some(destination);
    }
  }

  /** A source that is not live is pushed from its draft-only draft and consumed. */
  method ReachSource(files0: seq<File>, consumed0: set<Path>, ghost main: Option<Path>, drafts: Drafts, source: Path)
    returns (failed: Option<Error>, files: seq<File>, consumed: set<Path>)
    ensures Reach(View(files0, consumed0, main), drafts, source) ==
            if failed.Some? then Err(failed.value) else Ok(View(files, consumed, main))
  {
    failed, files, consumed := None, files0, consumed0;
    if !HasLive(files, source) {
      if source !in drafts || drafts[source].base != 0 {
        failed := Some(NotFound);
        return;
      }
      files := files + [AddedFile(source, drafts[source])];
      consumed := consumed + {source};
    }
  }

  method RenameOne(files0: seq<File>, consumed0: set<Path>, main0: Option<Path>, drafts: Drafts, op: Staged)
    returns (failed: Option<Error>, files: seq<File>, consumed: set<Path>, main: Option<Path>)
    requires op.Rename?
    ensures Step(View(files0, consumed0, main0), drafts, op) ==
            if failed.Some? then Err(failed.value) else Ok(View(files, consumed, main))
  {
    main := main0;
    failed, files, consumed := ReachSource(files0, consumed0, main0, drafts, op.source);
    if failed.Some? {
      return;
    }
    if HasLive(files, op.destination) {
      failed := Some(Conflict);
      return;
    }
    var k := FirstLive(files, op.source);
    if k == |files| {
      failed := Some(NotFound);
      return;
    }
    ghost var before := View(files, consumed, main);
    if files[k].origin.Some? && op.base.Some? {
      files := files[k := files[k].(revision := op.base)];
    }
    files := files[k := files[k].(path := op.destination)];
    files := files[k := files[k].(renamed := files[k].origin.Some?)];
    assert files == RenameAt(before, k, op).files;
    if main == Some(op.source) {
      main := Some(op.destination);
    }
  }

  method DeleteOne(files0: seq<File>, consumed0: set<Path>, main: Option<Path>, drafts: Drafts, op: Staged)
    returns (failed: Option<Error>, files: seq<File>, consumed: set<Path>)
    requires op.Delete?
    ensures Step(View(files0, consumed0, main), drafts, op) ==
            if failed.Some? then Err(failed.value) else Ok(View(files, consumed, main))
  {
    failed, files, consumed := ReachSource(files0, consumed0, main, drafts, op.source);
    if failed.Some? {
      return;
    }
    var k := FirstLive(files, op.source);
    if k == |files| {
      failed := Some(NotFound);
      return;
    }
    ghost var before := View(files, consumed, main);
    if files[k].origin.Some? && op.base.Some? {
      files := files[k := files[k].(revision := op.base)];
    }
    if main == Some(op.source) {
      failed := Some(Conflict);
      return;
    }
    if files[k].added {
      files := files[..k] + files[k+1..];
    } else {
      files := files[k := files[k].(pendingDelete := true)];
    }
    assert files == DeleteAt(before, k, op).files;
  }

  lemma {:induction false} StepsFail(v: View, drafts: Drafts, ops: seq<Staged>, n: nat)
    requires n <= |ops| && Steps(v, drafts, ops[..n]).Err?
    ensures Steps(v, drafts, ops) == Steps(v, drafts, ops[..n])
    decreases |ops| - n
  {
    if n == |ops| {
      assert ops[..n] == ops;
    } else {
      assert ops[..n+1][..n] == ops[..n];
      StepsFail(v, drafts, ops, n + 1);
    }
  }

  lemma {:induction false} OverlaysFail(v: View, drafts: Drafts, paths: seq<Path>, n: nat)
    requires forall p :: p in paths ==> p in drafts
    requires n <= |paths| && Overlays(v, drafts, paths[..n]).Err?
    ensures Overlays(v, drafts, paths) == Overlays(v, drafts, paths[..n])
    decreases |paths| - n
  {
    if n == |paths| {
      assert paths[..n] == paths;
    } else {
      assert paths[..n+1][..n] == paths[..n];
      OverlaysFail(v, drafts, paths, n + 1);
    }
  }
}
