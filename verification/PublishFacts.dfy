/** A publication writes exactly the projected tree, and its event replays to the same tree. */
module PublishFacts {
  import opened Common
  import opened Counting
  import opened Projection
  import opened ProjectionFacts
  import opened Publish
  import W = Workspace

  // --- what an empty conflict list guarantees ----------------------------------------

  /** No captured revision is stale and no destination is taken. */
  predicate Clean(f: File, table: Table)
  {
    && (f.origin.Some? ==> f.origin.value in table && f.revision == Some(table[f.origin.value].revision))
    && (f.added || (f.renamed && !f.pendingDelete && f.origin != Some(f.path)) ==> f.path !in table)
  }

  lemma {:induction false} ConflictsCoverFiles(files: seq<File>, locked: map<Path, nat>, p: ProjectState,
                                               grants: Grants, f: File)
    requires f in files && AllFileConflicts(files, locked, p, grants) == []
    ensures FileConflicts(f, locked, p, grants) == []
  {
    if f != files[|files|-1] {
      assert f in files[..|files|-1];
      ConflictsCoverFiles(files[..|files|-1], locked, p, grants, f);
    }
  }

  lemma LockedIsWholeTable(files: seq<File>, table: Table)
    requires WellFormed(files, table)
    ensures Locked(files, table) == map o | o in table :: table[o].revision
  {
    forall o | o in table ensures o in Locked(files, table) {
      assert Originates(files, o);
    }
  }

  lemma NoConflictMeansClean(p: ProjectState, tree: Tree, grants: Grants)
    requires WellFormed(tree.files, p.files) && Conflicts(p, tree, grants) == []
    ensures forall f :: f in tree.files ==> Clean(f, p.files)
  {
    LockedIsWholeTable(tree.files, p.files);
    var locked := map o | o in p.files :: p.files[o].revision;
    assert AllFileConflicts(tree.files, locked, p, grants) == [];
    forall f | f in tree.files ensures Clean(f, p.files) {
      ConflictsCoverFiles(tree.files, locked, p, grants, f);
      QuietFileIsClean(f, locked, p.files);
    }
  }

  lemma QuietFileIsClean(f: File, locked: map<Path, nat>, table: Table)
    requires FileOk(f, table) && locked == map o | o in table :: table[o].revision
    requires SourceConflicts(f, locked) == [] && DestinationConflicts(f, locked) == []
    ensures Clean(f, table)
  {
  }

  // --- one invariant through all three passes ---------------------------------------------

  function Order(phase: Phase): nat
  {
    match phase case Deletes => 0 case Renames => 1 case Writes => 2
  }

  function Turn(f: File): nat
  {
    if Takes(Deletes, f) then 0 else if Takes(Renames, f) then 1 else if Takes(Writes, f) then 2 else 3
  }

  /** File `i` has been handled once pass `turn` has read the first `n` files. */
  predicate Done(files: seq<File>, i: nat, turn: nat, n: nat)
    requires i < |files|
  {
    Turn(files[i]) < turn || (Turn(files[i]) == turn && i < n)
  }

  function Written(f: File): Entry
  {
    Entry(f.content, if f.added then 1 else if f.revision.Some? then f.revision.value + 1 else 0)
  }

  /** Each file still sits in its old row, or has left it and sits, if live, in its new one. */
  predicate Placed(f: File, done: bool, table: Table, before: Table)
  {
    if done then
      if f.pendingDelete then f.origin.Some? ==> f.origin.value !in table
      else
        && f.path in table && table[f.path] == Written(f)
        && (f.origin.Some? && f.origin != Some(f.path) ==> f.origin.value !in table)
    else
      f.origin.Some? ==>
        f.origin.value in before && f.origin.value in table && table[f.origin.value] == before[f.origin.value]
  }

  ghost predicate Owned(files: seq<File>, q: Path, turn: nat, n: nat)
  {
    exists i :: 0 <= i < |files| && OwnsRow(files, i, q, turn, n)
  }

  predicate OwnsRow(files: seq<File>, i: nat, q: Path, turn: nat, n: nat)
    requires i < |files|
  {
    if Done(files, i, turn, n) then !files[i].pendingDelete && files[i].path == q else files[i].origin == Some(q)
  }

  ghost predicate Partway(files: seq<File>, before: Table, table: Table, turn: nat, n: nat)
  {
    && (forall i :: 0 <= i < |files| ==> Placed(files[i], Done(files, i, turn, n), table, before))
    && (forall q :: q in table ==> Owned(files, q, turn, n))
  }

  ghost predicate Ready(files: seq<File>, before: Table)
  {
    WellFormed(files, before) && forall f :: f in files ==> Clean(f, before)
  }

  function Contents(table: Table): map<Path, Content>
  {
    map p | p in table :: table[p].content
  }

  lemma TurnOfPhase(phase: Phase, f: File)
    requires f.added ==> !f.renamed && !f.pendingDelete
    ensures Takes(phase, f) <==> Turn(f) == Order(phase)
  {
  }

  /** The destination of file `n` is free while file `n` has not moved, except for its own old row. */
  lemma DestinationFree(files: seq<File>, before: Table, table: Table, turn: nat, n: nat)
    requires Ready(files, before) && n < |files| && Partway(files, before, table, turn, n)
    requires Turn(files[n]) == turn && !files[n].pendingDelete && turn < 3
    ensures files[n].path in table ==> files[n].origin == Some(files[n].path)
  {
    var f := files[n];
    assert FileOk(f, before) && Clean(f, before);
    if f.path in table {
      assert Owned(files, f.path, turn, n);
      var j :| 0 <= j < |files| && OwnsRow(files, j, f.path, turn, n);
      if j != n {
        assert Apart(files[j], f);
        assert files[j] in files && Clean(files[j], before);
      }
    }
  }

  /** A step changes two rows at most: the file's old one and its new one. */
  predicate Moves(f: File, table: Table, next: Table)
  {
    && (forall q :: q in table && f.origin != Some(q) && (f.pendingDelete || q != f.path) ==>
          q in next && next[q] == table[q])
    && (forall q :: q in next && (f.pendingDelete || q != f.path) ==> q in table && (f.origin != Some(q)))
    && (!f.pendingDelete ==> f.path in next && next[f.path] == Written(f))
  }

  lemma EmitMoves(phase: Phase, d: Delta, f: File, before: Table)
    requires d.Delta? && Takes(phase, f) && Emit(phase, d, f).Delta? && FileOk(f, before)
    ensures Moves(f, d.table, Emit(phase, d, f).table)
  {
  }

  lemma OtherStaysPlaced(g: File, f: File, done: bool, table: Table, next: Table, before: Table)
    requires FileOk(f, before) && FileOk(g, before) && Clean(f, before) && Clean(g, before) && Apart(g, f)
    requires Placed(g, done, table, before) && Moves(f, table, next)
    ensures Placed(g, done, next, before)
  {
  }

  lemma MovedRowsPlaced(files: seq<File>, before: Table, table: Table, next: Table, turn: nat, n: nat)
    requires Ready(files, before) && n < |files| && Turn(files[n]) == turn
    requires Partway(files, before, table, turn, n) && Moves(files[n], table, next)
    ensures forall i :: 0 <= i < |files| ==> Placed(files[i], Done(files, i, turn, n + 1), next, before)
  {
    var f := files[n];
    assert f in files && FileOk(f, before) && Clean(f, before);
    forall i | 0 <= i < |files| ensures Placed(files[i], Done(files, i, turn, n + 1), next, before) {
      if i != n {
        var g := files[i];
        assert g in files && FileOk(g, before) && Clean(g, before) && Apart(g, f);
        assert Done(files, i, turn, n) == Done(files, i, turn, n + 1);
        OtherStaysPlaced(g, f, Done(files, i, turn, n), table, next, before);
      }
    }
  }

  lemma MovedRowsOwned(files: seq<File>, before: Table, table: Table, next: Table, turn: nat, n: nat)
    requires Ready(files, before) && n < |files| && Turn(files[n]) == turn
    requires Partway(files, before, table, turn, n) && Moves(files[n], table, next)
    ensures forall q :: q in next ==> Owned(files, q, turn, n + 1)
  {
    var f := files[n];
    forall q | q in next ensures Owned(files, q, turn, n + 1) {
      if !f.pendingDelete && q == f.path {
        assert OwnsRow(files, n, q, turn, n + 1);
      } else {
        assert q in table && f.origin != Some(q);
        assert Owned(files, q, turn, n);
        var j :| 0 <= j < |files| && OwnsRow(files, j, q, turn, n);
        assert OwnsRow(files, j, q, turn, n + 1);
      }
    }
  }

  lemma EmitPlaces(phase: Phase, d: Delta, files: seq<File>, before: Table, n: nat)
    requires Ready(files, before) && n < |files| && d.Delta?
    requires Partway(files, before, d.table, Order(phase), n) && Takes(phase, files[n])
    requires Emit(phase, d, files[n]).Delta?
    ensures Partway(files, before, Emit(phase, d, files[n]).table, Order(phase), n + 1)
  {
    var f := files[n];
    assert f in files && FileOk(f, before);
    TurnOfPhase(phase, f);
    EmitMoves(phase, d, f, before);
    var next := Emit(phase, d, f).table;
    MovedRowsPlaced(files, before, d.table, next, Order(phase), n);
    MovedRowsOwned(files, before, d.table, next, Order(phase), n);
  }

  lemma SameDone(files: seq<File>, before: Table, table: Table, turn: nat, n: nat, turn': nat, n': nat)
    requires Partway(files, before, table, turn, n)
    requires forall i :: 0 <= i < |files| ==> Done(files, i, turn, n) == Done(files, i, turn', n')
    ensures Partway(files, before, table, turn', n')
  {
    forall q | q in table ensures Owned(files, q, turn', n') {
      assert Owned(files, q, turn, n);
      var j :| 0 <= j < |files| && OwnsRow(files, j, q, turn, n);
      assert OwnsRow(files, j, q, turn', n');
    }
  }

  lemma SkipPlaces(phase: Phase, table: Table, files: seq<File>, before: Table, n: nat)
    requires Ready(files, before) && n < |files|
    requires Partway(files, before, table, Order(phase), n) && !Takes(phase, files[n])
    ensures Partway(files, before, table, Order(phase), n + 1)
  {
    assert files[n] in files && FileOk(files[n], before);
    TurnOfPhase(phase, files[n]);
    forall i | 0 <= i < |files| ensures Done(files, i, Order(phase), n) == Done(files, i, Order(phase), n + 1) {
    }
    SameDone(files, before, table, Order(phase), n, Order(phase), n + 1);
  }

  /** Only an exhausted revision counter can stop a validated delta: no duplicate key, no missing origin. */
  lemma EmitOnlyOverflows(phase: Phase, d: Delta, files: seq<File>, before: Table, n: nat)
    requires Ready(files, before) && n < |files| && d.Delta?
    requires Partway(files, before, d.table, Order(phase), n) && Takes(phase, files[n])
    ensures Emit(phase, d, files[n]) == Aborted(Overflow) || Emit(phase, d, files[n]).Delta?
  {
    var f := files[n];
    assert f in files && FileOk(f, before);
    TurnOfPhase(phase, f);
    if phase == Renames {
      DestinationFree(files, before, d.table, Order(phase), n);
    }
  }

  // --- the event replays ---------------------------------------------------------------------

  /** The strict reader accepts the operations so far and holds exactly the table's contents. */
  predicate Replays(d: Delta, start: W.State)
    requires d.Delta?
  {
    W.ApplyAll(start, d.ops) == Some(W.State(Contents(d.table), W.MainThrough(start.main, d.ops)))
  }

  lemma EmitReplays(phase: Phase, d: Delta, files: seq<File>, before: Table, n: nat, start: W.State)
    requires Ready(files, before) && n < |files| && d.Delta?
    requires Partway(files, before, d.table, Order(phase), n) && Takes(phase, files[n])
    requires Emit(phase, d, files[n]).Delta? && Replays(d, start)
    ensures Replays(Emit(phase, d, files[n]), start)
  {
    var f := files[n];
    assert FileOk(f, before);
    TurnOfPhase(phase, f);
    assert Placed(f, Done(files, n, Order(phase), n), d.table, before);
    match phase {
      case Deletes => DeleteReplays(d, f, start);
      case Renames => RenameReplays(d, f, start);
      case Writes => WriteReplays(d, f, start);
    }
  }

  lemma DeleteReplays(d: Delta, f: File, start: W.State)
    requires d.Delta? && Takes(Deletes, f) && Replays(d, start) && f.origin.value in d.table
    ensures Replays(Emit(Deletes, d, f), start)
  {
    var next := Emit(Deletes, d, f);
    assert next.ops[..|next.ops|-1] == d.ops;
    assert Contents(next.table) == Contents(d.table) - {f.origin.value};
  }

  lemma WriteReplays(d: Delta, f: File, start: W.State)
    requires d.Delta? && Takes(Writes, f) && Emit(Writes, d, f).Delta? && Replays(d, start)
    ensures Replays(Emit(Writes, d, f), start)
  {
    var next := Emit(Writes, d, f);
    assert next.ops[..|next.ops|-1] == d.ops;
    assert Contents(next.table) == Contents(d.table)[f.path := f.content];
  }

  lemma RenameReplays(d: Delta, f: File, start: W.State)
    requires d.Delta? && Takes(Renames, f) && Emit(Renames, d, f).Delta? && Replays(d, start)
    requires f.origin.Some? && f.origin.value in d.table
    requires !f.modified ==> f.content == d.table[f.origin.value].content
    ensures Replays(Emit(Renames, d, f), start)
  {
    var o, next := f.origin.value, Emit(Renames, d, f);
    var moved := d.ops + [W.RenameFile(o, f.path)];
    var held := Contents(d.table);
    assert moved[..|moved|-1] == d.ops;
    var mid := W.State((held - {o})[f.path := held[o]], W.MainThrough(start.main, moved));
    assert o == f.path ==> held == (held - {o})[f.path := held[o]];
    assert W.ApplyAll(start, moved) == Some(mid);
    assert Contents(next.table) == (held - {o})[f.path := f.content];
    if f.modified {
      assert next.ops[..|next.ops|-1] == moved;
      assert mid.files[f.path := f.content] == Contents(next.table);
    } else {
      assert next.ops == moved;
    }
  }

  // --- whole passes ------------------------------------------------------------------------------

  ghost predicate Sound(d: Delta, files: seq<File>, before: Table, turn: nat, n: nat, start: W.State)
  {
    if d.Delta? then Partway(files, before, d.table, turn, n) && Replays(d, start)
    else d == Aborted(Overflow)
  }

  lemma {:induction false} PassSound(phase: Phase, d: Delta, files: seq<File>, before: Table, n: nat, start: W.State)
    requires Ready(files, before) && n <= |files|
    requires Sound(d, files, before, Order(phase), 0, start)
    ensures Sound(Pass(phase, d, files[..n]), files, before, Order(phase), n, start)
  {
    if n > 0 {
      PassSound(phase, d, files, before, n - 1, start);
      assert files[..n][..n-1] == files[..n-1];
      var mid := Pass(phase, d, files[..n-1]);
      if mid.Delta? {
        if Takes(phase, files[n-1]) {
          EmitOnlyOverflows(phase, mid, files, before, n - 1);
          if Emit(phase, mid, files[n-1]).Delta? {
            EmitPlaces(phase, mid, files, before, n - 1);
            EmitReplays(phase, mid, files, before, n - 1, start);
          }
        } else {
          SkipPlaces(phase, mid.table, files, before, n - 1);
        }
      }
    }
  }

  lemma WholePassSound(phase: Phase, d: Delta, files: seq<File>, before: Table, start: W.State)
    requires Ready(files, before) && Sound(d, files, before, Order(phase), 0, start)
    ensures Sound(Pass(phase, d, files), files, before, Order(phase), |files|, start)
  {
    assert files[..|files|] == files;
    PassSound(phase, d, files, before, |files|, start);
  }

  lemma NextPass(d: Delta, files: seq<File>, before: Table, turn: nat, start: W.State)
    requires Sound(d, files, before, turn, |files|, start)
    ensures Sound(d, files, before, turn + 1, 0, start)
  {
    if d.Delta? {
      SameDone(files, before, d.table, turn, |files|, turn + 1, 0);
    }
  }

  lemma StartSound(files: seq<File>, before: Table, start: W.State)
    requires Ready(files, before) && start.files == Contents(before)
    ensures Sound(Delta(before, [], 0), files, before, 0, 0, start)
  {
    forall i | 0 <= i < |files| ensures Placed(files[i], Done(files, i, 0, 0), before, before) {
      assert FileOk(files[i], before);
    }
    forall q | q in before ensures Owned(files, q, 0, 0) {
      assert Originates(files, q);
      var j :| 0 <= j < |files| && files[j].origin == Some(q);
      assert OwnsRow(files, j, q, 0, 0);
    }
  }

  lemma PhaseSound(phase: Phase, d: Delta, files: seq<File>, before: Table, start: W.State)
    requires Ready(files, before) && Sound(d, files, before, Order(phase), 0, start)
    ensures Sound(Pass(phase, d, files), files, before, Order(phase) + 1, 0, start)
  {
    WholePassSound(phase, d, files, before, start);
    NextPass(Pass(phase, d, files), files, before, Order(phase), start);
  }

  lemma AllPassesSound(files: seq<File>, before: Table, start: W.State)
    requires Ready(files, before) && start.files == Contents(before)
    ensures Sound(AllPasses(before, files), files, before, 3, 0, start)
  {
    StartSound(files, before, start);
    var d0 := Delta(before, [], 0);
    PhaseSound(Deletes, d0, files, before, start);
    var d1 := Pass(Deletes, d0, files);
    PhaseSound(Renames, d1, files, before, start);
    PhaseSound(Writes, Pass(Renames, d1, files), files, before, start);
  }

  // --- the table afterwards is the live tree -------------------------------------------------------

  predicate Untouched(f: File)
  {
    !f.pendingDelete && !f.renamed && !f.modified && !f.added
  }

  /** The row a live projected file ends up in. */
  function Row(f: File, before: Table): Entry
    requires FileOk(f, before)
  {
    Entry(f.content,
          if f.added then 1
          else before[f.origin.value].revision + if Untouched(f) then 0 else 1)
  }

  ghost predicate IsLiveTree(table: Table, files: seq<File>, before: Table)
    requires forall f :: f in files ==> FileOk(f, before)
  {
    && (forall f :: f in files && !f.pendingDelete ==> f.path in table && table[f.path] == Row(f, before))
    && (forall q :: q in table ==> exists f :: f in files && LiveAt(f, q))
  }

  lemma FinishedTable(files: seq<File>, before: Table, table: Table)
    requires Ready(files, before) && Partway(files, before, table, 3, 0)
    ensures IsLiveTree(table, files, before)
  {
    forall f | f in files && !f.pendingDelete ensures f.path in table && table[f.path] == Row(f, before) {
      var i :| 0 <= i < |files| && files[i] == f;
      assert FileOk(f, before) && Clean(f, before);
      assert Placed(f, Done(files, i, 3, 0), table, before);
    }
    forall q | q in table ensures exists f :: f in files && LiveAt(f, q) {
      assert Owned(files, q, 3, 0);
      var j :| 0 <= j < |files| && OwnsRow(files, j, q, 3, 0);
      assert FileOk(files[j], before);
      assert LiveAt(files[j], q);
    }
  }

  // --- the number of changes ---------------------------------------------------------------------------

  lemma {:induction false} PassCounts(phase: Phase, d: Delta, files: seq<File>)
    requires Pass(phase, d, files).Delta?
    ensures d.Delta? && Pass(phase, d, files).changes == d.changes + Count(files, f => Takes(phase, f))
  {
    if files != [] {
      PassCounts(phase, d, files[..|files|-1]);
    }
  }

  lemma {:induction false} CountsAgree(files: seq<File>, table: Table)
    requires forall f :: f in files ==> FileOk(f, table)
    ensures Count(files, f => Takes(Deletes, f)) == Count(files, IsDeleted)
    ensures Count(files, f => Takes(Renames, f)) == Count(files, IsRenamed)
    ensures Count(files, f => Takes(Writes, f)) == Count(files, IsModified) + Count(files, IsAdded)
  {
    if files != [] {
      assert FileOk(files[|files|-1], table);
      CountsAgree(files[..|files|-1], table);
    }
  }

  lemma ChangesMatchSummary(tree: Tree, before: Table)
    requires WellFormed(tree.files, before) && tree.summary == Summarize(tree.files, tree.main)
    requires AllPasses(before, tree.files).Delta?
    ensures AllPasses(before, tree.files).changes + (if tree.main.Some? then 1 else 0) == tree.summary.total
  {
    var start := Delta(before, [], 0);
    var deleted := Pass(Deletes, start, tree.files);
    var renamed := Pass(Renames, deleted, tree.files);
    PassCounts(Writes, renamed, tree.files);
    PassCounts(Renames, deleted, tree.files);
    PassCounts(Deletes, start, tree.files);
    CountsAgree(tree.files, before);
  }
}
