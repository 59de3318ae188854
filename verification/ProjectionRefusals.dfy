/** Why a projection fails, what becomes of pending Main, and what the summary counts. */
module ProjectionRefusals {
  import opened Common
  import opened Counting
  import opened PathOrder
  import opened Projection
  import opened ProjectionFacts
  import opened StagingExact
  import opened SavingViews

  /** A file is live at the path. */
  ghost predicate Taken(v: View, p: Path)
  {
    exists f :: f in v.files && LiveAt(f, p)
  }

  /** The operation finds a file at its source, or makes it from a fresh draft. */
  ghost predicate HasSource(v: View, drafts: Drafts, op: Staged)
    requires !op.SetMain?
  {
    Taken(v, op.source) || Fresh(drafts, op.source)
  }

  /** A rename needs a free destination, and the file of pending Main is not deleted. */
  ghost predicate Collides(v: View, op: Staged)
    requires !op.SetMain?
  {
    if op.Rename? then Taken(v, op.destination) || op.destination == op.source else v.main == Some(op.source)
  }

  lemma TakenIsLive(v: View, p: Path)
    ensures Taken(v, p) <==> HasLive(v.files, p)
  {
    LiveIff(v.files, p);
  }

  lemma ReachedTakes(v: View, drafts: Drafts, source: Path, p: Path)
    requires Reach(v, drafts, source).Ok?
    ensures HasLive(Reach(v, drafts, source).value.files, p) <==> Taken(v, p) || p == source
    ensures Reach(v, drafts, source).value.main == v.main
  {
    TakenIsLive(v, p);
    TakenIsLive(v, source);
    var r := Reach(v, drafts, source).value;
    LiveIff(r.files, p);
    if !HasLive(v.files, source) {
      assert r.files[|v.files|] == AddedFile(source, drafts[source]);
      assert forall f :: f in r.files <==> f in v.files || f == AddedFile(source, drafts[source]);
    }
  }

  /** An operation is refused exactly for a missing source, or else for a collision. */
  lemma StepRefusals(v: View, drafts: Drafts, op: Staged)
    ensures op.SetMain? ==> Step(v, drafts, op) == Ok(v.(main := Some(op.destination)))
    ensures !op.SetMain? ==>
              && (Step(v, drafts, op) == Err(NotFound) <==> !HasSource(v, drafts, op))
              && (Step(v, drafts, op) == Err(Conflict) <==> HasSource(v, drafts, op) && Collides(v, op))
  {
    if !op.SetMain? {
      TakenIsLive(v, op.source);
      if Reach(v, drafts, op.source).Ok? {
        ReachedTakes(v, drafts, op.source, op.source);
        if op.Rename? { ReachedTakes(v, drafts, op.source, op.destination); }
      }
    }
  }

  lemma {:induction false} FailedStep(v: View, drafts: Drafts, ops: seq<Staged>) returns (n: nat)
    requires Steps(v, drafts, ops).Err?
    ensures n < |ops| && Steps(v, drafts, ops[..n]).Ok?
    ensures Step(Steps(v, drafts, ops[..n]).value, drafts, ops[n]) == Err(Steps(v, drafts, ops).error)
  {
    var most := ops[..|ops|-1];
    if Steps(v, drafts, most).Err? {
      n := FailedStep(v, drafts, most);
      assert most[..n] == ops[..n] && most[n] == ops[n];
    } else {
      n := |ops| - 1;
    }
  }

  /** Operation `n` fails where the others before it have led. */
  ghost predicate FailsAt(table: Table, drafts: Drafts, ops: seq<Staged>, n: nat, e: Error)
  {
    && n < |ops| && Steps(Opening(table, drafts), drafts, ops[..n]).Ok? && !ops[n].SetMain?
    && var v := Steps(Opening(table, drafts), drafts, ops[..n]).value;
       if e == NotFound then !HasSource(v, drafts, ops[n]) else HasSource(v, drafts, ops[n]) && Collides(v, ops[n])
  }

  lemma {:induction false} MergingOnlyCollides(v: View, drafts: Drafts, paths: seq<Path>)
    requires (forall p :: p in paths ==> p in drafts) && Overlays(v, drafts, paths).Err?
    ensures Overlays(v, drafts, paths) == Err(Conflict)
  {
    if Overlays(v, drafts, paths[..|paths|-1]).Err? {
      MergingOnlyCollides(v, drafts, paths[..|paths|-1]);
    }
  }

  /** A tree that cannot be projected is missing a source, or collides in an operation, a draft or pending Main. */
  lemma ProjectRefusals(table: Table, drafts: Drafts, ops: seq<Staged>)
    requires Project(table, drafts, ops).Err?
    ensures var e, r := Project(table, drafts, ops).error, Steps(Opening(table, drafts), drafts, ops);
            if r.Err? then exists n: nat :: FailsAt(table, drafts, ops, n, e)
            else e == Conflict && !Coheres(r.value, drafts)
  {
    var r := Steps(Opening(table, drafts), drafts, ops);
    if r.Err? {
      var n := FailedStep(Opening(table, drafts), drafts, ops);
      StepRefusals(Steps(Opening(table, drafts), drafts, ops[..n]).value, drafts, ops[n]);
      assert FailsAt(table, drafts, ops, n, r.error);
    } else {
      ProjectsExactly(table, drafts, ops);
      if Overlays(r.value, drafts, Listing(drafts.Keys)).Err? {
        MergingOnlyCollides(r.value, drafts, Listing(drafts.Keys));
      }
    }
  }

  // --- pending Main ----------------------------------------------------------------------------

  ghost predicate MainShows(v: View)
  {
    v.main.Some? ==> Taken(v, v.main.value)
  }

  lemma StaysTaken(files: seq<File>, k: nat, g: File, f: File)
    requires k < |files| && f in files && f != files[k]
    ensures f in files[k := g] && f in files[..k] + files[k+1..]
  {
    var i :| 0 <= i < |files| && files[i] == f;
    assert files[k := g][i] == f;
    assert (files[..k] + files[k+1..])[if i < k then i else i - 1] == f;
  }

  /** Pending Main goes with its file when that is renamed, stays otherwise, and keeps its file. */
  lemma PendingMainFollows(v: View, drafts: Drafts, op: Staged)
    requires !op.SetMain? && Step(v, drafts, op).Ok? && MainShows(v)
    ensures MainShows(Step(v, drafts, op).value)
    ensures Step(v, drafts, op).value.main
            == if op.Rename? && v.main == Some(op.source) then Some(op.destination) else v.main
  {
    StepRefusals(v, drafts, op);
    var r, u := Reach(v, drafts, op.source).value, Step(v, drafts, op).value;
    var k := FirstLive(r.files, op.source);
    if v.main.Some? && v.main != Some(op.source) {
      var f :| f in v.files && LiveAt(f, v.main.value);
      assert f in r.files && LiveAt(r.files[k], op.source);
      StaysTaken(r.files, k, if op.Rename? then RenameAt(r, k, op).files[k]
                             else r.files[k].(revision := Captured(r.files[k], op.base), pendingDelete := true), f);
    } else if op.Rename? {
      assert u.files[k] in u.files && LiveAt(u.files[k], op.destination);
    }
  }

  // --- the summary --------------------------------------------------------------------------------

  ghost function DeletedFiles(files: seq<File>): set<int>
  {
    set k | 0 <= k < |files| && files[k].pendingDelete
  }

  ghost function NewFiles(files: seq<File>): set<int>
  {
    set k | 0 <= k < |files| && files[k].origin == None
  }

  ghost function MovedFiles(files: seq<File>): set<int>
  {
    set k | 0 <= k < |files| && !files[k].pendingDelete && files[k].renamed
  }

  ghost function EditedFiles(files: seq<File>): set<int>
  {
    set k | 0 <= k < |files| && !files[k].pendingDelete && !files[k].renamed && files[k].modified
  }

  lemma CountedFiles(files: seq<File>, table: Table)
    requires forall f :: f in files ==> FileOk(f, table)
    ensures Count(files, IsDeleted) == |DeletedFiles(files)| && Count(files, IsAdded) == |NewFiles(files)|
  {
    CountIsPositions(files, IsDeleted);
    CountIsPositions(files, IsAdded);
    forall k | 0 <= k < |files|
      ensures IsDeleted(files[k]) <==> files[k].pendingDelete
      ensures IsAdded(files[k]) <==> files[k].origin == None
    {
      assert FileOk(files[k], table);
    }
    assert Positions(files, IsDeleted) == DeletedFiles(files);
    assert Positions(files, IsAdded) == NewFiles(files);
  }

  lemma CountedChanges(files: seq<File>)
    ensures Count(files, IsRenamed) == |MovedFiles(files)| && Count(files, IsModified) == |EditedFiles(files)|
  {
    CountIsPositions(files, IsRenamed);
    CountIsPositions(files, IsModified);
    assert Positions(files, IsRenamed) == MovedFiles(files);
    assert Positions(files, IsModified) == EditedFiles(files);
  }

  /** The summary counts each changed file once: deleted, new, moved, or else edited. */
  lemma SummaryIsRight(table: Table, drafts: Drafts, ops: seq<Staged>)
    requires Project(table, drafts, ops).Ok?
    ensures var tree := Project(table, drafts, ops).value;
            var s, main := tree.summary, if tree.main.Some? then 1 else 0;
            && s.deleted == |DeletedFiles(tree.files)| && s.added == |NewFiles(tree.files)|
            && s.renamed == |MovedFiles(tree.files)| && s.modified == |EditedFiles(tree.files)|
            && (s.mainChanged <==> tree.main.Some?)
            && s.total == s.deleted + s.added + s.renamed + s.modified + main
  {
    ProjectWellFormed(table, drafts, ops);
    CountedFiles(Project(table, drafts, ops).value.files, table);
    CountedChanges(Project(table, drafts, ops).value.files);
  }
}
