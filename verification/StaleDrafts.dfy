/** Edits based on an outdated revision never reach the canonical table. */
module StaleDrafts {
  import opened Common
  import opened PathOrder
  import opened Projection
  import opened ProjectionFacts
  import opened Publish
  import opened PublishFacts
  import opened Staging

  predicate Names(op: Staged, p: Path)
  {
    match op
    case Rename(source, destination, _) => source == p || destination == p
    case Delete(source, _) => source == p
    case SetMain(destination) => destination == p
  }

  /** The canonical row at `p` still shows at its own path, with captured revision `r`. */
  predicate Holds(f: File, p: Path, r: nat)
  {
    !f.added && !f.pendingDelete && f.path == p && f.origin == Some(p) && f.revision == Some(r)
  }

  ghost predicate InPlace(files: seq<File>, p: Path, r: nat)
  {
    exists f :: f in files && Holds(f, p, r)
  }

  lemma {:induction false} AddDraftsInPlace(v: View, drafts: Drafts, paths: seq<Path>, p: Path, r: nat)
    requires forall q :: q in paths ==> q in drafts
    requires InPlace(v.files, p, r) && p !in v.consumed
    ensures InPlace(AddDrafts(v, drafts, paths).files, p, r) && p !in AddDrafts(v, drafts, paths).consumed
  {
    if paths != [] {
      AddDraftsInPlace(v, drafts, paths[..|paths|-1], p, r);
    }
  }

  lemma OpeningInPlace(table: Table, drafts: Drafts, p: Path)
    requires p in table
    ensures InPlace(Opening(table, drafts).files, p, table[p].revision) && p !in Opening(table, drafts).consumed
  {
    var paths := Listing(table.Keys);
    CanonicalFilesAt(table, paths);
    var i :| 0 <= i < |paths| && paths[i] == p;
    assert Holds(CanonicalFiles(table, paths)[i], p, table[p].revision);
    AddDraftsInPlace(View(CanonicalFiles(table, paths), {}, None), drafts, Listing(drafts.Keys), p, table[p].revision);
  }

  lemma UpdateInPlace(files: seq<File>, k: nat, g: File, p: Path, r: nat)
    requires InPlace(files, p, r) && k < |files| && !Holds(files[k], p, r)
    ensures InPlace(files[k := g], p, r)
    ensures InPlace(files[..k] + files[k+1..], p, r)
  {
    var i :| 0 <= i < |files| && Holds(files[i], p, r);
    assert files[k := g][i] == files[i];
    assert (files[..k] + files[k+1..])[if i < k then i else i - 1] == files[i];
  }

  lemma StepInPlace(v: View, drafts: Drafts, op: Staged, p: Path, r: nat)
    requires InPlace(v.files, p, r) && p !in v.consumed && !Names(op, p) && Step(v, drafts, op).Ok?
    ensures InPlace(Step(v, drafts, op).value.files, p, r) && p !in Step(v, drafts, op).value.consumed
  {
    if !op.SetMain? {
      var u := Reach(v, drafts, op.source).value;
      assert InPlace(u.files, p, r);
      var k := FirstLive(u.files, op.source);
      UpdateInPlace(u.files, k, if op.Rename? then RenameAt(u, k, op).files[k]
                                else u.files[k].(revision := Captured(u.files[k], op.base), pendingDelete := true), p,
                                    r);
    }
  }

  lemma {:induction false} StepsInPlace(v: View, drafts: Drafts, ops: seq<Staged>, p: Path, r: nat)
    requires InPlace(v.files, p, r) && p !in v.consumed && (forall op :: op in ops ==> !Names(op, p))
    requires Steps(v, drafts, ops).Ok?
    ensures InPlace(Steps(v, drafts, ops).value.files, p, r) && p !in Steps(v, drafts, ops).value.consumed
  {
    if ops != [] {
      StepsInPlace(v, drafts, ops[..|ops|-1], p, r);
      StepInPlace(Steps(v, drafts, ops[..|ops|-1]).value, drafts, ops[|ops|-1], p, r);
    }
  }

  // --- the draft loop --------------------------------------------------------------------

  lemma OtherOverlayInPlace(v: View, table: Table, q: Path, d: Draft, p: Path, r: nat)
    requires WellFormed(v.files, table) && InPlace(v.files, p, r) && q != p && Overlay(v, q, d).Ok?
    ensures InPlace(Overlay(v, q, d).value.files, p, r)
  {
    if q !in v.consumed {
      var k := FirstReceiver(v.files, q, d);
      if k < |v.files| {
        UpdateInPlace(v.files, k, Overwrite(v.files[k], d), p, r);
      } else {
        var f :| f in v.files && Holds(f, p, r);
        assert f in v.files + [AddedFile(q, d)];
      }
    }
  }

  lemma OwnOverlayInPlace(v: View, table: Table, p: Path, d: Draft, r: nat)
    requires WellFormed(v.files, table) && InPlace(v.files, p, r) && p !in v.consumed && Overlay(v, p, d).Ok?
    ensures InPlace(Overlay(v, p, d).value.files, p, d.base)
  {
    var i :| 0 <= i < |v.files| && Holds(v.files[i], p, r);
    var k := FirstReceiver(v.files, p, d);
    assert Receives(v.files[i], p, d);
    forall j | 0 <= j < |v.files| && j != i ensures !Receives(v.files[j], p, d) {
      assert Apart(v.files[j], v.files[i]);
    }
    assert Holds(Overlay(v, p, d).value.files[k], p, d.base);
  }

  lemma {:induction false} OverlaysInPlace(v: View, table: Table, drafts: Drafts, paths: seq<Path>, p: Path, r: nat)
    requires forall q :: q in paths ==> q in drafts
    requires forall i, j :: 0 <= i < j < |paths| ==> paths[i] != paths[j]
    requires WellFormed(v.files, table) && InPlace(v.files, p, r) && p !in v.consumed
    requires Overlays(v, drafts, paths).Ok?
    ensures InPlace(Overlays(v, drafts, paths).value.files, p, if p in paths then drafts[p].base else r)
    ensures Overlays(v, drafts, paths).value.consumed == v.consumed
  {
    if paths != [] {
      var most, last := paths[..|paths|-1], paths[|paths|-1];
      OverlaysInPlace(v, table, drafts, most, p, r);
      OverlaysWellFormed(v, table, drafts, most);
      assert paths == most + [last];
      var u := Overlays(v, drafts, most).value;
      if last == p {
        assert p !in most;
        OwnOverlayInPlace(u, table, p, drafts[p], r);
      } else {
        OtherOverlayInPlace(u, table, last, drafts[last], p, if p in most then drafts[p].base else r);
      }
    }
  }

  lemma SteppedInPlace(table: Table, work: Member, path: Path)
    requires path in table && (forall op :: op in work.staged ==> !Names(op, path))
    requires Steps(Opening(table, work.drafts), work.drafts, work.staged).Ok?
    ensures var v := Steps(Opening(table, work.drafts), work.drafts, work.staged).value;
            WellFormed(v.files, table) && InPlace(v.files, path, table[path].revision) && path !in v.consumed
  {
    var start := Opening(table, work.drafts);
    OpeningInPlace(table, work.drafts, path);
    StepsInPlace(start, work.drafts, work.staged, path, table[path].revision);
    OpeningWellFormed(table, work.drafts);
    StepsWellFormed(start, table, work.drafts, work.staged);
  }

  /** A draft at an unmoved canonical path decides the revision its file was edited from. */
  lemma ProjectedBase(table: Table, work: Member, p: Path)
    requires p in table && p in work.drafts && (forall op :: op in work.staged ==> !Names(op, p))
    requires Project(table, work.drafts, work.staged).Ok?
    ensures InPlace(Project(table, work.drafts, work.staged).value.files, p, work.drafts[p].base)
  {
    SteppedInPlace(table, work, p);
    var v := Steps(Opening(table, work.drafts), work.drafts, work.staged).value;
    OverlaysInPlace(v, table, work.drafts, Listing(work.drafts.Keys), p, table[p].revision);
    var u := Overlays(v, work.drafts, Listing(work.drafts.Keys)).value;
    var f :| f in u.files && Holds(f, p, work.drafts[p].base);
    SortByMember(u.files, PathOf, f);
  }

  /** What was published at an unmoved path was edited from the revision it replaced. */
  lemma PublishedDraftWasCurrent(p: ProjectState, user: nat, grants: Grants, path: Path)
    requires path in p.files && path in WorkOf(p, user).drafts
    requires forall op :: op in WorkOf(p, user).staged ==> !Names(op, path)
    ensures PublishChangeSet(p, user, grants).outcome.Published? ==>
              WorkOf(p, user).drafts[path].base == p.files[path].revision
  {
    if PublishChangeSet(p, user, grants).outcome.Published? {
      var work := WorkOf(p, user);
      var tree := Project(p.files, work.drafts, work.staged).value;
      ProjectWellFormed(p.files, work.drafts, work.staged);
      ProjectedBase(p.files, work, path);
      NoConflictMeansClean(p, tree, grants);
      var f :| f in tree.files && Holds(f, path, work.drafts[path].base);
      assert Clean(f, p.files);
    }
  }

  /** An outdated draft at a path no staged operation names is never published, and nothing changes. */
  lemma StaleDraftNeverPublishes(p: ProjectState, user: nat, grants: Grants, path: Path)
    requires path in p.files && path in WorkOf(p, user).drafts
    requires WorkOf(p, user).drafts[path].base != p.files[path].revision
    requires forall op :: op in WorkOf(p, user).staged ==> !Names(op, path)
    ensures !PublishChangeSet(p, user, grants).outcome.Published?
    ensures PublishChangeSet(p, user, grants).project == p
  {
    PublishedDraftWasCurrent(p, user, grants, path);
  }

  /** Deleting an unmoved file under an outstanding draft is accepted, and the tree is then unprojectable. */
  lemma DeleteUnderDraftBreaks(p: ProjectState, user: nat, grants: Grants, path: Path)
    requires path in p.files && path in WorkOf(p, user).drafts
    requires forall op :: op in WorkOf(p, user).staged ==> !Names(op, path)
    requires Stage(p, user, grants, DeleteFile(path)).Accepted?
    ensures var after := WorkOf(Stage(p, user, grants, DeleteFile(path)).project, user);
            Project(p.files, after.drafts, after.staged).Err?
  {
    var work := WorkOf(p, user);
    var drafts, start := work.drafts, Opening(p.files, work.drafts);
    var op := OperationFor(Project(p.files, drafts, work.staged).value, DeleteFile(path)).value;
    AppendedStep(start, drafts, work.staged, op);
    SteppedInPlace(p.files, work, path);
    var v := Steps(start, drafts, work.staged).value;
    if Step(v, drafts, op).Ok? {
      var u := Step(v, drafts, op).value;
      DeleteBuries(v, p.files, drafts, op, p.files[path].revision);
      StepWellFormed(v, p.files, drafts, op);
      BuriedDraftConflicts(u, p.files, drafts, Listing(drafts.Keys), path);
    }
  }

  /** The canonical row at `p` is deleted where it stood, so nothing live can take a draft at `p`. */
  ghost predicate BuriedInPlace(v: View, p: Path)
  {
    p !in v.consumed && (exists f :: f in v.files && f.pendingDelete && f.path == p && f.origin == Some(p))
        && !HasLive(v.files, p)
  }

  lemma DeleteBuries(v: View, table: Table, drafts: Drafts, op: Staged, r: nat)
    requires WellFormed(v.files, table) && op.Delete? && Step(v, drafts, op).Ok?
    requires InPlace(v.files, op.source, r) && op.source !in v.consumed
    ensures BuriedInPlace(Step(v, drafts, op).value, op.source)
  {
    var p := op.source;
    var i :| 0 <= i < |v.files| && Holds(v.files[i], p, r);
    OnlyOneLive(v.files, table, p);
    assert FirstLive(v.files, p) == i;
    var u := Step(v, drafts, op).value;
    assert u.files[i].pendingDelete && u.files[i].path == p && u.files[i].origin == Some(p);
  }

  lemma OtherOverlayBuried(v: View, table: Table, q: Path, d: Draft, p: Path)
    requires WellFormed(v.files, table) && BuriedInPlace(v, p) && q != p && Overlay(v, q, d).Ok?
    ensures BuriedInPlace(Overlay(v, q, d).value, p)
  {
    var i :| 0 <= i < |v.files| && v.files[i].pendingDelete && v.files[i].path == p && v.files[i].origin == Some(p);
    var u := Overlay(v, q, d).value;
    assert u.files[i] == v.files[i];
    forall f | f in u.files ensures !LiveAt(f, p) {
    }
  }

  lemma OwnOverlayBuried(v: View, table: Table, p: Path, d: Draft)
    requires WellFormed(v.files, table) && BuriedInPlace(v, p)
    ensures Overlay(v, p, d) == Err(Conflict)
  {
    var i :| 0 <= i < |v.files| && v.files[i].pendingDelete && v.files[i].path == p && v.files[i].origin == Some(p);
    forall j | 0 <= j < |v.files| ensures !Receives(v.files[j], p, d) {
      if j != i { assert Apart(v.files[j], v.files[i]); }
    }
  }

  lemma {:induction false} BuriedDraftConflicts(v: View, table: Table, drafts: Drafts, paths: seq<Path>, p: Path)
    requires forall q :: q in paths ==> q in drafts
    requires forall i, j :: 0 <= i < j < |paths| ==> paths[i] != paths[j]
    requires WellFormed(v.files, table) && BuriedInPlace(v, p)
    ensures p in paths ==> Overlays(v, drafts, paths).Err?
    ensures p !in paths && Overlays(v, drafts, paths).Ok? ==> BuriedInPlace(Overlays(v, drafts, paths).value, p)
  {
    if paths != [] {
      var most, last := paths[..|paths|-1], paths[|paths|-1];
      assert paths == most + [last];
      BuriedDraftConflicts(v, table, drafts, most, p);
      if Overlays(v, drafts, most).Ok? {
        OverlaysWellFormed(v, table, drafts, most);
        var u := Overlays(v, drafts, most).value;
        if last == p {
          OwnOverlayBuried(u, table, p, drafts[p]);
        } else if Overlay(u, last, drafts[last]).Ok? {
          OtherOverlayBuried(u, table, last, drafts[last], p);
        }
      }
    }
  }
}
