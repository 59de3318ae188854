/** What every successful projection keeps, whatever the table, drafts and operations. */
module ProjectionFacts {
  import opened Common
  import opened PathOrder
  import opened Projection

  /** One projected file against the canonical table it was projected from. */
  predicate FileOk(f: File, table: Table)
  {
    if f.added then
      f.origin == None && f.revision == None && !f.renamed && !f.modified && !f.pendingDelete
    else
      && f.origin.Some? && f.origin.value in table && f.revision.Some?
      && (!f.renamed ==> f.path == f.origin.value)
      && (!f.modified ==> f.content == table[f.origin.value].content)
  }

  /** Two different positions never share a live path, nor an origin. */
  predicate Apart(f: File, g: File)
  {
    && (!f.pendingDelete && !g.pendingDelete ==> f.path != g.path)
    && (f.origin.Some? && g.origin.Some? ==> f.origin != g.origin)
  }

  ghost predicate Originates(files: seq<File>, o: Path)
  {
    exists f :: f in files && f.origin == Some(o)
  }

  ghost predicate WellFormed(files: seq<File>, table: Table)
  {
    && (forall f :: f in files ==> FileOk(f, table))
    && Pairwise(files, Apart)
    && (forall o :: o in table ==> Originates(files, o))
  }

  // --- the four ways a step edits the vector ---------------------------------------

  lemma PushKeeps(files: seq<File>, table: Table, g: File)
    requires WellFormed(files, table)
    requires FileOk(g, table) && forall f :: f in files ==> Apart(f, g) && Apart(g, f)
    ensures WellFormed(files + [g], table)
  {
    forall o | o in table ensures Originates(files + [g], o) {
      var f :| f in files && f.origin == Some(o);
      assert f in files + [g];
    }
  }

  lemma UpdateKeeps(files: seq<File>, table: Table, k: nat, g: File)
    requires WellFormed(files, table) && k < |files|
    requires FileOk(g, table) && g.origin == files[k].origin
    requires forall i :: 0 <= i < |files| && i != k ==> Apart(files[i], g) && Apart(g, files[i])
    ensures WellFormed(files[k := g], table)
  {
    var r := files[k := g];
    forall o | o in table ensures Originates(r, o) {
      var i :| 0 <= i < |files| && files[i].origin == Some(o);
      assert r[i] in r && r[i].origin == Some(o);
    }
  }

  lemma RemoveKeeps(files: seq<File>, table: Table, k: nat)
    requires WellFormed(files, table) && k < |files| && files[k].added
    ensures WellFormed(files[..k] + files[k+1..], table)
  {
    var r := files[..k] + files[k+1..];
    forall o | o in table ensures Originates(r, o) {
      var i :| 0 <= i < |files| && files[i].origin == Some(o);
      assert files[k] in files && i != k;
      assert r[if i < k then i else i - 1] == files[i];
    }
    forall f | f in r ensures f in files {
    }
    RemoveKeepsPairwise(files, k);
  }

  lemma RemoveKeepsPairwise(files: seq<File>, k: nat)
    requires Pairwise(files, Apart) && k < |files|
    ensures Pairwise(files[..k] + files[k+1..], Apart)
  {
    var r := files[..k] + files[k+1..];
    forall i, j | 0 <= i < |r| && 0 <= j < |r| && i != j ensures Apart(r[i], r[j]) {
      assert r[i] == files[if i < k then i else i + 1] && r[j] == files[if j < k then j else j + 1];
    }
  }

  lemma SortKeeps(files: seq<File>, table: Table)
    requires WellFormed(files, table)
    ensures WellFormed(SortBy(files, PathOf), table)
  {
    SortByKeepsPairwise(files, PathOf, Apart);
    forall f | f in SortBy(files, PathOf) ensures FileOk(f, table) {
      SortByMember(files, PathOf, f);
    }
    forall o | o in table ensures Originates(SortBy(files, PathOf), o) {
      var f :| f in files && f.origin == Some(o);
      SortByMember(files, PathOf, f);
    }
  }

  // --- each stage keeps the invariant ----------------------------------------------

  lemma {:induction false} CanonicalFilesAt(table: Table, paths: seq<Path>)
    requires forall p :: p in paths ==> p in table
    ensures |CanonicalFiles(table, paths)| == |paths|
    ensures forall i :: 0 <= i < |paths| ==> CanonicalFiles(table, paths)[i] == CanonicalFile(paths[i], table[paths[i]])
  {
    if paths != [] {
      CanonicalFilesAt(table, paths[..|paths|-1]);
    }
  }

  lemma CanonicalFilesWellFormed(table: Table)
    ensures WellFormed(CanonicalFiles(table, Listing(table.Keys)), table)
  {
    var paths := Listing(table.Keys);
    CanonicalFilesAt(table, paths);
    var files := CanonicalFiles(table, paths);
    forall o | o in table ensures Originates(files, o) {
      var i :| 0 <= i < |paths| && paths[i] == o;
      assert files[i] in files && files[i].origin == Some(o);
    }
    forall i, j | 0 <= i < |files| && 0 <= j < |files| && i != j ensures Apart(files[i], files[j]) {
      if i < j { assert Below(paths[i], paths[j]); } else { assert Below(paths[j], paths[i]); }
    }
  }

  lemma {:induction false} AddDraftsWellFormed(v: View, table: Table, drafts: Drafts, paths: seq<Path>)
    requires forall p :: p in paths ==> p in drafts
    requires WellFormed(v.files, table)
    ensures WellFormed(AddDrafts(v, drafts, paths).files, table)
  {
    if paths != [] {
      AddDraftsWellFormed(v, table, drafts, paths[..|paths|-1]);
      var before := AddDrafts(v, drafts, paths[..|paths|-1]);
      var p := paths[|paths|-1];
      if drafts[p].base == 0 && (forall f | f in before.files :: f.path != p) {
        PushKeeps(before.files, table, AddedFile(p, drafts[p]));
      }
    }
  }

  lemma NotLive(files: seq<File>, p: Path)
    requires !HasLive(files, p)
    ensures forall f :: f in files ==> !LiveAt(f, p)
  {
  }

  lemma OnlyOneLive(files: seq<File>, table: Table, p: Path)
    requires WellFormed(files, table) && HasLive(files, p)
    ensures forall i :: 0 <= i < |files| && i != FirstLive(files, p) ==> !LiveAt(files[i], p)
  {
    var k := FirstLive(files, p);
    forall i | 0 <= i < |files| && i != k ensures !LiveAt(files[i], p) {
      assert Apart(files[i], files[k]);
    }
  }

  lemma ReachWellFormed(v: View, table: Table, drafts: Drafts, source: Path)
    requires WellFormed(v.files, table) && Reach(v, drafts, source).Ok?
    ensures WellFormed(Reach(v, drafts, source).value.files, table)
  {
    if !HasLive(v.files, source) {
      NotLive(v.files, source);
      PushKeeps(v.files, table, AddedFile(source, drafts[source]));
    }
  }

  lemma StepWellFormed(v: View, table: Table, drafts: Drafts, op: Staged)
    requires WellFormed(v.files, table) && Step(v, drafts, op).Ok?
    ensures WellFormed(Step(v, drafts, op).value.files, table)
  {
    if !op.SetMain? {
      ReachWellFormed(v, table, drafts, op.source);
      var u := Reach(v, drafts, op.source).value;
      var k := FirstLive(u.files, op.source);
      assert u.files[k] in u.files;
      if op.Rename? {
        NotLive(u.files, op.destination);
        var g := RenameAt(u, k, op).files[k];
        forall i | 0 <= i < |u.files| && i != k ensures Apart(u.files[i], g) && Apart(g, u.files[i]) {
          assert u.files[i] in u.files && Apart(u.files[i], u.files[k]);
        }
        UpdateKeeps(u.files, table, k, g);
      } else if u.files[k].added {
        RemoveKeeps(u.files, table, k);
      } else {
        var g := DeleteAt(u, k, op).files[k];
        forall i | 0 <= i < |u.files| && i != k ensures Apart(u.files[i], g) && Apart(g, u.files[i]) {
          assert Apart(u.files[i], u.files[k]);
        }
        UpdateKeeps(u.files, table, k, g);
      }
    }
  }

  lemma {:induction false} StepsWellFormed(v: View, table: Table, drafts: Drafts, ops: seq<Staged>)
    requires WellFormed(v.files, table) && Steps(v, drafts, ops).Ok?
    ensures WellFormed(Steps(v, drafts, ops).value.files, table)
  {
    if ops != [] {
      StepsWellFormed(v, table, drafts, ops[..|ops|-1]);
      StepWellFormed(Steps(v, drafts, ops[..|ops|-1]).value, table, drafts, ops[|ops|-1]);
    }
  }

  lemma OverlayWellFormed(v: View, table: Table, p: Path, d: Draft)
    requires WellFormed(v.files, table) && Overlay(v, p, d).Ok?
    ensures WellFormed(Overlay(v, p, d).value.files, table)
    ensures Overlay(v, p, d).value.main == v.main
  {
    if p !in v.consumed {
      var k := FirstReceiver(v.files, p, d);
      if k < |v.files| {
        assert v.files[k] in v.files;
        var g := Overwrite(v.files[k], d);
        forall i | 0 <= i < |v.files| && i != k ensures Apart(v.files[i], g) && Apart(g, v.files[i]) {
          assert Apart(v.files[i], v.files[k]);
        }
        UpdateKeeps(v.files, table, k, g);
      } else {
        forall f | f in v.files ensures Apart(f, AddedFile(p, d)) {
          assert !Receives(f, p, d);
        }
        PushKeeps(v.files, table, AddedFile(p, d));
      }
    }
  }

  lemma {:induction false} OverlaysWellFormed(v: View, table: Table, drafts: Drafts, paths: seq<Path>)
    requires forall p :: p in paths ==> p in drafts
    requires WellFormed(v.files, table) && Overlays(v, drafts, paths).Ok?
    ensures WellFormed(Overlays(v, drafts, paths).value.files, table)
    ensures Overlays(v, drafts, paths).value.main == v.main
  {
    if paths != [] {
      OverlaysWellFormed(v, table, drafts, paths[..|paths|-1]);
      OverlayWellFormed(Overlays(v, drafts, paths[..|paths|-1]).value, table,
                        paths[|paths|-1], drafts[paths[|paths|-1]]);
    }
  }

  /** Every projection that succeeds is sorted, well formed, and keeps its pending Main live. */
  lemma ProjectWellFormed(table: Table, drafts: Drafts, ops: seq<Staged>)
    requires Project(table, drafts, ops).Ok?
    ensures var tree := Project(table, drafts, ops).value;
            && WellFormed(tree.files, table)
            && Ascending(tree.files, PathOf)
            && (tree.main.Some? ==> exists f :: f in tree.files && LiveAt(f, tree.main.value))
            && tree.summary == Summarize(tree.files, tree.main)
  {
    CanonicalFilesWellFormed(table);
    AddDraftsWellFormed(View(CanonicalFiles(table, Listing(table.Keys)), {}, None), table, drafts,
        Listing(drafts.Keys));
    StepsWellFormed(Opening(table, drafts), table, drafts, ops);
    var v := Steps(Opening(table, drafts), drafts, ops).value;
    OverlaysWellFormed(v, table, drafts, Listing(drafts.Keys));
    var u := Overlays(v, drafts, Listing(drafts.Keys)).value;
    SortKeeps(u.files, table);
    SortByAscends(u.files, PathOf);
    SortByKeepsCount(u.files, PathOf, IsModified);
    SortByKeepsCount(u.files, PathOf, IsAdded);
    SortByKeepsCount(u.files, PathOf, IsRenamed);
    SortByKeepsCount(u.files, PathOf, IsDeleted);
    if u.main.Some? {
      var f := u.files[FirstLive(u.files, u.main.value)];
      SortByMember(u.files, PathOf, f);
    }
  }
}
