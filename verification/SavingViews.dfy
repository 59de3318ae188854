/** Views that differ in nothing but what the drafts contain, and drafts the opening view does not depend on. */
module SavingViews {
  import opened Common
  import opened PathOrder
  import opened Projection
  import opened ProjectionFacts
  import opened DraftMerging
  import opened StagingExact

  // --- views that differ only in what the drafts contain -----------------------------------

  predicate Alike(f: File, g: File)
  {
    g == f.(content := g.content, draftRevision := g.draftRevision)
  }

  ghost predicate SameShape(v: View, w: View)
  {
    && w.consumed == v.consumed && w.main == v.main && |w.files| == |v.files|
    && forall i :: 0 <= i < |v.files| ==> Alike(v.files[i], w.files[i])
  }

  /** A draft of a file that never existed. */
  predicate Fresh(drafts: Drafts, p: Path)
  {
    p in drafts && drafts[p].base == 0
  }

  ghost predicate SameFresh(drafts: Drafts, others: Drafts)
  {
    forall p :: Fresh(drafts, p) <==> Fresh(others, p)
  }

  lemma SameFirst(v: View, w: View, p: Path)
    requires SameShape(v, w)
    ensures FirstLive(v.files, p) == FirstLive(w.files, p)
  {
    forall i | 0 <= i < |v.files| ensures LiveAt(v.files[i], p) <==> LiveAt(w.files[i], p) {
      assert Alike(v.files[i], w.files[i]);
    }
  }

  ghost predicate SameResult(r: Result<View, Error>, s: Result<View, Error>)
  {
    (r.Ok? <==> s.Ok?) && (r.Ok? ==> SameShape(r.value, s.value))
  }

  lemma SameReach(v: View, w: View, drafts: Drafts, others: Drafts, source: Path)
    requires SameShape(v, w) && SameFresh(drafts, others)
    ensures SameResult(Reach(v, drafts, source), Reach(w, others, source))
  {
    SameFirst(v, w, source);
    assert Fresh(drafts, source) <==> Fresh(others, source);
  }

  lemma SameRenameAt(v: View, w: View, k: nat, op: Staged)
    requires SameShape(v, w) && op.Rename? && k < |v.files|
    ensures SameShape(RenameAt(v, k, op), RenameAt(w, k, op))
  {
    assert Alike(v.files[k], w.files[k]);
  }

  lemma SameDeleteAt(v: View, w: View, k: nat, op: Staged)
    requires SameShape(v, w) && op.Delete? && k < |v.files|
    ensures SameShape(DeleteAt(v, k, op), DeleteAt(w, k, op))
  {
    assert Alike(v.files[k], w.files[k]);
    var f, g := DeleteAt(v, k, op).files, DeleteAt(w, k, op).files;
    forall i | 0 <= i < |f| ensures Alike(f[i], g[i]) {
      var j := if v.files[k].added && i >= k then i + 1 else i;
      assert Alike(v.files[j], w.files[j]);
    }
  }

  lemma SameStep(v: View, w: View, drafts: Drafts, others: Drafts, op: Staged)
    requires SameShape(v, w) && SameFresh(drafts, others)
    ensures SameResult(Step(v, drafts, op), Step(w, others, op))
  {
    if !op.SetMain? {
      SameReach(v, w, drafts, others, op.source);
      if Reach(v, drafts, op.source).Ok? {
        var r, s := Reach(v, drafts, op.source).value, Reach(w, others, op.source).value;
        SameFirst(r, s, op.source);
        var k := FirstLive(r.files, op.source);
        if op.Rename? {
          SameFirst(r, s, op.destination);
          if k < |r.files| { SameRenameAt(r, s, k, op); }
        } else if k < |r.files| {
          SameDeleteAt(r, s, k, op);
        }
      }
    }
  }

  lemma {:induction false} SameSteps(v: View, w: View, drafts: Drafts, others: Drafts, ops: seq<Staged>)
    requires SameShape(v, w) && SameFresh(drafts, others)
    ensures SameResult(Steps(v, drafts, ops), Steps(w, others, ops))
  {
    if ops != [] {
      var most := ops[..|ops|-1];
      SameSteps(v, w, drafts, others, most);
      if Steps(v, drafts, most).Ok? {
        SameStep(Steps(v, drafts, most).value, Steps(w, others, most).value, drafts, others, ops[|ops|-1]);
      }
    }
  }

  // --- the opening view --------------------------------------------------------------------------

  function Without(paths: seq<Path>, q: Path): seq<Path>
  {
    if paths == [] then []
    else Without(paths[..|paths|-1], q) + if paths[|paths|-1] == q then [] else [paths[|paths|-1]]
  }

  ghost predicate Strict(paths: seq<Path>)
  {
    forall i, j :: 0 <= i < j < |paths| ==> Below(paths[i], paths[j])
  }

  lemma {:induction false} WithoutMembers(paths: seq<Path>, q: Path)
    requires Strict(paths)
    ensures forall p :: p in Without(paths, q) <==> p in paths && p != q
    ensures Strict(Without(paths, q))
  {
    if paths != [] {
      var most, last := paths[..|paths|-1], paths[|paths|-1];
      assert paths == most + [last];
      WithoutMembers(most, q);
      forall p | p in Without(most, q) ensures Below(p, last) {
        var i :| 0 <= i < |most| && most[i] == p;
        assert paths[i] == p;
      }
    }
  }

  lemma {:induction false} StrictUnique(a: seq<Path>, b: seq<Path>)
    requires Strict(a) && Strict(b) && forall p :: p in a <==> p in b
    ensures a == b
  {
    if a != [] {
      assert a[|a|-1] in b;
      var x, y := a[|a|-1], b[|b|-1];
      LastIsLast(a, b);
      var most, rest := a[..|a|-1], b[..|b|-1];
      assert a == most + [x] && b == rest + [y];
      forall p ensures p in most <==> p in rest {
        assert p in most ==> p in a && p != x;
        assert p in rest ==> p in b && p != x;
      }
      StrictUnique(most, rest);
    } else if b != [] {
      HasMember(b);
    }
  }

  lemma HasMember(b: seq<Path>)
    requires b != []
    ensures exists p :: p in b
  {
    assert b[0] in b;
  }

  lemma LastIsLast(a: seq<Path>, b: seq<Path>)
    requires Strict(a) && Strict(b) && a != [] && b != [] && forall p :: p in a <==> p in b
    ensures a[|a|-1] == b[|b|-1]
  {
    var x, y := a[|a|-1], b[|b|-1];
    assert x in b && y in a;
    var i :| 0 <= i < |b| && b[i] == x;
    var j :| 0 <= j < |a| && a[j] == y;
    if x != y {
      assert Below(b[i], b[|b|-1]) && Below(a[j], a[|a|-1]);
      Antisymmetric(x, y);
    }
  }

  function AddOne(v: View, p: Path, d: Draft): View
  {
    if d.base == 0 && (forall f | f in v.files :: f.path != p) then TakeDraft(v, p, d) else v
  }

  lemma OneMoreDraft(v: View, drafts: Drafts, most: seq<Path>, last: Path)
    requires last in drafts && forall p :: p in most ==> p in drafts
    ensures AddDrafts(v, drafts, most + [last]) == AddOne(AddDrafts(v, drafts, most), last, drafts[last])
  {
    assert (most + [last])[..|most|] == most;
  }

  lemma SameAddedOne(v: View, w: View, drafts: Drafts, others: Drafts, p: Path)
    requires SameShape(v, w) && SameFresh(drafts, others) && p in drafts && p in others
    ensures SameShape(AddOne(v, p, drafts[p]), AddOne(w, p, others[p]))
  {
    assert Fresh(drafts, p) <==> Fresh(others, p);
    SameOccupied(v, w, p);
  }

  lemma SameOccupied(v: View, w: View, p: Path)
    requires SameShape(v, w)
    ensures (forall f :: f in v.files ==> f.path != p) <==> (forall f :: f in w.files ==> f.path != p)
  {
    forall i | 0 <= i < |v.files| ensures v.files[i].path == w.files[i].path && v.files[i] in v.files
        && w.files[i] in w.files {
      assert Alike(v.files[i], w.files[i]);
    }
  }

  lemma {:induction false} AddDraftsKeeps(v: View, drafts: Drafts, paths: seq<Path>)
    requires forall p :: p in paths ==> p in drafts
    ensures forall f :: f in v.files ==> f in AddDrafts(v, drafts, paths).files
    ensures forall p :: p in AddDrafts(v, drafts, paths).consumed ==> p in v.consumed || p in paths
  {
    if paths != [] {
      AddDraftsKeeps(v, drafts, paths[..|paths|-1]);
    }
  }

  /** The draft at `q` makes no file of its own: it was edited from a revision, or a row has its path. */
  ghost predicate Skipped(v: View, drafts: Drafts, q: Path)
  {
    Fresh(drafts, q) ==> exists f :: f in v.files && f.path == q
  }

  lemma {:induction false} SkippedDraft(v: View, drafts: Drafts, paths: seq<Path>, q: Path)
    requires Strict(paths) && (forall p :: p in paths ==> p in drafts) && Skipped(v, drafts, q)
    ensures forall p :: p in Without(paths, q) ==> p in drafts - {q}
    ensures AddDrafts(v, drafts, paths) == AddDrafts(v, drafts - {q}, Without(paths, q))
  {
    WithoutMembers(paths, q);
    if paths != [] {
      var most, last := paths[..|paths|-1], paths[|paths|-1];
      assert paths == most + [last];
      SkippedDraft(v, drafts, most, q);
      OneMoreDraft(v, drafts, most, last);
      if last == q {
        AddDraftsKeeps(v, drafts, most);
        assert Without(paths, q) == Without(most, q);
      } else {
        assert Without(paths, q) == Without(most, q) + [last];
        OneMoreDraft(v, drafts - {q}, Without(most, q), last);
      }
    }
  }

  lemma ListingWithout(drafts: Drafts, q: Path)
    ensures Without(Listing(drafts.Keys), q) == Listing((drafts - {q}).Keys)
  {
    WithoutMembers(Listing(drafts.Keys), q);
    StrictUnique(Without(Listing(drafts.Keys), q), Listing((drafts - {q}).Keys));
  }

  function Rows(table: Table): View
  {
    View(CanonicalFiles(table, Listing(table.Keys)), {}, None)
  }

  /** A draft that is not fresh, or sits at a row's path, does not change the opening view and is not consumed there. */
  lemma OpeningIgnores(table: Table, drafts: Drafts, q: Path)
    requires !Fresh(drafts, q) || q in table
    ensures Opening(table, drafts) == Opening(table, drafts - {q}) && q !in Opening(table, drafts).consumed
  {
    if q in table { RowAt(table, q); }
    SkippedDraft(Rows(table), drafts, Listing(drafts.Keys), q);
    ListingWithout(drafts, q);
    AddDraftsKeeps(Rows(table), drafts - {q}, Listing((drafts - {q}).Keys));
  }

  lemma RowAt(table: Table, q: Path)
    requires q in table
    ensures exists f :: f in Rows(table).files && f.path == q
  {
    var paths := Listing(table.Keys);
    CanonicalFilesAt(table, paths);
    var i :| 0 <= i < |paths| && paths[i] == q;
    assert Rows(table).files[i] in Rows(table).files;
  }

  /** Saving a draft whose freshness does not change leaves the opening view as it was, contents aside. */
  lemma SameOpening(table: Table, drafts: Drafts, q: Path, d: Draft)
    requires Fresh(drafts, q) <==> d.base == 0
    ensures SameFresh(drafts, drafts[q := d])
    ensures SameShape(Opening(table, drafts), Opening(table, drafts[q := d]))
  {
    var others := drafts[q := d];
    if d.base == 0 {
      assert others.Keys == drafts.Keys;
      SameAddedAll(Rows(table), drafts, others, Listing(drafts.Keys));
    } else {
      OpeningIgnores(table, drafts, q);
      OpeningIgnores(table, others, q);
      assert others - {q} == drafts - {q};
    }
  }

  lemma {:induction false} SameAddedAll(v: View, drafts: Drafts, others: Drafts, paths: seq<Path>)
    requires SameFresh(drafts, others) && forall p :: p in paths ==> p in drafts && p in others
    ensures SameShape(AddDrafts(v, drafts, paths), AddDrafts(v, others, paths))
  {
    if paths != [] {
      var most, last := paths[..|paths|-1], paths[|paths|-1];
      assert paths == most + [last];
      SameAddedAll(v, drafts, others, most);
      SameAddedOne(AddDrafts(v, drafts, most), AddDrafts(v, others, most), drafts, others, last);
      OneMoreDraft(v, drafts, most, last);
      OneMoreDraft(v, others, most, last);
    }
  }

  // --- merging sees only the shape ------------------------------------------------------------------

  lemma {:induction false} SameCarried(v: View, w: View, drafts: Drafts, i: nat)
    requires SameShape(v, w) && i < |v.files|
    ensures Carried(v, drafts, i) == Carried(w, drafts, i)
    ensures forall p :: Answers(v, drafts, i, p) <==> Answers(w, drafts, i, p)
    decreases i
  {
    assert Alike(v.files[i], w.files[i]);
    forall j, p | 0 <= j < i ensures Answers(v, drafts, j, p) <==> Answers(w, drafts, j, p) {
      SameCarried(v, w, drafts, j);
    }
    assert AnswersBefore(v, drafts, i, v.files[i].path) <==> AnswersBefore(w, drafts, i, v.files[i].path);
  }

  lemma SameStands(v: View, w: View, drafts: Drafts, p: Path)
    requires SameShape(v, w)
    ensures Received(v, drafts, p) <==> Received(w, drafts, p)
    ensures Buried(v.files, p) <==> Buried(w.files, p)
    ensures HasLive(v.files, p) <==> HasLive(w.files, p)
  {
    SameFirst(v, w, p);
    forall i | 0 <= i < |v.files|
      ensures Stands(v, drafts, i, p) <==> Stands(w, drafts, i, p)
      ensures v.files[i].pendingDelete == w.files[i].pendingDelete && v.files[i].path == w.files[i].path
      ensures v.files[i] in v.files && w.files[i] in w.files
    {
      assert Alike(v.files[i], w.files[i]);
      SameCarried(v, w, drafts, i);
    }
  }

  lemma SameCoherence(v: View, w: View, drafts: Drafts)
    requires SameShape(v, w)
    ensures Coheres(v, drafts) <==> Coheres(w, drafts)
  {
    forall p ensures Housed(v, drafts, p) <==> Housed(w, drafts, p) {
      SameStands(v, w, drafts, p);
    }
    if v.main.Some? {
      SameStands(v, w, drafts, v.main.value);
    }
  }
}
