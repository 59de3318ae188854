/**
 * The draft loop in closed form: which draft finds a file, and when a projection succeeds, without running it.
 * Drafts are merged in path order and each overwrites its file's revision, so a renamed file that also has a
 * draft at its new path may no longer carry the revision its old path's draft looks for.
 */
module DraftMerging {
  import opened Common
  import opened PathOrder
  import opened Projection
  import opened ProjectionFacts

  /** A draft the operations did not turn into a file of its own: it waits to be laid over one. */
  predicate Waiting(v: View, drafts: Drafts, p: Path)
  {
    p in drafts && p !in v.consumed
  }

  ghost predicate Buried(files: seq<File>, p: Path)
  {
    exists f :: f in files && f.pendingDelete && f.path == p
  }

  /** File `j` came from `p` and carries the revision p's draft was edited from when that draft is merged. */
  ghost predicate Answers(v: View, drafts: Drafts, j: nat, p: Path)
    requires j < |v.files|
    decreases j, 2
  {
    && !v.files[j].pendingDelete && v.files[j].origin == Some(p)
    && p in drafts && Carried(v, drafts, j) == Some(drafts[p].base)
  }

  ghost predicate AnswersBefore(v: View, drafts: Drafts, i: nat, p: Path)
    requires i <= |v.files|
    decreases i, 0
  {
    exists j :: 0 <= j < i && Answers(v, drafts, j, p)
  }

  /** The revision of file `i` when the draft at its old path is merged: a draft at its new path may come first. */
  ghost function Carried(v: View, drafts: Drafts, i: nat): Option<nat>
    requires i < |v.files|
    decreases i, 1
  {
    var f := v.files[i];
    if f.origin.Some? && Below(f.path, f.origin.value) && Waiting(v, drafts, f.path)
        && !AnswersBefore(v, drafts, i, f.path)
    then Some(drafts[f.path].base)
    else f.revision
  }

  ghost predicate Stands(v: View, drafts: Drafts, i: nat, p: Path)
    requires i < |v.files|
  {
    LiveAt(v.files[i], p) || Answers(v, drafts, i, p)
  }

  /** File `k` is the first that stands for the draft at `p`, and so takes it. */
  ghost predicate Accepts(v: View, drafts: Drafts, k: nat, p: Path)
  {
    k < |v.files| && Stands(v, drafts, k, p) && forall i :: 0 <= i < k ==> !Stands(v, drafts, i, p)
  }

  /** Some live file takes the draft at `p`. */
  ghost predicate Received(v: View, drafts: Drafts, p: Path)
  {
    exists i :: 0 <= i < |v.files| && Stands(v, drafts, i, p)
  }

  /**
   * The guard of the conflict branch: a waiting draft needs a file to take it, or a place that holds no deleted one.
   */
  ghost predicate Housed(v: View, drafts: Drafts, p: Path)
  {
    Waiting(v, drafts, p) ==> Received(v, drafts, p) || !Buried(v.files, p)
  }

  /** The draft at `p` becomes a file of its own. */
  ghost predicate Lodged(v: View, drafts: Drafts, p: Path)
  {
    Waiting(v, drafts, p) && !Received(v, drafts, p)
  }

  ghost predicate AllHoused(v: View, drafts: Drafts)
  {
    forall p :: p in drafts ==> Housed(v, drafts, p)
  }

  /** `m` is a live file, or will be one once the drafts are merged. */
  ghost predicate Appears(v: View, drafts: Drafts, m: Path)
  {
    HasLive(v.files, m) || Lodged(v, drafts, m)
  }

  // --- what the loop has done after a prefix of the drafts ---------------------------------

  predicate SamePlace(f: File, g: File)
  {
    g.path == f.path && g.origin == f.origin && g.pendingDelete == f.pendingDelete && g.added == f.added
  }

  predicate Awaits(f: File, merged: seq<Path>)
  {
    !f.pendingDelete && f.origin.Some? && f.origin.value !in merged
  }

  ghost function Expected(v: View, drafts: Drafts, i: nat, merged: seq<Path>): Option<nat>
    requires i < |v.files|
  {
    var f := v.files[i];
    if Waiting(v, drafts, f.path) && f.path in merged && !AnswersBefore(v, drafts, i, f.path)
    then Some(drafts[f.path].base)
    else f.revision
  }

  ghost predicate KeptFile(v: View, drafts: Drafts, merged: seq<Path>, i: nat, g: File)
    requires i < |v.files|
  {
    SamePlace(v.files[i], g) && (Awaits(v.files[i], merged) ==> g.revision == Expected(v, drafts, i, merged))
  }

  ghost predicate NewFile(v: View, drafts: Drafts, merged: seq<Path>, g: File)
  {
    !g.pendingDelete && g.origin.None? && g.path in merged && Lodged(v, drafts, g.path)
  }

  ghost predicate Merged(v: View, drafts: Drafts, merged: seq<Path>, w: View)
  {
    && w.consumed == v.consumed && w.main == v.main && |v.files| <= |w.files|
    && (forall i :: 0 <= i < |v.files| ==> KeptFile(v, drafts, merged, i, w.files[i]))
    && (forall i :: |v.files| <= i < |w.files| ==> NewFile(v, drafts, merged, w.files[i]))
    && (forall q :: q in merged && Lodged(v, drafts, q) ==> HasLive(w.files, q))
  }

  lemma NothingMerged(v: View, drafts: Drafts)
    ensures Merged(v, drafts, [], v)
  {
  }

  /** Exactly the drafts below the next path have been merged. */
  lemma MergedAreBelow(drafts: Drafts, n: nat, q: Path)
    requires n < |Listing(drafts.Keys)| && q in drafts
    ensures q in Listing(drafts.Keys)[..n] <==> Below(q, Listing(drafts.Keys)[n])
  {
    var paths := Listing(drafts.Keys);
    var i :| 0 <= i < |paths| && paths[i] == q;
    if i < n {
      assert paths[..n][i] == q;
    } else {
      forall j | 0 <= j < n ensures paths[j] != q {
        assert Below(paths[j], paths[i]);
      }
      NotBelowEarlier(paths, n, i);
    }
  }

  lemma NotBelowEarlier(paths: seq<Path>, n: nat, i: nat)
    requires n <= i < |paths| && forall j, k :: 0 <= j < k < |paths| ==> Below(paths[j], paths[k])
    ensures !Below(paths[i], paths[n])
  {
    if Below(paths[i], paths[n]) && n < i {
      Antisymmetric(paths[i], paths[n]);
    }
  }

  lemma CarriedIsExpected(v: View, drafts: Drafts, n: nat, i: nat)
    requires n < |Listing(drafts.Keys)| && i < |v.files| && v.files[i].origin == Some(Listing(drafts.Keys)[n])
    ensures Carried(v, drafts, i) == Expected(v, drafts, i, Listing(drafts.Keys)[..n])
  {
    if v.files[i].path in drafts {
      MergedAreBelow(drafts, n, v.files[i].path);
    }
  }

  // --- one draft -----------------------------------------------------------------------------

  /** The loop is about to merge draft `n`, whose path is `p`. */
  ghost predicate AtDraft(v: View, table: Table, drafts: Drafts, n: nat, p: Path, w: View)
  {
    && WellFormed(v.files, table) && n < |Listing(drafts.Keys)| && p == Listing(drafts.Keys)[n]
    && p in drafts && p !in Listing(drafts.Keys)[..n]
    && Merged(v, drafts, Listing(drafts.Keys)[..n], w)
  }

  lemma NextDraft(drafts: Drafts, n: nat)
    requires n < |Listing(drafts.Keys)|
    ensures Listing(drafts.Keys)[n] in drafts && Listing(drafts.Keys)[n] !in Listing(drafts.Keys)[..n]
    ensures Listing(drafts.Keys)[..n+1] == Listing(drafts.Keys)[..n] + [Listing(drafts.Keys)[n]]
  {
    var paths := Listing(drafts.Keys);
    assert paths[n] in paths;
    forall j | 0 <= j < n ensures paths[j] != paths[n] {
      assert Below(paths[j], paths[n]);
    }
  }

  /** The files that take the draft are the ones the closed form names. */
  lemma ReceiverStands(v: View, table: Table, drafts: Drafts, n: nat, p: Path, w: View, i: nat)
    requires AtDraft(v, table, drafts, n, p, w) && i < |v.files|
    ensures Receives(w.files[i], p, drafts[p]) <==> Stands(v, drafts, i, p)
  {
    assert KeptFile(v, drafts, Listing(drafts.Keys)[..n], i, w.files[i]);
    if v.files[i].origin == Some(p) {
      CarriedIsExpected(v, drafts, n, i);
    }
  }

  lemma NewFileWaits(v: View, table: Table, drafts: Drafts, n: nat, p: Path, w: View, i: nat)
    requires AtDraft(v, table, drafts, n, p, w) && |v.files| <= i < |w.files|
    ensures !Receives(w.files[i], p, drafts[p])
  {
    assert NewFile(v, drafts, Listing(drafts.Keys)[..n], w.files[i]);
  }

  lemma FirstStands(v: View, table: Table, drafts: Drafts, n: nat, p: Path, w: View)
    requires AtDraft(v, table, drafts, n, p, w)
    ensures var k := FirstReceiver(w.files, p, drafts[p]);
            if Received(v, drafts, p) then Accepts(v, drafts, k, p) else k == |w.files|
  {
    var k := FirstReceiver(w.files, p, drafts[p]);
    forall i | 0 <= i < |v.files| ensures Receives(w.files[i], p, drafts[p]) <==> Stands(v, drafts, i, p) {
      ReceiverStands(v, table, drafts, n, p, w, i);
    }
    forall i | |v.files| <= i < |w.files| ensures !Receives(w.files[i], p, drafts[p]) {
      NewFileWaits(v, table, drafts, n, p, w, i);
    }
  }

  lemma StillBuried(v: View, drafts: Drafts, merged: seq<Path>, w: View, q: Path)
    requires Merged(v, drafts, merged, w)
    ensures Buried(w.files, q) <==> Buried(v.files, q)
  {
    forall i | 0 <= i < |v.files| ensures SamePlace(v.files[i], w.files[i]) {
      assert KeptFile(v, drafts, merged, i, w.files[i]);
    }
    if f :| f in v.files && f.pendingDelete && f.path == q {
      var i :| 0 <= i < |v.files| && v.files[i] == f;
      assert w.files[i] in w.files;
    }
    if f :| f in w.files && f.pendingDelete && f.path == q {
      var i :| 0 <= i < |w.files| && w.files[i] == f;
      if i < |v.files| { assert v.files[i] in v.files; } else { assert !NewFile(v, drafts, merged, f); }
    }
  }

  lemma StillLive(v: View, drafts: Drafts, merged: seq<Path>, w: View, q: Path)
    requires Merged(v, drafts, merged, w)
    ensures HasLive(w.files, q) <==> HasLive(v.files, q) || (q in merged && Lodged(v, drafts, q))
  {
    if HasLive(v.files, q) {
      var i := FirstLive(v.files, q);
      assert KeptFile(v, drafts, merged, i, w.files[i]);
      assert LiveAt(w.files[i], q);
    }
    if HasLive(w.files, q) {
      var i := FirstLive(w.files, q);
      if i < |v.files| {
        assert KeptFile(v, drafts, merged, i, w.files[i]);
        assert LiveAt(v.files[i], q);
      } else {
        assert NewFile(v, drafts, merged, w.files[i]);
      }
    }
  }

  /** A file that does not take the draft still looks as the closed form says. */
  lemma OthersAsExpected(v: View, table: Table, drafts: Drafts, n: nat, p: Path, w: View, i: nat)
    requires AtDraft(v, table, drafts, n, p, w) && i < |v.files|
    requires Waiting(v, drafts, p) && LiveAt(v.files[i], p) ==> AnswersBefore(v, drafts, i, p)
    ensures KeptFile(v, drafts, Listing(drafts.Keys)[..n+1], i, w.files[i])
  {
    NextDraft(drafts, n);
    assert KeptFile(v, drafts, Listing(drafts.Keys)[..n], i, w.files[i]);
  }

  lemma NewFilesStay(v: View, table: Table, drafts: Drafts, n: nat, p: Path, w: View)
    requires AtDraft(v, table, drafts, n, p, w)
    ensures forall i :: |v.files| <= i < |w.files| ==> NewFile(v, drafts, Listing(drafts.Keys)[..n+1], w.files[i])
    ensures forall q :: q in Listing(drafts.Keys)[..n] && Lodged(v, drafts, q) ==> HasLive(w.files, q)
  {
    NextDraft(drafts, n);
    forall i | |v.files| <= i < |w.files| ensures NewFile(v, drafts, Listing(drafts.Keys)[..n+1], w.files[i]) {
      assert NewFile(v, drafts, Listing(drafts.Keys)[..n], w.files[i]);
    }
  }

  lemma ConsumedMerges(v: View, table: Table, drafts: Drafts, n: nat, p: Path, w: View)
    requires AtDraft(v, table, drafts, n, p, w) && p in v.consumed
    ensures Merged(v, drafts, Listing(drafts.Keys)[..n+1], w)
  {
    NextDraft(drafts, n);
    NewFilesStay(v, table, drafts, n, p, w);
    forall i | 0 <= i < |v.files| ensures KeptFile(v, drafts, Listing(drafts.Keys)[..n+1], i, w.files[i]) {
      OthersAsExpected(v, table, drafts, n, p, w, i);
    }
  }

  lemma FirstIsUnanswered(v: View, drafts: Drafts, k: nat, p: Path)
    requires Accepts(v, drafts, k, p)
    ensures !AnswersBefore(v, drafts, k, p)
  {
    forall j | 0 <= j < k ensures !Answers(v, drafts, j, p) {
      assert !Stands(v, drafts, j, p);
    }
  }

  lemma TakerAsExpected(v: View, table: Table, drafts: Drafts, n: nat, p: Path, w: View, k: nat)
    requires AtDraft(v, table, drafts, n, p, w) && Waiting(v, drafts, p)
    requires Accepts(v, drafts, k, p)
    ensures KeptFile(v, drafts, Listing(drafts.Keys)[..n+1], k, Overwrite(w.files[k], drafts[p]))
  {
    NextDraft(drafts, n);
    assert KeptFile(v, drafts, Listing(drafts.Keys)[..n], k, w.files[k]);
    assert v.files[k] in v.files && FileOk(v.files[k], table);
    assert p in Listing(drafts.Keys)[..n+1];
    FirstIsUnanswered(v, drafts, k, p);
    if Awaits(v.files[k], Listing(drafts.Keys)[..n+1]) {
      assert v.files[k].path == p && !v.files[k].added;
    }
  }

  /** Only a file renamed away from `p` can take the draft from under the file now at `p`. */
  lemma TakenFromUnder(v: View, table: Table, drafts: Drafts, p: Path, k: nat, i: nat)
    requires WellFormed(v.files, table) && Accepts(v, drafts, k, p) && i < |v.files| && i != k && LiveAt(v.files[i], p)
    ensures AnswersBefore(v, drafts, i, p)
  {
    assert Stands(v, drafts, i, p);
    assert Apart(v.files[i], v.files[k]);
    assert Answers(v, drafts, k, p);
  }

  lemma TakenMerges(v: View, table: Table, drafts: Drafts, n: nat, p: Path, w: View, k: nat)
    requires AtDraft(v, table, drafts, n, p, w) && Waiting(v, drafts, p)
    requires Accepts(v, drafts, k, p)
    ensures Merged(v, drafts, Listing(drafts.Keys)[..n+1], w.(files := w.files[k := Overwrite(w.files[k], drafts[p])]))
  {
    NextDraft(drafts, n);
    NewFilesStay(v, table, drafts, n, p, w);
    TakerAsExpected(v, table, drafts, n, p, w, k);
    var u := w.(files := w.files[k := Overwrite(w.files[k], drafts[p])]);
    forall i | 0 <= i < |v.files| ensures KeptFile(v, drafts, Listing(drafts.Keys)[..n+1], i, u.files[i]) {
      if i != k {
        if LiveAt(v.files[i], p) { TakenFromUnder(v, table, drafts, p, k, i); }
        OthersAsExpected(v, table, drafts, n, p, w, i);
      }
    }
    forall q | q in Listing(drafts.Keys)[..n+1] && Lodged(v, drafts, q) ensures HasLive(u.files, q) {
      assert q != p;
      OverwrittenStaysLive(w.files, k, drafts[p], q);
    }
  }

  lemma OverwrittenStaysLive(files: seq<File>, k: nat, d: Draft, q: Path)
    requires k < |files| && HasLive(files, q)
    ensures HasLive(files[k := Overwrite(files[k], d)], q)
  {
    assert LiveAt(files[k := Overwrite(files[k], d)][FirstLive(files, q)], q);
  }

  lemma LodgedMerges(v: View, table: Table, drafts: Drafts, n: nat, p: Path, w: View)
    requires AtDraft(v, table, drafts, n, p, w) && Lodged(v, drafts, p)
    ensures Merged(v, drafts, Listing(drafts.Keys)[..n+1], w.(files := w.files + [AddedFile(p, drafts[p])]))
  {
    NextDraft(drafts, n);
    NewFilesStay(v, table, drafts, n, p, w);
    var u := w.(files := w.files + [AddedFile(p, drafts[p])]);
    forall i | 0 <= i < |v.files| ensures KeptFile(v, drafts, Listing(drafts.Keys)[..n+1], i, u.files[i]) {
      assert !Stands(v, drafts, i, p);
      OthersAsExpected(v, table, drafts, n, p, w, i);
    }
    forall q | q in Listing(drafts.Keys)[..n+1] && Lodged(v, drafts, q) ensures HasLive(u.files, q) {
      var j := if q == p then |w.files| else FirstLive(w.files, q);
      assert LiveAt(u.files[j], q);
    }
  }

  /** One turn of the draft loop: it conflicts exactly when the draft is not housed. */
  lemma TurnExactly(v: View, table: Table, drafts: Drafts, n: nat, p: Path, w: View)
    requires AtDraft(v, table, drafts, n, p, w)
    ensures Overlay(w, p, drafts[p]).Ok? <==> Housed(v, drafts, p)
    ensures Overlay(w, p, drafts[p]).Ok?
            ==> Merged(v, drafts, Listing(drafts.Keys)[..n+1], Overlay(w, p, drafts[p]).value)
  {
    if p in v.consumed {
      ConsumedMerges(v, table, drafts, n, p, w);
    } else {
      FirstStands(v, table, drafts, n, p, w);
      StillBuried(v, drafts, Listing(drafts.Keys)[..n], w, p);
      if Received(v, drafts, p) {
        TakenMerges(v, table, drafts, n, p, w, FirstReceiver(w.files, p, drafts[p]));
      } else {
        LodgedMerges(v, table, drafts, n, p, w);
      }
    }
  }

  // --- the whole loop, and the whole projection --------------------------------------------------

  lemma {:induction false} LoopExactly(v: View, table: Table, drafts: Drafts, n: nat)
    requires WellFormed(v.files, table) && n <= |Listing(drafts.Keys)|
    ensures var r := Overlays(v, drafts, Listing(drafts.Keys)[..n]);
            && (r.Ok? <==> forall p :: p in Listing(drafts.Keys)[..n] ==> Housed(v, drafts, p))
            && (r.Ok? ==> Merged(v, drafts, Listing(drafts.Keys)[..n], r.value))
  {
    if n == 0 {
      NothingMerged(v, drafts);
    } else {
      var most, p := Listing(drafts.Keys)[..n-1], Listing(drafts.Keys)[n-1];
      LoopExactly(v, table, drafts, n - 1);
      NextDraft(drafts, n - 1);
      var r := Overlays(v, drafts, most);
      assert Overlays(v, drafts, most + [p]) == if r.Err? then r else Overlay(r.value, p, drafts[p]) by {
        assert (most + [p])[..n-1] == most;
      }
      if r.Ok? {
        TurnExactly(v, table, drafts, n - 1, p, r.value);
      }
    }
  }

  /** Merging succeeds exactly when every waiting draft is housed, and then shows exactly the expected live paths. */
  lemma MergingExactly(v: View, table: Table, drafts: Drafts, q: Path)
    requires WellFormed(v.files, table)
    ensures var r := Overlays(v, drafts, Listing(drafts.Keys));
            && (r.Ok? <==> AllHoused(v, drafts))
            && (r.Ok? ==> r.value.main == v.main && (HasLive(r.value.files, q) <==> Appears(v, drafts, q)))
  {
    var paths := Listing(drafts.Keys);
    assert paths[..|paths|] == paths;
    LoopExactly(v, table, drafts, |paths|);
    var r := Overlays(v, drafts, paths);
    if r.Ok? {
      StillLive(v, drafts, paths, r.value, q);
    }
  }
}
