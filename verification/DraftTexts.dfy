/** What the projected files contain: whose text every file shows, and when a draft's text is shown at all. */
module DraftTexts {
  import opened Common
  import opened PathOrder
  import opened Projection
  import opened ProjectionFacts
  import opened DraftMerging
  import opened SavingViews

  /** The file shows the draft. */
  predicate Carries(f: File, d: Draft)
  {
    !f.pendingDelete && f.content == d.content && f.draftRevision == Some(d.revision)
  }

  // --- before merging: rows as they are, new files as their drafts ----------------------------

  ghost predicate FromFreshDraft(f: File, drafts: Drafts, consumed: set<Path>)
  {
    exists p :: p in consumed && Fresh(drafts, p) && Carries(f, drafts[p])
  }

  /** A row's file shows the row, a new file the fresh draft it was made from. */
  ghost predicate Sourced(f: File, table: Table, drafts: Drafts, consumed: set<Path>)
  {
    if f.added then FromFreshDraft(f, drafts, consumed)
    else
      && !f.modified && f.draftRevision == None
      && f.origin.Some? && f.origin.value in table && f.content == table[f.origin.value].content
  }

  ghost predicate AllSourced(v: View, table: Table, drafts: Drafts)
  {
    forall f :: f in v.files ==> Sourced(f, table, drafts, v.consumed)
  }

  lemma MoreConsumed(f: File, table: Table, drafts: Drafts, consumed: set<Path>, more: set<Path>)
    requires Sourced(f, table, drafts, consumed) && consumed <= more
    ensures Sourced(f, table, drafts, more)
  {
    if f.added {
      var p :| p in consumed && Fresh(drafts, p) && Carries(f, drafts[p]);
      assert p in more;
    }
  }

  lemma TakenIsSourced(v: View, table: Table, drafts: Drafts, p: Path)
    requires AllSourced(v, table, drafts) && Fresh(drafts, p)
    ensures AllSourced(TakeDraft(v, p, drafts[p]), table, drafts)
  {
    var u := TakeDraft(v, p, drafts[p]);
    forall f | f in u.files ensures Sourced(f, table, drafts, u.consumed) {
      if f in v.files {
        MoreConsumed(f, table, drafts, v.consumed, u.consumed);
      } else {
        assert p in u.consumed && Carries(f, drafts[p]);
      }
    }
  }

  lemma {:induction false} AddedAreSourced(v: View, table: Table, drafts: Drafts, paths: seq<Path>)
    requires AllSourced(v, table, drafts) && forall p :: p in paths ==> p in drafts
    ensures AllSourced(AddDrafts(v, drafts, paths), table, drafts)
  {
    if paths != [] {
      var most, last := paths[..|paths|-1], paths[|paths|-1];
      AddedAreSourced(v, table, drafts, most);
      if drafts[last].base == 0 {
        TakenIsSourced(AddDrafts(v, drafts, most), table, drafts, last);
      }
    }
  }

  lemma OpeningIsSourced(table: Table, drafts: Drafts)
    ensures AllSourced(Opening(table, drafts), table, drafts)
  {
    CanonicalFilesAt(table, Listing(table.Keys));
    AddedAreSourced(Rows(table), table, drafts, Listing(drafts.Keys));
  }

  lemma StepIsSourced(v: View, table: Table, drafts: Drafts, op: Staged)
    requires AllSourced(v, table, drafts) && Step(v, drafts, op).Ok?
    ensures AllSourced(Step(v, drafts, op).value, table, drafts)
  {
    if !op.SetMain? {
      if !HasLive(v.files, op.source) { TakenIsSourced(v, table, drafts, op.source); }
      var r := Reach(v, drafts, op.source).value;
      EditIsSourced(r, table, drafts, FirstLive(r.files, op.source), op);
    }
  }

  lemma EditIsSourced(v: View, table: Table, drafts: Drafts, k: nat, op: Staged)
    requires AllSourced(v, table, drafts) && k < |v.files| && !op.SetMain?
    ensures AllSourced(if op.Rename? then RenameAt(v, k, op) else DeleteAt(v, k, op), table, drafts)
  {
    var u := if op.Rename? then RenameAt(v, k, op) else DeleteAt(v, k, op);
    assert Sourced(v.files[k], table, drafts, v.consumed);
    forall f | f in u.files ensures Sourced(f, table, drafts, u.consumed) {
      if f !in v.files { assert f == u.files[k]; KeptText(v, k, op, table, drafts); }
    }
  }

  /** Neither a rename nor a delete mark touches the text. */
  lemma KeptText(v: View, k: nat, op: Staged, table: Table, drafts: Drafts)
    requires k < |v.files| && !op.SetMain? && Sourced(v.files[k], table, drafts, v.consumed)
    requires op.Delete? ==> !v.files[k].added
    ensures Sourced((if op.Rename? then RenameAt(v, k, op) else DeleteAt(v, k, op)).files[k], table, drafts, v.consumed)
  {
    if v.files[k].added {
      var p :| p in v.consumed && Fresh(drafts, p) && Carries(v.files[k], drafts[p]);
      assert Carries(RenameAt(v, k, op).files[k], drafts[p]);
    }
  }

  lemma {:induction false} StepsAreSourced(table: Table, drafts: Drafts, ops: seq<Staged>)
    requires Steps(Opening(table, drafts), drafts, ops).Ok?
    ensures AllSourced(Steps(Opening(table, drafts), drafts, ops).value, table, drafts)
  {
    if ops == [] {
      OpeningIsSourced(table, drafts);
    } else {
      StepsAreSourced(table, drafts, ops[..|ops|-1]);
      StepIsSourced(Steps(Opening(table, drafts), drafts, ops[..|ops|-1]).value, table, drafts, ops[|ops|-1]);
    }
  }

  // --- a new file stays until an operation deletes it -----------------------------------------------

  ghost predicate ShownNew(files: seq<File>, d: Draft)
  {
    exists f :: f in files && f.added && Carries(f, d)
  }

  /** The operation deletes a new file that shows the draft. */
  predicate Discards(v: View, drafts: Drafts, op: Staged, d: Draft)
  {
    op.Delete? && Reach(v, drafts, op.source).Ok?
    && var files := Reach(v, drafts, op.source).value.files;
       var k := FirstLive(files, op.source);
       k < |files| && files[k].added && Carries(files[k], d)
  }

  ghost predicate Discarded(start: View, drafts: Drafts, ops: seq<Staged>, d: Draft)
  {
    exists n :: 0 <= n < |ops| && Steps(start, drafts, ops[..n]).Ok?
                && Discards(Steps(start, drafts, ops[..n]).value, drafts, ops[n], d)
  }

  lemma DiscardedStays(start: View, drafts: Drafts, ops: seq<Staged>, d: Draft)
    requires ops != []
    ensures Discarded(start, drafts, ops[..|ops|-1], d) ==> Discarded(start, drafts, ops, d)
    ensures Steps(start, drafts, ops[..|ops|-1]).Ok?
            && Discards(Steps(start, drafts, ops[..|ops|-1]).value, drafts, ops[|ops|-1], d)
            ==> Discarded(start, drafts, ops, d)
  {
    var most := ops[..|ops|-1];
    if Discarded(start, drafts, most, d) {
      var n :| 0 <= n < |most| && Steps(start, drafts, most[..n]).Ok?
               && Discards(Steps(start, drafts, most[..n]).value, drafts, most[n], d);
      assert ops[..n] == most[..n] && ops[n] == most[n];
    }
  }

  predicate SameNewText(f: File, g: File)
  {
    f.added && g.added && !g.pendingDelete && g.content == f.content && g.draftRevision == f.draftRevision
  }

  lemma StaysShown(files: seq<File>, k: nat, g: File, d: Draft)
    requires k < |files| && ShownNew(files, d)
    ensures SameNewText(files[k], g) ==> ShownNew(files[k := g], d)
    ensures !files[k].added || !Carries(files[k], d)
            ==> ShownNew(files[k := g], d) && ShownNew(files[..k] + files[k+1..], d)
  {
    var i :| 0 <= i < |files| && files[i].added && Carries(files[i], d);
    if i == k {
      assert files[k := g][k] == g;
    } else {
      assert files[k := g][i] == files[i];
      assert (files[..k] + files[k+1..])[if i < k then i else i - 1] == files[i];
    }
  }

  lemma StepShows(v: View, drafts: Drafts, op: Staged, d: Draft)
    requires Step(v, drafts, op).Ok? && !op.SetMain? && !Discards(v, drafts, op, d)
    requires ShownNew(Reach(v, drafts, op.source).value.files, d)
    ensures ShownNew(Step(v, drafts, op).value.files, d)
  {
    var r := Reach(v, drafts, op.source).value;
    var k := FirstLive(r.files, op.source);
    var g := if op.Rename? then RenameAt(r, k, op).files[k]
             else r.files[k].(revision := Captured(r.files[k], op.base), pendingDelete := true);
    StaysShown(r.files, k, g, d);
  }

  lemma ReachedShows(v: View, drafts: Drafts, source: Path, p: Path)
    requires Reach(v, drafts, source).Ok? && p in Reach(v, drafts, source).value.consumed
    requires p in v.consumed ==> p in drafts && ShownNew(v.files, drafts[p])
    ensures p in drafts && ShownNew(Reach(v, drafts, source).value.files, drafts[p])
  {
    var r := Reach(v, drafts, source).value;
    if p in v.consumed {
      var f :| f in v.files && f.added && Carries(f, drafts[p]);
      assert f in r.files;
    } else {
      assert r.files[|v.files|] == AddedFile(p, drafts[p]) && r.files[|v.files|] in r.files;
    }
  }

  lemma {:induction false} AddedShows(v: View, drafts: Drafts, paths: seq<Path>, p: Path)
    requires (forall q :: q in paths ==> q in drafts) && p !in v.consumed && p in AddDrafts(v, drafts, paths).consumed
    ensures p in drafts && ShownNew(AddDrafts(v, drafts, paths).files, drafts[p])
  {
    var most, last := paths[..|paths|-1], paths[|paths|-1];
    var before, after := AddDrafts(v, drafts, most), AddDrafts(v, drafts, paths);
    if p in before.consumed {
      AddedShows(v, drafts, most, p);
      var f :| f in before.files && f.added && Carries(f, drafts[p]);
      assert f in after.files;
    } else {
      assert after.files[|before.files|] == AddedFile(p, drafts[p]) && after.files[|before.files|] in after.files;
    }
  }

  lemma {:induction false} ConsumedShows(table: Table, drafts: Drafts, ops: seq<Staged>, p: Path)
    requires Steps(Opening(table, drafts), drafts, ops).Ok?
    requires p in Steps(Opening(table, drafts), drafts, ops).value.consumed
    ensures p in drafts
    ensures ShownNew(Steps(Opening(table, drafts), drafts, ops).value.files, drafts[p])
            || Discarded(Opening(table, drafts), drafts, ops, drafts[p])
  {
    var start := Opening(table, drafts);
    if ops == [] {
      AddedShows(Rows(table), drafts, Listing(drafts.Keys), p);
    } else {
      var most, op := ops[..|ops|-1], ops[|ops|-1];
      var v := Steps(start, drafts, most).value;
      if p in v.consumed { ConsumedShows(table, drafts, most, p); }
      if p in drafts { DiscardedStays(start, drafts, ops, drafts[p]); }
      if !op.SetMain? && !(p in drafts && Discarded(start, drafts, ops, drafts[p])) {
        ReachedShows(v, drafts, op.source, p);
        StepShows(v, drafts, op, drafts[p]);
      }
    }
  }

  // --- merging: the last draft that a file takes is the one it shows ----------------------------------

  /** The last of these drafts that file `i` takes. */
  ghost function LastTaken(v: View, drafts: Drafts, paths: seq<Path>, i: nat): (p: Option<Path>)
    requires i < |v.files|
    ensures p.Some? ==> p.value in paths && Waiting(v, drafts, p.value) && Accepts(v, drafts, i, p.value)
  {
    if paths == [] then None
    else
      var last := paths[|paths|-1];
      if Waiting(v, drafts, last) && Accepts(v, drafts, i, last) then Some(last)
      else LastTaken(v, drafts, paths[..|paths|-1], i)
  }

  /** The text of file `i` once these drafts are merged. */
  ghost predicate ShowsLast(v: View, drafts: Drafts, paths: seq<Path>, i: nat, g: File)
    requires i < |v.files|
  {
    match LastTaken(v, drafts, paths, i)
    case None => g == v.files[i]
    case Some(p) => Carries(g, drafts[p]) && g.added == v.files[i].added && (g.modified || g.added)
  }

  ghost predicate ShowsOwn(drafts: Drafts, g: File)
  {
    g.added && g.path in drafts && Carries(g, drafts[g.path])
  }

  ghost predicate Texts(v: View, drafts: Drafts, paths: seq<Path>, w: View)
  {
    && |v.files| <= |w.files|
    && (forall i :: 0 <= i < |v.files| ==> ShowsLast(v, drafts, paths, i, w.files[i]))
    && (forall i :: |v.files| <= i < |w.files| ==> ShowsOwn(drafts, w.files[i]))
  }

  lemma NotTaken(v: View, drafts: Drafts, most: seq<Path>, p: Path, i: nat)
    requires i < |v.files| && !(Waiting(v, drafts, p) && Accepts(v, drafts, i, p))
    ensures LastTaken(v, drafts, most + [p], i) == LastTaken(v, drafts, most, i)
  {
    assert (most + [p])[..|most|] == most;
  }

  lemma JustTaken(v: View, drafts: Drafts, most: seq<Path>, p: Path, i: nat)
    requires i < |v.files| && Waiting(v, drafts, p) && Accepts(v, drafts, i, p)
    ensures LastTaken(v, drafts, most + [p], i) == Some(p)
  {
  }

  lemma OneTaker(v: View, drafts: Drafts, k: nat, i: nat, p: Path)
    requires Accepts(v, drafts, k, p) && Accepts(v, drafts, i, p)
    ensures i == k
  {
  }

  lemma TakenTexts(v: View, table: Table, drafts: Drafts, n: nat, p: Path, w: View, k: nat)
    requires AtDraft(v, table, drafts, n, p, w) && Waiting(v, drafts, p) && Accepts(v, drafts, k, p)
    requires Texts(v, drafts, Listing(drafts.Keys)[..n], w)
    ensures Texts(v, drafts, Listing(drafts.Keys)[..n] + [p],
                  w.(files := w.files[k := Overwrite(w.files[k], drafts[p])]))
  {
    var most, u := Listing(drafts.Keys)[..n], w.(files := w.files[k := Overwrite(w.files[k], drafts[p])]);
    assert KeptFile(v, drafts, most, k, w.files[k]) && Stands(v, drafts, k, p);
    forall i | 0 <= i < |v.files| ensures ShowsLast(v, drafts, most + [p], i, u.files[i]) {
      if i == k {
        JustTaken(v, drafts, most, p, k);
      } else {
        if Accepts(v, drafts, i, p) { OneTaker(v, drafts, k, i, p); }
        NotTaken(v, drafts, most, p, i);
      }
    }
  }

  lemma UntakenTexts(v: View, drafts: Drafts, most: seq<Path>, p: Path, w: View)
    requires Texts(v, drafts, most, w) && (p in v.consumed || !Received(v, drafts, p))
    ensures forall i :: 0 <= i < |v.files| ==> ShowsLast(v, drafts, most + [p], i, w.files[i])
  {
    forall i | 0 <= i < |v.files| ensures ShowsLast(v, drafts, most + [p], i, w.files[i]) {
      NotTaken(v, drafts, most, p, i);
    }
  }

  lemma TurnTexts(v: View, table: Table, drafts: Drafts, n: nat, p: Path, w: View)
    requires AtDraft(v, table, drafts, n, p, w) && Overlay(w, p, drafts[p]).Ok?
    requires Texts(v, drafts, Listing(drafts.Keys)[..n], w)
    ensures Texts(v, drafts, Listing(drafts.Keys)[..n] + [p], Overlay(w, p, drafts[p]).value)
  {
    if p in v.consumed {
      UntakenTexts(v, drafts, Listing(drafts.Keys)[..n], p, w);
    } else {
      FirstStands(v, table, drafts, n, p, w);
      if Received(v, drafts, p) {
        TakenTexts(v, table, drafts, n, p, w, FirstReceiver(w.files, p, drafts[p]));
      } else {
        UntakenTexts(v, drafts, Listing(drafts.Keys)[..n], p, w);
      }
    }
  }

  /** The turn of the next draft in path order. */
  lemma NextTexts(v: View, table: Table, drafts: Drafts, n: nat, p: Path, w: View)
    requires WellFormed(v.files, table) && n < |Listing(drafts.Keys)| && p == Listing(drafts.Keys)[n] && p in drafts
    requires Merged(v, drafts, Listing(drafts.Keys)[..n], w) && Texts(v, drafts, Listing(drafts.Keys)[..n], w)
    requires Overlay(w, p, drafts[p]).Ok?
    ensures Texts(v, drafts, Listing(drafts.Keys)[..n+1], Overlay(w, p, drafts[p]).value)
  {
    NextDraft(drafts, n);
    TurnTexts(v, table, drafts, n, p, w);
  }

  lemma {:induction false} LoopTexts(v: View, table: Table, drafts: Drafts, n: nat)
    requires WellFormed(v.files, table) && n <= |Listing(drafts.Keys)|
    requires Overlays(v, drafts, Listing(drafts.Keys)[..n]).Ok?
    ensures Texts(v, drafts, Listing(drafts.Keys)[..n], Overlays(v, drafts, Listing(drafts.Keys)[..n]).value)
  {
    if n > 0 {
      var paths := Listing(drafts.Keys);
      OverlaysPush(v, drafts, paths, n - 1);
      LoopTexts(v, table, drafts, n - 1);
      LoopExactly(v, table, drafts, n - 1);
      NextTexts(v, table, drafts, n - 1, paths[n-1], Overlays(v, drafts, paths[..n-1]).value);
    }
  }
}
