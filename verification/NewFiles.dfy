/** Two views alike but for one file: the one a draft of a file that never existed makes. */
module NewFiles {
  import opened Common
  import opened PathOrder
  import opened Projection
  import opened ProjectionFacts
  import opened DraftMerging
  import opened StagingExact
  import opened SavingViews

  /** The draft at `q` is fresh among `big` and not among `small`; elsewhere they are the same. */
  predicate FreshOnlyIn(small: Drafts, big: Drafts, q: Path)
  {
    !Fresh(small, q) && Fresh(big, q) && small - {q} == big - {q}
  }

  /** `w` is `v` with the new file of the draft at `q`, at position `k`. */
  ghost predicate OneMore(v: View, w: View, q: Path, d: Draft, k: nat)
  {
    && k < |w.files| && w.files[k] == AddedFile(q, d) && v.files == w.files[..k] + w.files[k+1..]
    && q !in v.consumed && w.consumed == v.consumed + {q} && w.main == v.main && !HasLive(v.files, q)
  }

  ghost predicate Extra(v: View, w: View, q: Path, d: Draft)
  {
    exists k: nat :: OneMore(v, w, q, d, k)
  }

  lemma Elsewhere(small: Drafts, big: Drafts, q: Path)
    requires FreshOnlyIn(small, big, q)
    ensures forall p :: p != q ==> (p in small <==> p in big) && (p in small ==> small[p] == big[p])
  {
    forall p | p != q ensures (p in small <==> p in big) && (p in small ==> small[p] == big[p]) {
      assert p in small <==> p in small - {q};
      assert p in big <==> p in big - {q};
      if p in small {
        assert (small - {q})[p] == (big - {q})[p];
      }
    }
  }

  /** Where position `i` went. */
  function Past(k: nat, i: nat): nat
  {
    if i < k then i else i + 1
  }

  lemma FirstMoves(v: View, w: View, q: Path, d: Draft, k: nat, p: Path)
    requires OneMore(v, w, q, d, k) && p != q
    ensures FirstLive(w.files, p) == Past(k, FirstLive(v.files, p)) && (HasLive(w.files, p) <==> HasLive(v.files, p))
  {
    var n := Past(k, FirstLive(v.files, p));
    forall i | 0 <= i < n ensures !LiveAt(w.files[i], p) {
      assert i != k ==> w.files[i] == v.files[if i < k then i else i - 1];
    }
    FirstIs(w.files, p, n);
  }

  lemma FirstIs(files: seq<File>, p: Path, n: nat)
    requires n <= |files| && (forall i :: 0 <= i < n ==> !LiveAt(files[i], p)) && (n < |files| ==> LiveAt(files[n], p))
    ensures FirstLive(files, p) == n
  {
  }

  // --- one operation ------------------------------------------------------------------------

  predicate MovesTo(op: Staged, q: Path)
  {
    op.Rename? && op.destination == q
  }

  /** A rename or a delete of the file at `q`. */
  predicate TakesFrom(op: Staged, q: Path)
  {
    !op.SetMain? && op.source == q
  }

  lemma AlignedReach(v: View, w: View, small: Drafts, big: Drafts, q: Path, k: nat, source: Path)
    requires FreshOnlyIn(small, big, q) && OneMore(v, w, q, big[q], k) && source != q
    ensures var r, s := Reach(v, small, source), Reach(w, big, source);
            (r.Ok? <==> s.Ok?) && (r.Ok? ==> OneMore(r.value, s.value, q, big[q], k))
  {
    Elsewhere(small, big, q);
    FirstMoves(v, w, q, big[q], k, source);
    if Reach(v, small, source).Ok? && !HasLive(v.files, source) {
      PushedElsewhere(v.files, AddedFile(source, small[source]), q);
    }
  }

  lemma PushedElsewhere(files: seq<File>, g: File, q: Path)
    requires !HasLive(files, q) && g.path != q
    ensures !HasLive(files + [g], q)
  {
    forall i | 0 <= i < |files| + 1 ensures !LiveAt((files + [g])[i], q) {
    }
  }

  lemma AlignedRename(v: View, w: View, q: Path, d: Draft, k: nat, i: nat, op: Staged)
    requires OneMore(v, w, q, d, k) && i < |v.files| && op.Rename? && op.source != q && op.destination != q
    ensures OneMore(RenameAt(v, i, op), RenameAt(w, Past(k, i), op), q, d, k)
  {
    var r, s := RenameAt(v, i, op), RenameAt(w, Past(k, i), op);
    assert v.files[i] == w.files[Past(k, i)];
    assert r.files == s.files[..k] + s.files[k+1..];
    forall n | 0 <= n < |r.files| ensures !LiveAt(r.files[n], q) {
      assert n != i ==> r.files[n] == v.files[n];
    }
  }

  lemma AlignedMark(v: View, w: View, q: Path, d: Draft, k: nat, i: nat, op: Staged)
    requires OneMore(v, w, q, d, k) && i < |v.files| && op.Delete? && !v.files[i].added
    ensures OneMore(DeleteAt(v, i, op), DeleteAt(w, Past(k, i), op), q, d, k)
  {
    var r, s := DeleteAt(v, i, op), DeleteAt(w, Past(k, i), op);
    assert v.files[i] == w.files[Past(k, i)];
    assert r.files == s.files[..k] + s.files[k+1..];
    forall n | 0 <= n < |r.files| ensures !LiveAt(r.files[n], q) {
      assert n != i ==> r.files[n] == v.files[n];
    }
  }

  lemma DroppedBoth(a: seq<File>, b: seq<File>, k: nat, i: nat)
    requires k < |b| && a == b[..k] + b[k+1..] && i < |a|
    ensures var c, j, m := a[..i] + a[i+1..], Past(k, i), if i < k then k - 1 else k;
            var d := b[..j] + b[j+1..];
            d[m] == b[k] && c == d[..m] + d[m+1..]
  {
    var c, j, m := a[..i] + a[i+1..], Past(k, i), if i < k then k - 1 else k;
    var d := b[..j] + b[j+1..];
    if i < k {
      assert d[..m] == b[..i] + b[i+1..k] && d[m+1..] == b[k+1..];
      assert a[..i] == b[..i] && a[i+1..] == b[i+1..k] + b[k+1..];
    } else {
      assert d[..m] == b[..k] && d[m+1..] == b[k+1..j] + b[j+1..];
      assert a[..i] == b[..k] + b[k+1..j] && a[i+1..] == b[j+1..];
    }
  }

  lemma AlignedRemoval(v: View, w: View, q: Path, d: Draft, k: nat, i: nat, op: Staged)
    requires OneMore(v, w, q, d, k) && i < |v.files| && op.Delete? && v.files[i].added
    ensures OneMore(DeleteAt(v, i, op), DeleteAt(w, Past(k, i), op), q, d, if i < k then k - 1 else k)
  {
    var r, s := DeleteAt(v, i, op), DeleteAt(w, Past(k, i), op);
    assert v.files[i] == w.files[Past(k, i)];
    var m := if i < k then k - 1 else k;
    DroppedBoth(v.files, w.files, k, i);
    forall n | 0 <= n < |r.files| ensures !LiveAt(r.files[n], q) {
      assert r.files[n] == v.files[if n < i then n else n + 1];
    }
  }

  /** An operation that does not name `q` does the same to both views. */
  lemma AlignedStep(v: View, w: View, small: Drafts, big: Drafts, q: Path, op: Staged)
    requires FreshOnlyIn(small, big, q) && Extra(v, w, q, big[q]) && !MovesTo(op, q) && !TakesFrom(op, q)
    ensures Step(v, small, op).Ok? <==> Step(w, big, op).Ok?
    ensures Step(v, small, op).Ok? ==> Extra(Step(v, small, op).value, Step(w, big, op).value, q, big[q])
  {
    var k: nat :| OneMore(v, w, q, big[q], k);
    if op.SetMain? {
      assert OneMore(Step(v, small, op).value, Step(w, big, op).value, q, big[q], k);
    } else {
      AlignedReach(v, w, small, big, q, k, op.source);
      if Reach(v, small, op.source).Ok? {
        AlignedEdit(Reach(v, small, op.source).value, Reach(w, big, op.source).value, q, big[q], k, op);
      }
    }
  }

  lemma AlignedEdit(v: View, w: View, q: Path, d: Draft, k: nat, op: Staged)
    requires OneMore(v, w, q, d, k) && !op.SetMain? && op.source != q && !MovesTo(op, q)
    ensures HasLive(v.files, op.source) <==> HasLive(w.files, op.source)
    ensures op.Rename? ==> (HasLive(v.files, op.destination) <==> HasLive(w.files, op.destination))
    ensures HasLive(v.files, op.source) ==>
              var i, j := FirstLive(v.files, op.source), FirstLive(w.files, op.source);
              if op.Rename? then Extra(RenameAt(v, i, op), RenameAt(w, j, op), q, d)
              else Extra(DeleteAt(v, i, op), DeleteAt(w, j, op), q, d)
  {
    FirstMoves(v, w, q, d, k, op.source);
    var i := FirstLive(v.files, op.source);
    if op.Rename? {
      FirstMoves(v, w, q, d, k, op.destination);
      if i < |v.files| { AlignedRename(v, w, q, d, k, i, op); }
    } else if i < |v.files| {
      if v.files[i].added {
        AlignedRemoval(v, w, q, d, k, i, op);
      } else {
        AlignedMark(v, w, q, d, k, i, op);
      }
    }
  }

  /** An operation on the file at `q` needs that file. */
  lemma SmallLacksSource(v: View, small: Drafts, q: Path, op: Staged)
    requires !HasLive(v.files, q) && !Fresh(small, q) && TakesFrom(op, q)
    ensures Step(v, small, op).Err?
  {
  }

  /** A rename to `q` collides with that file. */
  lemma BigIsTaken(v: View, w: View, big: Drafts, q: Path, d: Draft, op: Staged)
    requires Extra(v, w, q, d) && MovesTo(op, q)
    ensures Step(w, big, op).Err?
  {
    var k: nat :| OneMore(v, w, q, d, k);
    assert LiveAt(w.files[k], q);
    LiveIff(w.files, q);
    if Reach(w, big, op.source).Ok? && !HasLive(w.files, op.source) {
      var g := AddedFile(op.source, big[op.source]);
      assert (w.files + [g])[k] == w.files[k];
    }
  }

  // --- all operations ---------------------------------------------------------------------------

  ghost predicate NoneMovesTo(ops: seq<Staged>, q: Path)
  {
    forall op :: op in ops ==> !MovesTo(op, q)
  }

  ghost predicate NoneTakesFrom(ops: seq<Staged>, q: Path)
  {
    forall op :: op in ops ==> !TakesFrom(op, q)
  }

  ghost predicate BothOk(r: Result<View, Error>, s: Result<View, Error>, q: Path, d: Draft)
  {
    r.Ok? && s.Ok? && Extra(r.value, s.value, q, d)
  }

  lemma LastOperation(v: View, drafts: Drafts, ops: seq<Staged>)
    requires ops != []
    ensures Steps(v, drafts, ops) ==
            match Steps(v, drafts, ops[..|ops|-1]) {
              case Err(e) => Err(e)
              case Ok(u) => Step(u, drafts, ops[|ops|-1])
            }
    ensures ops == ops[..|ops|-1] + [ops[|ops|-1]]
  {
  }

  /** Once the steps succeed without the file, they succeed with it exactly when none moves a file to its path. */
  lemma {:induction false} AddingFile(v: View, w: View, small: Drafts, big: Drafts, q: Path, ops: seq<Staged>)
    requires FreshOnlyIn(small, big, q) && Extra(v, w, q, big[q]) && Steps(v, small, ops).Ok?
    ensures Steps(w, big, ops).Ok? <==> NoneMovesTo(ops, q)
    ensures NoneMovesTo(ops, q) ==> BothOk(Steps(v, small, ops), Steps(w, big, ops), q, big[q])
  {
    if ops != [] {
      var most, last := ops[..|ops|-1], ops[|ops|-1];
      LastOperation(v, small, ops);
      LastOperation(w, big, ops);
      AddingFile(v, w, small, big, q, most);
      if NoneMovesTo(most, q) {
        var r, s := Steps(v, small, most).value, Steps(w, big, most).value;
        if TakesFrom(last, q) {
          SmallLacksSource(r, small, q, last);
        } else if MovesTo(last, q) {
          BigIsTaken(r, s, big, q, big[q], last);
        } else {
          AlignedStep(r, s, small, big, q, last);
        }
      }
    }
  }

  /** Once the steps succeed with the file, they succeed without it exactly when none takes it. */
  lemma {:induction false} RemovingFile(v: View, w: View, small: Drafts, big: Drafts, q: Path, ops: seq<Staged>)
    requires FreshOnlyIn(small, big, q) && Extra(v, w, q, big[q]) && Steps(w, big, ops).Ok?
    ensures Steps(v, small, ops).Ok? <==> NoneTakesFrom(ops, q)
    ensures NoneTakesFrom(ops, q) ==> BothOk(Steps(v, small, ops), Steps(w, big, ops), q, big[q])
  {
    if ops != [] {
      var most, last := ops[..|ops|-1], ops[|ops|-1];
      LastOperation(v, small, ops);
      LastOperation(w, big, ops);
      RemovingFile(v, w, small, big, q, most);
      if NoneTakesFrom(most, q) {
        var r, s := Steps(v, small, most).value, Steps(w, big, most).value;
        if TakesFrom(last, q) {
          SmallLacksSource(r, small, q, last);
        } else if MovesTo(last, q) {
          BigIsTaken(r, s, big, q, big[q], last);
        } else {
          AlignedStep(r, s, small, big, q, last);
        }
      }
    }
  }

  // --- the opening views ----------------------------------------------------------------------------

  /** No file has the path, live or deleted. */
  predicate Unoccupied(files: seq<File>, q: Path)
  {
    forall f | f in files :: f.path != q
  }

  /** The two opening views while drafts are read: alike until the one at `q`, if `passed`, is. */
  ghost predicate Opened(r: View, s: View, q: Path, d: Draft, passed: bool)
  {
    && Unoccupied(r.files, q) && q !in r.consumed
    && if passed then Extra(r, s, q, d) else s == r
  }

  lemma {:induction false} AddedDraft(v: View, small: Drafts, big: Drafts, paths: seq<Path>, q: Path)
    requires FreshOnlyIn(small, big, q) && q !in small && Strict(paths) && forall p :: p in paths ==> p in big
    requires Unoccupied(v.files, q) && q !in v.consumed
    ensures forall p :: p in Without(paths, q) ==> p in small
    ensures Opened(AddDrafts(v, small, Without(paths, q)), AddDrafts(v, big, paths), q, big[q], q in paths)
  {
    WithoutMembers(paths, q);
    Elsewhere(small, big, q);
    if paths != [] {
      var most, last := paths[..|paths|-1], paths[|paths|-1];
      assert paths == most + [last];
      AddedDraft(v, small, big, most, q);
      OneMoreDraft(v, big, most, last);
      var r, s := AddDrafts(v, small, Without(most, q)), AddDrafts(v, big, most);
      if last == q {
        assert Without(paths, q) == Without(most, q);
        LastIsNew(most, last);
        TakenHere(r, q, big[q]);
      } else {
        assert Without(paths, q) == Without(most, q) + [last];
        OneMoreDraft(v, small, Without(most, q), last);
        AddedBeside(r, s, q, big[q], q in most, last, big[last]);
      }
    }
  }

  lemma LastIsNew(most: seq<Path>, last: Path)
    requires Strict(most + [last])
    ensures last !in most
  {
    forall i | 0 <= i < |most| ensures most[i] != last {
      assert Below((most + [last])[i], (most + [last])[|most|]);
    }
  }

  lemma TakenHere(r: View, q: Path, d: Draft)
    requires Opened(r, r, q, d, false) && d.base == 0
    ensures Opened(r, AddOne(r, q, d), q, d, true)
  {
    assert OneMore(r, TakeDraft(r, q, d), q, d, |r.files|);
  }

  lemma SameOccupiedBeside(r: View, s: View, q: Path, d: Draft, k: nat, p: Path)
    requires OneMore(r, s, q, d, k) && p != q
    ensures Unoccupied(r.files, p) <==> Unoccupied(s.files, p)
  {
    forall i | 0 <= i < |r.files| ensures r.files[i] in s.files {
      assert r.files[i] == s.files[Past(k, i)];
    }
    forall n | 0 <= n < |s.files| && n != k ensures s.files[n] in r.files {
      assert r.files[if n < k then n else n - 1] == s.files[n];
    }
  }

  lemma AddedBeside(r: View, s: View, q: Path, d: Draft, passed: bool, p: Path, e: Draft)
    requires Opened(r, s, q, d, passed) && p != q
    ensures Opened(AddOne(r, p, e), AddOne(s, p, e), q, d, passed)
  {
    if passed {
      var k: nat :| OneMore(r, s, q, d, k);
      SameOccupiedBeside(r, s, q, d, k, p);
      PushedElsewhere(r.files, AddedFile(p, e), q);
      assert OneMore(AddOne(r, p, e), AddOne(s, p, e), q, d, k);
    }
  }

  lemma RowsAreElsewhere(table: Table, q: Path)
    requires q !in table
    ensures Unoccupied(Rows(table).files, q)
  {
    CanonicalFilesAt(table, Listing(table.Keys));
  }

  lemma LeastDrafts(small: Drafts, big: Drafts, q: Path)
    requires FreshOnlyIn(small, big, q)
    ensures FreshOnlyIn(small - {q}, big, q) && q in Listing(big.Keys)
  {
    assert big - {q} == (small - {q}) - {q};
  }

  /** A fresh draft at a path without a row opens with one more file. */
  lemma OpeningAdds(table: Table, small: Drafts, big: Drafts, q: Path)
    requires FreshOnlyIn(small, big, q) && q !in table
    ensures Extra(Opening(table, small), Opening(table, big), q, big[q])
  {
    var least := small - {q};
    OpeningIgnores(table, small, q);
    RowsAreElsewhere(table, q);
    LeastDrafts(small, big, q);
    ListingWithout(big, q);
    AddedDraft(Rows(table), least, big, Listing(big.Keys), q);
  }

  // --- merging ------------------------------------------------------------------------------------------

  /** No file has the path or came from it. */
  predicate Unrelated(v: View, q: Path)
  {
    forall f | f in v.files :: f.path != q && f.origin != Some(q)
  }

  ghost predicate Beside(v: View, w: View, small: Drafts, big: Drafts, q: Path, k: nat)
  {
    FreshOnlyIn(small, big, q) && OneMore(v, w, q, big[q], k) && Unrelated(v, q)
  }

  lemma {:induction false} SameAnswers(v: View, w: View, small: Drafts, big: Drafts, q: Path, k: nat, i: nat)
    requires Beside(v, w, small, big, q, k) && i < |v.files|
    ensures Carried(v, small, i) == Carried(w, big, Past(k, i))
    ensures forall p :: Answers(v, small, i, p) <==> Answers(w, big, Past(k, i), p)
    decreases i
  {
    Elsewhere(small, big, q);
    assert v.files[i] == w.files[Past(k, i)] && v.files[i] in v.files;
    forall j | 0 <= j < i ensures forall p :: Answers(v, small, j, p) <==> Answers(w, big, Past(k, j), p) {
      SameAnswers(v, w, small, big, q, k, j);
    }
    AnsweredBefore(v, w, small, big, q, k, i, v.files[i].path);
  }

  lemma AnsweredBefore(v: View, w: View, small: Drafts, big: Drafts, q: Path, k: nat, i: nat, p: Path)
    requires Beside(v, w, small, big, q, k) && i <= |v.files|
    requires forall j :: 0 <= j < i ==> (Answers(v, small, j, p) <==> Answers(w, big, Past(k, j), p))
    ensures AnswersBefore(v, small, i, p) <==> AnswersBefore(w, big, Past(k, i), p)
  {
    forall j | 0 <= j < i && Answers(v, small, j, p) ensures AnswersBefore(w, big, Past(k, i), p) {
      assert Answers(w, big, Past(k, j), p);
    }
    forall n | 0 <= n < Past(k, i) && Answers(w, big, n, p) ensures AnswersBefore(v, small, i, p) {
      assert n != k;
      assert Answers(v, small, if n < k then n else n - 1, p);
    }
  }

  lemma SameStanding(v: View, w: View, small: Drafts, big: Drafts, q: Path, k: nat, i: nat, p: Path)
    requires Beside(v, w, small, big, q, k) && i < |v.files|
    ensures Stands(v, small, i, p) <==> Stands(w, big, Past(k, i), p)
  {
    assert v.files[i] == w.files[Past(k, i)];
    SameAnswers(v, w, small, big, q, k, i);
  }

  lemma SameReceived(v: View, w: View, small: Drafts, big: Drafts, q: Path, k: nat, p: Path)
    requires Beside(v, w, small, big, q, k) && p != q
    ensures Received(v, small, p) <==> Received(w, big, p)
  {
    forall i | 0 <= i < |v.files| && Stands(v, small, i, p) ensures Received(w, big, p) {
      SameStanding(v, w, small, big, q, k, i, p);
    }
    forall n | 0 <= n < |w.files| && Stands(w, big, n, p) ensures Received(v, small, p) {
      assert n != k;
      SameStanding(v, w, small, big, q, k, if n < k then n else n - 1, p);
    }
  }

  lemma SameBuried(v: View, w: View, q: Path, d: Draft, k: nat, p: Path)
    requires OneMore(v, w, q, d, k)
    ensures Buried(v.files, p) <==> Buried(w.files, p)
  {
    forall i | 0 <= i < |v.files| ensures v.files[i] in w.files {
      assert v.files[i] == w.files[Past(k, i)];
    }
    forall n | 0 <= n < |w.files| && n != k ensures w.files[n] in v.files {
      assert v.files[if n < k then n else n - 1] == w.files[n];
    }
  }

  /** The new file takes part in nothing else, so both views cohere or neither does. */
  lemma SameFit(v: View, w: View, small: Drafts, big: Drafts, q: Path)
    requires FreshOnlyIn(small, big, q) && Extra(v, w, q, big[q]) && Unrelated(v, q)
    ensures Coheres(v, small) ==> Coheres(w, big)
    ensures Coheres(w, big) && q in small ==> Coheres(v, small)
  {
    var k: nat :| OneMore(v, w, q, big[q], k);
    Elsewhere(small, big, q);
    forall p | p != q
      ensures Housed(v, small, p) <==> Housed(w, big, p)
      ensures Appears(v, small, p) <==> Appears(w, big, p)
    {
      SameReceived(v, w, small, big, q, k, p);
      SameBuried(v, w, q, big[q], k, p);
      FirstMoves(v, w, q, big[q], k, p);
    }
    assert Housed(w, big, q) && Housed(v, small, q);
    assert LiveAt(w.files[k], q);
    LiveIff(w.files, q);
    NothingReceives(v, small, q);
  }

  lemma NothingReceives(v: View, small: Drafts, q: Path)
    requires Unrelated(v, q)
    ensures !Received(v, small, q)
  {
    forall i | 0 <= i < |v.files| ensures !Stands(v, small, i, q) {
      assert v.files[i] in v.files;
    }
  }

  // --- a fresh draft at a row's path ------------------------------------------------------------------------

  lemma SameReachUnlessTaken(v: View, small: Drafts, big: Drafts, q: Path, source: Path)
    requires FreshOnlyIn(small, big, q) && q !in v.consumed
    ensures var r, s := Reach(v, small, source), Reach(v, big, source);
            if source != q || HasLive(v.files, q) then r == s && (r.Ok? ==> q !in r.value.consumed)
            else r.Err? && s.Ok? && q in s.value.consumed
  {
    Elsewhere(small, big, q);
  }

  /** Only a step that takes the draft at `q` for its source tells the two apart, and it consumes the draft. */
  lemma SameUnlessTaken(v: View, small: Drafts, big: Drafts, q: Path, op: Staged)
    requires FreshOnlyIn(small, big, q) && q !in v.consumed
    ensures var r, s := Step(v, small, op), Step(v, big, op);
            && (r.Ok? <==> s.Ok? && q !in s.value.consumed) && (r.Ok? ==> r == s)
  {
    if !op.SetMain? {
      SameReachUnlessTaken(v, small, big, q, op.source);
    }
  }

  lemma ConsumedStays(v: View, drafts: Drafts, op: Staged)
    requires Step(v, drafts, op).Ok?
    ensures v.consumed <= Step(v, drafts, op).value.consumed
  {
  }

  lemma {:induction false} AllSameUnlessTaken(v: View, small: Drafts, big: Drafts, q: Path, ops: seq<Staged>)
    requires FreshOnlyIn(small, big, q) && q !in v.consumed
    ensures var r, s := Steps(v, small, ops), Steps(v, big, ops);
            && (r.Ok? <==> s.Ok? && q !in s.value.consumed) && (r.Ok? ==> r == s)
  {
    if ops != [] {
      var most, last := ops[..|ops|-1], ops[|ops|-1];
      AllSameUnlessTaken(v, small, big, q, most);
      var s := Steps(v, big, most);
      if s.Ok? && Step(s.value, big, last).Ok? { ConsumedStays(s.value, big, last); }
      if Steps(v, small, most).Ok? {
        SameUnlessTaken(s.value, small, big, q, last);
      }
    }
  }
}
