/** Bounded collection of a build's output tree. */
module Artifacts {
  import opened Common
  import opened Counting
  import opened PathOrder
  import opened LogicalPaths

  const MAX_OUTPUT_ENTRIES: nat := 8192
  const MAX_ARTIFACT_FILES: nat := 4096

  datatype CompileLimits = CompileLimits(maxArtifactBytes: nat, maxTotalArtifactBytes: nat)

  /** One directory entry as the file system reports it; `utf8` tells whether the name can be read as text. */
  datatype Entry =
    | RegularFile(name: string, utf8: bool, size: nat)
    | Directory(name: string, utf8: bool, children: seq<Entry>)
    | SymbolicLink(name: string, utf8: bool)
    | Special(name: string, utf8: bool)

  /** Where a directory lies below the output root. */
  datatype Place = Place(components: seq<string>, utf8: bool)

  function Inside(at: Place, e: Entry): Place
  {
    Place(at.components + [e.name], at.utf8 && e.utf8)
  }

  datatype Found = Found(place: Place, size: nat)

  function NameOf(f: Found): Path
  {
    Join(f.place.components)
  }

  // --- what a tree holds ---------------------------------------------------------------

  datatype Census = Census(files: multiset<Found>, bytes: nat, entries: nat, plain: bool)

  const NOTHING := Census(multiset{}, 0, 0, true)

  function Add(a: Census, b: Census): Census
  {
    Census(a.files + b.files, a.bytes + b.bytes, a.entries + b.entries, a.plain && b.plain)
  }

  function CountEntry(at: Place, e: Entry): Census
    decreases e
  {
    match e
    case RegularFile(_, _, size) => Census(multiset{Found(Inside(at, e), size)}, size, 1, true)
    case Directory(_, _, children) => Add(Census(multiset{}, 0, 1, true), CountAll(Inside(at, e), children))
    case SymbolicLink(_, _) => Census(multiset{}, 0, 1, false)
    case Special(_, _) => Census(multiset{}, 0, 1, false)
  }

  function CountAll(at: Place, entries: seq<Entry>): Census
    decreases entries
  {
    if entries == [] then NOTHING
    else Add(CountAll(at, entries[..|entries|-1]), CountEntry(at, entries[|entries|-1]))
  }

  predicate FileFits(f: Found, limits: CompileLimits)
  {
    f.size <= limits.maxArtifactBytes && f.place.utf8 && Parse(NameOf(f)).Ok?
  }

  /** Within every bound, nothing but directories and regular files, and every file a valid logical path. */
  ghost predicate Acceptable(c: Census, limits: CompileLimits)
  {
    && c.plain
    && c.entries <= MAX_OUTPUT_ENTRIES
    && |c.files| <= MAX_ARTIFACT_FILES
    && c.bytes <= limits.maxTotalArtifactBytes
    && forall f :: f in c.files ==> FileFits(f, limits)
  }

  lemma AddAssociates(a: Census, b: Census, c: Census)
    ensures Add(Add(a, b), c) == Add(a, Add(b, c))
  {
    assert (a.files + b.files) + c.files == a.files + (b.files + c.files);
  }

  lemma AddCommutes(a: Census, b: Census)
    ensures Add(a, b) == Add(b, a)
  {
    assert a.files + b.files == b.files + a.files;
  }

  lemma AddNothing(a: Census)
    ensures Add(a, NOTHING) == a && Add(NOTHING, a) == a
  {
    assert a.files + multiset{} == a.files && multiset{} + a.files == a.files;
  }

  lemma CountPush(at: Place, entries: seq<Entry>, e: Entry)
    ensures CountAll(at, entries + [e]) == Add(CountAll(at, entries), CountEntry(at, e))
  {
    assert (entries + [e])[..|entries|] == entries;
  }

  lemma {:induction false} CountConcatenated(at: Place, a: seq<Entry>, b: seq<Entry>)
    ensures CountAll(at, a + b) == Add(CountAll(at, a), CountAll(at, b))
  {
    if b == [] {
      assert a + b == a;
      AddNothing(CountAll(at, a));
    } else {
      var init, e := b[..|b|-1], b[|b|-1];
      assert b == init + [e] && a + b == (a + init) + [e];
      CountConcatenated(at, a, init);
      CountPush(at, a + init, e);
      CountPush(at, init, e);
      AddAssociates(CountAll(at, a), CountAll(at, init), CountEntry(at, e));
    }
  }

  lemma CountSingle(at: Place, entries: seq<Entry>)
    requires |entries| == 1
    ensures CountAll(at, entries) == CountEntry(at, entries[0])
  {
    var none := entries[..0];
    assert none == [];
    AddNothing(CountEntry(at, entries[0]));
  }

  function EntryName(e: Entry): Path { e.name }

  lemma CountCons(at: Place, e: Entry, tail: seq<Entry>)
    ensures CountAll(at, [e] + tail) == Add(CountEntry(at, e), CountAll(at, tail))
  {
    CountConcatenated(at, [e], tail);
    CountSingle(at, [e]);
  }

  ghost predicate SameCount(at: Place, a: seq<Entry>, b: seq<Entry>)
  {
    CountAll(at, a) == CountAll(at, b)
  }

  lemma {:induction false} CountSorted(at: Place, entries: seq<Entry>)
    ensures SameCount(at, SortBy(entries, EntryName), entries)
  {
    if entries != [] {
      CountSorted(at, entries[1..]);
      CountPlaced(at, entries, SortBy(entries[1..], EntryName));
    }
  }

  lemma CountPlaced(at: Place, entries: seq<Entry>, rest: seq<Entry>)
    requires entries != [] && SameCount(at, rest, entries[1..])
    ensures SameCount(at, InsertBy(entries[0], rest, EntryName), entries)
  {
    var k := Slot(entries[0], rest, EntryName);
    assert rest[..k] + rest[k..] == rest;
    assert [entries[0]] + entries[1..] == entries;
    CountMoved(at, entries[0], rest[..k], rest[k..], entries[1..]);
  }

  lemma CountMoved(at: Place, e: Entry, a: seq<Entry>, b: seq<Entry>, tail: seq<Entry>)
    requires SameCount(at, a + b, tail)
    ensures SameCount(at, a + [e] + b, [e] + tail)
  {
    CountInserted(at, e, a, b);
    CountCons(at, e, tail);
  }

  lemma CountInserted(at: Place, e: Entry, a: seq<Entry>, b: seq<Entry>)
    ensures CountAll(at, a + [e] + b) == Add(CountEntry(at, e), CountAll(at, a + b))
  {
    CountConcatenated(at, a + [e], b);
    CountPush(at, a, e);
    CountConcatenated(at, a, b);
    AddCommutes(CountAll(at, a), CountEntry(at, e));
    AddAssociates(CountEntry(at, e), CountAll(at, a), CountAll(at, b));
  }

  // --- the stack of directories ------------------------------------------------------------

  datatype Task = Task(at: Place, children: seq<Entry>)

  function CountStack(stack: seq<Task>): Census
  {
    if stack == [] then NOTHING
    else Add(CountStack(stack[..|stack|-1]), CountAll(stack[|stack|-1].at, stack[|stack|-1].children))
  }

  lemma CountPushed(stack: seq<Task>, t: Task)
    ensures CountStack(stack + [t]) == Add(CountStack(stack), CountAll(t.at, t.children))
  {
    assert (stack + [t])[..|stack|] == stack;
  }

  function CountCollected(found: seq<Found>): Census
  {
    if found == [] then NOTHING
    else
      var f := found[|found|-1];
      Add(CountCollected(found[..|found|-1]), Census(multiset{f}, f.size, 0, true))
  }

  lemma {:induction false} CollectedFiles(found: seq<Found>)
    ensures CountCollected(found).files == multiset(found) && CountCollected(found).plain
            && CountCollected(found).entries == 0
    ensures |CountCollected(found).files| == |found|
  {
    if found != [] {
      CollectedFiles(found[..|found|-1]);
      assert found == found[..|found|-1] + [found[|found|-1]];
    }
  }

  lemma CountFound(found: seq<Found>, f: Found)
    ensures CountCollected(found + [f]) == Add(CountCollected(found), Census(multiset{f}, f.size, 0, true))
  {
    assert (found + [f])[..|found|] == found;
  }

  /** Everything the tree holds is collected, on the stack, or in the part of a directory still to be read. */
  ghost predicate Balanced(total: Census, found: seq<Found>, seen: nat, stack: seq<Task>, at: Place, unread: seq<Entry>)
  {
    var parts := Add(Add(CountCollected(found), CountStack(stack)), CountAll(at, unread));
    && total.files == parts.files
    && total.bytes == parts.bytes
    && total.entries == parts.entries + seen - |unread|
    && total.plain == parts.plain
  }

  datatype CollectError =
    | OutputEntriesExceeded | InvalidOutputEntry | ArtifactFilesExceeded | ArtifactTooLarge | TotalArtifactsTooLarge

  /** The checks collect_artifacts and collect_artifact make on one regular file, in order. */
  function FileError(found: seq<Found>, bytes: nat, f: Found, limits: CompileLimits): Option<CollectError>
  {
    if |found| + 1 > MAX_ARTIFACT_FILES then Some(ArtifactFilesExceeded)
    else if f.size > limits.maxArtifactBytes then Some(ArtifactTooLarge)
    else if bytes + f.size > limits.maxTotalArtifactBytes then Some(TotalArtifactsTooLarge)
    else if !f.place.utf8 || Parse(NameOf(f)).Err? then Some(InvalidOutputEntry)
    else None
  }

  ghost predicate Within(found: seq<Found>, bytes: nat, limits: CompileLimits)
  {
    && bytes == CountCollected(found).bytes <= limits.maxTotalArtifactBytes
    && |found| <= MAX_ARTIFACT_FILES
    && forall f :: f in found ==> FileFits(f, limits)
  }

  /** The bound that the error names is exceeded somewhere in the tree, or an entry or name is not allowed. */
  ghost predicate Blames(e: CollectError, total: Census, limits: CompileLimits)
  {
    match e
    case OutputEntriesExceeded => total.entries > MAX_OUTPUT_ENTRIES
    case InvalidOutputEntry =>
      !total.plain || exists f :: f in total.files && (!f.place.utf8 || Parse(NameOf(f)).Err?)
    case ArtifactFilesExceeded => |total.files| > MAX_ARTIFACT_FILES
    case ArtifactTooLarge => exists f :: f in total.files && f.size > limits.maxArtifactBytes
    case TotalArtifactsTooLarge => total.bytes > limits.maxTotalArtifactBytes
  }

  lemma BlamedIsUnacceptable(e: CollectError, total: Census, limits: CompileLimits)
    requires Blames(e, total, limits)
    ensures !Acceptable(total, limits)
  {
  }

  lemma FileErrorIsTrue(total: Census, found: seq<Found>, bytes: nat, seen: nat, stack: seq<Task>, at: Place,
                                   unread: seq<Entry>, limits: CompileLimits)
    requires unread != [] && Balanced(total, found, seen, stack, at, unread) && bytes == CountCollected(found).bytes
    requires var e := unread[|unread|-1];
             e.SymbolicLink? || e.Special? || (e.RegularFile?
                 && FileError(found, bytes, Found(Inside(at, e), e.size), limits).Some?)
    ensures var e := unread[|unread|-1];
            Blames(if e.RegularFile? then FileError(found, bytes, Found(Inside(at, e), e.size), limits).value
                   else InvalidOutputEntry, total, limits)
  {
    CollectedFiles(found);
    var e := unread[|unread|-1];
    assert CountAll(at, unread) == Add(CountAll(at, unread[..|unread|-1]), CountEntry(at, e));
    if e.RegularFile? {
      var f := Found(Inside(at, e), e.size);
      assert f in total.files;
      assert |total.files| >= |found| + 1;
    }
  }

  lemma TakeFile(total: Census, found: seq<Found>, seen: nat, stack: seq<Task>, at: Place, unread: seq<Entry>)
    requires unread != [] && Balanced(total, found, seen, stack, at, unread) && unread[|unread|-1].RegularFile?
    ensures var e := unread[|unread|-1];
            Balanced(total, found + [Found(Inside(at, e), e.size)], seen, stack, at, unread[..|unread|-1])
  {
    var e := unread[|unread|-1];
    CountFound(found, Found(Inside(at, e), e.size));
    assert CountAll(at, unread) == Add(CountAll(at, unread[..|unread|-1]), CountEntry(at, e));
  }

  lemma TakeDirectory(total: Census, found: seq<Found>, seen: nat, stack: seq<Task>, at: Place, unread: seq<Entry>)
    requires unread != [] && Balanced(total, found, seen, stack, at, unread) && unread[|unread|-1].Directory?
    ensures var e := unread[|unread|-1];
            Balanced(total, found, seen, stack + [Task(Inside(at, e), e.children)], at, unread[..|unread|-1])
  {
    var e := unread[|unread|-1];
    CountPushed(stack, Task(Inside(at, e), e.children));
    assert CountAll(at, unread) == Add(CountAll(at, unread[..|unread|-1]), CountEntry(at, e));
  }

  lemma SortedLength(entries: seq<Entry>)
    ensures |SortBy(entries, EntryName)| == |entries|
  {
    SortByPermutes(entries, EntryName);
    assert |multiset(SortBy(entries, EntryName))| == |multiset(entries)|;
  }

  lemma OpenDirectory(total: Census, found: seq<Found>, seen: nat, stack: seq<Task>, t: Task)
    requires Balanced(total, found, seen, stack + [t], t.at, [])
    ensures Balanced(total, found, seen + |t.children|, stack, t.at, SortBy(t.children, EntryName))
    ensures seen + |t.children| <= total.entries
  {
    CountPushed(stack, t);
    CountSorted(t.at, t.children);
    SortedLength(t.children);
    EntriesAtLeast(t.at, t.children);
    AddAssociates(CountCollected(found), CountStack(stack), CountAll(t.at, t.children));
    AddNothing(Add(CountCollected(found), CountStack(stack + [t])));
  }

  lemma {:induction false} EntriesAtLeast(at: Place, entries: seq<Entry>)
    ensures CountAll(at, entries).entries >= |entries|
  {
    if entries != [] {
      EntriesAtLeast(at, entries[..|entries|-1]);
    }
  }

  // --- collect_artifacts ------------------------------------------------------------------------

  lemma FittingFileStaysWithin(found: seq<Found>, bytes: nat, f: Found, limits: CompileLimits)
    requires Within(found, bytes, limits) && FileError(found, bytes, f, limits).None?
    ensures Within(found + [f], bytes + f.size, limits)
  {
    CountFound(found, f);
  }

  /** One entry: a file is collected, a directory goes on the stack, anything else is refused. */
  method ReadEntry(ghost total: Census, ghost seen: nat, at: Place, ghost unread: seq<Entry>, e: Entry,
                   stack0: seq<Task>,
                   found0: seq<Found>, bytes0: nat, limits: CompileLimits)
    returns (failed: Option<CollectError>, stack: seq<Task>, found: seq<Found>, bytes: nat)
    requires unread != [] && e == unread[|unread|-1]
    requires Balanced(total, found0, seen, stack0, at, unread) && Within(found0, bytes0, limits)
    ensures failed.Some? ==> Blames(failed.value, total, limits)
    ensures failed.None? ==>
              Balanced(total, found, seen, stack, at, unread[..|unread|-1]) && Within(found, bytes, limits)
    ensures failed.None? ==> Left(stack) <= Left(stack0) + CountEntry(at, e).entries
  {
    failed, stack, found, bytes := None, stack0, found0, bytes0;
    match e {
      case SymbolicLink(_, _) =>
        FileErrorIsTrue(total, found, bytes, seen, stack, at, unread, limits);
        failed := Some(InvalidOutputEntry);
      case Special(_, _) =>
        FileErrorIsTrue(total, found, bytes, seen, stack, at, unread, limits);
        failed := Some(InvalidOutputEntry);
      case Directory(_, _, children) =>
        TakeDirectory(total, found, seen, stack, at, unread);
        LeftPushed(stack, Task(Inside(at, e), children));
        stack := stack + [Task(Inside(at, e), children)];
      case RegularFile(_, _, size) =>
        var f := Found(Inside(at, e), size);
        failed := FileError(found, bytes, f, limits);
        if failed.Some? {
          FileErrorIsTrue(total, found, bytes, seen, stack, at, unread, limits);
        } else {
          TakeFile(total, found, seen, stack, at, unread);
          FittingFileStaysWithin(found, bytes, f, limits);
          found := found + [f];
          bytes := bytes + size;
        }
    }
  }

  lemma LastEntryCounts(at: Place, entries: seq<Entry>)
    requires entries != []
    ensures CountAll(at, entries).entries ==
            CountAll(at, entries[..|entries|-1]).entries + CountEntry(at, entries[|entries|-1]).entries
  {
  }

  /** Between two entries: nothing is lost, nothing is over a limit, and what is left is within `budget`. */
  ghost predicate Reading(total: Census, found: seq<Found>, bytes: nat, seen: nat, stack: seq<Task>, at: Place,
                          unread: seq<Entry>, limits: CompileLimits, budget: nat)
  {
    && Balanced(total, found, seen, stack, at, unread)
    && Within(found, bytes, limits)
    && Left(stack) + CountAll(at, unread).entries <= budget
  }

  method ReadNext(ghost total: Census, ghost seen: nat, at: Place, ghost unread: seq<Entry>, e: Entry,
                  stack0: seq<Task>,
                  found0: seq<Found>, bytes0: nat, limits: CompileLimits, ghost budget: nat)
    returns (failed: Option<CollectError>, stack: seq<Task>, found: seq<Found>, bytes: nat)
    requires unread != [] && e == unread[|unread|-1]
    requires Reading(total, found0, bytes0, seen, stack0, at, unread, limits, budget)
    ensures failed.Some? ==> Blames(failed.value, total, limits)
    ensures failed.None? ==> Reading(total, found, bytes, seen, stack, at, unread[..|unread|-1], limits, budget)
  {
    LastEntryCounts(at, unread);
    failed, stack, found, bytes := ReadEntry(total, seen, at, unread, e, stack0, found0, bytes0, limits);
  }

  /** The loop over one directory's entries, last name first. */
  method ReadEntries(ghost total: Census, ghost seen: nat, at: Place, entries: seq<Entry>, stack0: seq<Task>,
                     found0: seq<Found>, bytes0: nat, limits: CompileLimits)
    returns (failed: Option<CollectError>, stack: seq<Task>, found: seq<Found>, bytes: nat)
    requires Balanced(total, found0, seen, stack0, at, entries) && Within(found0, bytes0, limits)
    ensures failed.Some? ==> Blames(failed.value, total, limits)
    ensures failed.None? ==> Balanced(total, found, seen, stack, at, []) && Within(found, bytes, limits)
    ensures failed.None? ==> Left(stack) <= Left(stack0) + CountAll(at, entries).entries
  {
    failed, stack, found, bytes := None, stack0, found0, bytes0;
    ghost var budget := Left(stack0) + CountAll(at, entries).entries;
    ghost var unread := entries;
    var n := |entries|;
    while n > 0
      invariant n == |unread| <= |entries| && unread <= entries
      invariant Reading(total, found, bytes, seen, stack, at, unread, limits, budget)
    {
      n := n - 1;
      failed, stack, found, bytes := ReadNext(total, seen, at, unread, entries[n], stack, found, bytes, limits, budget);
      if failed.Some? {
        return;
      }
      unread := unread[..n];
    }
    failed := None;
    assert unread == [];
  }

  /** Directories still to open, and entries below them. */
  function Left(stack: seq<Task>): nat
  {
    |stack| + CountStack(stack).entries
  }

  lemma LeftPushed(stack: seq<Task>, t: Task)
    ensures Left(stack + [t]) == Left(stack) + 1 + CountAll(t.at, t.children).entries
  {
    CountPushed(stack, t);
  }

  const ROOT := Place([], true)

  /**
   * Collection succeeds exactly for acceptable trees, and then returns each regular file once, in name order.
   * `root` is what the output directory holds, in the order the file system lists it.
   */
  method CollectArtifacts(root: seq<Entry>, limits: CompileLimits) returns (r: Result<seq<Found>, CollectError>)
    ensures r.Ok? <==> Acceptable(CountAll(ROOT, root), limits)
    ensures r.Err? ==> Blames(r.error, CountAll(ROOT, root), limits)
    ensures r.Ok? ==> |r.value| <= MAX_ARTIFACT_FILES && Sum(r.value, SizeOf) <= limits.maxTotalArtifactBytes
                      && forall f :: f in r.value ==> f.size <= limits.maxArtifactBytes && Parse(NameOf(f)).Ok?
    ensures r.Ok? ==> multiset(r.value) == CountAll(ROOT, root).files && Ascending(r.value, NameOf)
  {
    ghost var total := CountAll(ROOT, root);
    var stack := [Task(ROOT, root)];
    StartBalanced(root);
    var seen: nat, bytes: nat := 0, 0;
    var found: seq<Found> := [];
    while stack != []
      invariant Balanced(total, found, seen, stack, ROOT, []) && Within(found, bytes, limits)
      invariant seen <= MAX_OUTPUT_ENTRIES
      decreases Left(stack)
    {
      var failed;
      failed, stack, found, bytes, seen := ReadDirectory(total, stack, found, bytes, seen, limits);
      if failed.Some? {
        BlamedIsUnacceptable(failed.value, total, limits);
        return Err(failed.value);
      }
    }
    FinishedAcceptable(total, found, seen, bytes, ROOT, limits);
    SortByAscends(found, NameOf);
    SortByPermutes(found, NameOf);
    r := Ok(SortBy(found, NameOf));
    SortedBounds(found, bytes, limits);
  }

  function SizeOf(f: Found): nat { f.size }

  lemma {:induction false} CollectedWeigh(found: seq<Found>)
    ensures CountCollected(found).bytes == Sum(found, SizeOf)
  {
    if found != [] {
      CollectedWeigh(found[..|found|-1]);
    }
  }

  lemma {:induction false} SumConcat(a: seq<Found>, b: seq<Found>)
    ensures Sum(a + b, SizeOf) == Sum(a, SizeOf) + Sum(b, SizeOf)
  {
    if b == [] {
      assert a + b == a;
    } else {
      assert (a + b)[..|a + b|-1] == a + b[..|b|-1];
      SumConcat(a, b[..|b|-1]);
    }
  }

  lemma {:induction false} SortedWeigh(found: seq<Found>)
    ensures Sum(SortBy(found, NameOf), SizeOf) == Sum(found, SizeOf)
  {
    if found != [] {
      var rest := SortBy(found[1..], NameOf);
      var k := Slot(found[0], rest, NameOf);
      SortedWeigh(found[1..]);
      assert found == [found[0]] + found[1..] && rest == rest[..k] + rest[k..];
      SumConcat([found[0]], found[1..]);
      SumConcat(rest[..k], rest[k..]);
      SumConcat(rest[..k] + [found[0]], rest[k..]);
      SumConcat(rest[..k], [found[0]]);
    }
  }

  lemma SortedBounds(found: seq<Found>, bytes: nat, limits: CompileLimits)
    requires Within(found, bytes, limits)
    ensures var s := SortBy(found, NameOf);
            && |s| <= MAX_ARTIFACT_FILES && Sum(s, SizeOf) <= limits.maxTotalArtifactBytes
            && forall f :: f in s ==> f.size <= limits.maxArtifactBytes && Parse(NameOf(f)).Ok?
  {
    SortByPermutes(found, NameOf);
    assert |SortBy(found, NameOf)| == |multiset(found)|;
    CollectedWeigh(found);
    SortedWeigh(found);
    forall f | f in SortBy(found, NameOf) ensures FileFits(f, limits) {
      SortByMember(found, NameOf, f);
    }
  }

  lemma StartBalanced(root: seq<Entry>)
    ensures Balanced(CountAll(ROOT, root), [], 0, [Task(ROOT, root)], ROOT, [])
  {
    var stack, c := [Task(ROOT, root)], CountAll(ROOT, root);
    assert stack[..0] == [] && CountStack([]) == NOTHING && CountCollected([]) == NOTHING
        && CountAll(ROOT, []) == NOTHING;
    assert CountStack(stack) == Add(NOTHING, c);
    AddNothing(c);
    assert Add(Add(NOTHING, c), NOTHING) == c;
  }

  /** Pop a directory, bound its entries by what remains, and read them. */
  method ReadDirectory(ghost total: Census, stack0: seq<Task>, found0: seq<Found>, bytes0: nat, seen0: nat,
                       limits: CompileLimits)
    returns (failed: Option<CollectError>, stack: seq<Task>, found: seq<Found>, bytes: nat, seen: nat)
    requires stack0 != [] && seen0 <= MAX_OUTPUT_ENTRIES
    requires Balanced(total, found0, seen0, stack0, ROOT, []) && Within(found0, bytes0, limits)
    ensures failed.Some? ==> Blames(failed.value, total, limits)
    ensures failed.None? ==> Balanced(total, found, seen, stack, ROOT, []) && Within(found, bytes, limits)
                             && seen <= MAX_OUTPUT_ENTRIES && Left(stack) < Left(stack0)
  {
    var t := stack0[|stack0|-1];
    stack, found, bytes, seen := stack0[..|stack0|-1], found0, bytes0, seen0;
    assert stack0 == stack + [t];
    BalancedElsewhere(total, found, seen, stack0, ROOT, t.at);
    LeftPushed(stack, t);
    OpenDirectory(total, found, seen, stack, t);
    CountSorted(t.at, t.children);
    if |t.children| > MAX_OUTPUT_ENTRIES - seen {
      failed := Some(OutputEntriesExceeded);
      return;
    }
    seen := seen + |t.children|;
    failed, stack, found, bytes := ReadEntries(total, seen, t.at, SortBy(t.children, EntryName), stack, found, bytes,
        limits);
    if failed.None? {
      BalancedElsewhere(total, found, seen, stack, t.at, ROOT);
    }
  }

  lemma BalancedElsewhere(total: Census, found: seq<Found>, seen: nat, stack: seq<Task>, at: Place, other: Place)
    requires Balanced(total, found, seen, stack, at, [])
    ensures Balanced(total, found, seen, stack, other, [])
  {
  }

  lemma FinishedAcceptable(total: Census, found: seq<Found>, seen: nat, bytes: nat, at: Place, limits: CompileLimits)
    requires Balanced(total, found, seen, [], at, []) && Within(found, bytes, limits) && seen <= MAX_OUTPUT_ENTRIES
    ensures Acceptable(total, limits) && total.files == multiset(found)
  {
    CollectedFiles(found);
  }

  // --- one artifact per file ------------------------------------------------------------------------

  /** What a file system guarantees: siblings have different, non-empty, slashless names. */
  ghost predicate WellNamed(entries: seq<Entry>)
    decreases entries
  {
    && (forall i, j :: 0 <= i < j < |entries| ==> entries[i].name != entries[j].name)
    && (forall i :: 0 <= i < |entries| ==> entries[i].name != [] && '/' !in entries[i].name)
    && (forall i :: 0 <= i < |entries| && entries[i].Directory? ==> WellNamed(entries[i].children))
  }

  /** Every file below an entry carries the entry's own name after the directory's. */
  predicate Under(f: Found, at: Place, name: string)
  {
    && |f.place.components| > |at.components|
    && f.place.components[..|at.components|] == at.components
    && f.place.components[|at.components|] == name
    && Slashless(f.place.components)
  }

  ghost predicate UnderOneOf(f: Found, at: Place, entries: seq<Entry>)
  {
    exists i :: 0 <= i < |entries| && Under(f, at, entries[i].name)
  }

  lemma {:induction false} FilesUnderEntry(at: Place, e: Entry, f: Found)
    requires Slashless(at.components) && '/' !in e.name && (e.Directory? ==> WellNamed(e.children))
    requires f in CountEntry(at, e).files
    ensures Under(f, at, e.name)
    decreases e
  {
    if e.Directory? {
      FilesUnderAll(Inside(at, e), e.children, f);
      var i :| 0 <= i < |e.children| && Under(f, Inside(at, e), e.children[i].name);
      var n := |at.components|;
      assert f.place.components[..n] == f.place.components[..n+1][..n];
      assert f.place.components[n] == f.place.components[..n+1][n];
    }
  }

  lemma {:induction false} FilesUnderAll(at: Place, entries: seq<Entry>, f: Found)
    requires Slashless(at.components) && WellNamed(entries) && f in CountAll(at, entries).files
    ensures UnderOneOf(f, at, entries)
    decreases entries
  {
    var most, e := entries[..|entries|-1], entries[|entries|-1];
    assert WellNamed(most);
    if f in CountAll(at, most).files {
      FilesUnderAll(at, most, f);
      var i :| 0 <= i < |most| && Under(f, at, most[i].name);
      assert Under(f, at, entries[i].name);
    } else {
      FilesUnderEntry(at, e, f);
    }
  }

  /** Every file is counted once and no two files share their components. */
  ghost predicate Once(files: multiset<Found>)
  {
    && (forall f :: files[f] <= 1)
    && (forall f, g :: f in files && g in files && f.place.components == g.place.components ==> f == g)
  }

  lemma OnceTogether(a: multiset<Found>, b: multiset<Found>)
    requires Once(a) && Once(b)
    requires forall f, g :: f in a && g in b ==> f.place.components != g.place.components
    ensures Once(a + b)
  {
  }

  lemma {:induction false} OnceEntry(at: Place, e: Entry)
    requires Slashless(at.components) && '/' !in e.name && (e.Directory? ==> WellNamed(e.children))
    ensures Once(CountEntry(at, e).files)
    decreases e
  {
    if e.Directory? {
      OnceAll(Inside(at, e), e.children);
      assert CountEntry(at, e).files == CountAll(Inside(at, e), e.children).files;
    }
  }

  lemma {:induction false} OnceAll(at: Place, entries: seq<Entry>)
    requires Slashless(at.components) && WellNamed(entries)
    ensures Once(CountAll(at, entries).files)
    decreases entries
  {
    if entries != [] {
      var most, e := entries[..|entries|-1], entries[|entries|-1];
      assert WellNamed(most);
      OnceAll(at, most);
      OnceEntry(at, e);
      forall f, g | f in CountAll(at, most).files && g in CountEntry(at, e).files
        ensures f.place.components != g.place.components
      {
        FilesUnderAll(at, most, f);
        FilesUnderEntry(at, e, g);
      }
      OnceTogether(CountAll(at, most).files, CountEntry(at, e).files);
    }
  }

  /** On a file system, what collection returns is strictly ascending: no name is returned twice. */
  lemma CollectedNamesAreDistinct(root: seq<Entry>, found: seq<Found>)
    requires WellNamed(root) && multiset(found) == CountAll(ROOT, root).files && Ascending(found, NameOf)
    ensures forall i, j :: 0 <= i < j < |found| ==> Below(NameOf(found[i]), NameOf(found[j]))
  {
    OnceAll(ROOT, root);
    forall i, j | 0 <= i < j < |found| ensures Below(NameOf(found[i]), NameOf(found[j])) {
      assert found[i] in multiset(found) && found[j] in multiset(found);
      RepeatCountsTwice(found, i, j);
      FilesUnderAll(ROOT, root, found[i]);
      FilesUnderAll(ROOT, root, found[j]);
      SplitJoin(found[i].place.components);
      SplitJoin(found[j].place.components);
    }
  }

  // --- names that cannot be read ------------------------------------------------------------------

  /** A file is readable by name only if every entry on the way to it is. */
  lemma {:induction false} UnreadableBelowEntry(at: Place, e: Entry)
    ensures forall f :: f in CountEntry(at, e).files && f.place.utf8 ==> at.utf8 && e.utf8
    decreases e
  {
    if e.Directory? {
      UnreadableBelow(Inside(at, e), e.children);
      assert CountEntry(at, e).files == multiset{} + CountAll(Inside(at, e), e.children).files;
    }
  }

  lemma {:induction false} UnreadableBelow(at: Place, entries: seq<Entry>)
    ensures forall f :: f in CountAll(at, entries).files && f.place.utf8 ==> at.utf8
    decreases entries
  {
    if entries != [] {
      UnreadableBelow(at, entries[..|entries|-1]);
      UnreadableBelowEntry(at, entries[|entries|-1]);
    }
  }

  /** A tree with a file below an entry whose name is not text is not acceptable. */
  lemma UnreadableIsRefused(entries: seq<Entry>, k: nat, limits: CompileLimits)
    requires k < |entries| && !entries[k].utf8 && CountEntry(ROOT, entries[k]).files != multiset{}
    ensures !Acceptable(CountAll(ROOT, entries), limits)
  {
    CountIncludes(ROOT, entries, k);
    UnreadableBelowEntry(ROOT, entries[k]);
    var f :| f in CountEntry(ROOT, entries[k]).files;
    assert f in CountAll(ROOT, entries).files;
  }

  lemma {:induction false} CountIncludes(at: Place, entries: seq<Entry>, k: nat)
    requires k < |entries|
    ensures CountEntry(at, entries[k]).files <= CountAll(at, entries).files
  {
    if k < |entries| - 1 {
      CountIncludes(at, entries[..|entries|-1], k);
    }
  }
}
