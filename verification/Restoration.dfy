/** apply_restore: file identities, the emitted event, and undoing a restoration. */
module Restoration {
  import opened Common
  import LogicalPaths
  import opened PathOrder
  import W = Workspace

  /** A paper_files row; rows are tombstoned, never removed. */
  datatype FileRow = FileRow(path: Path, tombstoned: bool, revision: nat)

  type Rows = map<nat, FileRow>

  /** A version's manifest: its workspace and the file ids it recorded. WorkspaceManifestV1 guarantees `main`. */
  datatype Manifest = Manifest(files: map<Path, Content>, main: Path, identities: map<Path, nat>)

  ghost predicate Sensible(m: Manifest)
  {
    m.main in m.files
  }

  predicate LiveAs(rows: Rows, p: Path, id: nat)
  {
    id in rows && !rows[id].tombstoned && rows[id].path == p
  }

  /** The partial unique index on live paths. */
  ghost predicate UniqueLive(rows: Rows)
  {
    forall i, j, p :: LiveAs(rows, p, i) && LiveAs(rows, p, j) ==> i == j
  }

  ghost predicate IsLivePath(rows: Rows, p: Path)
  {
    exists id :: LiveAs(rows, p, id)
  }

  ghost function IdAt(rows: Rows, p: Path): nat
    requires IsLivePath(rows, p)
  {
    var id :| LiveAs(rows, p, id); id
  }

  /** The live files of a workspace, by path. */
  ghost function Live(rows: Rows): map<Path, nat>
  {
    map p | p in (set id | id in rows && !rows[id].tombstoned :: rows[id].path) && IsLivePath(rows, p) :: IdAt(rows, p)
  }

  lemma LiveMembers(rows: Rows, p: Path)
    ensures p in Live(rows) <==> IsLivePath(rows, p)
    ensures p in Live(rows) ==> LiveAs(rows, p, Live(rows)[p])
    ensures UniqueLive(rows) ==> forall id :: LiveAs(rows, p, id) ==> p in Live(rows) && Live(rows)[p] == id
  {
  }

  // --- the two updates of the rows -------------------------------------------------------

  function Tombstone(r: FileRow): FileRow
  {
    if r.tombstoned then r else FileRow(r.path, true, r.revision + 1)
  }

  function TombstoneAll(rows: Rows): Rows
  {
    map id | id in rows :: Tombstone(rows[id])
  }

  /** An id read before the loop is revived by UPDATE; any other is inserted and must be unused everywhere. */
  function Reinstate(rows: Rows, known: set<nat>, foreign: set<nat>, p: Path, id: nat): Option<Rows>
  {
    if id in known then
      if id in rows then Some(rows[id := FileRow(p, false, rows[id].revision + 1)]) else Some(rows)
    else if id in rows || id in foreign then None
    else Some(rows[id := FileRow(p, false, 1)])
  }

  function ReinstateAll(rows: Rows, known: set<nat>, foreign: set<nat>, chosen: map<Path, nat>,
                        paths: seq<Path>): Option<Rows>
    requires forall p :: p in paths ==> p in chosen
  {
    if paths == [] then Some(rows)
    else
      match ReinstateAll(rows, known, foreign, chosen, paths[..|paths|-1])
      case None => None
      case Some(before) => Reinstate(before, known, foreign, paths[|paths|-1], chosen[paths[|paths|-1]])
  }

  /** The recorded identity, else the id now live at the path, else a new one. */
  ghost function Choice(m: Manifest, live: map<Path, nat>, minted: map<Path, nat>, p: Path): nat
    requires p in minted
  {
    if p in m.identities then m.identities[p] else if p in live then live[p] else minted[p]
  }

  ghost function Choices(m: Manifest, live: map<Path, nat>, minted: map<Path, nat>): map<Path, nat>
    requires m.files.Keys <= minted.Keys
  {
    map p | p in m.files :: Choice(m, live, minted, p)
  }

  // --- the event -----------------------------------------------------------------------------

  function Deletions(paths: seq<Path>): seq<W.Operation>
  {
    if paths == [] then [] else Deletions(paths[..|paths|-1]) + [W.DeleteFile(paths[|paths|-1])]
  }

  function Puts(files: map<Path, Content>, paths: seq<Path>): seq<W.Operation>
    requires forall p :: p in paths ==> p in files
  {
    if paths == [] then []
    else Puts(files, paths[..|paths|-1]) + [W.PutFile(paths[|paths|-1], files[paths[|paths|-1]])]
  }

  function EventFor(live: set<Path>, m: Manifest): W.Event
  {
    Deletions(Listing(live)) + Puts(m.files, Listing(m.files.Keys)) + [W.SetMainFile(m.main)]
  }

  // --- the transaction -------------------------------------------------------------------------

  datatype Version = Version(number: nat, epoch: nat, workspaceVersion: nat, manifest: Manifest)

  datatype Paper = Paper(rows: Rows, log: seq<W.Event>, epoch: nat, versions: seq<Version>)

  /** What the caller read of the paper before asking for the restoration. */
  datatype ExactState = ExactState(version: nat, epoch: nat, manifest: Manifest, hash: string)

  /** What is stored for the version to restore. */
  datatype Target = NoSuchVersion | Unreadable | Stored(manifest: Manifest)

  datatype Failure = InvalidSafety | VersionConflict(actual: nat) | MissingTarget | InvalidManifest | DuplicateId

  /** A version was observed, and its hash has the length of a hexadecimal digest. */
  predicate Plausible(safety: ExactState)
  {
    safety.version != 0 && LogicalPaths.Bytes(safety.hash) == 64
  }

  function NextNumber(versions: seq<Version>): nat
  {
    if versions == [] then 1
    else
      var before := NextNumber(versions[..|versions|-1]);
      if versions[|versions|-1].number + 1 > before then versions[|versions|-1].number + 1 else before
  }

  /** `minted` are the fresh ids, `foreign` the ids other workspaces own. */
  ghost function Restore(p: Paper, safety: ExactState, target: Target, minted: map<Path, nat>, foreign: set<nat>)
    : Result<Paper, Failure>
    requires target.Stored? ==> target.manifest.files.Keys <= minted.Keys
  {
    if !Plausible(safety) then Err(InvalidSafety)
    else if safety.version != |p.log| then Err(VersionConflict(|p.log|))
    else
      match target
      case NoSuchVersion => Err(MissingTarget)
      case Unreadable => Err(InvalidManifest)
      case Stored(m) => Materialize(p, safety, m, Live(p.rows).Keys, Choices(m, Live(p.rows), minted), foreign)
  }

  /** One event, a new epoch, and a version row for the state before and the state after. */
  function Concluded(p: Paper, rows: Rows, event: W.Event, safety: ExactState, target: Manifest): Paper
  {
    var number := NextNumber(p.versions);
    Paper(rows, p.log + [event], p.epoch + 1,
          p.versions + [Version(number, safety.epoch, |p.log|, safety.manifest),
                        Version(number + 1, p.epoch + 1, |p.log| + 1, target)])
  }

  /** The updates once the live paths are read and every id is chosen. */
  function Materialize(p: Paper, safety: ExactState, target: Manifest, live: set<Path>, chosen: map<Path, nat>,
                       foreign: set<nat>)
    : Result<Paper, Failure>
    requires target.files.Keys <= chosen.Keys
  {
    match ReinstateAll(TombstoneAll(p.rows), p.rows.Keys, foreign, chosen, Listing(target.files.Keys))
    case None => Err(DuplicateId)
    case Some(rows) => Ok(Concluded(p, rows, EventFor(live, target), safety, target))
  }

  // --- identities are exact exactly when the choices are injective -------------------------------

  ghost predicate Injective(chosen: map<Path, nat>)
  {
    forall p, q :: p in chosen && q in chosen && p != q ==> chosen[p] != chosen[q]
  }

  /** Row by row: an id chosen for a processed path is live there; any other row is as it was. */
  ghost predicate Reinstated(before: Rows, after: Rows, chosen: map<Path, nat>, paths: seq<Path>)
    requires forall p :: p in paths ==> p in chosen
  {
    && (forall p :: p in paths ==> LiveAs(after, p, chosen[p]))
    && (forall id :: id in before ==> id in after)
    && (forall id :: id in after && (forall p :: p in paths ==> chosen[p] != id) ==>
          id in before && after[id] == before[id])
  }

  lemma ReinstatedOneMore(before: Rows, mid: Rows, foreign: set<nat>, chosen: map<Path, nat>, most: seq<Path>,
                          last: Path)
    requires last in chosen && last !in most && forall p :: p in most ==> p in chosen
    requires Injective(chosen) && chosen[last] !in foreign && Reinstated(before, mid, chosen, most)
    ensures Reinstate(mid, before.Keys, foreign, last, chosen[last]).Some?
    ensures Reinstated(before, Reinstate(mid, before.Keys, foreign, last, chosen[last]).value, chosen, most + [last])
  {
    var id := chosen[last];
    forall p | p in most ensures chosen[p] != id {
      assert p != last;
    }
    assert id !in before ==> id !in mid;
  }

  lemma {:induction false} ReinstateAllExact(before: Rows, known: set<nat>, foreign: set<nat>, chosen: map<Path, nat>,
                                             paths: seq<Path>)
    requires forall p :: p in paths ==> p in chosen
    requires forall i, j :: 0 <= i < j < |paths| ==> paths[i] != paths[j]
    requires before.Keys == known && Injective(chosen) && forall p :: p in paths ==> chosen[p] !in foreign
    ensures ReinstateAll(before, known, foreign, chosen, paths).Some?
    ensures Reinstated(before, ReinstateAll(before, known, foreign, chosen, paths).value, chosen, paths)
  {
    if paths != [] {
      var most, last := paths[..|paths|-1], paths[|paths|-1];
      assert paths == most + [last];
      ReinstateAllExact(before, known, foreign, chosen, most);
      ReinstatedOneMore(before, ReinstateAll(before, known, foreign, chosen, most).value, foreign, chosen, most, last);
    }
  }

  lemma {:induction false} ForeignIdFails(before: Rows, known: set<nat>, foreign: set<nat>, chosen: map<Path, nat>,
                                          paths: seq<Path>, p: Path)
    requires forall q :: q in paths ==> q in chosen
    requires p in paths && chosen[p] in foreign && chosen[p] !in known
    ensures ReinstateAll(before, known, foreign, chosen, paths) == None
  {
    if paths[|paths|-1] != p {
      assert p in paths[..|paths|-1];
      ForeignIdFails(before, known, foreign, chosen, paths[..|paths|-1], p);
    }
  }

  lemma TombstonedHasNoLive(rows: Rows, p: Path, id: nat)
    ensures !LiveAs(TombstoneAll(rows), p, id)
  {
  }

  lemma ReinstatedLive(rows: Rows, after: Rows, chosen: map<Path, nat>, paths: seq<Path>)
    requires forall p :: p in paths <==> p in chosen
    requires Reinstated(TombstoneAll(rows), after, chosen, paths)
    ensures UniqueLive(after) && Live(after) == chosen
  {
    forall p, id | LiveAs(after, p, id) ensures p in chosen && chosen[p] == id {
      if forall q :: q in paths ==> chosen[q] != id {
        TombstonedHasNoLive(rows, p, id);
      }
    }
    forall p ensures p in Live(after) <==> p in chosen {
      LiveMembers(after, p);
      if p in chosen { assert LiveAs(after, p, chosen[p]); }
    }
    forall p | p in chosen ensures Live(after)[p] == chosen[p] {
      LiveMembers(after, p);
    }
  }

  ghost predicate Usable(chosen: map<Path, nat>, foreign: set<nat>)
  {
    Injective(chosen) && forall q :: q in chosen ==> chosen[q] !in foreign
  }

  lemma UsableRestores(p: Paper, safety: ExactState, target: Manifest, chosen: map<Path, nat>, foreign: set<nat>)
    requires chosen.Keys == target.files.Keys && Usable(chosen, foreign)
    ensures var r := Materialize(p, safety, target, Live(p.rows).Keys, chosen, foreign);
            r.Ok? && UniqueLive(r.value.rows) && Live(r.value.rows) == chosen
  {
    var before, paths := TombstoneAll(p.rows), Listing(target.files.Keys);
    assert before.Keys == p.rows.Keys;
    ReinstateAllExact(before, p.rows.Keys, foreign, chosen, paths);
    ReinstatedLive(p.rows, ReinstateAll(before, p.rows.Keys, foreign, chosen, paths).value, chosen, paths);
  }

  lemma RestoredIsUsable(p: Paper, safety: ExactState, target: Manifest, chosen: map<Path, nat>, foreign: set<nat>)
    requires chosen.Keys == target.files.Keys && p.rows.Keys !! foreign
    requires Materialize(p, safety, target, Live(p.rows).Keys, chosen, foreign).Ok?
    requires Live(Materialize(p, safety, target, Live(p.rows).Keys, chosen, foreign).value.rows) == chosen
    ensures Usable(chosen, foreign)
  {
    var rows := Materialize(p, safety, target, Live(p.rows).Keys, chosen, foreign).value.rows;
    forall q | q in chosen ensures LiveAs(rows, q, chosen[q]) && chosen[q] !in foreign {
      LiveMembers(rows, q);
      if chosen[q] in foreign {
        ForeignIdFails(TombstoneAll(p.rows), p.rows.Keys, foreign, chosen, Listing(target.files.Keys), q);
      }
    }
  }

  /**
   * Paths and ids after a restoration are exactly the chosen ones if and only if no id is chosen twice or owned
   * elsewhere.
   */
  lemma RestoreIsExact(p: Paper, safety: ExactState, target: Manifest, minted: map<Path, nat>, foreign: set<nat>)
    requires target.files.Keys <= minted.Keys && p.rows.Keys !! foreign
    requires Plausible(safety) && safety.version == |p.log|
    ensures var chosen := Choices(target, Live(p.rows), minted);
            var r := Restore(p, safety, Stored(target), minted, foreign);
            (r.Ok? && Live(r.value.rows) == chosen) <==> Usable(chosen, foreign)
  {
    var chosen := Choices(target, Live(p.rows), minted);
    var r := Restore(p, safety, Stored(target), minted, foreign);
    if Usable(chosen, foreign) { UsableRestores(p, safety, target, chosen, foreign); }
    if r.Ok? && Live(r.value.rows) == chosen { RestoredIsUsable(p, safety, target, chosen, foreign); }
  }

  /** Recorded identities that cover the manifest injectively are all that is needed. */
  lemma CoveringIdentitiesRestore(p: Paper, safety: ExactState, target: Manifest, minted: map<Path, nat>,
                                  foreign: set<nat>)
    requires target.files.Keys <= minted.Keys && p.rows.Keys !! foreign && Plausible(safety)
             && safety.version == |p.log|
    requires target.files.Keys <= target.identities.Keys && Injective(target.identities)
    requires forall q :: q in target.files ==> target.identities[q] !in foreign
    ensures var r := Restore(p, safety, Stored(target), minted, foreign);
            r.Ok? && UniqueLive(r.value.rows)
            && Live(r.value.rows) == map q | q in target.files :: target.identities[q]
  {
    var chosen := Choices(target, Live(p.rows), minted);
    assert chosen == map q | q in target.files :: target.identities[q];
    assert Usable(chosen, foreign);
    UsableRestores(p, safety, target, chosen, foreign);
  }

  // --- the event rebuilds the manifest --------------------------------------------------------------

  lemma {:induction false} DeletionsReplay(s: W.State, paths: seq<Path>)
    requires forall i, j :: 0 <= i < j < |paths| ==> paths[i] != paths[j]
    ensures W.ApplyAll(s, Deletions(paths)).Some? <==> forall p :: p in paths ==> p in s.files
    ensures W.ApplyAll(s, Deletions(paths)).Some? ==>
              W.ApplyAll(s, Deletions(paths)).value.files == s.files - (set p | p in paths)
  {
    if paths != [] {
      var most, last := paths[..|paths|-1], paths[|paths|-1];
      assert paths == most + [last];
      DeletionsReplay(s, most);
      assert Deletions(paths)[..|Deletions(paths)|-1] == Deletions(most);
      assert last !in most;
      if W.ApplyAll(s, Deletions(most)).Some? {
        var mid := W.ApplyAll(s, Deletions(most)).value;
        assert last in mid.files <==> last in s.files;
        assert mid.files - {last} == s.files - (set p | p in paths);
      }
    } else {
      assert s.files - (set p | p in paths) == s.files;
    }
  }

  function Picked(files: map<Path, Content>, paths: seq<Path>): map<Path, Content>
    requires forall p :: p in paths ==> p in files
  {
    map p | p in paths :: files[p]
  }

  lemma PickedOneMore(held: map<Path, Content>, files: map<Path, Content>, most: seq<Path>, last: Path)
    requires last in files && forall p :: p in most ==> p in files
    ensures (held + Picked(files, most))[last := files[last]] == held + Picked(files, most + [last])
  {
  }

  lemma {:induction false} PutsReplay(s: W.State, files: map<Path, Content>, paths: seq<Path>)
    requires forall p :: p in paths ==> p in files
    ensures W.ApplyAll(s, Puts(files, paths)) == Some(W.State(s.files + Picked(files, paths), s.main))
  {
    if paths != [] {
      var most, last := paths[..|paths|-1], paths[|paths|-1];
      assert paths == most + [last];
      PutsReplay(s, files, most);
      assert Puts(files, paths)[..|Puts(files, paths)|-1] == Puts(files, most);
      PickedOneMore(s.files, files, most, last);
    } else {
      assert s.files + Picked(files, paths) == s.files;
    }
  }

  lemma DeletionHalf(s: W.State, live: set<Path>)
    ensures var r := W.ApplyAll(s, Deletions(Listing(live)));
            (r.Some? <==> live <= s.files.Keys) && (r.Some? ==> r.value.files == s.files - live)
  {
    var paths := Listing(live);
    DeletionsReplay(s, paths);
    assert (set p | p in paths) == live;
    assert (forall p :: p in paths ==> p in s.files) <==> live <= s.files.Keys;
  }

  lemma PutHalf(s: W.State, files: map<Path, Content>)
    ensures W.ApplyAll(s, Puts(files, Listing(files.Keys))) == Some(W.State(s.files + files, s.main))
  {
    PutsReplay(s, files, Listing(files.Keys));
    assert Picked(files, Listing(files.Keys)) == files;
  }

  lemma MainLast(s: W.State, ops: seq<W.Operation>, main: Path)
    ensures W.ApplyAll(s, ops + [W.SetMainFile(main)]) ==
            match W.ApplyAll(s, ops) { case None => None case Some(mid) => W.Apply(mid, W.SetMainFile(main)) }
  {
    assert (ops + [W.SetMainFile(main)])[..|ops|] == ops;
  }

  /**
   * The strict reader accepts the event exactly when every live path is in its tree, and then holds the manifest and
   * what was never live.
   */
  lemma RestoreEventReplays(s: W.State, live: set<Path>, m: Manifest)
    requires Sensible(m)
    ensures W.ApplyEvent(s, EventFor(live, m)).Some? <==> live <= s.files.Keys
    ensures W.ApplyEvent(s, EventFor(live, m)).Some? ==>
              W.ApplyEvent(s, EventFor(live, m)) == Some(W.State((s.files - live) + m.files, Some(m.main)))
  {
    var deletions, puts := Deletions(Listing(live)), Puts(m.files, Listing(m.files.Keys));
    DeletionHalf(s, live);
    W.ApplyAllConcat(s, deletions, puts);
    MainLast(s, deletions + puts, m.main);
    if live <= s.files.Keys {
      PutHalf(W.ApplyAll(s, deletions).value, m.files);
    }
  }

  // --- restoring the safety version undoes a restoration ----------------------------------------------

  /** What the caller's safety manifest records of a paper whose log replays to `s`. */
  ghost predicate Records(safety: Manifest, rows: Rows, s: W.State)
  {
    && safety.files == s.files
    && s.main == Some(safety.main)
    && safety.identities == Live(rows)
  }

  ghost predicate Tidy(p: Paper, s: W.State)
  {
    && W.Replay(p.log) == Some(s)
    && UniqueLive(p.rows)
    && Live(p.rows).Keys == s.files.Keys
  }

  lemma RowsSurvive(p: Paper, safety: ExactState, target: Manifest, minted: map<Path, nat>, foreign: set<nat>)
    requires target.files.Keys <= minted.Keys && Restore(p, safety, Stored(target), minted, foreign).Ok?
    ensures p.rows.Keys <= Restore(p, safety, Stored(target), minted, foreign).value.rows.Keys
    ensures Restore(p, safety, Stored(target), minted, foreign).value.rows.Keys !! foreign || !(p.rows.Keys !! foreign)
  {
    var before := TombstoneAll(p.rows);
    assert before.Keys == p.rows.Keys;
    KeysSurvive(before, p.rows.Keys, foreign, Choices(target, Live(p.rows), minted), Listing(target.files.Keys));
  }

  lemma {:induction false} KeysSurvive(rows: Rows, known: set<nat>, foreign: set<nat>, chosen: map<Path, nat>,
                                       paths: seq<Path>)
    requires forall p :: p in paths ==> p in chosen
    requires ReinstateAll(rows, known, foreign, chosen, paths).Some?
    ensures rows.Keys <= ReinstateAll(rows, known, foreign, chosen, paths).value.Keys
    ensures rows.Keys !! foreign ==> ReinstateAll(rows, known, foreign, chosen, paths).value.Keys !! foreign
  {
    if paths != [] {
      KeysSurvive(rows, known, foreign, chosen, paths[..|paths|-1]);
    }
  }

  /** A manifest whose recorded identities name each of its files once, none of them another workspace's. */
  ghost predicate Covers(m: Manifest, minted: map<Path, nat>, foreign: set<nat>)
  {
    && Sensible(m) && m.files.Keys <= minted.Keys
    && m.files.Keys <= m.identities.Keys && Injective(m.identities)
    && forall q :: q in m.files ==> m.identities[q] !in foreign
  }

  ghost function Recorded(m: Manifest): map<Path, nat>
    requires m.files.Keys <= m.identities.Keys
  {
    map q | q in m.files :: m.identities[q]
  }

  lemma AppendedEventReplays(log: seq<W.Event>, s: W.State, live: set<Path>, m: Manifest)
    requires W.Replay(log) == Some(s) && Sensible(m) && live == s.files.Keys
    ensures W.Replay(log + [EventFor(live, m)]) == Some(W.State(m.files, Some(m.main)))
  {
    RestoreEventReplays(s, live, m);
    assert (s.files - live) + m.files == m.files;
    assert (log + [EventFor(live, m)])[..|log|] == log;
  }

  /** One exact restoration: the target's paths, ids, contents and Main, and a paper that can be restored again. */
  lemma RestoreReaches(p: Paper, s: W.State, safety: ExactState, target: Manifest, minted: map<Path, nat>,
                       foreign: set<nat>)
    requires Tidy(p, s) && Plausible(safety) && safety.version == |p.log| && p.rows.Keys !! foreign
             && Covers(target, minted, foreign)
    ensures var r := Restore(p, safety, Stored(target), minted, foreign);
            && r.Ok? && |r.value.log| == |p.log| + 1 && r.value.epoch == p.epoch + 1
            && Tidy(r.value, W.State(target.files, Some(target.main)))
            && Live(r.value.rows) == Recorded(target)
            && r.value.rows.Keys !! foreign && p.rows.Keys <= r.value.rows.Keys
  {
    CoveringIdentitiesRestore(p, safety, target, minted, foreign);
    AppendedEventReplays(p.log, s, Live(p.rows).Keys, target);
    RowsSurvive(p, safety, target, minted, foreign);
  }

  lemma LiveIsInjective(rows: Rows)
    ensures Injective(Live(rows))
  {
    forall a, b | a in Live(rows) && b in Live(rows) && a != b ensures Live(rows)[a] != Live(rows)[b] {
      LiveMembers(rows, a);
      LiveMembers(rows, b);
    }
  }

  lemma SafetyCovers(p: Paper, s: W.State, safety: Manifest, minted: map<Path, nat>, foreign: set<nat>)
    requires Tidy(p, s) && p.rows.Keys !! foreign && W.MainLives(s)
    requires Records(safety, p.rows, s) && safety.files.Keys <= minted.Keys
    ensures Covers(safety, minted, foreign) && Recorded(safety) == Live(p.rows)
    ensures W.State(safety.files, Some(safety.main)) == s
  {
    LiveIsInjective(p.rows);
    forall q | q in safety.files ensures safety.identities[q] !in foreign {
      LiveMembers(p.rows, q);
    }
  }

  // --- what is recorded -------------------------------------------------------------------------------

  lemma {:induction false} NumberIsFree(versions: seq<Version>)
    ensures forall v :: v in versions ==> v.number < NextNumber(versions)
    ensures NextNumber(versions) == 1 || exists v :: v in versions && v.number + 1 == NextNumber(versions)
  {
    if versions != [] {
      var most, last := versions[..|versions|-1], versions[|versions|-1];
      assert versions == most + [last];
      NumberIsFree(most);
    }
  }

  /**
   * A restoration keeps every version and adds two, under new numbers: the state before it, as the caller recorded it,
   * and the state after it, each with the log length and the epoch it belongs to.
   */
  lemma VersionsAreRecorded(p: Paper, safety: ExactState, target: Manifest, minted: map<Path, nat>, foreign: set<nat>)
    requires target.files.Keys <= minted.Keys && Restore(p, safety, Stored(target), minted, foreign).Ok?
    ensures var after := Restore(p, safety, Stored(target), minted, foreign).value;
            && |after.versions| == |p.versions| + 2 && after.versions[..|p.versions|] == p.versions
            && var before, restored := after.versions[|p.versions|], after.versions[|p.versions|+1];
            && before.manifest == safety.manifest && before.epoch == safety.epoch && before.workspaceVersion == |p.log|
            && restored.manifest == target && restored.epoch == after.epoch && restored.workspaceVersion == |after.log|
            && restored.number > before.number && forall v :: v in p.versions ==> v.number < before.number
  {
    NumberIsFree(p.versions);
  }

  /** A live file that stays counts two changes, one that goes one, one that comes back one, a new one starts at one. */
  function Counted(before: Rows, known: bool, chosen: bool, id: nat): nat
    requires known ==> id in before
  {
    if !known then 1
    else before[id].revision + (if before[id].tombstoned then 0 else 1) + (if chosen then 1 else 0)
  }

  ghost predicate Picks(chosen: map<Path, nat>, paths: seq<Path>, id: nat)
  {
    exists p :: p in paths && p in chosen && chosen[p] == id
  }

  lemma PicksPush(chosen: map<Path, nat>, most: seq<Path>, last: Path, id: nat)
    requires last in chosen
    ensures Picks(chosen, most + [last], id) <==> Picks(chosen, most, id) || chosen[last] == id
    ensures Injective(chosen) && last !in most && chosen[last] == id ==> !Picks(chosen, most, id)
  {
    assert last in most + [last];
    if Picks(chosen, most, id) {
      var p :| p in most && p in chosen && chosen[p] == id;
      assert p in most + [last];
    }
  }

  ghost predicate Advanced(before: Rows, after: Rows, picked: bool, id: nat)
  {
    && (id in after <==> id in before || picked)
    && (id in before && id in after && !picked ==> after[id].tombstoned && after[id].path == before[id].path)
    && (id in after ==> after[id].revision == Counted(before, id in before, picked, id))
  }

  lemma OneAdvances(before: Rows, mid: Rows, foreign: set<nat>, last: Path, pick: nat, picked: bool, id: nat)
    requires Advanced(before, mid, picked, id) && (pick == id ==> !picked)
    requires Reinstate(mid, before.Keys, foreign, last, pick).Some?
    ensures Advanced(before, Reinstate(mid, before.Keys, foreign, last, pick).value, picked || pick == id, id)
  {
  }

  lemma {:induction false} ReinstatedRevisions(before: Rows, foreign: set<nat>, chosen: map<Path, nat>,
                                               paths: seq<Path>, id: nat)
    requires (forall p :: p in paths ==> p in chosen) && Injective(chosen)
    requires forall i, j :: 0 <= i < j < |paths| ==> paths[i] != paths[j]
    requires ReinstateAll(TombstoneAll(before), before.Keys, foreign, chosen, paths).Some?
    ensures Advanced(before, ReinstateAll(TombstoneAll(before), before.Keys, foreign, chosen, paths).value,
                     Picks(chosen, paths, id), id)
  {
    if paths != [] {
      var most, last := paths[..|paths|-1], paths[|paths|-1];
      assert paths == most + [last] && last !in most;
      ReinstatedRevisions(before, foreign, chosen, most, id);
      PicksPush(chosen, most, last, id);
      OneAdvances(before, ReinstateAll(TombstoneAll(before), before.Keys, foreign, chosen, most).value, foreign, last,
                  chosen[last], Picks(chosen, most, id), id);
    }
  }

  /** Every change of a file advances its revision by one, so two readers of a restored file never mistake it. */
  lemma RevisionsAdvance(p: Paper, safety: ExactState, target: Manifest, minted: map<Path, nat>, foreign: set<nat>,
                         id: nat)
    requires target.files.Keys <= minted.Keys && Injective(Choices(target, Live(p.rows), minted))
    requires Restore(p, safety, Stored(target), minted, foreign).Ok?
    ensures Advanced(p.rows, Restore(p, safety, Stored(target), minted, foreign).value.rows,
                     Picks(Choices(target, Live(p.rows), minted), Listing(target.files.Keys), id), id)
  {
    ReinstatedRevisions(p.rows, foreign, Choices(target, Live(p.rows), minted), Listing(target.files.Keys), id);
  }

  /** A path without a recorded identity keeps the file that is live there, or gets a new one. */
  lemma UnrecordedKeepsId(p: Paper, safety: ExactState, target: Manifest, minted: map<Path, nat>, foreign: set<nat>,
                          path: Path)
    requires target.files.Keys <= minted.Keys && p.rows.Keys !! foreign && Plausible(safety)
             && safety.version == |p.log| && Usable(Choices(target, Live(p.rows), minted), foreign)
    requires path in target.files && path !in target.identities
    ensures var r := Restore(p, safety, Stored(target), minted, foreign);
            r.Ok? && path in Live(r.value.rows)
            && Live(r.value.rows)[path] == if path in Live(p.rows) then Live(p.rows)[path] else minted[path]
  {
    RestoreIsExact(p, safety, target, minted, foreign);
  }

  /** Every refusal names what is wrong, and nothing else is refused. */
  lemma RestoreRefusals(p: Paper, safety: ExactState, target: Target, minted: map<Path, nat>, foreign: set<nat>)
    requires target.Stored? ==> target.manifest.files.Keys <= minted.Keys
    ensures match Restore(p, safety, target, minted, foreign) {
      case Ok(_) => safety.version != 0 && LogicalPaths.Bytes(safety.hash) == 64 && safety.version == |p.log|
                    && target.Stored?
      case Err(InvalidSafety) => safety.version == 0 || LogicalPaths.Bytes(safety.hash) != 64
      case Err(VersionConflict(actual)) => actual == |p.log| != safety.version
      case Err(MissingTarget) => target.NoSuchVersion?
      case Err(InvalidManifest) => target.Unreadable?
      case Err(DuplicateId) => target.Stored? && p.rows.Keys !! foreign ==> !Usable(Choices(target.manifest,
                                                                                Live(p.rows), minted), foreign)
    }
  {
    if target.Stored? && Usable(Choices(target.manifest, Live(p.rows), minted), foreign) {
      UsableRestores(p, safety, target.manifest, Choices(target.manifest, Live(p.rows), minted), foreign);
    }
  }

  /** Restoring the version row recorded for the state before brings back its paths, ids, contents and Main. */
  lemma SafetyVersionUndoes(p: Paper, s: W.State, safety: ExactState, target: Manifest, later: ExactState,
                            minted: map<Path, nat>, reminted: map<Path, nat>, foreign: set<nat>)
    requires Tidy(p, s) && Plausible(safety) && safety.version == |p.log| && Plausible(later)
             && later.version == |p.log| + 1
    requires p.rows.Keys !! foreign && W.MainLives(s)
    requires Covers(target, minted, foreign)
    requires Records(safety.manifest, p.rows, s) && safety.manifest.files.Keys <= reminted.Keys
    ensures var once := Restore(p, safety, Stored(target), minted, foreign);
            && once.Ok?
            && |p.versions| < |once.value.versions|
            && once.value.versions[|p.versions|].manifest.files.Keys <= reminted.Keys
            && var twice := Restore(once.value, later, Stored(once.value.versions[|p.versions|].manifest), reminted,
                                    foreign);
            && twice.Ok?
            && Live(twice.value.rows) == Live(p.rows)
            && Tidy(twice.value, s)
            && twice.value.epoch == p.epoch + 2
  {
    RestoreReaches(p, s, safety, target, minted, foreign);
    SafetyCovers(p, s, safety.manifest, reminted, foreign);
    VersionsAreRecorded(p, safety, target, minted, foreign);
    var once := Restore(p, safety, Stored(target), minted, foreign).value;
    RestoreReaches(once, W.State(target.files, Some(target.main)), later, safety.manifest, reminted, foreign);
  }
}
