/** apply_restore as the transaction performs it on a paper's tables. */
module PaperStores {
  import opened Common
  import opened PathOrder
  import opened Restoration
  import W = Workspace
  import LogicalPaths

  class PaperStore {
    var rows: Rows
    var log: seq<W.Event>
    var epoch: nat
    var versions: seq<Version>

    ghost function State(): Paper
      reads this
    {
      Paper(rows, log, epoch, versions)
    }

    constructor (rows: Rows, log: seq<W.Event>)
      ensures State() == Paper(rows, log, 1, [])
    {
      this.rows, this.log, this.epoch, this.versions := rows, log, 1, [];
    }

    /** The read of every row into the map of live paths. */
    method ReadLivePaths() returns (live: map<Path, nat>)
      requires UniqueLive(rows)
      ensures live == Live(rows)
    {
      live := map[];
      var unread := rows.Keys;
      while unread != {}
        invariant unread <= rows.Keys
        invariant forall id :: id in rows && id !in unread && !rows[id].tombstoned ==> rows[id].path in live
        invariant forall p :: p in live ==> LiveAs(rows, p, live[p])
        decreases |unread|
      {
        var id :| id in unread;
        unread := unread - {id};
        if !rows[id].tombstoned {
          live := live[rows[id].path := id];
        }
      }
      forall p ensures p in live <==> p in Live(rows) {
        LiveMembers(rows, p);
      }
      forall p | p in live ensures live[p] == Live(rows)[p] {
        LiveMembers(rows, p);
      }
    }

    /** Deletes for every live path, in path order. */
    method DeleteOperations(live: map<Path, nat>) returns (operations: seq<W.Operation>)
      ensures operations == Deletions(Listing(live.Keys))
    {
      operations := [];
      var paths := Listing(live.Keys);
      for i := 0 to |paths|
        invariant operations == Deletions(paths[..i])
      {
        assert paths[..i+1][..i] == paths[..i];
        operations := operations + [W.DeleteFile(paths[i])];
      }
      assert paths[..|paths|] == paths;
    }

    /** UPDATE a row that was read, or INSERT a new one; a used id violates the primary key. */
    method WriteRow(known: set<nat>, foreign: set<nat>, p: Path, id: nat) returns (ok: bool)
      modifies `rows
      ensures Reinstate(old(rows), known, foreign, p, id) == if ok then Some(rows) else None
    {
      if id in known {
        if id in rows {
          rows := rows[id := FileRow(p, false, rows[id].revision + 1)];
        }
        return true;
      }
      if id in rows || id in foreign {
        return false;
      }
      rows := rows[id := FileRow(p, false, 1)];
      ok := true;
    }

    /** The loop over the manifest: choose an id, revive or insert its row, record the content. */
    method ReinstateFiles(known: set<nat>, live: map<Path, nat>, target: Manifest, minted: map<Path, nat>,
                          foreign: set<nat>,
                          paths: seq<Path>, ghost chosen: map<Path, nat>)
      returns (ok: bool, puts: seq<W.Operation>)
      requires forall p :: p in paths ==> p in target.files && p in minted && p in chosen
      requires forall p :: p in paths ==> chosen[p] == Choice(target, live, minted, p)
      modifies `rows
      ensures ReinstateAll(old(rows), known, foreign, chosen, paths) == if ok then Some(rows) else None
      ensures ok ==> puts == Puts(target.files, paths)
    {
      puts := [];
      ghost var start := rows;
      for i := 0 to |paths|
        invariant ReinstateAll(start, known, foreign, chosen, paths[..i]) == Some(rows)
        invariant puts == Puts(target.files, paths[..i])
      {
        assert paths[..i+1][..i] == paths[..i];
        var p := paths[i];
        assert p in paths;
        var id := if p in target.identities then target.identities[p] else if p in live then live[p] else minted[p];
        ok := WriteRow(known, foreign, p, id);
        if !ok {
          ReinstateStops(start, known, foreign, chosen, paths, i + 1);
          return false, [];
        }
        puts := puts + [W.PutFile(p, target.files[p])];
      }
      assert paths[..|paths|] == paths;
      ok := true;
    }

    /** COALESCE(max(version_number), 0) + 1 */
    method FreeNumber() returns (number: nat)
      ensures number == NextNumber(versions)
    {
      number := 1;
      for i := 0 to |versions|
        invariant number == NextNumber(versions[..i])
      {
        assert versions[..i+1][..i] == versions[..i];
        if versions[i].number + 1 > number {
          number := versions[i].number + 1;
        }
      }
      assert versions[..|versions|] == versions;
    }

    method ApplyRestore(safety: ExactState, target: Target, minted: map<Path, nat>, foreign: set<nat>)
      returns (failure: Option<Failure>)
      requires UniqueLive(rows) && (target.Stored? ==> target.manifest.files.Keys <= minted.Keys)
      modifies this
      ensures Restore(old(State()), safety, target, minted, foreign) ==
              if failure.Some? then Err(failure.value) else Ok(State())
      ensures failure.Some? ==> State() == old(State())
    {
      if safety.version == 0 || LogicalPaths.Bytes(safety.hash) != 64 {
        return Some(InvalidSafety);
      }
      if safety.version != |log| {
        return Some(VersionConflict(|log|));
      }
      if target.NoSuchVersion? {
        return Some(MissingTarget);
      }
      if target.Unreadable? {
        return Some(InvalidManifest);
      }
      var live := ReadLivePaths();
      failure := Cutover(live, safety, target.manifest, minted, foreign, Choices(target.manifest, live, minted));
    }

    method Cutover(live: map<Path, nat>, safety: ExactState, target: Manifest, minted: map<Path, nat>,
                   foreign: set<nat>,
                   ghost chosen: map<Path, nat>)
      returns (failure: Option<Failure>)
      requires target.files.Keys <= minted.Keys && chosen == Choices(target, live, minted)
      modifies this
      ensures Materialize(old(State()), safety, target, live.Keys, chosen, foreign) ==
              if failure.Some? then Err(failure.value) else Ok(State())
      ensures failure.Some? ==> State() == old(State())
    {
      var number := FreeNumber();
      var ok, event := RewriteRows(live, target, minted, foreign, chosen);
      if !ok {
        return Some(DuplicateId);
      }
      Record(number, event, safety, target);
      failure := None;
    }

    /** Tombstone every live row, then bring the manifest's files back; a failed insert rolls both back. */
    method RewriteRows(live: map<Path, nat>, target: Manifest, minted: map<Path, nat>, foreign: set<nat>,
                       ghost chosen: map<Path, nat>)
      returns (ok: bool, event: W.Event)
      requires target.files.Keys <= minted.Keys && chosen == Choices(target, live, minted)
      modifies `rows
      ensures ReinstateAll(TombstoneAll(old(rows)), old(rows).Keys, foreign, chosen, Listing(target.files.Keys))
              == if ok then Some(rows) else None
      ensures !ok ==> rows == old(rows)
      ensures ok ==> event == EventFor(live.Keys, target)
    {
      var known, saved := rows.Keys, rows;
      rows := map id | id in saved :: Tombstone(saved[id]);
      assert rows == TombstoneAll(saved);
      var operations := DeleteOperations(live);
      var puts;
      ok, puts := ReinstateFiles(known, live, target, minted, foreign, Listing(target.files.Keys), chosen);
      event := operations + puts + [W.SetMainFile(target.main)];
      if !ok {
        rows := saved;
      }
    }

    /** The event, the epoch and the two version rows. */
    method Record(number: nat, event: W.Event, safety: ExactState, target: Manifest)
      requires number == NextNumber(versions)
      modifies `log, `epoch, `versions
      ensures State() == Concluded(old(State()), rows, event, safety, target)
    {
      versions := versions + [Version(number, safety.epoch, |log|, safety.manifest)];
      log := log + [event];
      epoch := epoch + 1;
      versions := versions + [Version(number + 1, epoch, |log|, target)];
    }
  }

  lemma {:induction false} ReinstateStops(rows: Rows, known: set<nat>, foreign: set<nat>, chosen: map<Path, nat>,
                                          paths: seq<Path>, n: nat)
    requires forall p :: p in paths ==> p in chosen
    requires n <= |paths| && ReinstateAll(rows, known, foreign, chosen, paths[..n]) == None
    ensures ReinstateAll(rows, known, foreign, chosen, paths) == None
    decreases |paths| - n
  {
    if n == |paths| {
      assert paths[..n] == paths;
    } else {
      assert paths[..n+1][..n] == paths[..n];
      ReinstateStops(rows, known, foreign, chosen, paths, n + 1);
    }
  }
}
