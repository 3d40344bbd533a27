/**
 * The installation code itself: durable fields changed in place, one plugin. Every write is tied to
 * one step of the protocol, so each state the disk passes through is one that a run reaches.
 */
module ManagedStorage {
  import opened Results
  import opened Ids
  import opened ManagedTypes
  import opened Installation
  import opened InstallationSafety
  import opened InstallationTheorems
  import opened InstallationOutcome
  import opened FinalDisks

  class Storage {
    const id: Id
    var dirs: map<Path, Package>
    var registry: Registry
    var journal: Option<Journal>
    var checkpoint: Option<Checkpoint>
    ghost var start: System
    ghost var trace: seq<Action>
    ghost var system: System

    /** The fields are the disk of the system that the recorded run has reached. */
    ghost predicate Valid()
      reads this
    {
      && Initial(start) && Inv(system)
      && system == Run(start, trace)
      && system.id == id
      && system.disk == Disk(dirs, registry, journal, checkpoint)
    }

    constructor (id: Id, dirs: map<Path, Package>, registry: Registry, checkpoint: Option<Checkpoint>)
      ensures Valid() && this.id == id && system.act.Idle?
      ensures system.disk == Disk(dirs, registry, None, checkpoint)
    {
      this.id := id;
      this.dirs, this.registry, this.journal, this.checkpoint := dirs, registry, None, checkpoint;
      start := System(id, Disk(dirs, registry, None, checkpoint), Idle, None, NotStarted, false, None);
      system := System(id, Disk(dirs, registry, None, checkpoint), Idle, None, NotStarted, false, None);
      trace := [];
    }

    /** Record one step of the protocol. */
    ghost method Note(a: Action)
      requires Initial(start) && system == Run(start, trace) && Inv(system)
      modifies this`system, this`trace
      ensures system == Step(old(system), a) && Inv(system) && trace == old(trace) + [a]
      ensures system == Run(start, trace) && system.id == old(system).id
    {
      StepKeeps(system, a);
      StepKeepsId(system, a);
      RunExtends(start, trace, a);
      system, trace := Step(system, a), trace + [a];
    }

    /** Whether the operating system carries out the next request. */
    method IoSucceeds() returns (ok: bool)
    {
      ok := *;
    }

    // ----- durable writes, each one step

    method WriteJournal(j: Journal) returns (ok: bool)
      requires Valid() && Advance(system).disk == system.disk.(journal := Some(j))
      modifies this
      ensures Valid() && start == old(start) && Steps(old(trace), trace)
      ensures system == if ok then Advance(old(system)) else Fail(old(system))
    {
      ok := IoSucceeds();
      if ok {
        journal := Some(j);
        Note(AdvanceAction);
      } else {
        FailKeepsDisk(system);
        Note(FailAction);
      }
    }

    method RemoveJournal() returns (ok: bool)
      requires Valid() && Advance(system).disk == system.disk.(journal := None)
      modifies this
      ensures Valid() && start == old(start) && Steps(old(trace), trace)
      ensures system == if ok then Advance(old(system)) else Fail(old(system))
    {
      ok := IoSucceeds();
      if ok {
        journal := None;
        Note(AdvanceAction);
      } else {
        FailKeepsDisk(system);
        Note(FailAction);
      }
    }

    method RemoveCheckpoint() returns (ok: bool)
      requires Valid() && Advance(system).disk == system.disk.(checkpoint := None)
      modifies this
      ensures Valid() && start == old(start) && Steps(old(trace), trace)
      ensures system == if ok then Advance(old(system)) else Fail(old(system))
    {
      ok := IoSucceeds();
      if ok {
        checkpoint := None;
        Note(AdvanceAction);
      } else {
        FailKeepsDisk(system);
        Note(FailAction);
      }
    }

    method Rename(from: Path, to: Path) returns (ok: bool)
      requires Valid() && CanMove(system.disk, from, to) && Advance(system).disk == Move(system.disk, from, to)
      modifies this
      ensures Valid() && start == old(start) && Steps(old(trace), trace)
      ensures system == if ok then Advance(old(system)) else Fail(old(system))
    {
      ok := IoSucceeds();
      if ok {
        dirs := (dirs - {from})[to := dirs[from]];
        Note(AdvanceAction);
      } else {
        FailKeepsDisk(system);
        Note(FailAction);
      }
    }

    method RemoveDirectory(path: Path) returns (ok: bool)
      requires Valid() && Advance(system).disk == Remove(system.disk, path)
      modifies this
      ensures Valid() && start == old(start) && Steps(old(trace), trace)
      ensures system == if ok then Advance(old(system)) else Fail(old(system))
    {
      ok := IoSucceeds();
      if ok {
        dirs := dirs - {path};
        Note(AdvanceAction);
      } else {
        FailKeepsDisk(system);
        Note(FailAction);
      }
    }

    /** The registry's compare-and-save, already found to match. */
    method SaveEntry(e: Entry) returns (ok: bool)
      requires Valid() && Advance(system).disk == Store(system.disk, id, e)
      modifies this
      ensures Valid() && start == old(start) && Steps(old(trace), trace)
      ensures system == if ok then Advance(old(system)) else Fail(old(system))
    {
      ok := IoSucceeds();
      if ok {
        registry := registry[id := e];
        Note(AdvanceAction);
      } else {
        FailKeepsDisk(system);
        Note(FailAction);
      }
    }

    /** A check or a decision that writes nothing. */
    ghost method Decide()
      requires Valid() && Advance(system).disk == system.disk
      modifies this`system, this`trace
      ensures Valid() && start == old(start) && system == Advance(old(system)) && Steps(old(trace), trace)
    {
      Note(AdvanceAction);
    }

    // ----- cleanup and rollback

    /** The cleanup loop; every directory it removes belongs to the plugin and is neither target nor registered. */
    method CleanPaths(j: Journal) returns (ok: bool)
      requires Valid() && system.act == Sweeping(j)
      modifies this
      ensures Valid() && start == old(start) && Steps(old(trace), trace) && registry == old(registry)
      ensures ok ==> system.act == Cleaning(j, [], RegisteredPaths(registry))
      ensures !ok ==> system.act.Idle?
    {
      var rest := Obsolete(j);
      var registered := RegisteredPaths(registry);
      Decide();
      while rest != []
        invariant Valid() && start == old(start) && registry == old(registry) && Steps(old(trace), trace)
        invariant system.act == Cleaning(j, rest, registered)
        decreases |rest|
      {
        ok := CleanPath(j, rest, registered);
        if !ok { return; }
        rest := rest[1..];
      }
      ok := true;
    }

    method CleanPath(j: Journal, rest: seq<Path>, registered: set<Path>) returns (ok: bool)
      requires Valid() && system.act == Cleaning(j, rest, registered) && rest != []
      modifies this
      ensures Valid() && start == old(start) && registry == old(registry) && Steps(old(trace), trace)
      ensures ok ==> system.act == Cleaning(j, rest[1..], registered)
      ensures !ok ==> system.act.Idle?
    {
      var path := rest[0];
      if Spared(j, registered, path) || path !in dirs {
        Decide();
        return true;
      }
      if dirs[path].manifest.id != id {
        Decide();
        return false;
      }
      ok := RemoveDirectory(path);
    }

    method RemoveNewPackage(loaded: Entry, j: Journal) returns (ok: bool)
      requires Valid() && system.act == RollingBack(RemoveNew(loaded), j)
      modifies this
      ensures Valid() && start == old(start) && Steps(old(trace), trace)
      ensures ok ==> system.act == RollingBack(MoveBack(loaded, old(BackupExists(system.disk, j))), j)
      ensures !ok ==> system.act.Idle?
    {
      var disk := Disk(dirs, registry, journal, checkpoint);
      if !CanRestore(disk, j) {
        Decide();
        return false;
      }
      if !TargetIsNew(disk, j) {
        Decide();
        return true;
      }
      if dirs[j.target].source != j.source || dirs[j.target].manifest.id != id {
        Decide();
        return false;
      }
      ok := RemoveDirectory(j.target);
    }

    method RestoreBackup(loaded: Entry, j: Journal, backupSeen: bool) returns (ok: bool)
      requires Valid() && system.act == RollingBack(MoveBack(loaded, backupSeen), j)
      modifies this
      ensures Valid() && start == old(start) && Steps(old(trace), trace)
      ensures ok ==> system.act == RollingBack(Restore(loaded), j)
      ensures !ok ==> system.act.Idle?
    {
      if !backupSeen {
        Decide();
        return true;
      }
      if j.backup.Some? && j.backup.value in dirs && j.target !in dirs && dirs[j.backup.value].manifest.id == id {
        ok := Rename(j.backup.value, j.target);
      } else {
        Decide();
        return false;
      }
    }

    method RestoreEntry(loaded: Entry, j: Journal) returns (ok: bool)
      requires Valid() && system.act == RollingBack(Restore(loaded), j)
      modifies this
      ensures Valid() && start == old(start) && Steps(old(trace), trace)
      ensures ok ==> system.act == Sweeping(j) && EntryOf(registry, id) == j.previous
      ensures !ok ==> system.act.Idle?
    {
      if !SameTrust(EntryOf(registry, id), loaded) {
        Decide();
        return false;
      }
      ok := SaveEntry(j.previous);
    }

    /** Files first, then the registration. */
    method RestorePrevious(loaded: Entry, j: Journal) returns (ok: bool)
      requires Valid() && system.act == RollingBack(RemoveNew(loaded), j)
      modifies this
      ensures Valid() && start == old(start) && Steps(old(trace), trace)
      ensures ok ==> system.act == Sweeping(j) && EntryOf(registry, id) == j.previous
      ensures !ok ==> system.act.Idle?
    {
      var backupSeen := BackupExists(Disk(dirs, registry, journal, checkpoint), j);
      ok := RemoveNewPackage(loaded, j);
      if !ok { return; }
      ok := RestoreBackup(loaded, j, backupSeen);
      if !ok { return; }
      ok := RestoreEntry(loaded, j);
    }

    method FinishRollback(j: Journal) returns (ok: bool)
      requires Valid() && system.act == Sweeping(j) && !j.committed
      modifies this
      ensures Valid() && start == old(start) && Steps(old(trace), trace) && registry == old(registry)
      ensures system.act.Idle?
      ensures ok ==> journal.None? && system.outcome == RolledBack
    {
      ok := CleanPaths(j);
      if !ok { return; }
      Decide();
      ok := RemoveJournal();
    }

    /**
     * Undo an uncommitted installation; refuses, with nothing changed, on an entry the journal does not
     * list. A rollback that gets through leaves exactly the final disk of its journal.
     */
    method Rollback(j: Journal) returns (ok: bool)
      requires Valid() && system.act == RollingBack(CheckEntry, j) && !j.committed
      modifies this
      ensures Valid() && start == old(start) && Steps(old(trace), trace) && system.act.Idle?
      ensures ok ==> journal.None? && system.outcome == RolledBack && EntryOf(registry, id) == j.previous
      ensures ok && old(journal) == Some(j) ==> system.disk == FinalDisk(old(system.disk), j, id)
      ensures ok && old(journal) == Some(j) ==>
                && registry == old(registry)[id := j.previous] && TargetRestored(old(system.disk), j, system.disk)
                && forall p | p in old(dirs) && p != j.target && Some(p) != j.backup ::
                     p !in dirs <==> CopyTaken(j, registry, p)
      ensures old(EntryOf(registry, id)) !in j.allowed ==> !ok && system.disk == old(system.disk)
    {
      ghost var before, known, first := trace, journal == Some(j), system;
      ghost var end := FinalDisk(system.disk, j, id);
      assert known ==> Heading(system, j, end);
      var loaded := EntryOf(registry, id);
      Decide();
      if loaded !in j.allowed { return false; }
      ok := RestorePrevious(loaded, j);
      if !ok { return; }
      ok := FinishRollback(j);
      if known {
        StepsArrive(start, before, trace, j, end);
        RolledBackDiskIsExact(first.disk, first.tx.value, j, id);
      }
    }

    // ----- commit

    /** The seed directory an adopted plugin came from. */
    method CleanSeed(j: Journal) returns (ok: bool)
      requires Valid() && system.act == CleaningSeed(j) && j.previous.local.Some?
      modifies this
      ensures Valid() && start == old(start) && Steps(old(trace), trace)
      ensures ok ==> system.act == Retiring(j)
      ensures !ok ==> system.act.Idle?
    {
      var path := j.previous.local.value.path;
      if exists r | r in RegisteredPaths(registry) :: Overlaps(r, path) {
        Decide();
        return false;
      }
      if path !in dirs {
        Decide();
        return true;
      }
      if !dirs[path].official {
        Decide();
        return false;
      }
      ok := RemoveDirectory(path);
    }

    method CleanObsolete(j: Journal) returns (ok: bool)
      requires Valid() && system.act == Sweeping(j) && j.committed
      modifies this
      ensures Valid() && start == old(start) && Steps(old(trace), trace)
      ensures ok ==> system.act == Retiring(j)
      ensures !ok ==> system.act.Idle?
    {
      ok := CleanPaths(j);
      if !ok { return; }
      Decide();
      if j.previous.managed.None? && j.previous.local.Some? {
        ok := CleanSeed(j);
      }
    }

    /** Sweep and retire a committed journal: exactly what it supersedes goes, and the journal. */
    method FinishCommit(j: Journal) returns (ok: bool)
      requires Valid() && system.act == Sweeping(j) && j.committed && journal == Some(j)
      modifies this
      ensures Valid() && start == old(start) && Steps(old(trace), trace) && system.act.Idle?
      ensures ok ==> journal.None? && system.outcome == Committed && system.disk == FinalDisk(old(system.disk), j, id)
      ensures ok ==> registry == old(registry) && forall p | p in old(dirs) :: p !in dirs <==> SweptAway(j, old(registry), p)
    {
      ghost var before, first := trace, system.disk;
      assert Heading(system, j, FinalDisk(first, j, id));
      ok := CleanObsolete(j);
      if !ok { return; }
      ok := RemoveJournal();
      StepsArrive(start, before, trace, j, FinalDisk(first, j, id));
      CommittedDiskIsExact(first, j, id);
    }

    /**
     * Make the installation final: exactly on a listed entry, and then never undone. A commit that
     * gets through leaves exactly the final disk of its journal: nothing superseded, everything else.
     */
    method CommitInstallation(j: Journal) returns (ok: bool)
      requires Valid() && system.act == Installed(j)
      modifies this
      ensures Valid() && start == old(start)
      ensures system.act.Idle?
      ensures ok ==> journal.None? && system.outcome == Committed
      ensures ok ==> system.disk == FinalDisk(old(system.disk), j.(committed := true), id)
      ensures ok ==> registry == old(registry)
                     && forall p | p in old(dirs) :: p !in dirs <==> SweptAway(j.(committed := true), old(registry), p)
      ensures old(EntryOf(registry, id)) !in j.allowed ==> !ok && system.disk == old(system.disk)
    {
      var loaded := EntryOf(registry, id);
      Note(CommitAction);
      if loaded !in j.allowed { return false; }
      ghost var first := system.disk;
      ok := WriteJournal(j.(committed := true));
      if !ok { return; }
      SameEnd(first, system.disk, j.(committed := true), id);
      ok := FinishCommit(j.(committed := true));
    }

    // ----- publish

    /** Record the previous state before the planner saves a staged registration. */
    method CheckpointRegistration(candidate: Entry, previous: Entry) returns (ok: bool)
      requires Valid() && system.act.Idle?
      modifies this
      ensures Valid() && start == old(start) && system.act.Idle?
      ensures ok ==> journal.None? && checkpoint == Some(Checkpoint(candidate, previous)) && old(checkpoint).None?
      ensures !ok ==> system == old(system)
    {
      if journal.Some? || checkpoint.Some? { return false; }
      ok := IoSucceeds();
      if ok {
        checkpoint := Some(Checkpoint(candidate, previous));
        Note(CheckpointAction(candidate, previous));
      }
    }

    /** The earlier checkpoint goes before any file moves; a later registration change keeps it and stops. */
    method ClearCheckpointFile(tx: Tx, j: Journal) returns (ok: bool)
      requires Valid() && system.act == Publishing(ClearCheckpoint, j) && system.tx == Some(tx)
      modifies this
      ensures Valid() && start == old(start) && system.tx == Some(tx)
      ensures ok ==> checkpoint.None? && system.act == Publishing(MoveAside, j)
      ensures !ok ==> system.act.Idle?
      ensures dirs == old(dirs) && registry == old(registry)
    {
      if checkpoint.None? {
        Decide();
        return true;
      }
      if tx.candidate != checkpoint.value.candidate && tx.candidate != checkpoint.value.previous {
        Decide();
        return false;
      }
      ok := RemoveCheckpoint();
    }

    /** The two renames; on failure the caller rolls back. */
    method SwapDirectories(tx: Tx, j: Journal) returns (ok: bool)
      requires Valid() && system.act == Publishing(MoveAside, j) && system.tx == Some(tx)
      modifies this
      ensures Valid() && start == old(start) && system.tx == Some(tx)
      ensures ok ==> system.act == Publishing(Restage, j)
      ensures !ok ==> system.act == RollingBack(CheckEntry, j)
      ensures registry == old(registry)
      ensures ok && j.ready in old(dirs) ==> dirs == Swapped(old(dirs), j.target, j.ready, j.backup)
      ensures ok && j.ready in old(dirs) ==> old(dirs)[j.ready].manifest.id == id
    {
      if j.backup.Some? {
        ok := Rename(j.target, j.backup.value);
        if !ok { return; }
      } else {
        Decide();
      }
      if j.ready in dirs && j.target !in dirs && dirs[j.ready].manifest.id == id {
        ok := Rename(j.ready, j.target);
      } else {
        Decide();
        ok := false;
      }
    }

    /** Extend the journal's list with the new entry, then save that entry. */
    method SaveInstalledEntry(tx: Tx, j: Journal) returns (ok: bool, extended: Journal)
      requires Valid() && system.act == Publishing(Restage, j) && system.tx == Some(tx)
      modifies this
      ensures Valid() && start == old(start) && system.tx == Some(tx)
      ensures ok ==> system.act == Installed(extended) && SameTrust(EntryOf(registry, id), tx.next)
      ensures !ok ==> system.act == RollingBack(CheckEntry, extended)
      ensures dirs == old(dirs)
      ensures ok ==> registry == old(registry)[id := SavedEntry(tx, old(EntryOf(registry, id)))]
      ensures ok ==> SameTrust(old(EntryOf(registry, id)), tx.base)
      ensures ok ==> j.target in old(dirs) && MatchesRecord(old(dirs)[j.target], tx.candidate)
    {
      extended := j;
      var current := tx.candidate.Current();
      if !(j.target in dirs && current.Some? && dirs[j.target].source == current.value.package.source
           && dirs[j.target].manifest == current.value.package.manifest) {
        Decide();
        return false, extended;
      }
      Decide();
      extended := j.(allowed := AllowedAfter(tx));
      ok := WriteJournal(extended);
      if !ok { return; }
      ok := SaveNextEntry(tx, extended);
    }

    /** The registry's compare-and-save of the new entry. */
    method SaveNextEntry(tx: Tx, j: Journal) returns (ok: bool)
      requires Valid() && system.act == Publishing(SaveNext, j) && system.tx == Some(tx)
      modifies this
      ensures Valid() && start == old(start) && system.tx == Some(tx)
      ensures ok ==> system.act == Installed(j) && SameTrust(EntryOf(registry, id), tx.next)
      ensures !ok ==> system.act == RollingBack(CheckEntry, j)
      ensures dirs == old(dirs)
      ensures ok ==> registry == old(registry)[id := SavedEntry(tx, old(EntryOf(registry, id)))]
      ensures ok ==> SameTrust(old(EntryOf(registry, id)), tx.base)
    {
      var loaded := EntryOf(registry, id);
      if !SameTrust(loaded, tx.base) {
        Decide();
        return false;
      }
      ok := SaveEntry(tx.next.(enabled := if tx.pendingEnabled.Some? then tx.pendingEnabled.value else loaded.enabled));
    }

    /**
     * Install the staged package: journal, checkpoint, files, registration. An open journal, a missing
     * or changed package or a target that belongs to somebody else is refused before anything is
     * written. `ready` and `backup` are the names of the temporary directories.
     */
    method Publish(
      target: Path, candidate: Entry, previous: Entry, base: Entry, pendingEnabled: Option<bool>, enableAfter: bool,
      ready: Path, backup: Path)
      returns (ok: bool, j: Option<Journal>)
      requires Valid() && system.act.Idle?
      requires LegitimateEntry(previous, target) && (base == candidate || base == previous)
      requires candidate.Current().Some? ==> candidate.local.Some?
      requires ready !in dirs && backup !in dirs && backup != ready && target !in {ready, backup}
      requires previous.local.Some? ==> previous.local.value.path !in {ready, backup}
      modifies this
      ensures Valid() && start == old(start)
      ensures old(journal).Some? || !Publishable(old(dirs), target, candidate, previous) ==>
                !ok && j.None? && system == old(system)
      ensures ok ==>
                && old(journal).None? && Publishable(old(dirs), target, candidate, previous)
                && var tx := TxFor(old(dirs), target, candidate, previous, base, pendingEnabled, enableAfter, ready, backup);
                   && system.tx == Some(tx) && j.Some? && system.act == Installed(j.value)
                   && SameTrust(EntryOf(registry, id), tx.next)
      ensures j.Some? <==>
                && old(journal).None?
                && candidate.Current().Some? && candidate.Current().value.path in old(dirs)
                && (target in old(dirs) ==>
                      && previous.local.Some? && previous.local.value.path == target
                      && (previous.Current().Some? ==> old(dirs)[target] == previous.Current().value.package))
      ensures ok ==>
                && old(dirs)[candidate.Current().value.path].source == candidate.Current().value.package.source
                && old(dirs)[candidate.Current().value.path].manifest == candidate.Current().value.package.manifest
                && old(dirs)[candidate.Current().value.path].manifest.id == id
                && SameTrust(old(EntryOf(registry, id)), base)
      ensures ok && target in old(dirs) ==>
                dirs == old(dirs)[backup := old(dirs)[target]][target := old(dirs)[candidate.Current().value.path]]
      ensures ok && target !in old(dirs) ==> dirs == old(dirs)[target := old(dirs)[candidate.Current().value.path]]
      ensures ok ==>
                && registry == old(registry)[id := EntryOf(registry, id)]
                && EntryOf(registry, id).local == Some(candidate.local.value.(path := target))
                && EntryOf(registry, id).managed
                   == Some(ManagedRecord(Some(Version(target, old(dirs)[candidate.Current().value.path])),
                                         [Version(target, old(dirs)[candidate.Current().value.path])]))
                && EntryOf(registry, id).enabled ==
                     if pendingEnabled.Some? then pendingEnabled.value else old(EntryOf(registry, id)).enabled
      ensures !ok ==> system.act.Idle?
    {
      if journal.Some? || !Publishable(dirs, target, candidate, previous) { return false, None; }
      var tx := TxFor(dirs, target, candidate, previous, base, pendingEnabled, enableAfter, ready, backup);
      ok, j := PublishChecked(tx);
      if ok { SwappedDirectories(old(dirs), tx); }
    }

    /** The transaction itself. A failure after the journal took over is rolled back at once; a failed rollback is left to startup. */
    method PublishChecked(tx: Tx) returns (ok: bool, j: Option<Journal>)
      requires Valid() && system.act.Idle? && CanBegin(system, tx)
      modifies this
      ensures Valid() && start == old(start)
      ensures j.Some?
      ensures ok ==> system.act == Installed(j.value) && system.tx == Some(tx) && SameTrust(EntryOf(registry, id), tx.next)
      ensures !ok ==> system.act.Idle?
      ensures ok ==> dirs == Swapped(old(dirs)[tx.ready := tx.newPackage], tx.target, tx.ready, tx.backup)
      ensures ok ==> registry == old(registry)[id := SavedEntry(tx, old(EntryOf(registry, id)))]
      ensures ok ==> SameTrust(old(EntryOf(registry, id)), tx.base)
      ensures ok ==> MatchesRecord(tx.newPackage, tx.candidate) && tx.newPackage.manifest.id == id
    {
      var planned := JournalFor(tx);
      j := Some(planned);
      dirs := dirs[tx.ready := tx.newPackage];
      Note(BeginAction(tx));
      ok := WriteJournal(planned);
      if !ok { return; }
      ok := ClearCheckpointFile(tx, planned);
      if !ok { return; }
      ok := SwapDirectories(tx, planned);
      var last := planned;
      if ok {
        ok, last := SaveInstalledEntry(tx, planned);
        j := Some(last);
      }
      if !ok {
        var undone := RollbackAfterFailure(tx, last);
      }
    }

    method RollbackAfterFailure(tx: Tx, j: Journal) returns (undone: bool)
      requires Valid() && system.act == RollingBack(CheckEntry, j) && system.tx == Some(tx)
      modifies this
      ensures Valid() && start == old(start) && system.act.Idle?
      ensures undone ==> journal.None? && system.outcome == RolledBack && EntryOf(registry, id) == j.previous
    {
      assert system.outcome == Open;
      undone := Rollback(j);
    }

    // ----- startup

    /**
     * Finish or undo the journal left behind; true when none remains. Then the disk is the final one
     * of that journal, and until then it is still heading for it.
     */
    method RecoverJournal() returns (ok: bool)
      requires Valid() && system.act.Idle? && journal.Some?
      modifies this
      ensures Valid() && start == old(start) && system.act.Idle?
      ensures ok ==> journal.None? && system.outcome == if old(journal).value.committed then Committed else RolledBack
      ensures journal.None? ==> system.disk == FinalDisk(old(system.disk), old(journal).value, id)
      ensures ok && old(journal).value.committed ==>
                registry == old(registry) && forall p | p in old(dirs) :: p !in dirs <==> SweptAway(old(journal).value, registry, p)
      ensures journal.Some? ==> journal == old(journal) && FinalDisk(system.disk, journal.value, id) == FinalDisk(old(system.disk), journal.value, id)
    {
      var j := journal.value;
      ghost var end := FinalDisk(system.disk, j, id);
      Note(RecoverAction);
      ghost var before := trace;
      assert Heading(system, j, end);
      if j.committed {
        ok := FinishCommit(j);
      } else {
        ok := Rollback(j);
      }
      StepsArrive(start, before, trace, j, end);
    }

    /** Restore from a checkpoint whose candidate is still registered; keep any later change. False only when a write fails. */
    method RecoverCheckpoint() returns (ok: bool)
      requires Valid() && system.act.Idle? && journal.None?
      modifies this
      ensures Valid() && start == old(start) && system.act.Idle?
      ensures ok ==> system.disk == AfterCheckpoint(old(system.disk), id)
      ensures AfterCheckpoint(old(system.disk), id) == old(system.disk) ==> ok && system == old(system)
      ensures !ok ==> checkpoint == old(checkpoint) && dirs == old(dirs) && journal.None?
    {
      if checkpoint.None? { return true; }
      var c := checkpoint.value;
      var loaded := EntryOf(registry, id);
      if loaded != c.candidate && loaded != c.previous { return true; }
      Note(RecoverAction);
      if loaded == c.candidate {
        ok := SaveEntry(c.previous);
        if !ok { return; }
      }
      ok := RemoveCheckpoint();
    }

    /**
     * Startup for one plugin: the journal first, and the checkpoint only if no journal is left. Success
     * means both are settled and the disk is exactly theirs; a journal that stays keeps its end.
     */
    method PrepareInstallation() returns (ok: bool)
      requires Valid() && system.act.Idle?
      modifies this
      ensures Valid() && start == old(start) && system.act.Idle?
      ensures ok ==> system.disk == AfterCheckpoint(AfterJournal(old(system.disk), id), id)
      ensures old(journal).None? && AfterCheckpoint(old(system.disk), id) == old(system.disk) ==> ok && system == old(system)
      ensures journal.Some? ==>
                && !ok && journal == old(journal)
                && FinalDisk(system.disk, journal.value, id) == FinalDisk(old(system.disk), journal.value, id)
    {
      if journal.Some? {
        ok := RecoverJournal();
        if !ok { return; }
      }
      ok := RecoverCheckpoint();
    }
  }

  /** A checkpoint's previous entry replaces its candidate; any other entry but these two keeps the checkpoint. */
  function AfterCheckpoint(d: Disk, id: Id): Disk {
    if d.checkpoint.None? then d
    else
      var c := d.checkpoint.value;
      if EntryOf(d.registry, id) == c.candidate then Store(d, id, c.previous).(checkpoint := None)
      else if EntryOf(d.registry, id) == c.previous then d.(checkpoint := None)
      else d
  }

  ghost function AfterJournal(d: Disk, id: Id): Disk {
    if d.journal.Some? then FinalDisk(d, d.journal.value, id) else d
  }

  /** The package is the one the entry's current version records. */
  predicate MatchesRecord(p: Package, e: Entry) {
    e.Current().Some? && p.source == e.Current().value.package.source && p.manifest == e.Current().value.package.manifest
  }

  /** The ready copy at the target, and what stood there in the backup. */
  function Swapped(dirs: map<Path, Package>, target: Path, ready: Path, backup: Option<Path>): map<Path, Package>
    requires ready in dirs
  {
    var aside := if backup.Some? && target in dirs then (dirs - {target})[backup.value := dirs[target]] else dirs;
    (aside - {ready})[target := dirs[ready]]
  }

  lemma SwappedDirectories(dirs: map<Path, Package>, tx: Tx)
    requires tx.ready !in dirs && tx.ready != tx.target && (tx.backup.Some? <==> tx.target in dirs)
    requires tx.backup.Some? ==> tx.backup.value !in dirs && tx.backup.value !in {tx.ready, tx.target}
    ensures Swapped(dirs[tx.ready := tx.newPackage], tx.target, tx.ready, tx.backup)
            == if tx.backup.Some? then dirs[tx.backup.value := dirs[tx.target]][tx.target := tx.newPackage]
               else dirs[tx.target := tx.newPackage]
  {}

  /** The new entry under the preference that is asked for or stands. */
  function SavedEntry(tx: Tx, loaded: Entry): Entry {
    tx.next.(enabled := if tx.pendingEnabled.Some? then tx.pendingEnabled.value else loaded.enabled)
  }

  /** Writing the committed journal does not change where it leads. */
  lemma SameEnd(d: Disk, d': Disk, j: Journal, id: Id)
    requires j.committed && d' == d.(journal := d'.journal)
    ensures FinalDisk(d', j, id) == FinalDisk(d, j, id)
  {}

  lemma FailKeepsDisk(s: System)
    ensures Fail(s).disk == s.disk
  {}
}
