/** What a finished transaction leaves on disk, directory by directory. */
module FinalDisks {
  import opened Results
  import opened Ids
  import opened ManagedTypes
  import opened Installation
  import opened InstallationSafety
  import opened InstallationTheorems
  import opened InstallationRuns
  import opened InstallationOutcome

  /** One path lies inside the other exactly if it continues it. */
  lemma OverlappingIsNesting(a: Path, b: Path)
    ensures Overlaps(a, b) <==> exists rest :: a.parts == b.parts + rest || b.parts == a.parts + rest
  {
    if a.parts <= b.parts { assert b.parts == a.parts + b.parts[|a.parts|..]; }
    if b.parts <= a.parts { assert a.parts == b.parts + a.parts[|b.parts|..]; }
  }

  /** A registered directory lies around or inside this one. */
  ghost predicate Protected(r: Registry, p: Path) {
    exists id, rest :: id in r && r[id].local.Some?
      && (r[id].local.value.path.parts == p.parts + rest || p.parts == r[id].local.value.path.parts + rest)
  }

  lemma ProtectedIsSpared(j: Journal, r: Registry, p: Path)
    ensures Spared(j, RegisteredPaths(r), p) <==> p == j.target || Protected(r, p)
  {
    forall id | id in r && r[id].local.Some? { OverlappingIsNesting(r[id].local.value.path, p); }
    if q :| q in RegisteredPaths(r) && Overlaps(q, p) {
      var id :| id in r && r[id].local.Some? && r[id].local.value.path == q;
    }
    if Protected(r, p) {
      var id, rest :| id in r && r[id].local.Some?
        && (r[id].local.value.path.parts == p.parts + rest || p.parts == r[id].local.value.path.parts + rest);
      assert r[id].local.value.path in RegisteredPaths(r);
    }
  }

  // ----- after a commit

  /** What a committed installation supersedes: the staged copies, the backup, and every retained version. */
  ghost predicate Superseded(j: Journal, p: Path) {
    || p == j.staged || p == j.ready || j.backup == Some(p)
    || (j.previous.managed.Some? && exists v :: v in j.previous.managed.value.history && v.path == p)
  }

  /** The installer package an adopted plugin was registered from. */
  ghost predicate AdoptedSeed(j: Journal, p: Path) {
    j.previous.managed.None? && j.previous.local.Some? && j.previous.local.value.path == p
  }

  ghost predicate SweptAway(j: Journal, r: Registry, p: Path) {
    (Superseded(j, p) && p != j.target && !Protected(r, p)) || AdoptedSeed(j, p)
  }

  lemma {:induction false} HistoryPaths(history: seq<Version>, p: Path)
    ensures p in PathsOf(history) <==> exists v :: v in history && v.path == p
  {
    if history != [] {
      HistoryPaths(history[1..], p);
      assert forall v :: v in history <==> v == history[0] || v in history[1..];
    }
  }

  lemma ObsoleteIsSuperseded(j: Journal, p: Path)
    requires j.committed
    ensures p in Obsolete(j) <==> Superseded(j, p)
  {
    if j.previous.managed.Some? { HistoryPaths(j.previous.managed.value.history, p); }
  }

  lemma SeedIsAdopted(j: Journal, p: Path)
    ensures p in Seed(j) <==> AdoptedSeed(j, p)
  {}

  /**
   * The disk after a commit: registry and checkpoint as they are, the journal gone, and of the
   * directories exactly those missing that are superseded and neither the target nor protected by a
   * registration, and the adopted seed.
   */
  lemma CommittedDiskIsExact(d: Disk, j: Journal, id: Id)
    requires j.committed
    ensures var end := FinalDisk(d, j, id);
            && end.registry == d.registry && end.checkpoint == d.checkpoint && end.journal.None?
            && (forall p | p in d.dirs :: p !in end.dirs <==> SweptAway(j, d.registry, p))
            && (forall p | p in end.dirs :: p in d.dirs && end.dirs[p] == d.dirs[p])
  {
    forall p | p in d.dirs ensures p !in FinalDisk(d, j, id).dirs <==> SweptAway(j, d.registry, p) {
      ObsoleteIsSuperseded(j, p);
      ProtectedIsSpared(j, d.registry, p);
      SeedIsAdopted(j, p);
    }
  }

  // ----- after a rollback

  /** The copies a rollback takes: staged and ready, unless they are the target or protected. */
  ghost predicate CopyTaken(j: Journal, r: Registry, p: Path) {
    (p == j.staged || p == j.ready) && p != j.target && !Protected(r, p)
  }

  /** What stands at the target after a rollback. */
  ghost predicate TargetRestored(d: Disk, j: Journal, end: Disk) {
    if j.backup.Some? && j.backup.value in d.dirs
    then j.target in end.dirs && end.dirs[j.target] == d.dirs[j.backup.value]
    else if j.previous.local.Some? && j.previous.local.value.path == j.target
    then j.target in end.dirs <==> j.target in d.dirs
    else j.target !in end.dirs
  }

  /**
   * The disk after a rollback: the previous entry registered, the journal gone, the old package back
   * at the target or the new one removed from it, no backup, and no copy that nothing protects.
   */
  lemma RolledBackDiskIsExact(d: Disk, tx: Tx, j: Journal, id: Id)
    requires !j.committed && Planned(tx) && JournalOf(tx, j)
    ensures var end := FinalDisk(d, j, id);
            && end.registry == d.registry[id := j.previous] && end.checkpoint == d.checkpoint && end.journal.None?
            && TargetRestored(d, j, end)
            && (j.backup.Some? ==> j.backup.value !in end.dirs)
            && (forall p | p in d.dirs && p != j.target && Some(p) != j.backup ::
                  p !in end.dirs <==> CopyTaken(j, d.registry[id := j.previous], p))
            && (forall p | p in end.dirs && p != j.target :: p in d.dirs && end.dirs[p] == d.dirs[p])
  {
    ProtectedIsSpared(j, d.registry[id := j.previous], j.staged);
    ProtectedIsSpared(j, d.registry[id := j.previous], j.ready);
  }

  // ----- recovery gets there

  lemma {:induction false} AdvancesArrive(s: System, j: Journal, end: Disk, n: nat)
    requires Heading(s, j, end)
    ensures Heading(Advances(s, n), j, end) || Arrived(Advances(s, n), end)
  {
    if n > 0 {
      AdvancesArrive(s, j, end, n - 1);
      StepArrives(Advances(s, n - 1), AdvanceAction, j, end);
    }
  }

  /** Whenever recovery is through, the disk is the final one of the journal it found. */
  lemma RecoveryLeavesFinalDisk(s: System, n: nat)
    requires Inv(s) && s.act.Idle? && s.disk.journal.Some? && Advances(Recover(s), n).disk.journal.None?
    ensures Advances(Recover(s), n).disk == FinalDisk(s.disk, s.disk.journal.value, s.id)
  {
    var j := s.disk.journal.value;
    var end := FinalDisk(s.disk, j, s.id);
    assert Heading(s, j, end);
    OtherStepsHead(s, RecoverAction, j, end);
    AdvancesArrive(Recover(s), j, end, n);
  }

  /**
   * Recovery after the commit without interference: from every state in which an orderly run can
   * crash with a committed journal, it ends with the journal gone, the new package at the target,
   * the new entry registered, and exactly what was superseded gone.
   */
  lemma UndisturbedCommitCompletes(s0: System, actions: seq<Action>) returns (t: System, n: nat)
    requires Initial(s0) && Orderly(s0, actions)
    requires var s := Crash(Run(s0, actions)); s.disk.journal.Some? && s.disk.journal.value.committed
    ensures t == Advances(Recover(Crash(Run(s0, actions))), n)
    ensures t.act.Idle? && t.disk.journal.None? && t.outcome == Committed
    ensures t.tx == Run(s0, actions).tx && t.tx.Some? && Holds(t.disk, t.tx.value.target, t.tx.value.newPackage)
    ensures t.disk.registry == Run(s0, actions).disk.registry && SameTrust(CurrentEntry(t), t.tx.value.next)
    ensures forall p | p in Run(s0, actions).disk.dirs ::
              p !in t.disk.dirs <==> SweptAway(Run(s0, actions).disk.journal.value, Run(s0, actions).disk.registry, p)
  {
    var r := Run(s0, actions);
    OrderlyIsUndisturbed(s0, actions);
    RunKeeps(s0, actions);
    RunStaysAlone(s0, actions);
    RunStaysSweepable(s0, actions);
    StoppingKeeps(r);
    OtherStepsStayAlone(r, CrashAction);
    OtherStepsStaySweepable(r, CrashAction);
    CommittedIsFinishable(Crash(r));
    NewEntryIsRegistered(Crash(r));
    t, n := CommittedRecoveryCompletes(s0, actions);
    RecoveryLeavesFinalDisk(Crash(r), n);
    CommittedDiskIsExact(r.disk, r.disk.journal.value, r.id);
  }

  // ----- what recovery asks for, in full

  /** The package at `p` is the one the previous registration describes. */
  ghost predicate Intact(d: Disk, j: Journal, p: Path) {
    && p in d.dirs
    && if j.previous.managed.None? then d.dirs[p].official && j.previous.local.Some? && j.previous.local.value.path == p
       else
         exists v :: v in j.previous.managed.value.history && j.previous.managed.value.currentVersion == Some(v)
                     && d.dirs[p].source == v.package.source && d.dirs[p].manifest == v.package.manifest
  }

  /** The old package is in the backup, with the plugin's id, or else where it is registered. */
  ghost predicate OldIsIntact(d: Disk, id: Id, j: Journal) {
    if j.backup.Some? && j.backup.value in d.dirs
    then Intact(d, j, j.backup.value) && d.dirs[j.backup.value].manifest.id == id
    else j.previous.local.Some? ==> Intact(d, j, j.previous.local.value.path)
  }

  ghost predicate CopiesAreOwn(d: Disk, id: Id, j: Journal) {
    forall p | p in d.dirs && CopyTaken(j, d.registry[id := j.previous], p) :: d.dirs[p].manifest.id == id
  }

  lemma IntactIsPrevious(d: Disk, j: Journal, p: Path)
    ensures IsPrevious(d, j, p) <==> Intact(d, j, p)
  {}

  lemma RestorableInFull(d: Disk, id: Id, j: Journal)
    ensures Restorable(d, id, j) <==> EntryOf(d.registry, id) in j.allowed && OldIsIntact(d, id, j) && CopiesAreOwn(d, id, j)
  {
    if BackupExists(d, j) { IntactIsPrevious(d, j, j.backup.value); }
    if j.previous.local.Some? { IntactIsPrevious(d, j, j.previous.local.value.path); }
    ProtectedIsSpared(j, d.registry[id := j.previous], j.staged);
    ProtectedIsSpared(j, d.registry[id := j.previous], j.ready);
  }

  /**
   * Recovery of an uncommitted journal gets through exactly when the journal lists the registration,
   * the previous package is intact in the backup or at its path, and every copy that is to go is the
   * plugin's own; and what it leaves then is the final disk.
   */
  lemma RecoveryFinishesExactly(s: System)
    requires Inv(s) && s.act.Idle? && s.disk.journal.Some? && !s.disk.journal.value.committed
    ensures var j := s.disk.journal.value;
            && ((exists n :: Advances(Recover(s), n).disk.journal.None?) <==>
                  CurrentEntry(s) in j.allowed && OldIsIntact(s.disk, s.id, j) && CopiesAreOwn(s.disk, s.id, j))
            && forall n | Advances(Recover(s), n).disk.journal.None? ::
                 Advances(Recover(s), n).disk == FinalDisk(s.disk, j, s.id)
  {
    RecoveryFinishesIff(s);
    RestorableInFull(s.disk, s.id, s.disk.journal.value);
    forall n: nat | Advances(Recover(s), n).disk.journal.None?
      ensures Advances(Recover(s), n).disk == FinalDisk(s.disk, s.disk.journal.value, s.id)
    {
      RecoveryLeavesFinalDisk(s, n);
    }
  }
}
