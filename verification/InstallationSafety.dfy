/** What every run of the installation protocol keeps, whatever crashes and whoever interferes. */
module InstallationSafety {
  import opened Results
  import opened Ids
  import opened ManagedTypes
  import opened Installation

  // ----- where the packages are

  ghost predicate Holds(d: Disk, path: Path, p: Package) {
    path in d.dirs && d.dirs[path] == p
  }

  /** Nothing has moved: the old package is at the target, or the target is free. */
  ghost predicate Unmoved(d: Disk, tx: Tx) {
    if tx.backup.Some? then tx.oldPackage.Some? && Holds(d, tx.target, tx.oldPackage.value) && tx.backup.value !in d.dirs
    else tx.target !in d.dirs
  }

  /** The old package waits in the backup and the target is free. */
  ghost predicate Aside(d: Disk, tx: Tx) {
    && tx.backup.Some? && tx.oldPackage.Some?
    && Holds(d, tx.backup.value, tx.oldPackage.value) && tx.target !in d.dirs
  }

  /** The new package is at the target, the old one still in the backup. */
  ghost predicate Replaced(id: Id, d: Disk, tx: Tx) {
    && Holds(d, tx.target, tx.newPackage) && tx.newPackage.manifest.id == id
    && (tx.backup.Some? ==> tx.oldPackage.Some? && Holds(d, tx.backup.value, tx.oldPackage.value))
  }

  ghost predicate InPlace(id: Id, d: Disk, tx: Tx) {
    Unmoved(d, tx) || Aside(d, tx) || Replaced(id, d, tx)
  }

  /** As before, or the new package now stands where a missing old one was registered. */
  ghost predicate Back(id: Id, d: Disk, tx: Tx) {
    || Unmoved(d, tx)
    || (tx.backup.None? && OldPath(tx) == Some(tx.target) && tx.oldPackage.None? && Replaced(id, d, tx))
  }

  /** The new package is at the target; nothing is promised about the old one. */
  ghost predicate Settled(id: Id, d: Disk, tx: Tx) {
    Holds(d, tx.target, tx.newPackage) && tx.newPackage.manifest.id == id
  }

  /** The old package was staged in place, and the last sweep saw no registered directory that protects it. */
  ghost predicate Exposed(tx: Tx, seen: Option<set<Path>>) {
    && OldPath(tx) == Some(tx.staged) && tx.staged != tx.target
    && seen.Some? && forall r | r in seen.value :: !Overlaps(r, tx.staged)
  }

  /** An old package that is not at the target stays where it was, or an exposed one went. */
  ghost predicate Elsewhere(d: Disk, tx: Tx, seen: Option<set<Path>>) {
    OldPath(tx).Some? && OldPath(tx).value != tx.target && tx.oldPackage.Some?
    ==> Holds(d, OldPath(tx).value, tx.oldPackage.value) || (Exposed(tx, seen) && tx.staged !in d.dirs)
  }

  /** A completed sweep has taken an exposed package. */
  ghost predicate SweptFor(d: Disk, tx: Tx, seen: Option<set<Path>>) {
    seen.Some? && (Exposed(tx, seen) ==> tx.staged !in d.dirs)
  }

  // ----- the transaction and its journals

  ghost predicate Planned(tx: Tx) {
    && PreviousShape(tx)
    && tx.candidate.local.Some? && tx.candidate.Current().Some?
    && tx.next == AtPath(tx.candidate, tx.target, tx.newPackage)
    && (tx.base == tx.candidate || tx.base == tx.previous)
    && tx.ready != tx.target && Some(tx.ready) != OldPath(tx)
    && (tx.backup.Some? ==>
          && tx.backup.value !in {tx.ready, tx.target, tx.staged}
          && OldPath(tx) == Some(tx.target) && tx.oldPackage.Some?)
    && (tx.backup.None? && OldPath(tx) == Some(tx.target) ==> tx.oldPackage.None?)
    && (tx.oldPackage.Some? ==> OldPath(tx).Some?)
  }

  ghost predicate JournalOf(tx: Tx, j: Journal) {
    && j == JournalFor(tx).(allowed := j.allowed, committed := j.committed)
    && {tx.candidate, tx.previous} <= j.allowed <= AllowedAfter(tx)
    && (j.committed ==> j.allowed == AllowedAfter(tx))
  }

  /** Unless others changed it, the registration is one of the transaction's own, and its journal knows it. */
  ghost predicate Known(s: System, tx: Tx, j: Journal) {
    || SameTrust(CurrentEntry(s), tx.candidate)
    || SameTrust(CurrentEntry(s), tx.previous)
    || (SameTrust(CurrentEntry(s), tx.next) && j.allowed == AllowedAfter(tx))
  }

  ghost predicate IsNext(s: System, tx: Tx) {
    s.touched || SameTrust(CurrentEntry(s), tx.next)
  }

  ghost predicate IsPreviousEntry(s: System, tx: Tx) {
    s.touched || SameTrust(CurrentEntry(s), tx.previous)
  }

  /** The journal on disk is not committed: everything needed to go back is there. */
  ghost predicate Undoable(s: System, tx: Tx) {
    && s.disk.journal.Some? && JournalOf(tx, s.disk.journal.value) && !s.disk.journal.value.committed
    && InPlace(s.id, s.disk, tx) && Elsewhere(s.disk, tx, s.seen)
    && (s.touched || Known(s, tx, s.disk.journal.value))
    && (s.disk.checkpoint.Some? ==> Unmoved(s.disk, tx))
  }

  /** The journal on disk is committed: the new package is in place for good. */
  ghost predicate Decided(s: System, tx: Tx) {
    && s.disk.journal.Some? && JournalOf(tx, s.disk.journal.value) && s.disk.journal.value.committed
    && Settled(s.id, s.disk, tx) && IsNext(s, tx) && s.disk.checkpoint.None?
  }

  ghost predicate PublishPhase(s: System, tx: Tx, stage: PublishStage, j: Journal) {
    && JournalOf(tx, j) && !j.committed
    && (if stage == SaveJournal
        then s.disk.journal.None? && Elsewhere(s.disk, tx, s.seen) && (s.touched || Known(s, tx, JournalFor(tx)))
        else Undoable(s, tx))
    && (stage !in {SaveJournal, ClearCheckpoint} ==> s.disk.checkpoint.None?)
    && match stage
       case SaveJournal => j == JournalFor(tx) && Unmoved(s.disk, tx) && Holds(s.disk, tx.ready, tx.newPackage)
       case ClearCheckpoint => Unmoved(s.disk, tx) && Holds(s.disk, tx.ready, tx.newPackage)
       case MoveAside => Unmoved(s.disk, tx) && Holds(s.disk, tx.ready, tx.newPackage)
       case MoveIn => tx.target !in s.disk.dirs && Holds(s.disk, tx.ready, tx.newPackage)
       case Restage => Replaced(s.id, s.disk, tx)
       case SaveAllowed => Replaced(s.id, s.disk, tx) && j.allowed == AllowedAfter(tx)
       case SaveNext => Replaced(s.id, s.disk, tx) && s.disk.journal == Some(j) && j.allowed == AllowedAfter(tx)
  }

  ghost predicate RollbackPhase(s: System, tx: Tx, step: RollbackStage, j: Journal) {
    && Undoable(s, tx) && JournalOf(tx, j) && !j.committed
    && match step
       case CheckEntry => true
       case RemoveNew(loaded) => loaded in j.allowed
       case MoveBack(loaded, backupSeen) =>
         loaded in j.allowed && Elsewhere(s.disk, tx, None) && (if backupSeen then Aside(s.disk, tx) else Back(s.id, s.disk, tx))
       case Restore(loaded) => loaded in j.allowed && Elsewhere(s.disk, tx, None) && Back(s.id, s.disk, tx)
  }

  /** After the registry was restored, or after the commit was recorded. */
  ghost predicate FinishPhase(s: System, tx: Tx, j: Journal) {
    && JournalOf(tx, j)
    && (if j.committed then Decided(s, tx) else Undoable(s, tx) && Back(s.id, s.disk, tx) && IsPreviousEntry(s, tx))
  }

  /** A rollback's cleanup is limited to the new copies, under the registry it saw. */
  ghost predicate CleaningPhase(s: System, tx: Tx, j: Journal, rest: seq<Path>, registered: set<Path>) {
    && FinishPhase(s, tx, j)
    && (!j.committed ==>
          && (forall p | p in rest :: p == tx.staged || p == tx.ready)
          && s.seen == Some(registered)
          && (Exposed(tx, s.seen) ==> tx.staged in rest || tx.staged !in s.disk.dirs))
  }

  ghost predicate Phase(s: System, tx: Tx) {
    match s.act
    case Idle => Undoable(s, tx) || Decided(s, tx)
    case Publishing(stage, j) => PublishPhase(s, tx, stage, j)
    case Installed(j) =>
      && Undoable(s, tx) && s.disk.checkpoint.None? && Replaced(s.id, s.disk, tx) && IsNext(s, tx)
      && s.disk.journal == Some(j) && j.allowed == AllowedAfter(tx)
    case Committing(j) =>
      && Undoable(s, tx) && s.disk.checkpoint.None? && Replaced(s.id, s.disk, tx) && IsNext(s, tx)
      && JournalOf(tx, j) && j.committed
    case RollingBack(step, j) => RollbackPhase(s, tx, step, j)
    case Sweeping(j) => FinishPhase(s, tx, j) && (!j.committed ==> Elsewhere(s.disk, tx, None))
    case Cleaning(j, rest, registered) => CleaningPhase(s, tx, j, rest, registered)
    case CleaningSeed(j) => FinishPhase(s, tx, j) && j.committed && tx.previous.managed.None? && tx.previous.local.Some?
    case Retiring(j) => FinishPhase(s, tx, j) && (!j.committed ==> SweptFor(s.disk, tx, s.seen))
    case RestoringCheckpoint(_) => false
    case RetiringCheckpoint => false
  }

  /** The previous state is back in full. */
  ghost predicate Reverted(s: System, tx: Tx) {
    && Back(s.id, s.disk, tx) && IsPreviousEntry(s, tx)
    && Elsewhere(s.disk, tx, s.seen) && SweptFor(s.disk, tx, s.seen)
  }

  ghost predicate Inv(s: System) {
    && (s.disk.journal.Some? ==> s.outcome == Open)
    && (s.outcome in {Open, RolledBack, Committed} ==> s.tx.Some? && Planned(s.tx.value))
    && (s.outcome != Open ==> s.act.Idle? || s.act.RestoringCheckpoint? || s.act.RetiringCheckpoint?)
    && (s.outcome in {Open, RolledBack} && Exposed(s.tx.value, s.seen) ==> s.touched)
    && (s.outcome == Open ==> Phase(s, s.tx.value))
    && (s.outcome == RolledBack ==> Reverted(s, s.tx.value))
    && (s.outcome == Committed ==> Settled(s.id, s.disk, s.tx.value) && IsNext(s, s.tx.value) )
  }

  // ----- steps of the protocol

  lemma BeginKeeps(s: System, tx: Tx)
    requires Inv(s) && CanBegin(s, tx)
    ensures Inv(Begin(s, tx))
  {}

  lemma MoveAsideFacts(id: Id, d: Disk, tx: Tx, seen: Option<set<Path>>)
    requires Planned(tx) && tx.backup.Some? && Unmoved(d, tx) && Elsewhere(d, tx, seen) && Holds(d, tx.ready, tx.newPackage)
    ensures CanMove(d, tx.target, tx.backup.value)
    ensures var d' := Move(d, tx.target, tx.backup.value);
            Aside(d', tx) && Elsewhere(d', tx, seen) && Holds(d', tx.ready, tx.newPackage)
  {}

  lemma MoveInFacts(id: Id, d: Disk, tx: Tx, seen: Option<set<Path>>)
    requires Planned(tx) && InPlace(id, d, tx) && tx.target !in d.dirs && Elsewhere(d, tx, seen)
    requires Holds(d, tx.ready, tx.newPackage) && tx.newPackage.manifest.id == id
    ensures CanMove(d, tx.ready, tx.target)
    ensures Replaced(id, Move(d, tx.ready, tx.target), tx) && Elsewhere(Move(d, tx.ready, tx.target), tx, seen)
  {}

  lemma SaveJournalKeeps(s: System, j: Journal)
    requires Inv(s) && s.act == Publishing(SaveJournal, j)
    ensures Inv(Advance(s))
  {}

  lemma ClearCheckpointKeeps(s: System, j: Journal)
    requires Inv(s) && s.act == Publishing(ClearCheckpoint, j)
    ensures Inv(Advance(s))
  {
    var tx, t := s.tx.value, Advance(s);
    assert t.disk == s.disk || t.disk == s.disk.(checkpoint := None);
    assert Undoable(t, tx);
    assert t.act.Publishing? ==> PublishPhase(t, tx, MoveAside, j);
  }

  lemma PublishMovesKeep(s: System, stage: PublishStage, j: Journal)
    requires Inv(s) && s.act == Publishing(stage, j)
    requires stage == MoveAside || stage == MoveIn
    ensures Inv(Advance(s))
  {
    var tx := s.tx.value;
    if stage == MoveAside && tx.backup.Some? { MoveAsideFacts(s.id, s.disk, tx, s.seen); }
    if stage == MoveIn && tx.newPackage.manifest.id == s.id { MoveInFacts(s.id, s.disk, tx, s.seen); }
  }

  lemma RestageKeeps(s: System, j: Journal)
    requires Inv(s) && s.act == Publishing(Restage, j)
    ensures Inv(Advance(s))
  {
    var t := Advance(s);
    assert t == s.(act := t.act);
    assert Undoable(t, s.tx.value);
  }

  lemma SaveAllowedKeeps(s: System, j: Journal)
    requires Inv(s) && s.act == Publishing(SaveAllowed, j)
    ensures Inv(Advance(s))
  {}

  lemma PublishSaveKeeps(s: System, j: Journal)
    requires Inv(s) && s.act == Publishing(SaveNext, j)
    ensures Inv(Advance(s))
  {}

  lemma PublishKeeps(s: System, stage: PublishStage, j: Journal)
    requires Inv(s) && s.act == Publishing(stage, j)
    ensures Inv(Advance(s))
  {
    match stage
    case SaveJournal => SaveJournalKeeps(s, j);
    case ClearCheckpoint => ClearCheckpointKeeps(s, j);
    case MoveAside => PublishMovesKeep(s, stage, j);
    case MoveIn => PublishMovesKeep(s, stage, j);
    case Restage => RestageKeeps(s, j);
    case SaveAllowed => SaveAllowedKeeps(s, j);
    case SaveNext => PublishSaveKeeps(s, j);
  }

  /** Removing what stands at the target, once it is safe, leaves the old package aside or nothing at all. */
  lemma RemoveNewFacts(id: Id, d: Disk, tx: Tx, j: Journal, seen: Option<set<Path>>)
    requires Planned(tx) && JournalOf(tx, j) && InPlace(id, d, tx) && Elsewhere(d, tx, seen) && CanRestore(d, j)
    ensures var d' := if TargetIsNew(d, j) then Remove(d, j.target) else d;
            && (if BackupExists(d, j) then Aside(d', tx) else Back(id, d', tx))
            && Elsewhere(d', tx, None) && (Unmoved(d, tx) ==> Unmoved(d', tx))
  {}

  lemma MoveBackFacts(d: Disk, tx: Tx, seen: Option<set<Path>>)
    requires Planned(tx) && Aside(d, tx) && Elsewhere(d, tx, seen)
    ensures CanMove(d, tx.backup.value, tx.target)
    ensures var d' := Move(d, tx.backup.value, tx.target);
            Unmoved(d', tx) && Elsewhere(d', tx, seen)
  {}

  lemma RemoveNewKeeps(s: System, loaded: Entry, j: Journal)
    requires Inv(s) && s.act == RollingBack(RemoveNew(loaded), j)
    ensures Inv(Advance(s))
  {
    if CanRestore(s.disk, j) { RemoveNewFacts(s.id, s.disk, s.tx.value, j, s.seen); }
  }

  lemma MoveBackKeeps(s: System, loaded: Entry, backupSeen: bool, j: Journal)
    requires Inv(s) && s.act == RollingBack(MoveBack(loaded, backupSeen), j)
    ensures Inv(Advance(s))
  {
    if backupSeen { MoveBackFacts(s.disk, s.tx.value, None); }
  }

  lemma RestoreKeeps(s: System, loaded: Entry, j: Journal)
    requires Inv(s) && s.act == RollingBack(Restore(loaded), j)
    ensures Inv(Advance(s))
  {}

  lemma RollbackKeeps(s: System, step: RollbackStage, j: Journal)
    requires Inv(s) && s.act == RollingBack(step, j)
    ensures Inv(Advance(s))
  {
    match step
    case CheckEntry =>
    case RemoveNew(loaded) => RemoveNewKeeps(s, loaded, j);
    case MoveBack(loaded, backupSeen) => MoveBackKeeps(s, loaded, backupSeen, j);
    case Restore(loaded) => RestoreKeeps(s, loaded, j);
  }

  /** Removing a new copy that is neither the target nor registered disturbs nothing of the old state, or exposes it. */
  lemma RemoveCopyFacts(id: Id, d: Disk, tx: Tx, path: Path, registered: set<Path>)
    requires Planned(tx) && Back(id, d, tx) && Elsewhere(d, tx, Some(registered))
    requires (path == tx.staged || path == tx.ready) && path != tx.target
    requires forall r | r in registered :: !Overlaps(r, path)
    ensures Back(id, Remove(d, path), tx) && Elsewhere(Remove(d, path), tx, Some(registered))
    ensures Unmoved(d, tx) ==> Unmoved(Remove(d, path), tx)
  {}

  /** After a commit any cleanup that spares the target keeps the decision. */
  lemma DecidedCleaning(s: System, j: Journal, rest: seq<Path>, registered: set<Path>)
    requires Inv(s) && s.act == Cleaning(j, rest, registered) && rest != [] && j.committed
    ensures Inv(Advance(s))
  {
    assert j.target == s.tx.value.target;
    assert Decided(Advance(s), s.tx.value);
  }

  lemma SparedIsNotExposed(tx: Tx, j: Journal, registered: set<Path>, path: Path)
    requires JournalOf(tx, j) && Spared(j, registered, path)
    ensures Exposed(tx, Some(registered)) ==> path != tx.staged
  {}

  /** A directory that is registered protects itself. */
  lemma RegisteredIsNotExposed(s: System, tx: Tx)
    requires SameTrust(CurrentEntry(s), tx.previous)
    ensures !Exposed(tx, Some(RegisteredPaths(s.disk.registry)))
  {
    if OldPath(tx).Some? {
      assert s.id in s.disk.registry;
      assert OldPath(tx).value in RegisteredPaths(s.disk.registry);
      assert Overlaps(OldPath(tx).value, OldPath(tx).value);
    }
  }

  lemma UndoneCleaning(s: System, j: Journal, rest: seq<Path>, registered: set<Path>)
    requires Inv(s) && s.act == Cleaning(j, rest, registered) && rest != [] && !j.committed
    ensures Inv(Advance(s))
  {
    var path := rest[0];
    assert path in rest && forall p | p in rest :: p == path || p in rest[1..];
    assert forall p | p in rest[1..] :: p in rest;
    if Spared(j, registered, path) {
      SparedIsNotExposed(s.tx.value, j, registered, path);
    } else if path in s.disk.dirs && s.disk.dirs[path].manifest.id == s.id {
      CopyGoesKeeps(s, j, rest, registered);
    }
  }

  lemma CopyGoesKeeps(s: System, j: Journal, rest: seq<Path>, registered: set<Path>)
    requires Inv(s) && s.act == Cleaning(j, rest, registered) && rest != [] && !j.committed
    requires !Spared(j, registered, rest[0]) && (forall p | p in rest :: p == rest[0] || p in rest[1..])
    requires rest[0] in rest && forall p | p in rest[1..] :: p in rest
    ensures Inv(s.(disk := Remove(s.disk, rest[0]), act := Cleaning(j, rest[1..], registered)))
  {
    RemoveCopyFacts(s.id, s.disk, s.tx.value, rest[0], registered);
  }

  lemma CleaningKeeps(s: System, j: Journal, rest: seq<Path>, registered: set<Path>)
    requires Inv(s) && s.act == Cleaning(j, rest, registered)
    ensures Inv(Advance(s))
  {
    if rest != [] {
      if j.committed { DecidedCleaning(s, j, rest, registered); } else { UndoneCleaning(s, j, rest, registered); }
    }
  }

  lemma SweepingKeeps(s: System, j: Journal)
    requires Inv(s) && s.act == Sweeping(j)
    ensures Inv(Advance(s))
  {
    if !j.committed {
      var tx := s.tx.value;
      assert Obsolete(j) == [tx.staged, tx.ready];
      if !s.touched { RegisteredIsNotExposed(s, tx); }
    }
  }

  lemma CommittingKeeps(s: System, j: Journal)
    requires Inv(s) && s.act == Committing(j)
    ensures Inv(Advance(s))
  {}

  /** Nor does removing the adopted seed, which is never at the target. */
  lemma DecidedRemoval(s: System, tx: Tx, path: Path)
    requires Decided(s, tx) && path != tx.target
    ensures Decided(s.(disk := Remove(s.disk, path)), tx)
  {}

  lemma CleaningSeedKeeps(s: System, j: Journal)
    requires Inv(s) && s.act == CleaningSeed(j)
    ensures Inv(Advance(s))
  {
    var path := OldPath(s.tx.value).value;
    DecidedRemoval(s, s.tx.value, path);
    SeedStepKeeps(s, j, path, Advance(s));
  }

  lemma SeedStepKeeps(s: System, j: Journal, path: Path, t: System)
    requires Inv(s) && s.act == CleaningSeed(j) && Decided(s.(disk := Remove(s.disk, path)), s.tx.value)
    requires t.disk == s.disk || t.disk == Remove(s.disk, path)
    requires t == s.(disk := t.disk, act := t.act) && (t.act == Idle || t.act == Retiring(j))
    ensures Inv(t)
  {}

  lemma RetiringKeeps(s: System, j: Journal)
    requires Inv(s) && s.act == Retiring(j)
    ensures Inv(Advance(s))
  {}

  lemma CheckpointRecoveryKeeps(s: System)
    requires Inv(s) && (s.act.RestoringCheckpoint? || s.act.RetiringCheckpoint?)
    ensures Inv(Advance(s))
  {}

  lemma AdvanceKeeps(s: System)
    requires Inv(s)
    ensures Inv(Advance(s))
  {
    match s.act
    case Idle =>
    case Publishing(stage, j) => PublishKeeps(s, stage, j);
    case Installed(j) =>
    case Committing(j) => CommittingKeeps(s, j);
    case RollingBack(step, j) => RollbackKeeps(s, step, j);
    case Sweeping(j) => SweepingKeeps(s, j);
    case Cleaning(j, rest, registered) => CleaningKeeps(s, j, rest, registered);
    case CleaningSeed(j) => CleaningSeedKeeps(s, j);
    case Retiring(j) => RetiringKeeps(s, j);
    case RestoringCheckpoint(_) => CheckpointRecoveryKeeps(s);
    case RetiringCheckpoint => CheckpointRecoveryKeeps(s);
  }

  // ----- everything else that may happen

  /** Giving up or dying at any moment leaves a state that recovery can start from. */
  lemma StoppingKeeps(s: System)
    requires Inv(s)
    ensures Inv(Crash(s))
  {}

  lemma FailedPublishKeeps(s: System, stage: PublishStage, j: Journal)
    requires Inv(s) && s.act == Publishing(stage, j)
    ensures Inv(Fail(s))
  {}

  lemma FailKeeps(s: System)
    requires Inv(s)
    ensures Inv(Fail(s))
  {
    match s.act
    case Publishing(stage, j) => FailedPublishKeeps(s, stage, j);
    case Installed(_) =>
    case _ => if s.outcome == Open { StoppingKeeps(s); }
  }

  lemma RecoverKeeps(s: System)
    requires Inv(s)
    ensures Inv(Recover(s))
  {}

  lemma RequestKeeps(s: System, candidate: Entry, previous: Entry)
    requires Inv(s)
    ensures Inv(Commit(s)) && Inv(Abort(s)) && Inv(WriteCheckpoint(s, candidate, previous))
  {}

  lemma ClearKeeps(s: System)
    requires Inv(s)
    ensures Inv(RetireCheckpoint(s))
  {}

  /** `t` is `s` with changes by others that the open transaction cannot mistake for its own. */
  ghost predicate Disturbed(s: System, t: System, tx: Tx) {
    && t.id == s.id && t.act == s.act && (s.touched ==> t.touched) && t.seen == s.seen
    && t.disk.journal == s.disk.journal && t.disk.checkpoint == s.disk.checkpoint
    && (Unmoved(t.disk, tx) <==> Unmoved(s.disk, tx)) && (Aside(t.disk, tx) <==> Aside(s.disk, tx))
    && (Replaced(s.id, t.disk, tx) <==> Replaced(s.id, s.disk, tx))
    && (Settled(s.id, t.disk, tx) <==> Settled(s.id, s.disk, tx))
    && (Holds(t.disk, tx.ready, tx.newPackage) <==> Holds(s.disk, tx.ready, tx.newPackage))
    && (tx.target in t.disk.dirs <==> tx.target in s.disk.dirs)
    && (Elsewhere(s.disk, tx, s.seen) ==> Elsewhere(t.disk, tx, t.seen))
    && (Elsewhere(s.disk, tx, None) ==> Elsewhere(t.disk, tx, None))
    && (Exposed(tx, s.seen) ==> (tx.staged in t.disk.dirs <==> tx.staged in s.disk.dirs))
    && (t.touched || SameTrust(CurrentEntry(t), CurrentEntry(s)))
  }

  lemma UndoableDisturbed(s: System, t: System, tx: Tx)
    requires Disturbed(s, t, tx)
    ensures Undoable(s, tx) ==> Undoable(t, tx)
    ensures Decided(s, tx) ==> Decided(t, tx)
    ensures (IsNext(s, tx) ==> IsNext(t, tx)) && (IsPreviousEntry(s, tx) ==> IsPreviousEntry(t, tx))
    ensures Back(s.id, s.disk, tx) ==> Back(t.id, t.disk, tx)
  {}

  lemma PublishDisturbed(s: System, t: System, tx: Tx, stage: PublishStage, j: Journal)
    requires Disturbed(s, t, tx) && PublishPhase(s, tx, stage, j)
    ensures PublishPhase(t, tx, stage, j)
  {
    UndoableDisturbed(s, t, tx);
  }

  lemma PhaseDisturbed(s: System, t: System, tx: Tx)
    requires Disturbed(s, t, tx) && Phase(s, tx)
    ensures Phase(t, tx)
  {
    UndoableDisturbed(s, t, tx);
    match s.act
    case Publishing(stage, j) => PublishDisturbed(s, t, tx, stage, j);
    case _ =>
  }

  lemma OthersSaveKeeps(s: System, id: Id, e: Entry)
    requires Inv(s)
    ensures Inv(OthersSave(s, id, e))
  {
    if s.outcome == Open {
      var t := OthersSave(s, id, e);
      assert id != s.id ==> CurrentEntry(t) == CurrentEntry(s);
      PhaseDisturbed(s, t, s.tx.value);
    }
  }

  /** The layout depends only on the directories the transaction relies on. */
  lemma LayoutFrame(id: Id, d: Disk, dirs: map<Path, Package>, tx: Tx, seen: Option<set<Path>>)
    requires forall p | p in Relied(tx) :: (p in d.dirs <==> p in dirs) && (p in dirs ==> dirs[p] == d.dirs[p])
    ensures var d' := d.(dirs := dirs);
            && (Unmoved(d', tx) <==> Unmoved(d, tx)) && (Aside(d', tx) <==> Aside(d, tx))
            && (Replaced(id, d', tx) <==> Replaced(id, d, tx)) && (Settled(id, d', tx) <==> Settled(id, d, tx))
            && (Elsewhere(d', tx, seen) <==> Elsewhere(d, tx, seen))
            && (Exposed(tx, seen) ==> (tx.staged in dirs <==> tx.staged in d.dirs))
            && (Holds(d', tx.ready, tx.newPackage) <==> Holds(d, tx.ready, tx.newPackage))
            && (tx.target in dirs <==> tx.target in d.dirs)
  {
    assert tx.target in Relied(tx) && tx.ready in Relied(tx);
    if tx.backup.Some? { assert tx.backup.value in Relied(tx); }
    if OldPath(tx).Some? { assert OldPath(tx).value in Relied(tx); }
  }

  lemma OthersWriteDisturbs(s: System, path: Path, p: Option<Package>)
    requires s.outcome == Open && s.tx.Some?
    ensures Disturbed(s, OthersWrite(s, path, p), s.tx.value)
  {
    LayoutFrame(s.id, s.disk, OthersWrite(s, path, p).disk.dirs, s.tx.value, s.seen);
    LayoutFrame(s.id, s.disk, OthersWrite(s, path, p).disk.dirs, s.tx.value, None);
  }

  lemma LateWriteKeeps(s: System, path: Path, p: Option<Package>)
    requires Inv(s) && s.outcome != Open
    ensures Inv(OthersWrite(s, path, p))
  {}

  lemma OthersWriteKeeps(s: System, path: Path, p: Option<Package>)
    requires Inv(s)
    ensures Inv(OthersWrite(s, path, p))
  {
    if s.outcome == Open {
      OthersWriteDisturbs(s, path, p);
      PhaseDisturbed(s, OthersWrite(s, path, p), s.tx.value);
    } else {
      LateWriteKeeps(s, path, p);
    }
  }

  lemma StepKeeps(s: System, a: Action)
    requires Inv(s)
    ensures Inv(Step(s, a))
  {
    match a
    case BeginAction(tx) => if CanBegin(s, tx) { BeginKeeps(s, tx); }
    case AdvanceAction => AdvanceKeeps(s);
    case FailAction => FailKeeps(s);
    case CrashAction => StoppingKeeps(s);
    case RecoverAction => RecoverKeeps(s);
    case SaveAction(id, e) => OthersSaveKeeps(s, id, e);
    case WriteAction(path, p) => OthersWriteKeeps(s, path, p);
    case _ => RequestStepKeeps(s, a);
  }

  lemma RequestStepKeeps(s: System, a: Action)
    requires Inv(s) && (a.CommitAction? || a.AbortAction? || a.CheckpointAction? || a.ClearAction?)
    ensures Inv(Step(s, a))
  {
    match a
    case CheckpointAction(candidate, previous) => RequestKeeps(s, candidate, previous);
    case ClearAction => ClearKeeps(s);
    case _ => RequestKeeps(s, CurrentEntry(s), CurrentEntry(s));
  }

  lemma StepKeepsId(s: System, a: Action)
    ensures Step(s, a).id == s.id
  {}
}
