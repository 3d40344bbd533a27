/** The guarantees of the installation protocol over all runs, and that recovery completes. */
module InstallationTheorems {
  import opened Results
  import opened Ids
  import opened ManagedTypes
  import opened Installation
  import opened InstallationSafety

  /** No transaction is open; packages, registrations and a checkpoint may be anything. */
  ghost predicate Initial(s: System) {
    s.act.Idle? && s.disk.journal.None? && s.outcome.NotStarted?
  }

  lemma {:induction false} RunKeeps(s: System, actions: seq<Action>)
    requires Inv(s)
    ensures Inv(Run(s, actions)) && Run(s, actions).id == s.id
    decreases |actions|
  {
    if actions != [] {
      var t := Step(s, actions[0]);
      assert Run(s, actions) == Run(t, actions[1..]);
      StepKeeps(s, actions[0]);
      StepKeepsId(s, actions[0]);
      RunKeeps(t, actions[1..]);
    }
  }

  lemma {:induction false} RunExtends(s: System, actions: seq<Action>, a: Action)
    ensures Run(s, actions + [a]) == Step(Run(s, actions), a)
    decreases |actions|
  {
    if actions == [] {
      assert Run(s, [a]) == Run(Step(s, a), [a][1..]);
    } else {
      assert (actions + [a])[1..] == actions[1..] + [a];
      RunExtends(Step(s, actions[0]), actions[1..], a);
    }
  }

  // ----- all or nothing

  ghost predicate HoldsOld(d: Disk, path: Path, tx: Tx) {
    tx.oldPackage.Some? && Holds(d, path, tx.oldPackage.value)
  }

  /**
   * At every point of every run, crashes and interrupted recoveries included: a rolled-back
   * transaction left the old package at its registered path, except exactly one staged in place that
   * its sweep saw unprotected, and, unless others changed it, the previous registration; a committed
   * one left the new package at the target and the new registration.
   */
  lemma AllOrNothing(s0: System, actions: seq<Action>)
    requires Initial(s0)
    ensures var s := Run(s0, actions);
            s.outcome == RolledBack ==>
              && s.tx.Some? && s.disk.journal.None? && s.seen.Some?
              && (s.touched || SameTrust(CurrentEntry(s), s.tx.value.previous))
              && (s.tx.value.oldPackage.Some? ==>
                    OldPath(s.tx.value).Some?
                    && (HoldsOld(s.disk, OldPath(s.tx.value).value, s.tx.value) <==> !Exposed(s.tx.value, s.seen)))
              && (Exposed(s.tx.value, s.seen) ==> s.touched)
    ensures var s := Run(s0, actions);
            s.outcome == Committed ==>
              && s.tx.Some? && s.disk.journal.None?
              && Holds(s.disk, s.tx.value.target, s.tx.value.newPackage)
              && (s.touched || SameTrust(CurrentEntry(s), s.tx.value.next))
  {
    RunKeeps(s0, actions);
  }

  /**
   * Until a committed journal is on disk the old package exists, at its own path or in the backup,
   * unless it was staged in place and the last sweep, after a change by others, saw it unprotected.
   */
  lemma OldPackageSurvives(s0: System, actions: seq<Action>)
    requires Initial(s0)
    ensures var s := Run(s0, actions);
            s.outcome == Open && s.tx.Some? && s.tx.value.oldPackage.Some?
            && (s.disk.journal.Some? ==> !s.disk.journal.value.committed) ==>
              var tx := s.tx.value;
              || (OldPath(tx).Some? && HoldsOld(s.disk, OldPath(tx).value, tx))
              || (tx.backup.Some? && HoldsOld(s.disk, tx.backup.value, tx))
              || (Exposed(tx, s.seen) && s.touched && tx.staged !in s.disk.dirs)
  {
    RunKeeps(s0, actions);
  }

  // ----- other plugins

  /** At most this plugin's own entry is written. */
  ghost predicate WritesOnly(before: Registry, after: Registry, id: Id) {
    after == before || (id in after && after == before[id := after[id]])
  }

  lemma AdvanceWritesOwnEntry(s: System)
    ensures WritesOnly(s.disk.registry, Advance(s).disk.registry, s.id)
  {
    match s.act
    case Publishing(stage, j) =>
      if s.tx.Some? { PublishWritesOwnEntry(s, stage, j, s.tx.value); }
    case RollingBack(step, j) => RollbackWritesOwnEntry(s, step, j);
    case _ =>
  }

  lemma PublishWritesOwnEntry(s: System, stage: PublishStage, j: Journal, tx: Tx)
    ensures WritesOnly(s.disk.registry, AdvancePublish(s, stage, j, tx).disk.registry, s.id)
  {}

  lemma RollbackWritesOwnEntry(s: System, step: RollbackStage, j: Journal)
    ensures WritesOnly(s.disk.registry, AdvanceRollback(s, step, j).disk.registry, s.id)
  {}

  /** No step but a save by others writes another plugin's registration. */
  lemma OtherEntriesUntouched(s: System, a: Action, other: Id)
    requires other != s.id && (a.SaveAction? ==> a.id != other)
    ensures EntryOf(Step(s, a).disk.registry, other) == EntryOf(s.disk.registry, other)
  {
    if a.AdvanceAction? { AdvanceWritesOwnEntry(s); }
  }

  lemma {:induction false} OtherEntriesUntouchedByRuns(s: System, actions: seq<Action>, other: Id)
    requires Inv(s) && other != s.id
    requires forall a | a in actions && a.SaveAction? :: a.id != other
    ensures EntryOf(Run(s, actions).disk.registry, other) == EntryOf(s.disk.registry, other)
    decreases |actions|
  {
    if actions != [] {
      var t := Step(s, actions[0]);
      assert Run(s, actions) == Run(t, actions[1..]);
      StepKeeps(s, actions[0]);
      StepKeepsId(s, actions[0]);
      OtherEntriesUntouched(s, actions[0], other);
      OtherEntriesUntouchedByRuns(t, actions[1..], other);
    }
  }

  // ----- later changes of trust are respected

  /** The registration is none of those the transaction put there or found there. */
  ghost predicate Foreign(s: System, tx: Tx) {
    forall e | e in {tx.candidate, tx.previous, tx.next} :: !SameTrust(CurrentEntry(s), e)
  }

  /** What a rollback compares against is one of the transaction's own registrations. */
  lemma LoadedIsOwn(tx: Tx, j: Journal, e: Entry)
    requires JournalOf(tx, j) && e in j.allowed
    ensures SameTrust(e, tx.candidate) || SameTrust(e, tx.previous) || SameTrust(e, tx.next)
  {}

  /** While a transaction is open, a foreign registration is never written over by the protocol. */
  lemma ForeignEntryStays(s: System, a: Action)
    requires Inv(s) && s.outcome == Open && Foreign(s, s.tx.value) && !a.SaveAction?
    ensures CurrentEntry(Step(s, a)) == CurrentEntry(s)
  {
    if a.AdvanceAction? { ForeignEntryOutlivesAdvance(s); } else { OnlyAdvanceStores(s, a); }
  }

  lemma OnlyAdvanceStores(s: System, a: Action)
    requires !a.AdvanceAction? && !a.SaveAction?
    ensures CurrentEntry(Step(s, a)) == CurrentEntry(s)
  {}

  lemma ForeignEntryOutlivesAdvance(s: System)
    requires Inv(s) && s.outcome == Open && Foreign(s, s.tx.value)
    ensures CurrentEntry(Advance(s)) == CurrentEntry(s)
  {
    match s.act
    case Publishing(stage, j) => ForeignEntryOutlivesPublish(s, stage, j);
    case RollingBack(step, j) => ForeignEntryOutlivesRollback(s, step, j);
    case _ =>
  }

  lemma ForeignEntryOutlivesRollback(s: System, step: RollbackStage, j: Journal)
    requires Inv(s) && s.outcome == Open && Foreign(s, s.tx.value) && s.act == RollingBack(step, j)
    ensures CurrentEntry(Advance(s)) == CurrentEntry(s)
  {
    if step.Restore? {
      LoadedIsOwn(s.tx.value, j, step.loaded);
      assert !SameTrust(CurrentEntry(s), step.loaded);
    }
  }

  lemma ForeignEntryOutlivesPublish(s: System, stage: PublishStage, j: Journal)
    requires Inv(s) && s.outcome == Open && Foreign(s, s.tx.value) && s.act == Publishing(stage, j)
    ensures CurrentEntry(Advance(s)) == CurrentEntry(s)
  {}

  /** The restoring save is guarded by source and grants alone: exactly they must be as loaded. */
  lemma RestoreGuard(s: System, loaded: Entry, j: Journal)
    requires s.act == RollingBack(Restore(loaded), j)
    ensures Advance(s).act.Sweeping? <==> CurrentEntry(s).local == loaded.local && CurrentEntry(s).managed == loaded.managed
    ensures Advance(s).act.Sweeping? ==> CurrentEntry(Advance(s)) == j.previous
    ensures !Advance(s).act.Sweeping? ==> Advance(s).disk == s.disk
  {}

  /** What was installed is checked against the candidate's record, and the save against the entry it was based on. */
  lemma InstallationIsChecked(s: System, j: Journal, tx: Tx)
    requires s.tx == Some(tx) && (s.act == Publishing(Restage, j) || s.act == Publishing(SaveNext, j))
    ensures s.act.stage == Restage ==>
              (Advance(s).act.Publishing? <==>
                 exists v :: && tx.candidate.managed.Some? && tx.candidate.managed.value.currentVersion == Some(v)
                             && v in tx.candidate.managed.value.history && j.target in s.disk.dirs
                             && s.disk.dirs[j.target].source == v.package.source && s.disk.dirs[j.target].manifest == v.package.manifest)
    ensures s.act.stage == SaveNext ==>
              (Advance(s).act.Installed? <==>
                 CurrentEntry(s).local == tx.base.local && CurrentEntry(s).managed == tx.base.managed)
    ensures !Advance(s).act.Installed? ==> Advance(s).disk == s.disk
  {
    if tx.candidate.Current().Some? {
      var v := tx.candidate.Current().value;
      assert tx.candidate.managed.value.currentVersion == Some(v) && v in tx.candidate.managed.value.history;
    }
  }

  /** A checkpoint is dropped only for one of its own two entries: by a new transaction for its candidate, otherwise for the one registered. */
  lemma CheckpointIsDroppedIff(s: System, j: Journal, tx: Tx)
    requires s.disk.checkpoint.Some? && s.tx == Some(tx)
    ensures var c := s.disk.checkpoint.value;
            && (RetireCheckpoint(s) == if CurrentEntry(s) in {c.candidate, c.previous} then s.(disk := s.disk.(checkpoint := None)) else s)
            && (s.act == Publishing(ClearCheckpoint, j) ==>
                  if tx.candidate in {c.candidate, c.previous}
                  then Advance(s).disk == s.disk.(checkpoint := None) && Advance(s).act == Publishing(MoveAside, j)
                  else Advance(s) == s.(act := Idle))
  {}

  // ----- the checkpoint never undoes a swap

  /** Once files have moved or the commit is recorded there is no checkpoint left. */
  lemma NoCheckpointBehindCommit(s0: System, actions: seq<Action>)
    requires Initial(s0)
    ensures var s := Run(s0, actions);
            s.outcome == Open ==>
              && s.tx.Some?
              && (s.disk.checkpoint.Some? ==> Unmoved(s.disk, s.tx.value))
              && (s.act.Installed? || s.act.Committing? || (s.disk.journal.Some? && s.disk.journal.value.committed) ==>
                    s.disk.checkpoint.None?)
  {
    RunKeeps(s0, actions);
  }

  lemma NoCheckpointAtFinish(s: System, a: Action)
    requires Inv(s) && s.outcome == Open && Step(s, a).outcome == Committed
    ensures Step(s, a).disk.checkpoint.None?
  {
    FinishIsRetiring(s, a);
  }

  lemma FinishIsRetiring(s: System, a: Action)
    requires s.outcome == Open && Step(s, a).outcome == Committed
    ensures a == AdvanceAction && s.act.Retiring? && s.act.journal.committed
    ensures Step(s, a).disk.checkpoint == s.disk.checkpoint
  {}

  // ----- cleanup

  /**
   * A cleanup step removes its one directory exactly if that is this plugin's, not the target and not
   * overlapping a registration it loaded, and touches nothing else.
   */
  lemma CleanupSpares(s: System, j: Journal, rest: seq<Path>, registered: set<Path>)
    requires Inv(s) && s.act == Cleaning(j, rest, registered)
    ensures Advance(s).disk == s.disk.(dirs := Advance(s).disk.dirs)
    ensures forall p | p in s.disk.dirs ::
              p !in Advance(s).disk.dirs <==>
                && rest != [] && p == rest[0] && p != s.tx.value.target
                && s.disk.dirs[p].manifest.id == s.id
                && forall r | r in registered :: !Overlaps(r, p)
    ensures forall p | p in Advance(s).disk.dirs :: p in s.disk.dirs && Advance(s).disk.dirs[p] == s.disk.dirs[p]
  {}

  /** The adopted seed goes exactly if it still verifies and no registered directory overlaps it. */
  lemma SeedGoesIff(s: System, j: Journal)
    requires Inv(s) && s.act == CleaningSeed(j)
    ensures j.previous.local.Some? && Advance(s).disk == s.disk.(dirs := Advance(s).disk.dirs)
    ensures forall p | p in s.disk.dirs ::
              p !in Advance(s).disk.dirs <==>
                && p == j.previous.local.value.path && s.disk.dirs[p].official
                && forall id | id in s.disk.registry && s.disk.registry[id].local.Some? :: !Overlaps(s.disk.registry[id].local.value.path, p)
    ensures forall p | p in Advance(s).disk.dirs :: p in s.disk.dirs && Advance(s).disk.dirs[p] == s.disk.dirs[p]
  {
    forall id | id in s.disk.registry && s.disk.registry[id].local.Some?
      ensures s.disk.registry[id].local.value.path in RegisteredPaths(s.disk.registry) {}
  }

  // ----- what a commit checks

  /** A commit goes ahead exactly on the entries its journal lists, and they include the old ones. */
  lemma CommitGuard(s: System)
    requires Inv(s) && s.act.Installed?
    ensures var tx, e := s.tx.value, CurrentEntry(s);
            Commit(s).act.Committing? <==>
              e == tx.candidate || e == tx.previous || e == tx.next || (tx.enableAfter && e == tx.next.(enabled := true))
    ensures Commit(s).act.Committing? ==> Commit(s).disk == s.disk
  {}

  // ----- recovery completes

  ghost function Advances(s: System, n: nat): System
    decreases n
  {
    if n == 0 then s else Advance(Advances(s, n - 1))
  }

  /** The packages involved are the ones the records describe. */
  ghost predicate Genuine(id: Id, tx: Tx) {
    && tx.newPackage.manifest.id == id
    && (OldPath(tx).Some? ==>
          && tx.oldPackage.Some?
          && (if tx.previous.managed.None? then tx.oldPackage.value.official
              else && tx.previous.Current().Some?
                   && tx.oldPackage.value.source == tx.previous.Current().value.package.source
                   && tx.oldPackage.value.manifest == tx.previous.Current().value.package.manifest
                   && tx.oldPackage.value.manifest.id == id))
  }

  /** The files recovery needs are there, and are what the records describe. */
  predicate FilesRestorable(d: Disk, id: Id, j: Journal) {
    CanRestore(d, j) && (BackupExists(d, j) ==> d.dirs[j.backup.value].manifest.id == id)
  }

  /** The new copies, where the restored registry does not protect them, are the plugin's own. */
  ghost predicate CopiesOwned(d: Disk, id: Id, j: Journal) {
    forall p | p in {j.staged, j.ready} && p in d.dirs && !Spared(j, RegisteredPaths(d.registry[id := j.previous]), p) ::
      d.dirs[p].manifest.id == id
  }

  /** What recovery of an uncommitted journal needs of the disk it finds. */
  ghost predicate Restorable(d: Disk, id: Id, j: Journal) {
    EntryOf(d.registry, id) in j.allowed && FilesRestorable(d, id, j) && CopiesOwned(d, id, j)
  }

  /** With genuine packages the files are restorable unless an exposed one is gone. */
  lemma GenuineIsRestorable(s: System, tx: Tx, j: Journal)
    requires Undoable(s, tx) && Planned(tx) && s.disk.journal == Some(j) && Genuine(s.id, tx)
    requires !Exposed(tx, s.seen)
    ensures FilesRestorable(s.disk, s.id, j)
  {}

  /** What stands at the target instead of the old package is the new one. */
  lemma NewIsAtTarget(s: System, tx: Tx, j: Journal)
    requires Undoable(s, tx) && Planned(tx) && JournalOf(tx, j) && TargetIsNew(s.disk, j)
    ensures s.disk.dirs[j.target] == tx.newPackage && tx.newPackage.manifest.id == s.id
  {}

  /** Only the target and the backup differ. */
  ghost predicate SameElsewhere(d: Disk, d': Disk, tx: Tx) {
    forall p | p != tx.target && Some(p) != tx.backup ::
      (p in d.dirs <==> p in d'.dirs) && (p in d.dirs ==> d.dirs[p] == d'.dirs[p])
  }

  /** The check passes and the new package goes. */
  lemma RecoveryRemovesNew(s: System) returns (t: System)
    requires Inv(s) && s.act.Idle? && s.disk.journal.Some? && !s.disk.journal.value.committed
    requires CurrentEntry(s) in s.disk.journal.value.allowed && FilesRestorable(s.disk, s.id, s.disk.journal.value)
    ensures t == Advances(Recover(s), 2) && Inv(t)
    ensures t.act == RollingBack(MoveBack(CurrentEntry(s), BackupExists(s.disk, s.disk.journal.value)), s.disk.journal.value)
    ensures t == s.(act := t.act, disk := s.disk.(dirs := t.disk.dirs))
    ensures t.disk.dirs == s.disk.dirs || t.disk.dirs == s.disk.dirs - {s.disk.journal.value.target}
  {
    var j := s.disk.journal.value;
    RecoverKeeps(s);
    var a := Recover(s);
    AdvanceKeeps(a);
    var b := Advance(a);
    if TargetIsNew(b.disk, j) { NewIsAtTarget(b, s.tx.value, j); }
    AdvanceKeeps(b);
    t := Advance(b);
    assert Advances(a, 1) == Advance(Advances(a, 0)) == b;
  }

  /** The old package returns and the registration is restored. */
  lemma RecoveryRestores(s: System, loaded: Entry, backupSeen: bool, j: Journal) returns (t: System)
    requires Inv(s) && s.act == RollingBack(MoveBack(loaded, backupSeen), j) && SameTrust(CurrentEntry(s), loaded)
    requires BackupExists(s.disk, j) ==> s.disk.dirs[j.backup.value].manifest.id == s.id
    ensures t == Advance(Advance(s)) && Inv(t) && t.act == Sweeping(j)
    ensures t == s.(act := t.act, disk := s.disk.(dirs := t.disk.dirs, registry := s.disk.registry[s.id := j.previous]))
    ensures SameElsewhere(s.disk, t.disk, s.tx.value)
  {
    AdvanceKeeps(s);
    var d := Advance(s);
    AdvanceKeeps(d);
    t := Advance(d);
  }

  /** From an uncommitted crash state whose entry is listed and whose files are there, four steps bring them back. */
  lemma RollbackRestores(s: System) returns (t: System)
    requires Inv(s) && s.act.Idle? && s.disk.journal.Some? && !s.disk.journal.value.committed
    requires CurrentEntry(s) in s.disk.journal.value.allowed && FilesRestorable(s.disk, s.id, s.disk.journal.value)
    ensures t == Advances(Recover(s), 4) && Inv(t)
    ensures t.act == Sweeping(s.disk.journal.value) && CurrentEntry(t) == s.tx.value.previous
    ensures t == s.(act := t.act, disk := s.disk.(dirs := t.disk.dirs, registry := s.disk.registry[s.id := s.tx.value.previous]))
    ensures SameElsewhere(s.disk, t.disk, s.tx.value)
  {
    var a := RecoveryRemovesNew(s);
    t := RecoveryRestores(a, CurrentEntry(s), BackupExists(s.disk, s.disk.journal.value), s.disk.journal.value);
    assert Advances(Recover(s), 4) == Advance(Advances(Recover(s), 3)) == Advance(Advance(Advances(Recover(s), 2)));
  }

  /** Cleaning gets through when every directory it would remove belongs to the plugin. */
  ghost predicate Cleanable(s: System, j: Journal, rest: seq<Path>, registered: set<Path>) {
    forall p | p in rest && p in s.disk.dirs && !Spared(j, registered, p) :: s.disk.dirs[p].manifest.id == s.id
  }

  lemma {:induction false} CleaningCompletes(s: System, j: Journal, rest: seq<Path>, registered: set<Path>) returns (t: System)
    requires Inv(s) && s.act == Cleaning(j, rest, registered) && Cleanable(s, j, rest, registered)
    ensures t == Advances(s, |rest|) && Inv(t) && t.act == Cleaning(j, [], registered)
    ensures t == s.(act := t.act, disk := s.disk.(dirs := t.disk.dirs))
    decreases |rest|
  {
    if rest == [] {
      t := s;
    } else {
      assert rest[0] in rest && forall p | p in rest[1..] :: p in rest;
      AdvanceKeeps(s);
      t := CleaningCompletes(Advance(s), j, rest[1..], registered);
      AdvancesShift(s, |rest| - 1);
    }
  }

  lemma {:induction false} AdvancesShift(s: System, n: nat)
    ensures Advances(Advance(s), n) == Advances(s, n + 1)
  {
    if n > 0 { AdvancesShift(s, n - 1); }
  }

  lemma {:induction false} AdvancesAdd(s: System, m: nat, n: nat)
    ensures Advances(Advances(s, m), n) == Advances(s, m + n)
    decreases m
  {
    if m > 0 {
      AdvancesShift(s, m - 1);
      AdvancesAdd(Advance(s), m - 1, n);
      AdvancesShift(s, m - 1 + n);
    }
  }

  /** The sweep after a rollback ends with the journal gone. */
  lemma SweepCompletes(s: System, j: Journal) returns (t: System)
    requires Inv(s) && s.act == Sweeping(j) && !j.committed
    requires Cleanable(s, j, Obsolete(j), RegisteredPaths(s.disk.registry))
    ensures t == Advances(s, 5) && Inv(t)
    ensures t.act.Idle? && t.disk.journal.None? && t.outcome == RolledBack
    ensures t.tx == s.tx && t.disk.registry == s.disk.registry && t.id == s.id
    ensures t.seen == Some(RegisteredPaths(s.disk.registry))
  {
    var registered := RegisteredPaths(s.disk.registry);
    AdvanceKeeps(s);
    var a := Advance(s);
    assert |Obsolete(j)| == 2;
    var b := CleaningCompletes(a, j, Obsolete(j), registered);
    AdvancesShift(s, 2);
    AdvanceKeeps(b);
    var c := Advance(b);
    AdvanceKeeps(c);
    t := Advance(c);
    assert Advances(s, 5) == Advance(Advances(s, 4)) == Advance(Advance(Advances(s, 3)));
  }

  /** A crash state that recovery can bring to an end. */
  ghost predicate Recoverable(s: System) {
    && s.act.Idle? && s.disk.journal.Some? && !s.disk.journal.value.committed
    && Restorable(s.disk, s.id, s.disk.journal.value)
  }

  lemma RecoveryCompletesFrom(s: System) returns (t: System)
    requires Inv(s) && Recoverable(s)
    ensures t == Advances(Recover(s), 9) && Inv(t)
    ensures t.act.Idle? && t.disk.journal.None? && t.outcome == RolledBack
    ensures t.tx == s.tx && CurrentEntry(t) == s.tx.value.previous && !Exposed(s.tx.value, t.seen)
  {
    var r := RollbackRestores(s);
    SweepIsPossible(s, r, s.tx.value, s.disk.journal.value);
    t := SweepCompletes(r, s.disk.journal.value);
    RegisteredIsNotExposed(r, s.tx.value);
    AdvancesAdd(Recover(s), 4, 5);
  }

  lemma SweepIsPossible(s: System, r: System, tx: Tx, j: Journal)
    requires Inv(s) && Recoverable(s) && s.disk.journal == Some(j) && s.tx == Some(tx) && r.id == s.id
    requires SameElsewhere(s.disk, r.disk, tx) && r.disk.registry == s.disk.registry[s.id := j.previous]
    ensures Cleanable(r, j, Obsolete(j), RegisteredPaths(r.disk.registry))
  {
    assert Obsolete(j) == [tx.staged, tx.ready];
  }

  /**
   * Recovery of an uncommitted transaction: from any restorable state any run can crash in, nine
   * undisturbed steps end with the journal gone, exactly the previous entry registered and the old
   * package back, whatever others did before.
   */
  lemma RecoveryCompletes(s0: System, actions: seq<Action>) returns (t: System)
    requires Initial(s0) && Recoverable(Crash(Run(s0, actions)))
    ensures t == Advances(Recover(Crash(Run(s0, actions))), 9)
    ensures t.act.Idle? && t.disk.journal.None? && t.outcome == RolledBack
    ensures t.tx == Run(s0, actions).tx && t.tx.Some? && CurrentEntry(t) == t.tx.value.previous
    ensures Back(t.id, t.disk, t.tx.value)
    ensures t.tx.value.oldPackage.Some? ==>
              OldPath(t.tx.value).Some? && HoldsOld(t.disk, OldPath(t.tx.value).value, t.tx.value)
  {
    RunKeeps(s0, actions);
    var s := Run(s0, actions);
    StoppingKeeps(s);
    t := RecoveryCompletesFrom(Crash(s));
  }

  // ----- recovery of a committed transaction

  /** The adopted installer package, if the journal names one, may be removed. */
  ghost predicate SeedRemovable(s: System, j: Journal) {
    j.previous.managed.None? && j.previous.local.Some? ==>
      var path := j.previous.local.value.path;
      && (forall r | r in RegisteredPaths(s.disk.registry) :: !Overlaps(r, path))
      && (path in s.disk.dirs ==> s.disk.dirs[path].official)
  }

  /** Everything older than the committed package belongs to the plugin or is spared. */
  ghost predicate Finishable(s: System) {
    && s.act.Idle? && s.disk.journal.Some? && s.disk.journal.value.committed
    && Cleanable(s, s.disk.journal.value, Obsolete(s.disk.journal.value), RegisteredPaths(s.disk.registry))
    && SeedRemovable(s, s.disk.journal.value)
  }

  /** After the last directory comes the seed, if there is one, and then the journal. */
  lemma CleanedStep(s: System, j: Journal, registered: set<Path>)
    requires s.act == Cleaning(j, [], registered) || s.act == CleaningSeed(j)
    requires j.committed && SeedRemovable(s, j)
    requires s.act.CleaningSeed? ==> j.previous.managed.None? && j.previous.local.Some?
    ensures var t := Advance(s);
            && (t.act == Retiring(j) || (s.act.Cleaning? && t == s.(act := CleaningSeed(j)) && t.act.journal.previous.local.Some?
                                         && j.previous.managed.None?))
            && t.tx == s.tx && t.disk.registry == s.disk.registry && t.id == s.id
  {}

  lemma RetiringEnds(s: System, j: Journal)
    requires s.act == Retiring(j) && j.committed
    ensures var t := Advance(s);
            && t.act.Idle? && t.disk.journal.None? && t.outcome == Committed
            && t.tx == s.tx && t.disk.registry == s.disk.registry && t.id == s.id
  {}

  lemma CommittedEnds(s: System, j: Journal, registered: set<Path>) returns (t: System, n: nat)
    requires Inv(s) && s.act == Cleaning(j, [], registered) && j.committed && SeedRemovable(s, j)
    ensures t == Advances(s, n) && Inv(t)
    ensures t.act.Idle? && t.disk.journal.None? && t.outcome == Committed
    ensures t.tx == s.tx && t.disk.registry == s.disk.registry && t.id == s.id
  {
    CleanedStep(s, j, registered);
    AdvanceKeeps(s);
    t, n := Advance(s), 1;
    assert t == Advances(s, n);
    if t.act != Retiring(j) {
      CleanedStep(t, j, registered);
      AdvanceKeeps(t);
      t, n := Advance(t), n + 1;
    }
    RetiringEnds(t, j);
    AdvanceKeeps(t);
    t, n := Advance(t), n + 1;
  }

  lemma {:induction false} CleaningOnlyRemoves(s: System, n: nat)
    requires forall k | 0 <= k < n :: Advances(s, k).act.Cleaning?
    ensures forall p | p in Advances(s, n).disk.dirs :: p in s.disk.dirs && Advances(s, n).disk.dirs[p] == s.disk.dirs[p]
  {
    if n > 0 { CleaningOnlyRemoves(s, n - 1); }
  }

  lemma {:induction false} CleaningStays(s: System, j: Journal, rest: seq<Path>, registered: set<Path>, k: nat)
    requires s.act == Cleaning(j, rest, registered) && Cleanable(s, j, rest, registered) && k <= |rest|
    ensures Advances(s, k).act == Cleaning(j, rest[k..], registered)
    ensures Advances(s, k).id == s.id && Cleanable(Advances(s, k), j, rest[k..], registered)
  {
    if k > 0 {
      CleaningStays(s, j, rest, registered, k - 1);
      assert rest[k - 1..][1..] == rest[k..] && rest[k - 1..][0] in rest[k - 1..];
      assert forall p | p in rest[k..] :: p in rest[k - 1..];
    }
  }

  lemma SweepingStarts(s: System, j: Journal) returns (b: System, rest: seq<Path>, registered: set<Path>)
    requires Inv(s) && Finishable(s) && s.disk.journal == Some(j)
    ensures b == Advance(Recover(s)) && Inv(b) && b == s.(act := Cleaning(j, rest, registered))
    ensures Cleanable(b, j, rest, registered) && SeedRemovable(b, j)
  {
    RecoverKeeps(s);
    AdvanceKeeps(Recover(s));
    b, rest, registered := Advance(Recover(s)), Obsolete(j), RegisteredPaths(s.disk.registry);
  }

  /** The sweep removes what is obsolete and leaves the seed as it was, or gone. */
  lemma CommittedCleans(b: System, j: Journal, rest: seq<Path>, registered: set<Path>) returns (c: System)
    requires Inv(b) && b.act == Cleaning(j, rest, registered) && Cleanable(b, j, rest, registered) && SeedRemovable(b, j)
    ensures c == Advances(b, |rest|) && Inv(c) && c.act == Cleaning(j, [], registered) && SeedRemovable(c, j)
    ensures c.tx == b.tx && c.disk.registry == b.disk.registry && c.id == b.id
  {
    c := CleaningCompletes(b, j, rest, registered);
    forall k | 0 <= k < |rest| ensures Advances(b, k).act.Cleaning? {
      CleaningStays(b, j, rest, registered, k);
    }
    CleaningOnlyRemoves(b, |rest|);
  }

  lemma CommittedSweeps(s: System, j: Journal) returns (c: System, n: nat, registered: set<Path>)
    requires Inv(s) && Finishable(s) && s.disk.journal == Some(j)
    ensures c == Advances(Recover(s), n) && Inv(c)
    ensures c.act == Cleaning(j, [], registered) && SeedRemovable(c, j)
    ensures c.tx == s.tx && c.disk.registry == s.disk.registry && c.id == s.id
  {
    var b: System, rest: seq<Path>;
    b, rest, registered := SweepingStarts(s, j);
    c := CommittedCleans(b, j, rest, registered);
    AdvancesShift(Recover(s), |rest|);
    n := |rest| + 1;
  }

  /**
   * Recovery of a committed transaction: from any state any run can crash in, recovery ends with the
   * journal gone, the new package at the target and the registry as it was found.
   */
  lemma CommittedRecoveryCompletes(s0: System, actions: seq<Action>) returns (t: System, n: nat)
    requires Initial(s0) && Finishable(Crash(Run(s0, actions)))
    ensures t == Advances(Recover(Crash(Run(s0, actions))), n)
    ensures t.act.Idle? && t.disk.journal.None? && t.outcome == Committed
    ensures t.tx == Run(s0, actions).tx && t.tx.Some? && Holds(t.disk, t.tx.value.target, t.tx.value.newPackage)
    ensures t.disk.registry == Run(s0, actions).disk.registry && t.id == Run(s0, actions).id
    ensures t.touched || SameTrust(CurrentEntry(t), t.tx.value.next)
  {
    RunKeeps(s0, actions);
    StoppingKeeps(Run(s0, actions));
    t, n := CommittedRecovers(Crash(Run(s0, actions)));
  }

  lemma CommittedRecovers(s: System) returns (t: System, n: nat)
    requires Inv(s) && Finishable(s)
    ensures t == Advances(Recover(s), n) && Inv(t)
    ensures t.act.Idle? && t.disk.journal.None? && t.outcome == Committed
    ensures t.tx == s.tx && t.disk.registry == s.disk.registry && t.id == s.id
  {
    var j := s.disk.journal.value;
    var c, k, registered := CommittedSweeps(s, j);
    var m: nat;
    t, m := CommittedEnds(c, j, registered);
    AdvancesAdd(Recover(s), k, m);
    n := k + m;
  }

  // ----- recovery of a checkpoint

  /** A checkpoint whose entry is still there is undone or dropped, and no package is touched. */
  lemma CheckpointRecoveryCompletes(s: System)
    requires s.act.Idle? && s.disk.journal.None? && s.disk.checkpoint.Some?
    requires CurrentEntry(s) == s.disk.checkpoint.value.candidate || CurrentEntry(s) == s.disk.checkpoint.value.previous
    ensures exists n: nat :: n <= 2 &&
              var t := Advances(Recover(s), n);
              && t.act.Idle? && t.disk.checkpoint.None? && t.disk.journal.None?
              && CurrentEntry(t) == s.disk.checkpoint.value.previous && t.disk.dirs == s.disk.dirs
  {
    var r := Recover(s);
    assert Advances(r, 1) == Advance(Advances(r, 0)) == Advance(r);
    assert Advances(r, 2) == Advance(Advance(r));
  }
}
