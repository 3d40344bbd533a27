/** What the protocol leaves alone, and what it brings to an end, over whole runs. */
module InstallationRuns {
  import opened Results
  import opened Ids
  import opened ManagedTypes
  import opened Installation
  import opened InstallationSafety
  import opened InstallationTheorems

  /** The steps of the process itself. */
  predicate Own(a: Action) {
    !a.SaveAction? && !a.WriteAction?
  }

  // ----- a registration or a package the records do not allow

  /** A journal is open that does not list the registration or whose previous package is not there. */
  ghost predicate Refusing(s: System, d: Disk) {
    && s.disk == d && d.journal.Some? && !d.journal.value.committed
    && (CurrentEntry(s) !in d.journal.value.allowed || !CanRestore(d, d.journal.value))
    && match s.act
       case Idle => true
       case RollingBack(step, j) =>
         j == d.journal.value && (step == CheckEntry || (step.RemoveNew? && !CanRestore(d, j)))
       case _ => false
  }

  lemma RefusingStays(s: System, a: Action, d: Disk)
    requires Refusing(s, d) && Own(a) && !a.ClearAction?
    ensures Refusing(Step(s, a), d)
  {}

  /**
   * However often recovery is started, fails or crashes, and whatever else the process is asked to
   * do, a registration the open journal does not list, or a previous package that is gone or changed,
   * keeps the whole disk as it is.
   */
  lemma {:induction false} ForeignEntryStopsRecovery(s: System, actions: seq<Action>)
    requires Refusing(s, s.disk)
    requires forall a | a in actions :: Own(a) && !a.ClearAction?
    ensures Run(s, actions).disk == s.disk
    decreases |actions|
  {
    if actions != [] {
      assert actions[0] in actions && forall a | a in actions[1..] :: a in actions;
      RefusingStays(s, actions[0], s.disk);
      ForeignEntryStopsRecovery(Step(s, actions[0]), actions[1..]);
    }
  }

  // ----- exactly when recovery gets through

  /** An uncommitted recovery that will stop before its journal goes. */
  ghost predicate Doomed(s: System, j: Journal) {
    && s.disk.journal == Some(j) && !j.committed
    && match s.act
       case Idle => true
       case RollingBack(step, k) => k == j && DoomedRollback(s, step, j)
       case Sweeping(k) => k == j && s.id in s.disk.registry && s.disk.registry[s.id] == j.previous && !CopiesOwned(s.disk, s.id, j)
       case Cleaning(k, rest, registered) => k == j && !Cleanable(s, j, rest, registered)
       case _ => false
  }

  ghost predicate DoomedRollback(s: System, step: RollbackStage, j: Journal) {
    match step
    case CheckEntry => !Restorable(s.disk, s.id, j)
    case RemoveNew(_) => !FilesRestorable(s.disk, s.id, j) || !CopiesOwned(s.disk, s.id, j)
    case MoveBack(_, backupSeen) =>
      || (backupSeen && BackupExists(s.disk, j) && s.disk.dirs[j.backup.value].manifest.id != s.id)
      || !CopiesOwned(s.disk, s.id, j)
    case Restore(_) => !CopiesOwned(s.disk, s.id, j)
  }

  lemma CopiesStayForeign(d: Disk, d': Disk, id: Id, tx: Tx, j: Journal)
    requires Planned(tx) && JournalOf(tx, j) && !CopiesOwned(d, id, j) && SameElsewhere(d, d', tx)
    requires d'.registry[id := j.previous] == d.registry[id := j.previous]
    ensures !CopiesOwned(d', id, j)
  {}

  lemma RemovalStaysDoomed(s: System, loaded: Entry, j: Journal)
    requires Inv(s) && Doomed(s, j) && s.act == RollingBack(RemoveNew(loaded), j)
    ensures Doomed(Advance(s), j)
  {
    var tx, t := s.tx.value, Advance(s);
    assert t.disk == s.disk || t.disk == Remove(s.disk, tx.target);
    if !CopiesOwned(s.disk, s.id, j) { CopiesStayForeign(s.disk, t.disk, s.id, tx, j); }
    assert tx.backup.Some? ==> tx.backup.value != tx.target;
  }

  lemma ReturnStaysDoomed(s: System, loaded: Entry, backupSeen: bool, j: Journal)
    requires Inv(s) && Doomed(s, j) && s.act == RollingBack(MoveBack(loaded, backupSeen), j)
    ensures Doomed(Advance(s), j)
  {
    var tx, t := s.tx.value, Advance(s);
    assert SameElsewhere(s.disk, t.disk, tx);
    if !CopiesOwned(s.disk, s.id, j) { CopiesStayForeign(s.disk, t.disk, s.id, tx, j); }
  }

  lemma RestoringStaysDoomed(s: System, loaded: Entry, j: Journal)
    requires Inv(s) && Doomed(s, j) && s.act == RollingBack(Restore(loaded), j)
    ensures Doomed(Advance(s), j)
  {
    var stored := s.disk.registry[s.id := j.previous];
    assert stored[s.id := j.previous] == stored;
    CopiesStayForeign(s.disk, Store(s.disk, s.id, j.previous), s.id, s.tx.value, j);
  }

  lemma SweepStaysDoomed(s: System, j: Journal)
    requires Inv(s) && Doomed(s, j) && s.act == Sweeping(j)
    ensures Doomed(Advance(s), j)
  {
    assert s.disk.registry[s.id := j.previous] == s.disk.registry;
    var p :| p in {j.staged, j.ready} && p in s.disk.dirs && !Spared(j, RegisteredPaths(s.disk.registry), p)
             && s.disk.dirs[p].manifest.id != s.id;
    assert p in Obsolete(j);
  }

  lemma CleaningStaysDoomed(s: System, j: Journal, rest: seq<Path>, registered: set<Path>)
    requires Doomed(s, j) && s.act == Cleaning(j, rest, registered)
    ensures Doomed(Advance(s), j)
  {
    var p :| p in rest && p in s.disk.dirs && !Spared(j, registered, p) && s.disk.dirs[p].manifest.id != s.id;
    assert p == rest[0] || p in rest[1..];
  }

  lemma AdvanceStaysDoomed(s: System, j: Journal)
    requires Inv(s) && Doomed(s, j)
    ensures Doomed(Advance(s), j)
  {
    match s.act
    case Idle =>
    case RollingBack(CheckEntry, _) =>
    case RollingBack(RemoveNew(loaded), _) => RemovalStaysDoomed(s, loaded, j);
    case RollingBack(MoveBack(loaded, backupSeen), _) => ReturnStaysDoomed(s, loaded, backupSeen, j);
    case RollingBack(Restore(loaded), _) => RestoringStaysDoomed(s, loaded, j);
    case Sweeping(_) => SweepStaysDoomed(s, j);
    case Cleaning(_, rest, registered) => CleaningStaysDoomed(s, j, rest, registered);
  }

  lemma {:induction false} AdvancesDoomed(s: System, j: Journal, n: nat)
    requires Inv(s) && Doomed(s, j)
    ensures Inv(Advances(s, n)) && Doomed(Advances(s, n), j)
  {
    if n > 0 {
      AdvancesDoomed(s, j, n - 1);
      AdvanceKeeps(Advances(s, n - 1));
      AdvanceStaysDoomed(Advances(s, n - 1), j);
    }
  }

  /**
   * Recovery of an uncommitted journal gets through exactly when the registration is one the journal
   * lists, the previous package is where the protocol left it, and the new copies are the plugin's own.
   */
  lemma RecoveryFinishesIff(s: System)
    requires Inv(s) && s.act.Idle? && s.disk.journal.Some? && !s.disk.journal.value.committed
    ensures (exists n :: Advances(Recover(s), n).disk.journal.None?) <==> Restorable(s.disk, s.id, s.disk.journal.value)
  {
    if Restorable(s.disk, s.id, s.disk.journal.value) {
      var t := RecoveryCompletesFrom(s);
      assert Advances(Recover(s), 9).disk.journal.None?;
    } else {
      RecoverKeeps(s);
      forall n: nat ensures Advances(Recover(s), n).disk.journal.Some? {
        AdvancesDoomed(Recover(s), s.disk.journal.value, n);
      }
    }
  }

  /** The same without a journal, behind a checkpoint that matches neither side. */
  ghost predicate Unmatched(s: System, d: Disk) {
    && s.disk == d && s.act.Idle? && d.journal.None? && d.checkpoint.Some?
    && CurrentEntry(s) != d.checkpoint.value.candidate && CurrentEntry(s) != d.checkpoint.value.previous
  }

  lemma UnmatchedStays(s: System, a: Action, d: Disk)
    requires Unmatched(s, d) && Own(a) && !a.BeginAction?
    ensures Unmatched(Step(s, a), d)
  {}

  /**
   * Until a new transaction begins, no step, the retiring of the checkpoint included, undoes a
   * registration the checkpoint does not know or forgets the checkpoint.
   */
  lemma {:induction false} ForeignEntryKeepsCheckpoint(s: System, actions: seq<Action>)
    requires Unmatched(s, s.disk)
    requires forall a | a in actions :: Own(a) && !a.BeginAction?
    ensures Run(s, actions).disk == s.disk
    decreases |actions|
  {
    if actions != [] {
      assert actions[0] in actions && forall a | a in actions[1..] :: a in actions;
      UnmatchedStays(s, actions[0], s.disk);
      ForeignEntryKeepsCheckpoint(Step(s, actions[0]), actions[1..]);
    }
  }

  /** The transaction is still open before every one of the actions. */
  ghost predicate OpenThroughout(s: System, actions: seq<Action>)
    decreases |actions|
  {
    actions == [] || (s.outcome == Open && OpenThroughout(Step(s, actions[0]), actions[1..]))
  }

  lemma OnlyBeginSetsTx(s: System, a: Action)
    requires !a.BeginAction?
    ensures Step(s, a).tx == s.tx && Step(s, a).id == s.id
  {}

  lemma OpenCannotBegin(s: System, tx: Tx)
    requires Inv(s) && s.outcome == Open
    ensures !CanBegin(s, tx)
  {}

  lemma OpenKeepsTx(s: System, a: Action)
    requires Inv(s) && s.outcome == Open
    ensures Step(s, a).tx == s.tx && Step(s, a).id == s.id
  {
    if a.BeginAction? { OpenCannotBegin(s, a.tx); } else { OnlyBeginSetsTx(s, a); }
  }

  /**
   * For as long as a transaction is open no step writes over a registration that is none of its
   * own, whatever crashes, recovers or is written elsewhere.
   */
  lemma {:induction false} ForeignEntryStaysWhileOpen(s: System, actions: seq<Action>)
    requires Inv(s) && s.tx.Some? && Foreign(s, s.tx.value) && OpenThroughout(s, actions)
    requires forall a | a in actions && a.SaveAction? :: a.id != s.id
    ensures CurrentEntry(Run(s, actions)) == CurrentEntry(s)
    decreases |actions|
  {
    if actions != [] {
      var a, t := actions[0], Step(s, actions[0]);
      assert a in actions && forall b | b in actions[1..] :: b in actions;
      StepKeeps(s, a);
      OpenKeepsTx(s, a);
      if !a.SaveAction? { ForeignEntryStays(s, a); }
      assert CurrentEntry(t) == CurrentEntry(s);
      ForeignEntryStaysWhileOpen(t, actions[1..]);
    }
  }

  // ----- what is not looked at again

  /** Exactly when rolling back removes the directory at the target. */
  predicate RemovesTarget(s: System, j: Journal) {
    && CanRestore(s.disk, j) && TargetIsNew(s.disk, j)
    && s.disk.dirs[j.target].source == j.source && s.disk.dirs[j.target].manifest.id == s.id
  }

  /** Exactly when it moves the backup home. */
  predicate MovesBackup(s: System, j: Journal, backupSeen: bool) {
    && backupSeen && j.backup.Some? && CanMove(s.disk, j.backup.value, j.target)
    && s.disk.dirs[j.backup.value].manifest.id == s.id
  }

  /**
   * The files are moved on the strength of the first look at the registration: once it was found
   * allowed, whatever is saved in between, the target goes exactly if the packages allow it.
   */
  lemma TargetGoesUnlooked(s: System, loaded: Entry, j: Journal, e: Entry)
    requires s.act == RollingBack(RemoveNew(loaded), j)
    ensures var t := Advance(OthersSave(s, s.id, e));
            && t.disk.dirs == (if RemovesTarget(s, j) then s.disk.dirs - {j.target} else s.disk.dirs)
            && (RemovesTarget(s, j) ==> t.disk.dirs != s.disk.dirs)
            && CurrentEntry(t) == e
  {
    assert RemovesTarget(s, j) ==> j.target in s.disk.dirs;
  }

  /** The backup moves home exactly if it was seen and still fits; the registration stays what it became. */
  lemma BackupMovesUnlooked(s: System, loaded: Entry, j: Journal, backupSeen: bool, e: Entry)
    requires s.act == RollingBack(MoveBack(loaded, backupSeen), j)
    ensures var t := Advance(OthersSave(s, s.id, e));
            && t.disk.dirs == (if MovesBackup(s, j, backupSeen) then Move(s.disk, j.backup.value, j.target).dirs else s.disk.dirs)
            && (MovesBackup(s, j, backupSeen) ==> t.disk.dirs != s.disk.dirs)
            && CurrentEntry(t) == e
  {
    assert MovesBackup(s, j, backupSeen) ==> j.backup.value in s.disk.dirs && j.target !in s.disk.dirs;
  }

  // ----- runs nobody disturbs

  /** The registry holds the staged or the previous entry, and saving the new one keeps a listed preference. */
  ghost predicate Matches(e: Entry, tx: Tx) {
    && (e == tx.candidate || e == tx.previous)
    && var enabled := if tx.pendingEnabled.Some? then tx.pendingEnabled.value else e.enabled;
       enabled == tx.next.enabled || (tx.enableAfter && enabled)
  }

  /** The process is alone, and every transaction begins on a registry that matches it. */
  ghost predicate Undisturbed(s: System, actions: seq<Action>)
    decreases |actions|
  {
    actions == [] ||
    (&& Own(actions[0])
     && (actions[0].BeginAction? && CanBegin(s, actions[0].tx) ==> Matches(CurrentEntry(s), actions[0].tx))
     && Undisturbed(Step(s, actions[0]), actions[1..]))
  }

  /** The new copies, wherever they still are, belong to the plugin. */
  ghost predicate OwnCopies(s: System, tx: Tx) {
    tx.newPackage.manifest.id == s.id ==>
      forall p | p in {tx.staged, tx.ready} && p in s.disk.dirs :: s.disk.dirs[p].manifest.id == s.id
  }

  /** The registration of an undisturbed transaction is one its journal lists. */
  ghost predicate Listed(s: System, tx: Tx) {
    && !s.touched
    && (s.act.Publishing? ==> Matches(CurrentEntry(s), tx))
    && (s.disk.journal.Some? && !s.disk.journal.value.committed ==> CurrentEntry(s) in s.disk.journal.value.allowed)
  }

  ghost predicate Alone(s: System) {
    s.outcome == Open ==> s.tx.Some? && Listed(s, s.tx.value) && OwnCopies(s, s.tx.value)
  }

  lemma BeginIsAlone(s: System, tx: Tx)
    requires CanBegin(s, tx) && Matches(CurrentEntry(s), tx)
    ensures Alone(Begin(s, tx))
  {}

  lemma PublishStaysListed(s: System, stage: PublishStage, j: Journal)
    requires Inv(s) && s.outcome == Open && Listed(s, s.tx.value) && s.act == Publishing(stage, j)
    ensures Listed(Advance(s), s.tx.value)
  {}

  lemma RollbackStaysListed(s: System, step: RollbackStage, j: Journal)
    requires Inv(s) && s.outcome == Open && Listed(s, s.tx.value) && s.act == RollingBack(step, j)
    ensures Listed(Advance(s), s.tx.value)
  {}

  lemma AdvanceStaysListed(s: System)
    requires Inv(s) && s.outcome == Open && Listed(s, s.tx.value)
    ensures Listed(Advance(s), s.tx.value)
  {
    match s.act
    case Publishing(stage, j) => PublishStaysListed(s, stage, j);
    case RollingBack(step, j) => RollbackStaysListed(s, step, j);
    case _ =>
  }

  /** Sweeping and finishing put no directory anywhere. */
  lemma AdvanceOnlyRemoves(s: System)
    requires !s.act.Publishing? && !s.act.RollingBack?
    ensures forall p | p in Advance(s).disk.dirs :: p in s.disk.dirs && Advance(s).disk.dirs[p] == s.disk.dirs[p]
    ensures Advance(s).id == s.id && Advance(s).tx == s.tx
    ensures !s.act.RestoringCheckpoint? ==> Advance(s).disk.registry == s.disk.registry
  {}

  /** What neither begins nor advances touches neither files nor registrations. */
  lemma OtherStepsKeepFiles(s: System, a: Action)
    requires Own(a) && !a.BeginAction? && !a.AdvanceAction?
    ensures Step(s, a).disk.dirs == s.disk.dirs && Step(s, a).disk.registry == s.disk.registry
    ensures Step(s, a).id == s.id && Step(s, a).tx == s.tx && (Step(s, a).outcome == Open ==> s.outcome == Open)
  {}

  lemma PublishKeepsCopies(s: System, stage: PublishStage, j: Journal)
    requires Inv(s) && s.outcome == Open && OwnCopies(s, s.tx.value) && s.act == Publishing(stage, j)
    ensures OwnCopies(Advance(s), s.tx.value)
  {}

  lemma RollbackKeepsCopies(s: System, step: RollbackStage, j: Journal)
    requires Inv(s) && s.outcome == Open && OwnCopies(s, s.tx.value) && s.act == RollingBack(step, j)
    ensures OwnCopies(Advance(s), s.tx.value)
  {}

  lemma AdvanceKeepsCopies(s: System)
    requires Inv(s) && s.outcome == Open && OwnCopies(s, s.tx.value)
    ensures OwnCopies(Advance(s), s.tx.value)
  {
    match s.act
    case Publishing(stage, j) => PublishKeepsCopies(s, stage, j);
    case RollingBack(step, j) => RollbackKeepsCopies(s, step, j);
    case _ => AdvanceOnlyRemoves(s);
  }

  lemma OtherStepsStayAlone(s: System, a: Action)
    requires Inv(s) && Alone(s) && Own(a) && !a.BeginAction? && !a.AdvanceAction?
    ensures Alone(Step(s, a))
  {}

  lemma ClosedAdvance(s: System)
    requires Inv(s) && s.outcome != Open
    ensures Advance(s).outcome != Open
  {}

  lemma StepStaysAlone(s: System, a: Action)
    requires Inv(s) && Alone(s) && Own(a)
    requires a.BeginAction? && CanBegin(s, a.tx) ==> Matches(CurrentEntry(s), a.tx)
    ensures Alone(Step(s, a))
  {
    match a
    case BeginAction(tx) => if CanBegin(s, tx) { BeginIsAlone(s, tx); }
    case AdvanceAction =>
      if s.outcome == Open {
        AdvanceStaysListed(s);
        AdvanceKeepsCopies(s);
        OpenKeepsTx(s, a);
      } else {
        ClosedAdvance(s);
      }
    case _ => OtherStepsStayAlone(s, a);
  }

  lemma {:induction false} RunStaysAlone(s: System, actions: seq<Action>)
    requires Inv(s) && Alone(s) && Undisturbed(s, actions)
    ensures Alone(Run(s, actions))
    decreases |actions|
  {
    if actions != [] {
      StepKeeps(s, actions[0]);
      StepStaysAlone(s, actions[0]);
      RunStaysAlone(Step(s, actions[0]), actions[1..]);
    }
  }

  /** Wherever an undisturbed run crashes, recovery of an open transaction with genuine packages can finish. */
  lemma UndisturbedIsRecoverable(s0: System, actions: seq<Action>)
    requires Initial(s0) && Undisturbed(s0, actions)
    ensures var s := Crash(Run(s0, actions));
            s.disk.journal.Some? && !s.disk.journal.value.committed ==>
              && s.tx.Some? && CurrentEntry(s) in s.disk.journal.value.allowed
              && (Genuine(s.id, s.tx.value) ==> Recoverable(s))
  {
    RunKeeps(s0, actions);
    RunStaysAlone(s0, actions);
    StoppingKeeps(Run(s0, actions));
    OtherStepsStayAlone(Run(s0, actions), CrashAction);
    var s := Crash(Run(s0, actions));
    if s.disk.journal.Some? && !s.disk.journal.value.committed && Genuine(s.id, s.tx.value) {
      GenuineIsRestorable(s, s.tx.value, s.disk.journal.value);
    }
  }

  /**
   * Recovery without interference: from every state in which an undisturbed run can crash with an
   * uncommitted journal, nine steps bring back exactly the previous entry and the old package, with
   * the journal gone. The one hypothesis left is that the packages are those the records describe.
   */
  lemma UndisturbedRecoveryCompletes(s0: System, actions: seq<Action>) returns (t: System)
    requires Initial(s0) && Undisturbed(s0, actions)
    requires var s := Crash(Run(s0, actions));
             s.disk.journal.Some? && !s.disk.journal.value.committed && (s.tx.Some? ==> Genuine(s.id, s.tx.value))
    ensures t == Advances(Recover(Crash(Run(s0, actions))), 9)
    ensures t.act.Idle? && t.disk.journal.None? && t.outcome == RolledBack
    ensures t.tx == Run(s0, actions).tx && t.tx.Some? && CurrentEntry(t) == t.tx.value.previous
    ensures Back(t.id, t.disk, t.tx.value)
    ensures t.tx.value.oldPackage.Some? ==>
              OldPath(t.tx.value).Some? && HoldsOld(t.disk, OldPath(t.tx.value).value, t.tx.value)
  {
    UndisturbedIsRecoverable(s0, actions);
    t := RecoveryCompletes(s0, actions);
  }

  // ----- and the same for a committed journal

  /** What a commit leaves to be swept, apart from the seed. */
  ghost function OlderPaths(tx: Tx): set<Path> {
    {tx.staged, tx.ready} + (if tx.backup.Some? then {tx.backup.value} else {})
    + (if tx.previous.managed.Some? then set p | p in PathsOf(tx.previous.managed.value.history) else {})
  }

  ghost predicate OlderOwned(s: System, tx: Tx) {
    tx.newPackage.manifest.id == s.id ==>
      forall p | p in OlderPaths(tx) && p in s.disk.dirs :: s.disk.dirs[p].manifest.id == s.id
  }

  /** An adopted installer package verifies, and no other registration overlaps it. */
  ghost predicate SeedSafe(s: System, tx: Tx) {
    tx.previous.managed.None? && tx.previous.local.Some? ==>
      var path := tx.previous.local.value.path;
      && (path in s.disk.dirs ==> s.disk.dirs[path].official) && !Overlaps(tx.target, path)
      && forall id | id in s.disk.registry && id != s.id && s.disk.registry[id].local.Some? ::
           !Overlaps(s.disk.registry[id].local.value.path, path)
  }

  /** Of what a transaction supersedes: directories of the history are this plugin's, and the seed is safe. */
  ghost predicate Tidy(s: System, tx: Tx) {
    && SeedSafe(s, tx)
    && (tx.previous.managed.Some? ==>
          forall p | p in PathsOf(tx.previous.managed.value.history) && p in s.disk.dirs :: s.disk.dirs[p].manifest.id == s.id)
  }

  ghost predicate Orderly(s: System, actions: seq<Action>)
    decreases |actions|
  {
    actions == [] ||
    (&& Own(actions[0])
     && (actions[0].BeginAction? && CanBegin(s, actions[0].tx) ==>
           Matches(CurrentEntry(s), actions[0].tx) && Tidy(s, actions[0].tx))
     && Orderly(Step(s, actions[0]), actions[1..]))
  }

  lemma {:induction false} OrderlyIsUndisturbed(s: System, actions: seq<Action>)
    requires Orderly(s, actions)
    ensures Undisturbed(s, actions)
    decreases |actions|
  {
    if actions != [] { OrderlyIsUndisturbed(Step(s, actions[0]), actions[1..]); }
  }

  ghost predicate Sweepable(s: System) {
    s.outcome == Open ==> s.tx.Some? && OlderOwned(s, s.tx.value) && SeedSafe(s, s.tx.value)
  }

  lemma {:induction false} CurrentIsInPaths(history: seq<Version>, v: Version)
    requires v in history
    ensures v.path in PathsOf(history)
  {
    if v != history[0] { CurrentIsInPaths(history[1..], v); }
  }

  /** The package that moves aside is the current one, which the history names. */
  lemma TargetIsOlder(tx: Tx)
    requires Planned(tx) && tx.backup.Some?
    ensures tx.target in OlderPaths(tx)
  {
    CurrentIsInPaths(tx.previous.managed.value.history, tx.previous.Current().value);
  }

  lemma BeginIsSweepable(s: System, tx: Tx)
    requires CanBegin(s, tx) && Tidy(s, tx)
    ensures Sweepable(Begin(s, tx))
  {}

  lemma PublishKeepsOlder(s: System, stage: PublishStage, j: Journal)
    requires Inv(s) && s.outcome == Open && OlderOwned(s, s.tx.value) && s.act == Publishing(stage, j)
    ensures OlderOwned(Advance(s), s.tx.value)
  {
    if stage == MoveAside || stage == MoveIn {
      MovesKeepOlder(s, stage, j);
    } else {
      SavesMoveNothing(s, stage, j);
    }
  }

  lemma MovesKeepOlder(s: System, stage: PublishStage, j: Journal)
    requires Inv(s) && s.outcome == Open && OlderOwned(s, s.tx.value) && s.act == Publishing(stage, j)
    requires stage == MoveAside || stage == MoveIn
    ensures OlderOwned(Advance(s), s.tx.value)
  {
    if s.tx.value.backup.Some? { TargetIsOlder(s.tx.value); }
  }

  lemma SavesMoveNothing(s: System, stage: PublishStage, j: Journal)
    requires s.act == Publishing(stage, j) && stage != MoveAside && stage != MoveIn
    ensures Advance(s).disk.dirs == s.disk.dirs && Advance(s).id == s.id && Advance(s).tx == s.tx
  {}

  lemma RollbackKeepsOlder(s: System, step: RollbackStage, j: Journal)
    requires Inv(s) && s.outcome == Open && OlderOwned(s, s.tx.value) && s.act == RollingBack(step, j)
    ensures OlderOwned(Advance(s), s.tx.value)
  {}

  lemma AdvanceKeepsOlder(s: System)
    requires Inv(s) && s.outcome == Open && OlderOwned(s, s.tx.value)
    ensures OlderOwned(Advance(s), s.tx.value)
  {
    match s.act
    case Publishing(stage, j) => PublishKeepsOlder(s, stage, j);
    case RollingBack(step, j) => RollbackKeepsOlder(s, step, j);
    case _ => AdvanceOnlyRemoves(s);
  }

  lemma PublishKeepsSeed(s: System, stage: PublishStage, j: Journal)
    requires Inv(s) && s.outcome == Open && SeedSafe(s, s.tx.value) && s.act == Publishing(stage, j)
    ensures SeedSafe(Advance(s), s.tx.value)
  {
    PublishWritesOwnEntry(s, stage, j, s.tx.value);
    if stage == MoveAside || stage == MoveIn {
      MovesKeepSeed(s, stage, j);
    } else {
      SavesMoveNothing(s, stage, j);
      SeedFrame(s, Advance(s), s.tx.value);
    }
  }

  lemma MovesKeepSeed(s: System, stage: PublishStage, j: Journal)
    requires Inv(s) && s.outcome == Open && SeedSafe(s, s.tx.value) && s.act == Publishing(stage, j)
    requires stage == MoveAside || stage == MoveIn
    ensures SeedSafe(Advance(s), s.tx.value)
  {}

  lemma SeedFrame(s: System, t: System, tx: Tx)
    requires SeedSafe(s, tx) && t.id == s.id && t.disk.dirs == s.disk.dirs
    requires WritesOnly(s.disk.registry, t.disk.registry, s.id)
    ensures SeedSafe(t, tx)
  {}

  lemma RollbackKeepsSeed(s: System, step: RollbackStage, j: Journal)
    requires Inv(s) && s.outcome == Open && SeedSafe(s, s.tx.value) && s.act == RollingBack(step, j)
    ensures SeedSafe(Advance(s), s.tx.value)
  {}

  lemma AdvanceKeepsSeed(s: System)
    requires Inv(s) && s.outcome == Open && SeedSafe(s, s.tx.value)
    ensures SeedSafe(Advance(s), s.tx.value)
  {
    match s.act
    case Publishing(stage, j) => PublishKeepsSeed(s, stage, j);
    case RollingBack(step, j) => RollbackKeepsSeed(s, step, j);
    case _ => AdvanceOnlyRemoves(s);
  }

  lemma OtherStepsStaySweepable(s: System, a: Action)
    requires Sweepable(s) && Own(a) && !a.BeginAction? && !a.AdvanceAction?
    ensures Sweepable(Step(s, a))
  {
    OtherStepsKeepFiles(s, a);
  }

  lemma StepStaysSweepable(s: System, a: Action)
    requires Inv(s) && Sweepable(s) && Own(a)
    requires a.BeginAction? && CanBegin(s, a.tx) ==> Tidy(s, a.tx)
    ensures Sweepable(Step(s, a))
  {
    match a
    case BeginAction(tx) => if CanBegin(s, tx) { BeginIsSweepable(s, tx); }
    case AdvanceAction =>
      if s.outcome == Open {
        AdvanceKeepsOlder(s);
        AdvanceKeepsSeed(s);
        OpenKeepsTx(s, a);
      } else {
        ClosedAdvance(s);
      }
    case _ => OtherStepsStaySweepable(s, a);
  }

  lemma {:induction false} RunStaysSweepable(s: System, actions: seq<Action>)
    requires Inv(s) && Sweepable(s) && Orderly(s, actions)
    ensures Sweepable(Run(s, actions))
    decreases |actions|
  {
    if actions != [] {
      StepKeeps(s, actions[0]);
      StepStaysSweepable(s, actions[0]);
      RunStaysSweepable(Step(s, actions[0]), actions[1..]);
    }
  }

  lemma CommittedIsFinishable(s: System)
    requires Inv(s) && Alone(s) && Sweepable(s)
    requires s.act.Idle? && s.disk.journal.Some? && s.disk.journal.value.committed
    ensures Finishable(s)
  {
    var j, tx := s.disk.journal.value, s.tx.value;
    var registered := RegisteredPaths(s.disk.registry);
    forall p | p in Obsolete(j) ensures p in OlderPaths(tx) {}
    SeedGoes(s, tx, j);
  }

  /** The plugin's own registration is at the target, so nothing overlaps the seed. */
  lemma SeedGoes(s: System, tx: Tx, j: Journal)
    requires SeedSafe(s, tx) && SameTrust(CurrentEntry(s), tx.next) && Planned(tx) && JournalOf(tx, j)
    ensures SeedRemovable(s, j)
  {}

  lemma NewEntryIsRegistered(s: System)
    requires Inv(s) && Alone(s) && s.act.Idle? && s.disk.journal.Some? && s.disk.journal.value.committed
    ensures s.tx.Some? && SameTrust(CurrentEntry(s), s.tx.value.next)
  {}
}
