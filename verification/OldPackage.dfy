/** Exactly when an installation that is taken back loses the old package. */
module OldPackages {
  import opened Results
  import opened ManagedTypes
  import opened Installation
  import opened InstallationSafety
  import opened InstallationTheorems
  import opened InstallationRuns

  /** The old package is registered away from the target, so the protocol never moves it. */
  predicate StaysAway(tx: Tx) {
    tx.oldPackage.Some? && OldPath(tx).Some? && OldPath(tx).value != tx.target
  }

  ghost predicate HasOld(s: System) {
    s.tx.Some? && StaysAway(s.tx.value) && HoldsOld(s.disk, OldPath(s.tx.value).value, s.tx.value)
  }

  /** The next step is the cleaning step that takes it. */
  predicate Takes(s: System) {
    s.tx.Some? &&
    match s.act
    case Cleaning(j, rest, registered) =>
      && rest != [] && OldPath(s.tx.value) == Some(rest[0]) && !Spared(j, registered, rest[0])
      && rest[0] in s.disk.dirs && s.disk.dirs[rest[0]].manifest.id == s.id
    case _ => false
  }

  /** The transaction is open and not yet committed on disk. */
  predicate Undecided(s: System) {
    s.outcome == Open && (s.disk.journal.Some? ==> !s.disk.journal.value.committed)
  }

  // ----- one step

  lemma PublishKeepsOld(s: System, stage: PublishStage, j: Journal)
    requires Inv(s) && Undecided(s) && HasOld(s) && s.act == Publishing(stage, j)
    ensures HasOld(Advance(s))
  {}

  lemma RollbackKeepsOld(s: System, step: RollbackStage, j: Journal)
    requires Inv(s) && Undecided(s) && HasOld(s) && s.act == RollingBack(step, j)
    ensures HasOld(Advance(s))
  {}

  /** A step keeps the old package unless it is the cleaning step that takes it. */
  lemma AdvanceKeepsOldIff(s: System)
    requires Inv(s) && Undecided(s) && HasOld(s)
    ensures HasOld(Advance(s)) <==> !Takes(s)
  {
    match s.act
    case Publishing(stage, j) => PublishKeepsOld(s, stage, j);
    case RollingBack(step, j) => RollbackKeepsOld(s, step, j);
    case _ =>
  }

  lemma OtherStepsKeepOld(s: System, a: Action)
    requires Inv(s) && Undecided(s) && HasOld(s) && !a.AdvanceAction?
    ensures HasOld(Step(s, a))
  {
    if a.BeginAction? { OpenCannotBegin(s, a.tx); }
  }

  /** What is gone does not come back while the transaction is open. */
  lemma GoneStays(s: System, a: Action)
    requires Inv(s) && s.outcome == Open && StaysAway(s.tx.value) && OldPath(s.tx.value).value !in s.disk.dirs
    ensures OldPath(s.tx.value).value !in Step(s, a).disk.dirs
  {
    match a
    case BeginAction(tx) => OpenCannotBegin(s, tx);
    case AdvanceAction => GoneOutlivesAdvance(s);
    case _ =>
  }

  lemma GoneOutlivesAdvance(s: System)
    requires Inv(s) && s.outcome == Open && StaysAway(s.tx.value) && OldPath(s.tx.value).value !in s.disk.dirs
    ensures OldPath(s.tx.value).value !in Advance(s).disk.dirs
  {
    match s.act
    case Publishing(stage, j) => GoneOutlivesPublish(s, stage, j);
    case RollingBack(step, j) => GoneOutlivesRollback(s, step, j);
    case _ =>
  }

  lemma GoneOutlivesPublish(s: System, stage: PublishStage, j: Journal)
    requires Inv(s) && s.outcome == Open && StaysAway(s.tx.value) && OldPath(s.tx.value).value !in s.disk.dirs
    requires s.act == Publishing(stage, j)
    ensures OldPath(s.tx.value).value !in Advance(s).disk.dirs
  {}

  lemma GoneOutlivesRollback(s: System, step: RollbackStage, j: Journal)
    requires Inv(s) && s.outcome == Open && StaysAway(s.tx.value) && OldPath(s.tx.value).value !in s.disk.dirs
    requires s.act == RollingBack(step, j)
    ensures OldPath(s.tx.value).value !in Advance(s).disk.dirs
  {}

  // ----- whole runs

  /** The transaction is undecided before every one of the actions. */
  ghost predicate UndecidedThroughout(s: System, actions: seq<Action>)
    decreases |actions|
  {
    actions == [] || (Undecided(s) && UndecidedThroughout(Step(s, actions[0]), actions[1..]))
  }

  /** Some step of the run is one that takes the old package. */
  ghost predicate TakenIn(s: System, actions: seq<Action>)
    decreases |actions|
  {
    actions != [] && ((actions[0].AdvanceAction? && Takes(s)) || TakenIn(Step(s, actions[0]), actions[1..]))
  }

  lemma {:induction false} GoneStaysGone(s: System, actions: seq<Action>)
    requires Inv(s) && UndecidedThroughout(s, actions)
    requires s.tx.Some? && Planned(s.tx.value) && StaysAway(s.tx.value) && OldPath(s.tx.value).value !in s.disk.dirs
    ensures Run(s, actions).tx == s.tx && OldPath(s.tx.value).value !in Run(s, actions).disk.dirs
    decreases |actions|
  {
    if actions != [] {
      StepKeeps(s, actions[0]);
      OpenKeepsTx(s, actions[0]);
      GoneStays(s, actions[0]);
      GoneStaysGone(Step(s, actions[0]), actions[1..]);
    }
  }

  lemma {:induction false} OldIsKeptIff(s: System, actions: seq<Action>)
    requires Inv(s) && HasOld(s) && Planned(s.tx.value) && UndecidedThroughout(s, actions)
    ensures HasOld(Run(s, actions)) <==> !TakenIn(s, actions)
    decreases |actions|
  {
    if actions != [] {
      var a, t := actions[0], Step(s, actions[0]);
      StepKeeps(s, a);
      OpenKeepsTx(s, a);
      if a.AdvanceAction? && Takes(s) {
        assert OldPath(s.tx.value).value !in t.disk.dirs;
        GoneStaysGone(t, actions[1..]);
      } else {
        if a.AdvanceAction? { AdvanceKeepsOldIff(s); } else { OtherStepsKeepOld(s, a); }
        OldIsKeptIff(t, actions[1..]);
      }
    }
  }

  /**
   * From the beginning of any transaction, over every run that stays short of a commit on disk, with
   * any crashes, recoveries and changes by others: an old package registered away from the target
   * is there at the end exactly if no cleaning step took it.
   */
  lemma OldPackageIsKeptIff(s: System, tx: Tx, actions: seq<Action>)
    requires Inv(s) && CanBegin(s, tx) && StaysAway(tx) && UndecidedThroughout(Begin(s, tx), actions)
    ensures Run(Begin(s, tx), actions).tx == Some(tx)
    ensures HoldsOld(Run(Begin(s, tx), actions).disk, OldPath(tx).value, tx) <==> !TakenIn(Begin(s, tx), actions)
  {
    BeginKeeps(s, tx);
    TxStays(Begin(s, tx), actions);
    OldIsKeptIff(Begin(s, tx), actions);
  }

  lemma {:induction false} TxStays(s: System, actions: seq<Action>)
    requires Inv(s) && UndecidedThroughout(s, actions)
    ensures Run(s, actions).tx == s.tx
    decreases |actions|
  {
    if actions != [] {
      StepKeeps(s, actions[0]);
      OpenKeepsTx(s, actions[0]);
      TxStays(Step(s, actions[0]), actions[1..]);
    }
  }

  // ----- the sweep

  /**
   * A rollback's sweep keeps an old package that was staged in place exactly if, when it looks at the
   * registry, some registered directory overlaps the package's.
   */
  lemma SweepKeepsOldIff(s: System, j: Journal)
    requires Inv(s) && s.act == Sweeping(j) && !j.committed && s.tx.Some?
    requires Cleanable(s, j, Obsolete(j), RegisteredPaths(s.disk.registry))
    requires OldPath(s.tx.value) == Some(s.tx.value.staged) && StaysAway(s.tx.value)
    ensures HasOld(s) && Advances(s, 5).outcome == RolledBack
    ensures HasOld(Advances(s, 5)) <==> exists r | r in RegisteredPaths(s.disk.registry) :: Overlaps(r, s.tx.value.staged)
  {
    var t := SweepCompletes(s, j);
  }

  /** Any other old package is kept by it, whatever is registered. */
  lemma SweepKeepsOthers(s: System, j: Journal)
    requires Inv(s) && s.act == Sweeping(j) && !j.committed && s.tx.Some? && s.tx.value.oldPackage.Some?
    requires Cleanable(s, j, Obsolete(j), RegisteredPaths(s.disk.registry))
    requires OldPath(s.tx.value) != Some(s.tx.value.staged) || s.tx.value.staged == s.tx.value.target
    ensures OldPath(s.tx.value).Some? && HoldsOld(Advances(s, 5).disk, OldPath(s.tx.value).value, s.tx.value)
  {
    var t := SweepCompletes(s, j);
  }
}
