/** Recovery has one outcome: every way of interrupting and repeating it ends with the same disk. */
module InstallationOutcome {
  import opened Results
  import opened Ids
  import opened ManagedTypes
  import opened Installation
  import opened InstallationSafety
  import opened InstallationTheorems
  import opened InstallationRuns

  // ----- the disk a recovery is heading for

  /** The old package at its place: moved back from the backup, or freed of what was put there instead. */
  function SettledDirs(d: Disk, j: Journal): map<Path, Package> {
    if BackupExists(d, j) then (d.dirs - {j.backup.value})[j.target := d.dirs[j.backup.value]]
    else if TargetIsNew(d, j) then d.dirs - {j.target}
    else d.dirs
  }

  /** The new copies that no registered directory overlaps. */
  ghost function Copies(j: Journal, registered: set<Path>): set<Path> {
    set p | p in {j.staged, j.ready} && !Spared(j, registered, p)
  }

  /** After a rollback: previous entry, old package, no journal, no new copies. */
  ghost function RolledBackDisk(d: Disk, j: Journal, id: Id): Disk {
    var registry := d.registry[id := j.previous];
    Disk(SettledDirs(d, j) - Copies(j, RegisteredPaths(registry)), registry, None, d.checkpoint)
  }

  function Seed(j: Journal): set<Path> {
    if j.previous.managed.None? && j.previous.local.Some? then {j.previous.local.value.path} else {}
  }

  ghost function Older(j: Journal, registered: set<Path>): set<Path> {
    set p | p in Obsolete(j) && !Spared(j, registered, p)
  }

  /** After a commit: the registry as it is, nothing obsolete, no journal. */
  ghost function CommittedDisk(d: Disk, j: Journal): Disk {
    d.(dirs := d.dirs - Older(j, RegisteredPaths(d.registry)) - Seed(j), journal := None)
  }

  ghost function FinalDisk(d: Disk, j: Journal, id: Id): Disk {
    if j.committed then CommittedDisk(d, j) else RolledBackDisk(d, j, id)
  }

  // ----- no step of a rollback changes where it is heading

  lemma RemovingNewHeadsThere(d: Disk, tx: Tx, j: Journal, id: Id)
    requires Planned(tx) && JournalOf(tx, j) && TargetIsNew(d, j)
    ensures RolledBackDisk(Remove(d, j.target), j, id) == RolledBackDisk(d, j, id)
  {
    assert SettledDirs(Remove(d, j.target), j) == SettledDirs(d, j);
  }

  lemma MovingBackHeadsThere(d: Disk, tx: Tx, j: Journal, id: Id)
    requires Planned(tx) && JournalOf(tx, j) && BackupExists(d, j) && CanMove(d, j.backup.value, j.target)
    ensures RolledBackDisk(Move(d, j.backup.value, j.target), j, id) == RolledBackDisk(d, j, id)
  {
    assert SettledDirs(Move(d, j.backup.value, j.target), j) == SettledDirs(d, j);
  }

  lemma RestoringHeadsThere(d: Disk, j: Journal, id: Id)
    ensures RolledBackDisk(Store(d, id, j.previous), j, id) == RolledBackDisk(d, j, id)
  {
    assert d.registry[id := j.previous][id := j.previous] == d.registry[id := j.previous];
  }

  lemma SweepingHeadsThere(d: Disk, tx: Tx, j: Journal, id: Id, path: Path)
    requires Planned(tx) && JournalOf(tx, j) && path in Copies(j, RegisteredPaths(d.registry[id := j.previous]))
    ensures RolledBackDisk(Remove(d, path), j, id) == RolledBackDisk(d, j, id)
  {
    var copies := Copies(j, RegisteredPaths(d.registry[id := j.previous]));
    assert SettledDirs(Remove(d, path), j) - copies == SettledDirs(d, j) - copies;
  }

  lemma CommittedSweepHeadsThere(d: Disk, j: Journal, path: Path)
    requires path in Older(j, RegisteredPaths(d.registry)) || path in Seed(j)
    ensures CommittedDisk(Remove(d, path), j) == CommittedDisk(d, j)
  {
    var older := Older(j, RegisteredPaths(d.registry));
    assert d.dirs - {path} - older - Seed(j) == d.dirs - older - Seed(j);
  }

  // ----- the states on the way

  ghost predicate EntryRestored(s: System, j: Journal) {
    !j.committed ==> s.id in s.disk.registry && s.disk.registry[s.id] == j.previous
  }

  /** The obsolete directories outside `rest` are gone, or spared. */
  ghost predicate Swept(s: System, j: Journal, rest: seq<Path>, registered: set<Path>) {
    && registered == RegisteredPaths(s.disk.registry)
    && forall p | p in Obsolete(j) :: p in rest || Spared(j, registered, p) || p !in s.disk.dirs
  }

  ghost predicate Stage(s: System, j: Journal) {
    match s.act
    case Idle => true
    case RollingBack(step, k) => k == j && !j.committed
    case Sweeping(k) => k == j && EntryRestored(s, j)
    case Cleaning(k, rest, registered) => k == j && EntryRestored(s, j) && Swept(s, j, rest, registered) && forall p | p in rest :: p in Obsolete(j)
    case CleaningSeed(k) => k == j && j.committed && Swept(s, j, [], RegisteredPaths(s.disk.registry))
    case Retiring(k) =>
      && k == j && EntryRestored(s, j) && Swept(s, j, [], RegisteredPaths(s.disk.registry))
      && (j.committed ==> Seed(j) !! s.disk.dirs.Keys)
    case _ => false
  }

  ghost predicate Heading(s: System, j: Journal, end: Disk) {
    && Inv(s) && s.outcome == Open && s.disk.journal == Some(j)
    && FinalDisk(s.disk, j, s.id) == end && Stage(s, j)
  }

  lemma RollbackHeads(s: System, step: RollbackStage, j: Journal, end: Disk)
    requires Heading(s, j, end) && s.act == RollingBack(step, j)
    ensures FinalDisk(Advance(s).disk, j, s.id) == end && Stage(Advance(s), j)
  {
    var tx := s.tx.value;
    match step
    case CheckEntry =>
    case RemoveNew(loaded) =>
      if TargetIsNew(s.disk, j) { RemovingNewHeadsThere(s.disk, tx, j, s.id); }
    case MoveBack(loaded, seen) =>
      if BackupExists(s.disk, j) && CanMove(s.disk, j.backup.value, j.target) { MovingBackHeadsThere(s.disk, tx, j, s.id); }
    case Restore(loaded) => RestoringHeadsThere(s.disk, j, s.id);
  }

  lemma CleaningHeads(s: System, j: Journal, rest: seq<Path>, registered: set<Path>, end: Disk)
    requires Heading(s, j, end) && s.act == Cleaning(j, rest, registered) && rest != []
    ensures FinalDisk(Advance(s).disk, j, s.id) == end && Stage(Advance(s), j)
  {
    var path := rest[0];
    assert path in rest && forall p | p in rest :: p == path || p in rest[1..];
    assert forall p | p in rest[1..] :: p in rest;
    if !Spared(j, registered, path) && path in s.disk.dirs {
      if j.committed { CommittedSweepHeadsThere(s.disk, j, path); } else { CopyGoes(s, j, path, registered); }
    }
  }

  lemma CopyGoes(s: System, j: Journal, path: Path, registered: set<Path>)
    requires s.tx.Some? && Planned(s.tx.value) && JournalOf(s.tx.value, j) && !j.committed && EntryRestored(s, j)
    requires path in Obsolete(j) && registered == RegisteredPaths(s.disk.registry) && !Spared(j, registered, path)
    ensures FinalDisk(Remove(s.disk, path), j, s.id) == FinalDisk(s.disk, j, s.id)
  {
    assert s.disk.registry[s.id := j.previous] == s.disk.registry;
    assert Obsolete(j) == [j.staged, j.ready];
    SweepingHeadsThere(s.disk, s.tx.value, j, s.id, path);
  }

  lemma SweepingHeads(s: System, j: Journal, end: Disk)
    requires Heading(s, j, end) && s.act == Sweeping(j)
    ensures FinalDisk(Advance(s).disk, j, s.id) == end && Stage(Advance(s), j)
  {}

  lemma SeedHeads(s: System, j: Journal, end: Disk)
    requires Heading(s, j, end)
    requires s.act == CleaningSeed(j) || exists registered :: s.act == Cleaning(j, [], registered)
    ensures FinalDisk(Advance(s).disk, j, s.id) == end && Stage(Advance(s), j)
  {
    if s.act.CleaningSeed? && j.previous.local.Some? && j.previous.managed.None? {
      CommittedSweepHeadsThere(s.disk, j, j.previous.local.value.path);
    }
  }

  lemma AdvanceHeads(s: System, j: Journal, end: Disk)
    requires Heading(s, j, end) && !s.act.Retiring?
    ensures FinalDisk(Advance(s).disk, j, s.id) == end && Stage(Advance(s), j)
  {
    match s.act
    case Idle =>
    case RollingBack(step, _) => RollbackHeads(s, step, j, end);
    case Sweeping(_) => SweepingHeads(s, j, end);
    case Cleaning(_, rest, registered) =>
      if rest == [] { SeedHeads(s, j, end); } else { CleaningHeads(s, j, rest, registered, end); }
    case CleaningSeed(_) => SeedHeads(s, j, end);
  }

  lemma JournalStays(s: System, j: Journal, end: Disk)
    requires Heading(s, j, end) && !s.act.Retiring?
    ensures Advance(s).disk.journal == Some(j) && Advance(s).outcome == Open && Advance(s).id == s.id
  {
    match s.act
    case RollingBack(step, _) => RollbackKeepsJournal(s, step, j);
    case _ =>
  }

  lemma RollbackKeepsJournal(s: System, step: RollbackStage, j: Journal)
    ensures var t := AdvanceRollback(s, step, j);
            t.disk.journal == s.disk.journal && t.outcome == s.outcome && t.id == s.id
  {}

  /** Nothing is left of what a finished rollback would change. */
  lemma NothingLeft(s: System, tx: Tx, j: Journal)
    requires Planned(tx) && JournalOf(tx, j) && Back(s.id, s.disk, tx)
    ensures SettledDirs(s.disk, j) == s.disk.dirs
  {}

  lemma RetiringArrives(s: System, j: Journal, end: Disk)
    requires Heading(s, j, end) && s.act == Retiring(j)
    ensures Advance(s).disk == end && Advance(s).outcome != Open
  {
    var registered := RegisteredPaths(s.disk.registry);
    if j.committed {
      assert s.disk.dirs - Older(j, registered) - Seed(j) == s.disk.dirs;
    } else {
      NothingLeft(s, s.tx.value, j);
      assert s.disk.registry[s.id := j.previous] == s.disk.registry;
      assert Obsolete(j) == [j.staged, j.ready];
      assert s.disk.dirs - Copies(j, registered) == s.disk.dirs;
    }
  }

  lemma OtherStepsHead(s: System, a: Action, j: Journal, end: Disk)
    requires Heading(s, j, end) && Own(a) && !a.ClearAction? && !a.AdvanceAction?
    ensures Heading(Step(s, a), j, end)
  {
    StepKeeps(s, a);
    OpenKeepsTx(s, a);
  }

  lemma StepHeads(s: System, a: Action, j: Journal, end: Disk)
    requires Heading(s, j, end) && Own(a) && !a.ClearAction?
    ensures Step(s, a).outcome == Open ==> Heading(Step(s, a), j, end)
    ensures Step(s, a).outcome != Open ==> Step(s, a).disk == end
  {
    if !a.AdvanceAction? {
      OtherStepsHead(s, a, j, end);
    } else if s.act.Retiring? {
      RetiringArrives(s, j, end);
    } else {
      StepKeeps(s, a);
      JournalStays(s, j, end);
      AdvanceHeads(s, j, end);
    }
  }

  lemma {:induction false} RunHeads(s: System, actions: seq<Action>, j: Journal, end: Disk)
    requires Heading(s, j, end) && OpenThroughout(s, actions)
    requires forall a | a in actions :: Own(a) && !a.ClearAction?
    ensures Run(s, actions).outcome == Open ==> Heading(Run(s, actions), j, end)
    ensures Run(s, actions).outcome != Open ==> Run(s, actions).disk == end
    decreases |actions|
  {
    if actions != [] {
      assert actions[0] in actions && forall a | a in actions[1..] :: a in actions;
      StepHeads(s, actions[0], j, end);
      if Step(s, actions[0]).outcome == Open {
        RunHeads(Step(s, actions[0]), actions[1..], j, end);
      } else {
        assert actions[1..] == [];
      }
    }
  }

  /**
   * Recovery has one outcome. From any state a run can crash in with a journal on disk, take any
   * number of recovery starts, steps, failures and crashes: as long as the journal is there the
   * disk still heads for the same end, and when it goes the disk is exactly that end. So recovery
   * that was interrupted, stopped or failed any number of times leaves what one that was not would.
   */
  lemma RecoveryHasOneOutcome(s0: System, before: seq<Action>, actions: seq<Action>)
    requires Initial(s0)
    requires forall a | a in actions :: Own(a) && !a.ClearAction?
    ensures var s := Crash(Run(s0, before));
            s.disk.journal.Some? && OpenThroughout(s, actions) ==>
              var end := FinalDisk(s.disk, s.disk.journal.value, s.id);
              var t := Run(s, actions);
              && (t.outcome == Open ==> t.disk.journal == s.disk.journal && FinalDisk(t.disk, t.disk.journal.value, t.id) == end)
              && (t.outcome != Open ==> t.disk == end)
  {
    RunKeeps(s0, before);
    StoppingKeeps(Run(s0, before));
    var s := Crash(Run(s0, before));
    if s.disk.journal.Some? && OpenThroughout(s, actions) {
      RunHeads(s, actions, s.disk.journal.value, FinalDisk(s.disk, s.disk.journal.value, s.id));
      if Run(s, actions).outcome == Open { IdStays(s, actions); }
    }
  }

  // ----- the same for the steps of one call

  /** The later trace only adds steps and failures of the process. */
  ghost predicate Steps(before: seq<Action>, after: seq<Action>) {
    before <= after && forall i | |before| <= i < |after| :: after[i].AdvanceAction? || after[i].FailAction?
  }

  /** The transaction is over, with this disk. */
  ghost predicate Arrived(s: System, end: Disk) {
    s.act.Idle? && s.outcome != Open && s.disk == end
  }

  lemma StepArrives(s: System, a: Action, j: Journal, end: Disk)
    requires Heading(s, j, end) || Arrived(s, end)
    requires a.AdvanceAction? || a.FailAction?
    ensures Heading(Step(s, a), j, end) || Arrived(Step(s, a), end)
  {
    if Heading(s, j, end) {
      if a.FailAction? {
        OtherStepsHead(s, a, j, end);
      } else {
        StepHeads(s, a, j, end);
        if !s.act.Retiring? { JournalStays(s, j, end); }
      }
    }
  }

  lemma {:induction false} StepsArrive(start: System, before: seq<Action>, after: seq<Action>, j: Journal, end: Disk)
    requires Heading(Run(start, before), j, end) && Steps(before, after)
    ensures Heading(Run(start, after), j, end) || Arrived(Run(start, after), end)
    decreases |after|
  {
    if |after| == |before| {
      assert after == before;
    } else {
      var prev, a := after[..|after| - 1], after[|after| - 1];
      assert after == prev + [a];
      assert before <= prev;
      StepsArrive(start, before, prev, j, end);
      RunExtends(start, prev, a);
      StepArrives(Run(start, prev), a, j, end);
    }
  }

  lemma {:induction false} IdStays(s: System, actions: seq<Action>)
    ensures Run(s, actions).id == s.id
    decreases |actions|
  {
    if actions != [] {
      StepKeepsId(s, actions[0]);
      IdStays(Step(s, actions[0]), actions[1..]);
    }
  }
}
