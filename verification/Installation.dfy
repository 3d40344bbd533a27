/**
 * The managed installation protocol for one plugin: a metadata checkpoint, a write-ahead journal,
 * directory renames and a registry save, with recovery at startup. Every durable action is one
 * step; a crash, an I/O failure and changes by others may come between any two.
 */
module Installation {
  import opened Results
  import opened Ids
  import opened ManagedTypes

  datatype Journal = Journal(
    target: Path, staged: Path, ready: Path, backup: Option<Path>,
    source: Source, previous: Entry, allowed: set<Entry>, committed: bool)

  datatype Checkpoint = Checkpoint(candidate: Entry, previous: Entry)

  datatype Disk = Disk(
    dirs: map<Path, Package>,
    registry: Registry,
    journal: Option<Journal>,
    checkpoint: Option<Checkpoint>)

  /** What one call of `publish` was asked to do, and the packages it started from. */
  datatype Tx = Tx(
    target: Path, staged: Path, ready: Path, backup: Option<Path>,
    previous: Entry, candidate: Entry, next: Entry, enableAfter: bool,
    base: Entry, pendingEnabled: Option<bool>,
    newPackage: Package, oldPackage: Option<Package>)

  datatype PublishStage = SaveJournal | ClearCheckpoint | MoveAside | MoveIn | Restage | SaveAllowed | SaveNext

  datatype RollbackStage = CheckEntry | RemoveNew(loaded: Entry) | MoveBack(loaded: Entry, backupSeen: bool)
    | Restore(loaded: Entry)

  /** What the process holding the plugin's lock is about to do. */
  datatype Activity =
    | Idle
    | Publishing(stage: PublishStage, journal: Journal)
    | Installed(journal: Journal)
    | Committing(journal: Journal)
    | RollingBack(step: RollbackStage, journal: Journal)
    | Sweeping(journal: Journal)
    | Cleaning(journal: Journal, rest: seq<Path>, registered: set<Path>)
    | CleaningSeed(journal: Journal)
    | Retiring(journal: Journal)
    | RestoringCheckpoint(loaded: Entry)
    | RetiringCheckpoint

  datatype Outcome = NotStarted | Open | RolledBack | Committed | Past

  /**
   * `tx` holds the arguments of the running `publish` call and, with `outcome`, `touched` (others
   * changed the entry) and `seen` (the directories registered when a rollback's sweep last looked),
   * the history of the last transaction; recovery reads none of the four.
   */
  datatype System = System(
    id: Id, disk: Disk, act: Activity, tx: Option<Tx>, outcome: Outcome, touched: bool, seen: Option<set<Path>>)

  function CurrentEntry(s: System): Entry {
    EntryOf(s.disk.registry, s.id)
  }

  // ----- single durable actions

  predicate CanMove(d: Disk, from: Path, to: Path) {
    from in d.dirs && to !in d.dirs
  }

  function Move(d: Disk, from: Path, to: Path): Disk
    requires CanMove(d, from, to)
  {
    d.(dirs := (d.dirs - {from})[to := d.dirs[from]])
  }

  function Remove(d: Disk, path: Path): Disk {
    d.(dirs := d.dirs - {path})
  }

  function Store(d: Disk, id: Id, e: Entry): Disk {
    d.(registry := d.registry[id := e])
  }

  // ----- publish

  function JournalFor(tx: Tx): Journal {
    Journal(tx.target, tx.staged, tx.ready, tx.backup, tx.newPackage.source, tx.previous,
            {tx.candidate, tx.previous}, false)
  }

  /** The entry rewritten to the stable directory, with one version. */
  function AtPath(e: Entry, path: Path, package: Package): Entry
    requires e.local.Some?
  {
    var v := Version(path, package);
    Entry(Some(e.local.value.(path := path)), Some(ManagedRecord(Some(v), [v])), e.enabled)
  }

  /** A previous entry's three legitimate shapes: absent, managed, or an installer seed. */
  predicate LegitimateEntry(e: Entry, target: Path) {
    || e.local.None?
    || (e.Current().Some? && e.local.value.path == e.Current().value.path)
    || (e.managed.None? && e.local.value.path != target)
  }

  ghost predicate PreviousShape(tx: Tx) {
    LegitimateEntry(tx.previous, tx.target)
  }

  function OldPath(tx: Tx): Option<Path> {
    if tx.previous.local.Some? then Some(tx.previous.local.value.path) else None
  }

  /** The two temporary directories are new names. */
  ghost predicate FreshNames(d: Disk, tx: Tx) {
    && tx.ready !in d.dirs && tx.ready != tx.target && Some(tx.ready) != OldPath(tx)
    && (tx.backup.Some? ==>
          && tx.backup.value !in d.dirs && tx.backup.value !in {tx.ready, tx.target, tx.staged}
          && Some(tx.backup.value) != OldPath(tx))
  }

  /** The checks `publish` makes before it writes its journal, and what it then plans. */
  ghost predicate CanBegin(s: System, tx: Tx) {
    && s.act.Idle? && s.disk.journal.None?
    && PreviousShape(tx) && FreshNames(s.disk, tx)
    && tx.candidate.local.Some?
    && tx.candidate.Current().Some? && tx.candidate.Current().value.path == tx.staged
    && tx.staged in s.disk.dirs && tx.newPackage == s.disk.dirs[tx.staged]
    && (tx.target in s.disk.dirs ==> OldPath(tx) == Some(tx.target))
    && (tx.target in s.disk.dirs && tx.previous.Current().Some? ==>
          s.disk.dirs[tx.target] == tx.previous.Current().value.package)
    && (tx.backup.Some? <==> tx.target in s.disk.dirs)
    && tx.next == AtPath(tx.candidate, tx.target, tx.newPackage)
    && (tx.base == tx.candidate || tx.base == tx.previous)
    && tx.oldPackage == (if OldPath(tx).Some? && OldPath(tx).value in s.disk.dirs
                         then Some(s.disk.dirs[OldPath(tx).value]) else None)
  }

  /** What `publish` checks of the staged package and of what stands at the target; otherwise it refuses. */
  predicate Publishable(dirs: map<Path, Package>, target: Path, candidate: Entry, previous: Entry) {
    && candidate.Current().Some? && candidate.Current().value.path in dirs
    && (target in dirs ==>
          && previous.local.Some? && previous.local.value.path == target
          && (previous.Current().Some? ==> dirs[target] == previous.Current().value.package))
  }

  /** The transaction it then plans. */
  function TxFor(
    dirs: map<Path, Package>, target: Path, candidate: Entry, previous: Entry, base: Entry,
    pendingEnabled: Option<bool>, enableAfter: bool, ready: Path, backup: Path): Tx
    requires Publishable(dirs, target, candidate, previous) && candidate.local.Some?
  {
    var staged := candidate.Current().value.path;
    Tx(target, staged, ready, if target in dirs then Some(backup) else None,
       previous, candidate, AtPath(candidate, target, dirs[staged]), enableAfter, base, pendingEnabled, dirs[staged],
       if previous.local.Some? && previous.local.value.path in dirs then Some(dirs[previous.local.value.path]) else None)
  }

  /** Clone the staged package into private staging and take the transaction on. */
  function Begin(s: System, tx: Tx): System {
    s.(disk := s.disk.(dirs := s.disk.dirs[tx.ready := tx.newPackage]),
       act := Publishing(SaveJournal, JournalFor(tx)),
       tx := Some(tx), outcome := Open, seen := None,
       touched := !SameTrust(CurrentEntry(s), tx.candidate) && !SameTrust(CurrentEntry(s), tx.previous))
  }

  function Undo(s: System, j: Journal): System {
    s.(act := RollingBack(CheckEntry, j))
  }

  function AllowedAfter(tx: Tx): set<Entry> {
    {tx.candidate, tx.previous, tx.next} + if tx.enableAfter then {tx.next.(enabled := true)} else {}
  }

  function AdvancePublish(s: System, stage: PublishStage, j: Journal, tx: Tx): System {
    match stage
    case SaveJournal => s.(disk := s.disk.(journal := Some(j)), act := Publishing(ClearCheckpoint, j))
    case ClearCheckpoint =>
      if s.disk.checkpoint.None? then s.(act := Publishing(MoveAside, j))
      else if tx.candidate == s.disk.checkpoint.value.candidate || tx.candidate == s.disk.checkpoint.value.previous
      then s.(disk := s.disk.(checkpoint := None), act := Publishing(MoveAside, j))
      else s.(act := Idle)
    case MoveAside =>
      if j.backup.None? then s.(act := Publishing(MoveIn, j))
      else if CanMove(s.disk, j.target, j.backup.value)
      then s.(disk := Move(s.disk, j.target, j.backup.value), act := Publishing(MoveIn, j))
      else Undo(s, j)
    case MoveIn =>
      if CanMove(s.disk, j.ready, j.target) && s.disk.dirs[j.ready].manifest.id == s.id
      then s.(disk := Move(s.disk, j.ready, j.target), act := Publishing(Restage, j))
      else Undo(s, j)
    case Restage =>
      if j.target in s.disk.dirs && tx.candidate.Current().Some?
         && s.disk.dirs[j.target].source == tx.candidate.Current().value.package.source
         && s.disk.dirs[j.target].manifest == tx.candidate.Current().value.package.manifest
      then s.(act := Publishing(SaveAllowed, j.(allowed := AllowedAfter(tx))))
      else Undo(s, j)
    case SaveAllowed => s.(disk := s.disk.(journal := Some(j)), act := Publishing(SaveNext, j))
    case SaveNext =>
      if SameTrust(CurrentEntry(s), tx.base)
      then s.(disk := Store(s.disk, s.id, tx.next.(enabled :=
                if tx.pendingEnabled.Some? then tx.pendingEnabled.value else CurrentEntry(s).enabled)),
              act := Installed(j))
      else Undo(s, j)
  }

  // ----- rollback

  /** The package at `path` is still the one the previous registration describes. */
  predicate IsPrevious(d: Disk, j: Journal, path: Path) {
    if j.previous.managed.None? then
      j.previous.local.Some? && j.previous.local.value.path == path && path in d.dirs && d.dirs[path].official
    else
      && j.previous.Current().Some? && path in d.dirs
      && d.dirs[path].source == j.previous.Current().value.package.source
      && d.dirs[path].manifest == j.previous.Current().value.package.manifest
  }

  predicate BackupExists(d: Disk, j: Journal) {
    j.backup.Some? && j.backup.value in d.dirs
  }

  /** Confirm the previous package before anything is deleted. */
  predicate CanRestore(d: Disk, j: Journal) {
    if BackupExists(d, j) then IsPrevious(d, j, j.backup.value)
    else j.previous.local.Some? ==> IsPrevious(d, j, j.previous.local.value.path)
  }

  predicate TargetIsNew(d: Disk, j: Journal) {
    j.target in d.dirs && (BackupExists(d, j) || j.previous.local.None? || j.previous.local.value.path != j.target)
  }

  function AdvanceRollback(s: System, step: RollbackStage, j: Journal): System {
    match step
    case CheckEntry =>
      if CurrentEntry(s) in j.allowed then s.(act := RollingBack(RemoveNew(CurrentEntry(s)), j)) else s.(act := Idle)
    case RemoveNew(loaded) =>
      var go := RollingBack(MoveBack(loaded, BackupExists(s.disk, j)), j);
      if !CanRestore(s.disk, j) then s.(act := Idle)
      else if !TargetIsNew(s.disk, j) then s.(act := go)
      else if s.disk.dirs[j.target].source == j.source && s.disk.dirs[j.target].manifest.id == s.id
      then s.(disk := Remove(s.disk, j.target), act := go)
      else s.(act := Idle)
    case MoveBack(loaded, backupSeen) =>
      if !backupSeen then s.(act := RollingBack(Restore(loaded), j))
      else if j.backup.Some? && CanMove(s.disk, j.backup.value, j.target) && s.disk.dirs[j.backup.value].manifest.id == s.id
      then s.(disk := Move(s.disk, j.backup.value, j.target), act := RollingBack(Restore(loaded), j))
      else s.(act := Idle)
    case Restore(loaded) =>
      if SameTrust(CurrentEntry(s), loaded)
      then s.(disk := Store(s.disk, s.id, j.previous), act := Sweeping(j))
      else s.(act := Idle)
  }

  // ----- cleanup

  function PathsOf(history: seq<Version>): seq<Path> {
    if history == [] then [] else [history[0].path] + PathsOf(history[1..])
  }

  /** What is obsolete: after a rollback the new copies, after a commit also everything older. */
  function Obsolete(j: Journal): seq<Path> {
    [j.staged, j.ready]
    + (if j.committed && j.backup.Some? then [j.backup.value] else [])
    + (if j.committed && j.previous.managed.Some? then PathsOf(j.previous.managed.value.history) else [])
  }

  predicate Spared(j: Journal, registered: set<Path>, path: Path) {
    path == j.target || exists r | r in registered :: Overlaps(r, path)
  }

  function AdvanceCleaning(s: System, j: Journal, rest: seq<Path>, registered: set<Path>): System {
    if rest == [] then
      s.(act := if j.committed && j.previous.managed.None? && j.previous.local.Some? then CleaningSeed(j) else Retiring(j))
    else
      var path := rest[0];
      var go := Cleaning(j, rest[1..], registered);
      if Spared(j, registered, path) || path !in s.disk.dirs then s.(act := go)
      else if s.disk.dirs[path].manifest.id != s.id then s.(act := Idle)
      else s.(disk := Remove(s.disk, path), act := go)
  }

  /** The adopted installer package goes once it is committed, unregistered and unchanged. */
  function AdvanceSeed(s: System, j: Journal): System
    requires j.previous.local.Some?
  {
    var path := j.previous.local.value.path;
    if exists r | r in RegisteredPaths(s.disk.registry) :: Overlaps(r, path) then s.(act := Idle)
    else if path !in s.disk.dirs then s.(act := Retiring(j))
    else if s.disk.dirs[path].official then s.(disk := Remove(s.disk, path), act := Retiring(j))
    else s.(act := Idle)
  }

  // ----- the process as a whole

  function Advance(s: System): System {
    match s.act
    case Idle => s
    case Publishing(stage, j) =>
      if s.tx.Some? then AdvancePublish(s, stage, j, s.tx.value) else s
    case Installed(j) => s
    case Committing(j) => s.(disk := s.disk.(journal := Some(j)), act := Sweeping(j))
    case RollingBack(step, j) => AdvanceRollback(s, step, j)
    case Sweeping(j) =>
      var registered := RegisteredPaths(s.disk.registry);
      s.(act := Cleaning(j, Obsolete(j), registered), seen := if j.committed then s.seen else Some(registered))
    case Cleaning(j, rest, registered) => AdvanceCleaning(s, j, rest, registered)
    case CleaningSeed(j) => if j.previous.local.Some? then AdvanceSeed(s, j) else s.(act := Idle)
    case Retiring(j) =>
      s.(disk := s.disk.(journal := None), act := Idle, outcome := if j.committed then Committed else RolledBack)
    case RestoringCheckpoint(loaded) =>
      if s.disk.checkpoint.Some? && SameTrust(CurrentEntry(s), loaded)
      then s.(disk := Store(s.disk, s.id, s.disk.checkpoint.value.previous), act := RetiringCheckpoint, outcome := Past)
      else s.(act := Idle)
    case RetiringCheckpoint => s.(disk := s.disk.(checkpoint := None), act := Idle)
  }

  /** An I/O error at the current step: publishing undoes itself, everything else gives up. */
  function Fail(s: System): System {
    match s.act
    case Publishing(stage, j) =>
      if stage == SaveJournal then s.(act := Idle, outcome := Past)
      else if stage == ClearCheckpoint then s.(act := Idle)
      else Undo(s, j)
    case Installed(_) => s
    case _ => s.(act := Idle)
  }

  /** The process dies; only the disk survives. A journal that was never written leaves nothing open. */
  function Crash(s: System): System {
    s.(act := Idle, outcome := if s.outcome == Open && s.disk.journal.None? then Past else s.outcome)
  }

  /** Startup: an open journal is finished or undone first, then a checkpoint is looked at. */
  function Recover(s: System): System {
    if !s.act.Idle? then s
    else if s.disk.journal.Some? then
      var j := s.disk.journal.value;
      s.(act := if j.committed then Sweeping(j) else RollingBack(CheckEntry, j))
    else if s.disk.checkpoint.Some? then
      var c := s.disk.checkpoint.value;
      if CurrentEntry(s) == c.candidate then s.(act := RestoringCheckpoint(CurrentEntry(s)))
      else if CurrentEntry(s) == c.previous then s.(act := RetiringCheckpoint)
      else s
    else s
  }

  function Commit(s: System): System {
    match s.act
    case Installed(j) =>
      if CurrentEntry(s) in j.allowed then s.(act := Committing(j.(committed := true))) else s.(act := Idle)
    case _ => s
  }

  function Abort(s: System): System {
    match s.act
    case Installed(j) => Undo(s, j)
    case _ => s
  }

  function WriteCheckpoint(s: System, candidate: Entry, previous: Entry): System {
    if s.act.Idle? && s.disk.journal.None? && s.disk.checkpoint.None?
    then s.(disk := s.disk.(checkpoint := Some(Checkpoint(candidate, previous))))
    else s
  }

  /** A finished registration change retires its checkpoint, unless the entry is neither of its two. */
  function RetireCheckpoint(s: System): System {
    if s.disk.checkpoint.Some?
       && (CurrentEntry(s) == s.disk.checkpoint.value.candidate || CurrentEntry(s) == s.disk.checkpoint.value.previous)
    then s.(disk := s.disk.(checkpoint := None))
    else s
  }

  /** The directories an open transaction relies on. */
  function Relied(tx: Tx): set<Path> {
    {tx.target, tx.ready}
    + (if tx.backup.Some? then {tx.backup.value} else {})
    + (if OldPath(tx).Some? then {OldPath(tx).value} else {})
  }

  /** Others write the registry: any entry, at any moment. */
  function OthersSave(s: System, id: Id, e: Entry): System {
    var changed := id == s.id && !SameTrust(e, CurrentEntry(s));
    s.(disk := Store(s.disk, id, e),
       touched := s.touched || changed,
       outcome := if changed && (s.outcome == RolledBack || s.outcome == Committed) then Past else s.outcome)
  }

  /** Others create, replace or delete a directory, but not one an open transaction relies on. */
  function OthersWrite(s: System, path: Path, p: Option<Package>): System {
    if s.tx.Some? && s.outcome == Open && path in Relied(s.tx.value) then s
    else
      s.(disk := s.disk.(dirs := if p.Some? then s.disk.dirs[path := p.value] else s.disk.dirs - {path}),
         outcome := if s.outcome == RolledBack || s.outcome == Committed then Past else s.outcome)
  }

  datatype Action =
    | BeginAction(tx: Tx) | AdvanceAction | FailAction | CrashAction | RecoverAction | CommitAction | AbortAction
    | CheckpointAction(candidate: Entry, previous: Entry)
    | ClearAction
    | SaveAction(id: Id, entry: Entry) | WriteAction(path: Path, package: Option<Package>)

  ghost function Step(s: System, a: Action): System {
    match a
    case BeginAction(tx) => if CanBegin(s, tx) then Begin(s, tx) else s
    case AdvanceAction => Advance(s)
    case FailAction => Fail(s)
    case CrashAction => Crash(s)
    case RecoverAction => Recover(s)
    case CommitAction => Commit(s)
    case AbortAction => Abort(s)
    case CheckpointAction(candidate, previous) => WriteCheckpoint(s, candidate, previous)
    case ClearAction => RetireCheckpoint(s)
    case SaveAction(id, e) => OthersSave(s, id, e)
    case WriteAction(path, p) => OthersWrite(s, path, p)
  }

  ghost function Run(s: System, actions: seq<Action>): System
    decreases |actions|
  {
    if actions == [] then s else Run(Step(s, actions[0]), actions[1..])
  }
}
