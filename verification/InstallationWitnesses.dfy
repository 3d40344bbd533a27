/** Runs from an initial state that reach what the guarantees do not cover. */
module InstallationWitnesses {
  import opened Results
  import opened Ids
  import opened ManagedTypes
  import opened Installation
  import opened InstallationSafety
  import opened InstallationTheorems
  import opened OldPackages

  // ----- building runs

  /** `t` is reached from `s`. */
  ghost predicate Reached(s: System, t: System) {
    exists actions :: Run(s, actions) == t
  }

  lemma ReachedNext(s: System, t: System, a: Action)
    requires Reached(s, t)
    ensures Reached(s, Step(t, a))
  {
    var actions :| Run(s, actions) == t;
    RunExtends(s, actions, a);
  }

  lemma ReachedAdvance(s: System, t: System)
    requires Reached(s, t)
    ensures Reached(s, Advance(t))
  {
    ReachedNext(s, t, AdvanceAction);
  }

  lemma ReachedSave(s: System, t: System, e: Entry)
    requires Reached(s, t)
    ensures Reached(s, OthersSave(t, t.id, e))
  {
    ReachedNext(s, t, SaveAction(t.id, e));
  }

  lemma ReachedBegin(s: System, tx: Tx)
    requires CanBegin(s, tx)
    ensures Reached(s, Begin(s, tx))
  {
    assert Run(s, []) == s;
    ReachedNext(s, s, BeginAction(tx));
  }

  // ----- an undisturbed publish installs

  /** The checks of the steps after the first are met. */
  ghost predicate Ready(s: System, tx: Tx) {
    && CanBegin(s, tx) && SameTrust(CurrentEntry(s), tx.base) && tx.newPackage.manifest.id == s.id
    && tx.candidate.Current().Some?
    && tx.newPackage.source == tx.candidate.Current().value.package.source
    && tx.newPackage.manifest == tx.candidate.Current().value.package.manifest
    && s.disk.checkpoint.None?
  }

  /** The disk with the new package at the target and the old one, if any, in the backup. */
  function SwappedDirs(s: System, tx: Tx): map<Path, Package> {
    if tx.backup.Some? && tx.target in s.disk.dirs
    then (s.disk.dirs - {tx.target})[tx.backup.value := s.disk.dirs[tx.target]][tx.target := tx.newPackage]
    else s.disk.dirs[tx.target := tx.newPackage]
  }

  lemma JournalIsSaved(s0: System, tx: Tx) returns (s: System)
    requires Ready(s0, tx)
    ensures Reached(s0, s) && s.act == Publishing(MoveAside, JournalFor(tx))
    ensures s == Begin(s0, tx).(act := s.act, disk := Begin(s0, tx).disk.(journal := Some(JournalFor(tx))))
  {
    ReachedBegin(s0, tx);
    var a := Begin(s0, tx);
    ReachedAdvance(s0, a);
    ReachedAdvance(s0, Advance(a));
    s := Advance(Advance(a));
  }

  lemma DirectoriesSwap(s0: System, tx: Tx) returns (s: System)
    requires Ready(s0, tx)
    ensures Reached(s0, s) && s.act == Publishing(Restage, JournalFor(tx))
    ensures s.disk == s0.disk.(dirs := SwappedDirs(s0, tx), journal := Some(JournalFor(tx)))
    ensures s == Begin(s0, tx).(act := s.act, disk := s.disk)
  {
    var a := JournalIsSaved(s0, tx);
    ReachedAdvance(s0, a);
    ReachedAdvance(s0, Advance(a));
    s := Advance(Advance(a));
    assert s.disk.dirs == SwappedDirs(s0, tx);
  }

  /** The entry that is saved. */
  function Saved(s: System, tx: Tx): Entry {
    tx.next.(enabled := if tx.pendingEnabled.Some? then tx.pendingEnabled.value else CurrentEntry(s).enabled)
  }

  /** With nobody interfering a transaction that can begin, and whose packages match, is installed. */
  lemma PublishInstalls(s0: System, tx: Tx) returns (s: System)
    requires Ready(s0, tx)
    ensures Reached(s0, s) && s.act == Installed(JournalFor(tx).(allowed := AllowedAfter(tx)))
    ensures s == Begin(s0, tx).(act := s.act, disk := s.disk)
    ensures s.disk == s0.disk.(dirs := SwappedDirs(s0, tx), journal := Some(JournalFor(tx).(allowed := AllowedAfter(tx))),
                               registry := s0.disk.registry[s0.id := Saved(s0, tx)])
  {
    var a := DirectoriesSwap(s0, tx);
    ReachedAdvance(s0, a);
    var b := Advance(a);
    ReachedAdvance(s0, b);
    var c := Advance(b);
    ReachedAdvance(s0, c);
    s := Advance(c);
    assert b.act == Publishing(SaveAllowed, JournalFor(tx).(allowed := AllowedAfter(tx)));
  }

  // ----- what the guarantees do not cover

  /** An update whose packages are genuine and whose saved entry its journal lists. */
  ghost predicate Update(s: System, tx: Tx) {
    && Initial(s) && Ready(s, tx) && tx.backup.Some? && Genuine(s.id, tx) && Saved(s, tx) in AllowedAfter(tx)
  }

  /**
   * From every initial state an update can be committed over the previous entry: another writer
   * puts it back between the save and the commit, and the commit records the new package under it.
   */
  lemma CommitOverPreviousIsReached(s0: System, tx: Tx)
    requires Update(s0, tx) && !SameTrust(tx.previous, tx.next)
    ensures exists t :: Reached(s0, t) && t.disk.journal.Some? && t.disk.journal.value.committed
                        && Holds(t.disk, tx.target, tx.newPackage) && CurrentEntry(t) == tx.previous
  {
    var s := PublishInstalls(s0, tx);
    ReachedSave(s0, s, tx.previous);
    var a := OthersSave(s, s.id, tx.previous);
    ReachedNext(s0, a, CommitAction);
    ReachedAdvance(s0, Commit(a));
  }

  /** An installed update is taken back as far as the check of the registration. */
  lemma EntryIsChecked(s0: System, tx: Tx) returns (s: System)
    requires Update(s0, tx)
    ensures var j := JournalFor(tx).(allowed := AllowedAfter(tx));
            && Reached(s0, s) && s.id == s0.id && s.act == RollingBack(RemoveNew(Saved(s0, tx)), j)
            && s.disk.dirs == SwappedDirs(s0, tx) && s.disk.journal == Some(j) && CurrentEntry(s) == Saved(s0, tx)
  {
    var a := PublishInstalls(s0, tx);
    ReachedNext(s0, a, AbortAction);
    ReachedAdvance(s0, Abort(a));
    s := Advance(Abort(a));
  }

  /** From there the files go back, whatever the registration has become. */
  lemma FilesGoBack(s0: System, tx: Tx, s: System, loaded: Entry) returns (t: System)
    requires Update(s0, tx) && Reached(s0, s) && s.id == s0.id && s.disk.dirs == SwappedDirs(s0, tx)
    requires s.act == RollingBack(RemoveNew(loaded), JournalFor(tx).(allowed := AllowedAfter(tx)))
    ensures Reached(s0, t) && t.act == RollingBack(Restore(loaded), JournalFor(tx).(allowed := AllowedAfter(tx)))
    ensures t == s.(act := t.act, disk := s.disk.(dirs := t.disk.dirs))
    ensures t.disk.dirs == s0.disk.dirs
  {
    var j := JournalFor(tx).(allowed := AllowedAfter(tx));
    ReachedAdvance(s0, s);
    NewGoes(s0, tx, s, loaded, j);
    var a := Advance(s);
    ReachedAdvance(s0, a);
    OldReturns(s0, tx, a, loaded, j);
    t := Advance(a);
  }

  lemma NewGoes(s0: System, tx: Tx, s: System, loaded: Entry, j: Journal)
    requires Update(s0, tx) && s.id == s0.id && s.disk.dirs == SwappedDirs(s0, tx)
    requires j == JournalFor(tx).(allowed := AllowedAfter(tx)) && s.act == RollingBack(RemoveNew(loaded), j)
    ensures Advance(s) == s.(act := RollingBack(MoveBack(loaded, true), j), disk := s.disk.(dirs := SwappedDirs(s0, tx) - {tx.target}))
  {
    assert IsPrevious(s.disk, j, tx.backup.value);
  }

  lemma OldReturns(s0: System, tx: Tx, s: System, loaded: Entry, j: Journal)
    requires Update(s0, tx) && s.id == s0.id && s.disk.dirs == SwappedDirs(s0, tx) - {tx.target}
    requires j == JournalFor(tx).(allowed := AllowedAfter(tx)) && s.act == RollingBack(MoveBack(loaded, true), j)
    ensures Advance(s) == s.(act := RollingBack(Restore(loaded), j), disk := s.disk.(dirs := s0.disk.dirs))
  {
    assert (SwappedDirs(s0, tx) - {tx.target} - {tx.backup.value})[tx.target := s0.disk.dirs[tx.target]] == s0.disk.dirs;
  }

  /**
   * A registration that turns foreign after the check: the new package is deleted and the old one
   * moved home all the same, under a registration the transaction does not know, and it stays.
   */
  lemma LateForeignEntryIsReached(s0: System, tx: Tx, e: Entry)
    requires Update(s0, tx) && forall x | x in {tx.candidate, tx.previous, tx.next} :: !SameTrust(e, x)
    ensures exists t :: Reached(s0, t) && t.act.Idle? && t.disk.journal.Some?
                        && t.disk.dirs == s0.disk.dirs && CurrentEntry(t) == e
  {
    var s := EntryIsChecked(s0, tx);
    ReachedSave(s0, s, e);
    var t := FilesGoBack(s0, tx, OthersSave(s, s.id, e), Saved(s0, tx));
    ReachedAdvance(s0, t);
    assert !SameTrust(e, tx.next) && !SameTrust(e, Saved(s0, tx));
    assert Advance(t) == t.(act := Idle);
  }

  /** A preference switched after the check and before the restoring save is overwritten. */
  lemma LostPreferenceIsReached(s0: System, tx: Tx)
    requires Update(s0, tx)
    ensures exists t: System, e :: Reached(s0, OthersSave(t, t.id, e)) && e == CurrentEntry(t).(enabled := !tx.previous.enabled)
                           && Reached(s0, Advance(OthersSave(t, t.id, e)))
                           && CurrentEntry(Advance(OthersSave(t, t.id, e))) == tx.previous
  {
    var s := EntryIsChecked(s0, tx);
    var t := FilesGoBack(s0, tx, s, Saved(s0, tx));
    var e := CurrentEntry(t).(enabled := !tx.previous.enabled);
    ReachedSave(s0, t, e);
    ReachedAdvance(s0, OthersSave(t, t.id, e));
  }

  /** There are such updates: for every plugin and any four directories. */
  lemma UpdateExists(id: Id, target: Path, staged: Path, ready: Path, backup: Path)
    requires target != staged && target != ready && target != backup && staged != ready && staged != backup && ready != backup
    ensures exists s: System, tx: Tx :: s.id == id && Update(s, tx) && !SameTrust(tx.previous, tx.next)
                            && tx.target == target && tx.staged == staged && tx.ready == ready && tx.backup == Some(backup)
  {
    var source := Source("", "", "", None, None, "");
    var before, after := Package(source, Manifest(id, "1"), "", false), Package(source, Manifest(id, "2"), "", false);
    var v, w := Version(target, before), Version(staged, after);
    var previous := Entry(Some(Local(target, "")), Some(ManagedRecord(Some(v), [v])), true);
    var candidate := Entry(Some(Local(staged, "")), Some(ManagedRecord(Some(w), [v, w])), false);
    var tx := Tx(target, staged, ready, Some(backup), previous, candidate, AtPath(candidate, target, after), true,
                 candidate, None, after, Some(before));
    var s := System(id, Disk(map[target := before, staged := after], map[id := candidate], None, None), Idle, None, NotStarted, false, None);
    assert v in previous.managed.value.history && w in candidate.managed.value.history;
    assert candidate.Current() == Some(w) && previous.Current() == Some(v);
    assert CanBegin(s, tx);
    assert before.manifest.body != after.manifest.body;
    assert Update(s, tx);
  }

  // ----- losing the old package

  /** The staged directory is the registered one, the target is free, and nobody else's directory is near. */
  ghost predicate StagedInPlace(s: System, tx: Tx) {
    && Initial(s) && CanBegin(s, tx) && Genuine(s.id, tx)
    && OldPath(tx) == Some(tx.staged) && tx.target !in s.disk.dirs && CurrentEntry(s) == tx.previous
    && forall id | id in s.disk.registry && id != s.id && s.disk.registry[id].local.Some? ::
         !Overlaps(s.disk.registry[id].local.value.path, tx.staged)
  }

  lemma RegistrationIsRestored(s0: System, tx: Tx) returns (s: System)
    requires StagedInPlace(s0, tx)
    ensures Reached(s0, s) && s.act == Sweeping(JournalFor(tx)) && s.outcome == Open && s.id == s0.id && s.tx == Some(tx)
    ensures s.disk.dirs == s0.disk.dirs[tx.ready := tx.newPackage]
    ensures s.disk.registry == s0.disk.registry[s0.id := tx.previous]
  {
    ReachedBegin(s0, tx);
    var a := Begin(s0, tx);
    ReachedAdvance(s0, a);
    var b := Advance(a);
    ReachedNext(s0, b, CrashAction);
    ReachedNext(s0, Crash(b), RecoverAction);
    var c := Recover(Crash(b));
    ReachedAdvance(s0, c);
    var d := Advance(c);
    ReachedAdvance(s0, d);
    var e := Advance(d);
    assert IsPrevious(d.disk, JournalFor(tx), tx.staged);
    ReachedAdvance(s0, e);
    var f := Advance(e);
    assert f.act == RollingBack(Restore(tx.previous), JournalFor(tx));
    ReachedAdvance(s0, f);
    s := Advance(f);
  }

  /** Whether an entry keeps a sweep off the directory. */
  predicate Protects(e: Entry, path: Path) {
    e.local.Some? && Overlaps(e.local.value.path, path)
  }

  lemma OthersEntryIsSaved(s0: System, tx: Tx, e: Entry) returns (s: System)
    requires StagedInPlace(s0, tx)
    ensures Reached(s0, s) && s.act == Sweeping(JournalFor(tx)) && s.tx == Some(tx) && s.id == s0.id
    ensures s.disk.dirs == s0.disk.dirs[tx.ready := tx.newPackage] && s.disk.registry == s0.disk.registry[s0.id := e]
    ensures (exists r | r in RegisteredPaths(s.disk.registry) :: Overlaps(r, tx.staged)) <==> Protects(e, tx.staged)
  {
    var a := RegistrationIsRestored(s0, tx);
    ReachedSave(s0, a, e);
    s := OthersSave(a, a.id, e);
    assert s.id in s.disk.registry && s.disk.registry[s.id] == e;
    assert s.disk.registry == s0.disk.registry[s0.id := e];
    if Protects(e, tx.staged) { assert s.disk.registry[s.id].local.value.path in RegisteredPaths(s.disk.registry); }
  }

  /**
   * Another writer saves any entry between the restoring save and the sweep's look at the registry.
   * The sweep ends with that entry registered, and with the old package exactly if it protects its
   * directory: unregistering the plugin or moving it elsewhere loses it.
   */
  lemma OldPackageLossIsReached(s0: System, tx: Tx, e: Entry)
    requires StagedInPlace(s0, tx)
    ensures exists t :: Reached(s0, t) && t.outcome == RolledBack && t.tx == Some(tx) && CurrentEntry(t) == e
                        && (HoldsOld(t.disk, tx.staged, tx) <==> Protects(e, tx.staged))
  {
    var s := OthersEntryIsSaved(s0, tx, e);
    ReachedKeeps(s0, s);
    CopiesAreOwn(s0, tx, s);
    SweepKeepsOldIff(s, JournalFor(tx));
    ReachedAdvances(s0, s, 5);
    var t := SweepCompletes(s, JournalFor(tx));
  }

  lemma CopiesAreOwn(s0: System, tx: Tx, s: System)
    requires StagedInPlace(s0, tx) && s.id == s0.id && s.disk.dirs == s0.disk.dirs[tx.ready := tx.newPackage]
    ensures Cleanable(s, JournalFor(tx), Obsolete(JournalFor(tx)), RegisteredPaths(s.disk.registry))
  {
    assert Obsolete(JournalFor(tx)) == [tx.staged, tx.ready];
  }

  lemma ReachedKeeps(s0: System, s: System)
    requires Initial(s0) && Reached(s0, s)
    ensures Inv(s)
  {
    var actions :| Run(s0, actions) == s;
    RunKeeps(s0, actions);
  }

  lemma {:induction false} ReachedAdvances(s0: System, s: System, n: nat)
    requires Reached(s0, s)
    ensures Reached(s0, Advances(s, n))
  {
    if n > 0 {
      ReachedAdvances(s0, s, n - 1);
      ReachedAdvance(s0, Advances(s, n - 1));
    }
  }

  /** There are such states: for every plugin and any three directories. */
  lemma StagedInPlaceExists(id: Id, target: Path, staged: Path, ready: Path)
    requires target != staged && target != ready && staged != ready
    ensures exists s: System, tx: Tx :: s.id == id && StagedInPlace(s, tx)
                                        && tx.target == target && tx.staged == staged && tx.ready == ready
  {
    var source := Source("", "", "", None, None, "");
    var package := Package(source, Manifest(id, ""), "", false);
    var v := Version(staged, package);
    var entry := Entry(Some(Local(staged, "")), Some(ManagedRecord(Some(v), [v])), true);
    var tx := Tx(target, staged, ready, None, entry, entry, AtPath(entry, target, package), true,
                 entry, None, package, Some(package));
    var s := System(id, Disk(map[staged := package], map[id := entry], None, None), Idle, None, NotStarted, false, None);
    assert v in entry.managed.value.history && entry.Current() == Some(v);
    assert CanBegin(s, tx);
    assert StagedInPlace(s, tx);
  }
}
