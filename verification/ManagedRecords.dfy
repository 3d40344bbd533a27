/** Staging a managed version: history, source identity, and what a transaction may rely on. */
module ManagedRecords {
  import opened Results
  import opened Ids
  import opened ManagedTypes
  import opened Installation

  const MAX_HISTORY := 64

  datatype Operation = Install | Update | Adopt | Rollback

  // ----- history

  ghost predicate DistinctVersions(history: seq<Version>) {
    forall i, j | 0 <= i < j < |history| :: history[i] != history[j]
  }

  /** The retained record's own checks. */
  ghost predicate ValidHistory(r: ManagedRecord, id: Id) {
    && 1 <= |r.history| <= MAX_HISTORY
    && DistinctVersions(r.history)
    && forall v | v in r.history :: v.package.manifest.id == id
  }

  /** And against the registration: a named version is retained and is the registered directory. */
  ghost predicate ValidRecord(r: ManagedRecord, id: Id, local: Option<Local>) {
    && ValidHistory(r, id)
    && (r.currentVersion.Some? ==>
          && r.Current().Some? && local.Some? && local.value.path == r.Current().value.path)
  }

  /** The selected version becomes current; a new one is appended, and a full history is cut back first. */
  function StageVersion(r: ManagedRecord, v: Version): ManagedRecord {
    var selected := r.(currentVersion := Some(v));
    if v in r.history then selected
    else
      var kept :=
        if |r.history| < MAX_HISTORY then r.history
        else if selected.Current().Some? then [selected.Current().value]
        else [];
      selected.(history := kept + [v])
  }

  /** Staging into a valid record, or a new one, always gives a valid record for the staged directory. */
  lemma StagingKeepsRecordsValid(r: ManagedRecord, id: Id, v: Version, trust: string)
    requires ValidHistory(r, id) || r == ManagedRecord(None, [])
    requires v.package.manifest.id == id
    ensures ValidRecord(StageVersion(r, v), id, Some(Local(v.path, trust)))
    ensures StageVersion(r, v).Current() == Some(v)
  {
    var s := StageVersion(r, v);
    assert v in s.history by {
      if v !in r.history { assert s.history[|s.history| - 1] == v; }
    }
    forall x | x in s.history ensures x.package.manifest.id == id {
      assert x == v || x in r.history;
    }
  }

  /**
   * On overflow nothing older survives, the version installed until now included: the new version
   * is already named current when the retained one is looked up.
   */
  lemma OverflowKeepsOnlyTheNewVersion(r: ManagedRecord, v: Version)
    ensures |r.history| >= MAX_HISTORY && v !in r.history ==> StageVersion(r, v) == ManagedRecord(Some(v), [v])
    ensures |r.history| < MAX_HISTORY || v in r.history ==> r.history <= StageVersion(r, v).history
  {}

  // ----- source identity

  function LowerChar(c: char): char {
    if 'A' <= c <= 'Z' then c + ' ' else c
  }

  function Lower(s: string): string {
    seq(|s|, i requires 0 <= i < |s| => LowerChar(s[i]))
  }

  /** Names compare without ASCII case; a recorded numeric identity must be repeated. */
  predicate SameRepository(left: Source, right: Source) {
    && Lower(left.owner) == Lower(right.owner)
    && Lower(left.repository) == Lower(right.repository)
    && Lower(left.url) == Lower(right.url)
    && (left.repositoryId.Some? ==> right.repositoryId == left.repositoryId)
    && (left.ownerId.Some? ==> right.ownerId == left.ownerId)
  }

  predicate SameLetter(x: char, y: char) {
    || x == y
    || ('A' <= x <= 'Z' && y as int == x as int + 32)
    || ('A' <= y <= 'Z' && x as int == y as int + 32)
  }

  predicate SameButCase(a: string, b: string) {
    |a| == |b| && forall i | 0 <= i < |a| :: SameLetter(a[i], b[i])
  }

  lemma LowerForgetsCase(a: string, b: string)
    ensures Lower(a) == Lower(b) <==> SameButCase(a, b)
  {
    if Lower(a) == Lower(b) {
      assert |Lower(a)| == |a| && |Lower(b)| == |b|;
      forall i | 0 <= i < |a| ensures SameLetter(a[i], b[i]) { assert Lower(a)[i] == Lower(b)[i]; }
    }
  }

  /** Sources agree exactly if owner, name and address do but for ASCII case, and no recorded number is missing or other. */
  lemma SameRepositoryIsExact(left: Source, right: Source)
    ensures SameRepository(left, right) <==>
              && SameButCase(left.owner, right.owner) && SameButCase(left.repository, right.repository) && SameButCase(left.url, right.url)
              && (left.repositoryId == None || left.repositoryId == right.repositoryId)
              && (left.ownerId == None || left.ownerId == right.ownerId)
  {
    LowerForgetsCase(left.owner, right.owner);
    LowerForgetsCase(left.repository, right.repository);
    LowerForgetsCase(left.url, right.url);
  }

  /** Keeps every identity `left` had recorded; unlike the check itself it is transitive by design. */
  lemma SameRepositoryIsTransitive(a: Source, b: Source, c: Source)
    requires SameRepository(a, b) && SameRepository(b, c)
    ensures SameRepository(a, c)
  {}

  /** Which selections a registration admits; `official` is the installer check of an adoption. */
  predicate Admits(e: Entry, op: Operation, v: Version, official: bool) {
    match op
    case Install => e.local.None?
    case Adopt => official && e.managed.None? && e.local.Some?
    case Update => ManagedAt(e) && SameRepository(e.Current().value.package.source, v.package.source)
    case Rollback =>
      && ManagedAt(e) && SameRepository(e.Current().value.package.source, v.package.source)
      && v in e.managed.value.history
  }

  /** The current version is the registered directory. */
  predicate ManagedAt(e: Entry) {
    e.Current().Some? && e.local.Some? && e.local.value.path == e.Current().value.path
  }

  /** The staged entry: new record, new trust, disabled until activation. */
  function Stage(e: Entry, v: Version, trust: string): Entry {
    var record := if e.managed.Some? then e.managed.value else ManagedRecord(None, []);
    Entry(Some(Local(v.path, trust)), Some(StageVersion(record, v)), false)
  }

  ghost predicate ValidEntry(e: Entry, id: Id) {
    e.managed.Some? ==> ValidRecord(e.managed.value, id, e.local)
  }

  datatype Change =
    | StageChange(op: Operation, version: Version, official: bool, trust: string)
    | PublishChange(target: Path, package: Package)
    | EnableChange(enabled: bool)
    | UnregisterChange

  /** A refused change leaves the entry alone; publishing rewrites the selected version to its stable directory. */
  function Apply(e: Entry, id: Id, c: Change): Entry {
    match c
    case StageChange(op, v, official, trust) =>
      if Admits(e, op, v, official) && v.package.manifest.id == id then Stage(e, v, trust) else e
    case PublishChange(target, package) =>
      if ManagedAt(e) && package.source == e.Current().value.package.source
         && package.manifest == e.Current().value.package.manifest
      then AtPath(e, target, package) else e
    case EnableChange(enabled) => e.(enabled := enabled)
    case UnregisterChange =>
      if e.local.None? then e
      else Entry(None, if e.managed.Some? then Some(e.managed.value.(currentVersion := None)) else None, e.enabled)
  }

  function ApplyAll(e: Entry, id: Id, cs: seq<Change>): Entry
    decreases |cs|
  {
    if cs == [] then e else ApplyAll(Apply(e, id, cs[0]), id, cs[1..])
  }

  lemma ApplyKeepsValid(e: Entry, id: Id, c: Change)
    requires ValidEntry(e, id)
    ensures ValidEntry(Apply(e, id, c), id)
  {
    match c
    case StageChange(op, v, official, trust) =>
      if v.package.manifest.id == id {
        StagingKeepsRecordsValid(if e.managed.Some? then e.managed.value else ManagedRecord(None, []), id, v, trust);
      }
    case PublishChange(target, package) =>
      if ManagedAt(e) { assert e.Current().value in e.managed.value.history; }
    case EnableChange(_) =>
    case UnregisterChange =>
  }

  /** Every sequence of stages, installations, switches and unregistrations keeps the managed record valid. */
  lemma {:induction false} RecordsStayValid(e: Entry, id: Id, cs: seq<Change>)
    requires ValidEntry(e, id)
    ensures ValidEntry(ApplyAll(e, id, cs), id)
    decreases |cs|
  {
    if cs != [] {
      ApplyKeepsValid(e, id, cs[0]);
      RecordsStayValid(Apply(e, id, cs[0]), id, cs[1..]);
    }
  }

  /** The version the record names, if it is registered at its own directory. */
  ghost predicate InstalledVersion(e: Entry, v: Version) {
    && e.managed.Some? && e.managed.value.currentVersion == Some(v) && v in e.managed.value.history
    && e.local.Some? && e.local.value.path == v.path
  }

  /**
   * Staging goes ahead exactly for the plugin's own package and, by operation, into an unregistered
   * entry, over an unmanaged installer package, or from the same repository over an installed version,
   * which a rollback must still retain. It selects that version, disabled, and appends it if it is new.
   */
  lemma StagingIsExact(e: Entry, id: Id, op: Operation, v: Version, official: bool, trust: string)
    ensures var t := Apply(e, id, StageChange(op, v, official, trust));
            var kept := if e.managed.Some? then e.managed.value.history else [];
            var sameSource := exists u :: InstalledVersion(e, u) && SameRepository(u.package.source, v.package.source);
            var admitted := v.package.manifest.id == id
              && (if op == Install then e.local.None?
                  else if op == Adopt then official && e.managed.None? && e.local.Some?
                  else sameSource && (op == Rollback ==> v in kept));
            if admitted
            then t == Entry(Some(Local(v.path, trust)),
                            Some(ManagedRecord(Some(v), if v in kept then kept else if |kept| < 64 then kept + [v] else [v])), false)
            else t == e
  {
    if ManagedAt(e) { assert InstalledVersion(e, e.Current().value); }
    assert [] + [v] == [v];
    var r := if e.managed.Some? then e.managed.value else ManagedRecord(None, []);
    assert v !in r.history ==> r.(currentVersion := Some(v)).Current() == None;
  }

  /** A publication needs the very package that is installed, and leaves one version at the new path. */
  lemma PublicationIsExact(e: Entry, id: Id, target: Path, package: Package)
    ensures var t := Apply(e, id, PublishChange(target, package));
            if exists u :: InstalledVersion(e, u) && package.source == u.package.source && package.manifest == u.package.manifest
            then t == Entry(Some(e.local.value.(path := target)),
                            Some(ManagedRecord(Some(Version(target, package)), [Version(target, package)])), e.enabled)
            else t == e
  {
    if ManagedAt(e) { assert InstalledVersion(e, e.Current().value); }
  }

  /** Unregistering forgets where the plugin is and which version it ran, not which versions there were. */
  lemma UnregisteringIsExact(e: Entry, id: Id)
    ensures var t := Apply(e, id, UnregisterChange);
            && t.local.None? && t.enabled == e.enabled
            && (e.local.Some? ==>
                  && (t.managed.Some? <==> e.managed.Some?)
                  && (t.managed.Some? ==> t.managed.value == ManagedRecord(None, e.managed.value.history)))
            && (e.local.None? ==> t == e)
  {}

  ghost predicate KeepsSource(cs: seq<Change>) {
    forall c | c in cs :: !c.UnregisterChange? && (c.StageChange? ==> c.op == Update || c.op == Rollback)
  }

  lemma ApplyKeepsSource(e: Entry, id: Id, c: Change)
    requires ManagedAt(e) && !c.UnregisterChange? && (c.StageChange? ==> c.op == Update || c.op == Rollback)
    ensures ManagedAt(Apply(e, id, c))
    ensures SameRepository(e.Current().value.package.source, Apply(e, id, c).Current().value.package.source)
  {
    match c
    case StageChange(op, v, official, trust) =>
      var s := StageVersion(e.managed.value, v);
      assert v in s.history by {
        if v !in e.managed.value.history { assert s.history[|s.history| - 1] == v; }
      }
    case _ =>
  }

  /** Through any updates, rollbacks and installations the repository stays the same, recorded ids included. */
  lemma {:induction false} SourceIdentityIsKept(e: Entry, id: Id, cs: seq<Change>)
    requires ManagedAt(e) && KeepsSource(cs)
    ensures ManagedAt(ApplyAll(e, id, cs))
    ensures var before, after := e.Current().value.package.source, ApplyAll(e, id, cs).Current().value.package.source;
            && SameRepository(before, after)
            && SameButCase(before.owner, after.owner) && SameButCase(before.repository, after.repository)
            && SameButCase(before.url, after.url)
            && (before.repositoryId.Some? ==> after.repositoryId == before.repositoryId)
            && (before.ownerId.Some? ==> after.ownerId == before.ownerId)
    decreases |cs|
  {
    if cs != [] {
      assert cs[0] in cs && forall c | c in cs[1..] :: c in cs;
      var next := Apply(e, id, cs[0]);
      ApplyKeepsSource(e, id, cs[0]);
      SourceIdentityIsKept(next, id, cs[1..]);
      SameRepositoryIsTransitive(e.Current().value.package.source, next.Current().value.package.source,
                                 ApplyAll(next, id, cs[1..]).Current().value.package.source);
    }
    SameRepositoryIsExact(e.Current().value.package.source, ApplyAll(e, id, cs).Current().value.package.source);
  }

  // ----- handing over to the installation protocol

  /**
   * What staging admits is what the installation protocol asks of its callers: the previous state
   * has one of the three shapes, and the candidate names the staged directory as current.
   */
  lemma StagedEntriesCanBegin(tx: Tx, op: Operation, v: Version, official: bool, trust: string)
    requires Admits(tx.previous, op, v, official)
    requires op == Adopt ==> tx.previous.local.value.path != tx.target
    requires tx.candidate == Stage(tx.previous, v, trust) && tx.staged == v.path
    ensures PreviousShape(tx)
    ensures tx.candidate.local.Some? && tx.candidate.Current() == Some(v) && v.path == tx.staged
  {
    var r := if tx.previous.managed.Some? then tx.previous.managed.value else ManagedRecord(None, []);
    var s := StageVersion(r, v);
    assert v in s.history by {
      if v !in r.history { assert s.history[|s.history| - 1] == v; }
    }
  }

  // ----- restoring the previous entry in process

  datatype Restoration = Unchanged | Restored | Conflict

  /**
   * Compare what was loaded with the previous entry, then with the candidate; save only if source and
   * grants are still the candidate's when the save looks again. A preference switched in between is
   * not looked at, and goes.
   */
  method RestorePrevious(loaded: Registry, now: Registry, id: Id, expected: Entry, previous: Entry)
    returns (after: Registry, outcome: Restoration)
    ensures outcome == Unchanged <==> EntryOf(loaded, id) == previous
    ensures outcome == Restored <==>
              EntryOf(loaded, id) == expected && expected != previous && SameTrust(EntryOf(now, id), expected)
    ensures outcome == Restored ==> after == now[id := previous] && EntryOf(after, id) == previous
    ensures outcome != Restored ==> after == now
  {
    var current := EntryOf(loaded, id);
    if current == previous { return now, Unchanged; }
    if current.local != expected.local || current.managed != expected.managed || current.enabled != expected.enabled {
      return now, Conflict;
    }
    if EntryOf(now, id).local != current.local || EntryOf(now, id).managed != current.managed {
      return now, Conflict;
    }
    after, outcome := now[id := previous], Restored;
  }
}
