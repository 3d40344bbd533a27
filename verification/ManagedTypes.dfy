/** Packages, registrations and the digests over them, shared by staging and installation. */
module ManagedTypes {
  import opened Results
  import opened Ids

  /** A directory path as its components. */
  datatype Path = Path(parts: seq<string>)

  /** One lies inside the other. */
  predicate Overlaps(a: Path, b: Path) {
    a.parts <= b.parts || b.parts <= a.parts
  }

  datatype Source = Source(
    owner: string, repository: string, url: string,
    repositoryId: Option<nat>, ownerId: Option<nat>, release: string)

  datatype Manifest = Manifest(id: Id, body: string)

  /** A checked package directory; `official` says it verifies against an installer receipt. */
  datatype Package = Package(source: Source, manifest: Manifest, content: string, official: bool)

  /**
   * One retained version. Digests are modelled as injective, so the content digest stands for the
   * package and the version key for the pair of path and package.
   */
  datatype Version = Version(path: Path, package: Package)

  datatype ManagedRecord = ManagedRecord(currentVersion: Option<Version>, history: seq<Version>) {
    function Current(): Option<Version> {
      if currentVersion.Some? && currentVersion.value in history then currentVersion else None
    }
  }

  datatype Local = Local(path: Path, trust: string)

  /** Everything the registry says about one plugin; its digest identifies it. */
  datatype Entry = Entry(local: Option<Local>, managed: Option<ManagedRecord>, enabled: bool) {
    function Current(): Option<Version> {
      if managed.Some? then managed.value.Current() else None
    }
  }

  type Registry = map<Id, Entry>

  function EntryOf(r: Registry, id: Id): Entry {
    if id in r then r[id] else Entry(None, None, true)
  }

  /** The paths of all local registrations. */
  function RegisteredPaths(r: Registry): set<Path> {
    set id | id in r && r[id].local.Some? :: r[id].local.value.path
  }

  /** The part of an entry that a save compares before it writes. */
  predicate SameTrust(a: Entry, b: Entry) {
    a.local == b.local && a.managed == b.managed
  }
}
