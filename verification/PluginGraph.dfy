/** Manifests and the capability graph built from a set of loaded plugins. */
module PluginGraphs {
  import opened Results
  import opened Ids
  import opened Capabilities
  import opened CapabilityRegistries

  const BUILTIN := Id("codlet.core.host")

  const LAUNCH := Descriptor("codlet.client.launch", 1, RuntimeScope)

  function BuiltinOffers(): seq<Descriptor> {
    [ Descriptor("codlet.runtime.ping", 1, TargetScope),
      Descriptor("codlet.runtime.manage", 1, TargetScope),
      Descriptor("codlet.runtime.ping", 1, RuntimeScope),
      Descriptor("codlet.runtime.manage", 1, RuntimeScope),
      Descriptor("codlet.core.services", 1, RuntimeScope),
      Descriptor("codlet.core.services", 1, TargetScope)]
  }

  datatype HostEntry = HostEntry(offers: seq<Descriptor>, needs: seq<Descriptor>)

  function WithoutLaunch(offers: seq<Descriptor>): seq<Descriptor> {
    if offers == [] then []
    else (if offers[0] == LAUNCH then [] else [offers[0]]) + WithoutLaunch(offers[1..])
  }

  function LaunchCount(offers: seq<Descriptor>): nat {
    if offers == [] then 0
    else (if offers[0] == LAUNCH then 1 else 0) + LaunchCount(offers[1..])
  }

  /** A loaded plugin; with a renderer the top-level lists belong to it, otherwise to the host. */
  datatype Plugin = Plugin(
    id: Id, generation: nat, host: Option<HostEntry>, renderer: bool,
    offers: seq<Descriptor>, needs: seq<Descriptor>, permissions: set<string>)
  {
    function HostOffers(): seq<Descriptor> {
      if host.None? then [] else if renderer then host.value.offers else offers
    }

    function HostNeeds(): seq<Descriptor> {
      if host.None? then [] else if renderer then host.value.needs else needs
    }

    function RendererOffers(): seq<Descriptor> {
      if renderer then offers else []
    }

    function RendererNeeds(): seq<Descriptor> {
      if renderer then needs else []
    }

    function RuntimeHostOffers(): seq<Descriptor> {
      WithoutLaunch(HostOffers())
    }

    predicate NativeLaunchOnly() {
      host.Some? && HostNeeds() == [] && HostOffers() == [LAUNCH]
    }

    predicate HasRuntimeHost() {
      host.Some? && !NativeLaunchOnly()
    }

    function AllOffers(): seq<Descriptor> {
      RendererOffers() + HostOffers()
    }

    function AllNeeds(): seq<Descriptor> {
      RendererNeeds() + HostNeeds()
    }
  }

  // ----- the graph as a value

  datatype Partial = Partial(state: State, launch: Option<Id>)

  function AddHost(g: Partial, p: Plugin): Result<Partial, RegistryError> {
    if p.host.None? then Ok(g)
    else
      var owner := HostId(p.id);
      var n := LaunchCount(p.HostOffers());
      if n > 0 && g.launch.Some? then Err(CapabilityConflict(KeyOf(LAUNCH), g.launch.value, owner))
      else if n > 1 then Err(CapabilityConflict(KeyOf(LAUNCH), owner, owner))
      else
        match Register(g.state, owner, p.generation, p.RuntimeHostOffers(), p.HostNeeds(), p.permissions)
        case Err(e) => Err(e)
        case Ok(s) => Ok(Partial(s, if n > 0 then Some(owner) else g.launch))
  }

  function AddRenderer(g: Partial, p: Plugin): Result<Partial, RegistryError> {
    if !p.renderer then Ok(g)
    else
      match Register(g.state, p.id, p.generation, p.RendererOffers(), p.RendererNeeds(), p.permissions)
      case Err(e) => Err(e)
      case Ok(s) => Ok(g.(state := s))
  }

  function AddPlugin(g: Partial, p: Plugin): Result<Partial, RegistryError> {
    match AddHost(g, p)
    case Err(e) => Err(e)
    case Ok(h) => AddRenderer(h, p)
  }

  function AddPlugins(g: Partial, plugins: seq<Plugin>): Result<Partial, RegistryError>
    decreases |plugins|
  {
    if plugins == [] then Ok(g)
    else
      match AddPlugin(g, plugins[0])
      case Err(e) => Err(e)
      case Ok(next) => AddPlugins(next, plugins[1..])
  }

  /** The renderer of a combined plugin waits for its runtime host. */
  function LinkHosts(s: State, plugins: seq<Plugin>): Result<State, RegistryError>
    decreases |plugins|
  {
    if plugins == [] then Ok(s)
    else if plugins[0].HasRuntimeHost() && plugins[0].renderer then
      match RequireBefore(s, plugins[0].id, HostId(plugins[0].id))
      case Err(e) => Err(e)
      case Ok(next) => LinkHosts(next, plugins[1..])
    else LinkHosts(s, plugins[1..])
  }

  function WithBuiltin(registryId: nat): Result<State, RegistryError> {
    Register(Empty(registryId), BUILTIN, 1, BuiltinOffers(), [], {})
  }

  function CapabilityGraph(registryId: nat, plugins: seq<Plugin>): Result<State, RegistryError> {
    match WithBuiltin(registryId)
    case Err(e) => Err(e)
    case Ok(s) =>
      match AddPlugins(Partial(s, None), plugins)
      case Err(e) => Err(e)
      case Ok(g) => LinkHosts(g.state, plugins)
  }

  // ----- building it in place

  /** The launch ABI has at most one owner in the whole set. */
  method ClaimLaunch(launch: Option<Id>, owner: Id, offers: seq<Descriptor>)
    returns (fault: Option<RegistryError>, claimed: Option<Id>)
    ensures var n := LaunchCount(offers);
            if n > 0 && launch.Some? then fault == Some(CapabilityConflict(KeyOf(LAUNCH), launch.value, owner))
            else if n > 1 then fault == Some(CapabilityConflict(KeyOf(LAUNCH), owner, owner))
            else fault == None && claimed == if n > 0 then Some(owner) else launch
  {
    claimed, fault := launch, None;
    var i := 0;
    while i < |offers| && fault == None
      invariant 0 <= i <= |offers|
      invariant fault == None ==>
                  && (launch.Some? ==> LaunchCount(offers) == LaunchCount(offers[i..]) && claimed == launch)
                  && (launch.None? && claimed.None? ==> LaunchCount(offers) == LaunchCount(offers[i..]))
                  && (launch.None? && claimed.Some? ==> claimed == Some(owner) && LaunchCount(offers) == 1 + LaunchCount(offers[i..]))
      invariant fault.Some? ==>
                  && fault == Some(CapabilityConflict(KeyOf(LAUNCH), if launch.Some? then launch.value else owner, owner))
                  && LaunchCount(offers) > if launch.Some? then 0 else 1
      decreases |offers| - i, fault == None
    {
      assert offers[i..][1..] == offers[i + 1..];
      if offers[i] == LAUNCH {
        if claimed.Some? {
          fault := Some(CapabilityConflict(KeyOf(LAUNCH), claimed.value, owner));
        } else {
          claimed := Some(owner);
          i := i + 1;
        }
      } else {
        i := i + 1;
      }
    }
  }

  /** Registers both entries of one plugin. */
  method AddPluginTo(graph: CapabilityRegistry, launch: Option<Id>, p: Plugin)
    returns (fault: Option<RegistryError>, claimed: Option<Id>)
    modifies graph
    ensures match AddPlugin(Partial(old(graph.Value()), launch), p)
            case Ok(after) => fault == None && graph.Value() == after.state && claimed == after.launch
            case Err(e) => fault == Some(e)
  {
    claimed, fault := launch, None;
    if p.host.Some? {
      fault, claimed := ClaimLaunch(launch, HostId(p.id), p.HostOffers());
      if fault.Some? { return; }
      fault := graph.RegisterProvider(HostId(p.id), p.generation, p.RuntimeHostOffers(), p.HostNeeds(), p.permissions);
      if fault.Some? { return; }
    }
    if p.renderer {
      fault := graph.RegisterProvider(p.id, p.generation, p.RendererOffers(), p.RendererNeeds(), p.permissions);
    }
  }

  method BuildCapabilityGraph(registryId: nat, plugins: seq<Plugin>)
    returns (fault: Option<RegistryError>, graph: CapabilityRegistry)
    ensures fresh(graph)
    ensures match CapabilityGraph(registryId, plugins)
            case Ok(s) => fault == None && graph.Value() == s
            case Err(e) => fault == Some(e)
  {
    graph := new CapabilityRegistry(registryId);
    fault := graph.RegisterProvider(BUILTIN, 1, BuiltinOffers(), [], {});
    if fault.Some? { return; }
    ghost var start := Partial(graph.Value(), None);
    var launch: Option<Id> := None;
    var i := 0;
    while i < |plugins|
      invariant 0 <= i <= |plugins| && fault == None
      invariant AddPlugins(start, plugins) == AddPlugins(Partial(graph.Value(), launch), plugins[i..])
    {
      assert plugins[i..][1..] == plugins[i + 1..];
      fault, launch := AddPluginTo(graph, launch, plugins[i]);
      if fault.Some? { return; }
      i := i + 1;
    }
    fault := LinkHostsOf(graph, plugins);
  }

  method LinkHostsOf(graph: CapabilityRegistry, plugins: seq<Plugin>) returns (fault: Option<RegistryError>)
    modifies graph
    ensures match LinkHosts(old(graph.Value()), plugins)
            case Ok(s) => fault == None && graph.Value() == s
            case Err(e) => fault == Some(e)
  {
    fault := None;
    ghost var joined := graph.Value();
    var i := 0;
    while i < |plugins|
      invariant 0 <= i <= |plugins|
      invariant fault == None
      invariant LinkHosts(joined, plugins) == LinkHosts(graph.Value(), plugins[i..])
    {
      assert plugins[i..][1..] == plugins[i + 1..];
      if plugins[i].HasRuntimeHost() && plugins[i].renderer {
        fault := graph.RequireProviderBefore(plugins[i].id, HostId(plugins[i].id));
        if fault.Some? { return; }
      }
      i := i + 1;
    }
  }

  // ----- what the graph contains

  /** The manifest parser admits only plain ids and at least one entry. */
  ghost predicate Parsed(plugins: seq<Plugin>) {
    forall p | p in plugins :: ValidUnqualified(p.id) && (p.host.Some? || p.renderer)
  }

  /** The plugin an entry belongs to. */
  function PluginOf(entry: Id): Id {
    match HostPluginId(entry)
    case Some(p) => p
    case None => entry
  }

  ghost predicate Declares(p: Plugin, entry: Id, r: Registration) {
    || (p.renderer && entry == p.id && r.offers == p.RendererOffers() && r.needs == p.RendererNeeds())
    || (p.host.Some? && entry == HostId(p.id) && r.offers == p.RuntimeHostOffers() && r.needs == p.HostNeeds())
  }

  ghost predicate Declared(s: State, plugins: seq<Plugin>, entry: Id)
    requires entry in s.registrations
  {
    exists p :: p in plugins && Declares(p, entry, s.registrations[entry])
  }

  /** A plugin's entries are registered with its declarations. */
  ghost predicate Present(s: State, p: Plugin) {
    && (p.renderer ==> p.id in s.registrations && Declares(p, p.id, s.registrations[p.id]) && p.id != BUILTIN)
    && (p.host.Some? ==> HostId(p.id) in s.registrations && Declares(p, HostId(p.id), s.registrations[HostId(p.id)]))
  }

  /** The entries are exactly the built-in one and those the plugins declare. */
  ghost predicate Mirrors(s: State, plugins: seq<Plugin>) {
    && WellFormed(s)
    && BUILTIN in s.registrations
    && s.registrations[BUILTIN].offers == BuiltinOffers()
    && s.registrations[BUILTIN].needs == []
    && (forall e | e in s.registrations && e != BUILTIN :: Declared(s, plugins, e))
    && (forall p | p in plugins :: Present(s, p))
  }

  ghost predicate NoDependencies(s: State) {
    forall e | e in s.registrations :: s.registrations[e].dependencies == {}
  }

  /** A graph under construction, before the host links are added. */
  ghost predicate Joined(s: State, plugins: seq<Plugin>) {
    Mirrors(s, plugins) && NoDependencies(s)
  }

  lemma EntryOwners(p: Id)
    requires ValidUnqualified(p)
    ensures PluginOf(p) == p && PluginOf(HostId(p)) == p && HostId(p) != p && HostId(p) != BUILTIN
  {
    HostIdFacts(p);
    HostIdIsQualified(p);
    assert ValidUnqualified(BUILTIN);
  }

  lemma BuiltinKeysAreDistinct()
    ensures DistinctKeys(BuiltinOffers())
  {}

  /** The first registration in a new registry. */
  lemma FirstEntry(registryId: nat, owner: Id, offers: seq<Descriptor>)
    requires ValidUnqualified(owner) && DistinctKeys(offers)
    ensures var r := Register(Empty(registryId), owner, 1, offers, [], {});
            && r.Ok? && WellFormed(r.value)
            && r.value.registrations == map[owner := Registration(1, 1, offers, [], {}, {})]
  {
    FreshMeansNoConflict(map[], owner, offers, {});
    RegisterKeepsWellFormed(Empty(registryId), owner, 1, offers, [], {});
  }

  lemma WithBuiltinMirrors(registryId: nat)
    ensures WithBuiltin(registryId).Ok?
    ensures Joined(WithBuiltin(registryId).value, [])
  {
    BuiltinKeysAreDistinct();
    assert ValidUnqualified(BUILTIN);
    FirstEntry(registryId, BUILTIN, BuiltinOffers());
    AloneIsJoined(WithBuiltin(registryId).value);
  }

  lemma AloneIsJoined(s: State)
    requires WellFormed(s) && s.registrations == map[BUILTIN := Registration(1, 1, BuiltinOffers(), [], {}, {})]
    ensures Joined(s, [])
  {
  }

  /** The converse of `NoConflictMeansFresh`. */
  lemma {:induction false} FreshMeansNoConflict(providers: map<Key, Record>, id: Id, offers: seq<Descriptor>, seen: set<Key>)
    requires DistinctKeys(offers)
    requires forall i | 0 <= i < |offers| :: KeyOf(offers[i]) !in providers && KeyOf(offers[i]) !in seen
    ensures FirstConflict(providers, id, offers, seen).None?
  {
    if offers != [] {
      FreshMeansNoConflict(providers, id, offers[1..], seen + {KeyOf(offers[0])});
    }
  }

  /** Registering one more entry leaves every other registration as it was. */
  lemma RegisterFacts(s: State, owner: Id, p: Plugin, offers: seq<Descriptor>, needs: seq<Descriptor>)
    requires WellFormed(s) && NoDependencies(s)
    requires Register(s, owner, p.generation, offers, needs, p.permissions).Ok?
    ensures var s' := Register(s, owner, p.generation, offers, needs, p.permissions).value;
            && WellFormed(s') && NoDependencies(s') && owner !in s.registrations
            && s'.registrations == s.registrations[owner :=
                 Registration(p.generation, s.nextEpoch + 1, offers, needs, p.permissions, {})]
  {
    RegisterKeepsWellFormed(s, owner, p.generation, offers, needs, p.permissions);
  }

  /** Nothing registered before changes when further entries join. */
  ghost predicate Extends(s: State, s': State) {
    s.registrations.Keys <= s'.registrations.Keys
    && forall e | e in s.registrations :: s'.registrations[e] == s.registrations[e]
  }

  lemma AddHostFacts(g: Partial, p: Plugin)
    requires WellFormed(g.state) && NoDependencies(g.state) && ValidUnqualified(p.id) && AddHost(g, p).Ok?
    ensures var s' := AddHost(g, p).value.state;
            && WellFormed(s') && NoDependencies(s') && Extends(g.state, s')
            && s'.registrations.Keys == g.state.registrations.Keys + (if p.host.Some? then {HostId(p.id)} else {})
            && (p.host.Some? ==> Declares(p, HostId(p.id), s'.registrations[HostId(p.id)]))
  {
    if p.host.Some? { RegisterFacts(g.state, HostId(p.id), p, p.RuntimeHostOffers(), p.HostNeeds()); }
  }

  lemma AddRendererFacts(g: Partial, p: Plugin)
    requires WellFormed(g.state) && NoDependencies(g.state) && AddRenderer(g, p).Ok?
    ensures var s' := AddRenderer(g, p).value.state;
            && WellFormed(s') && NoDependencies(s') && Extends(g.state, s')
            && s'.registrations.Keys == g.state.registrations.Keys + (if p.renderer then {p.id} else {})
            && (p.renderer ==> Declares(p, p.id, s'.registrations[p.id]) && p.id !in g.state.registrations)
  {
    if p.renderer { RegisterFacts(g.state, p.id, p, p.RendererOffers(), p.RendererNeeds()); }
  }

  lemma AddPluginJoins(g: Partial, done: seq<Plugin>, p: Plugin)
    requires Joined(g.state, done) && ValidUnqualified(p.id) && AddPlugin(g, p).Ok?
    ensures Joined(AddPlugin(g, p).value.state, done + [p])
  {
    AddPluginFacts(g, p);
    StillMirrors(g.state, AddPlugin(g, p).value.state, done, p);
  }

  lemma AddPluginFacts(g: Partial, p: Plugin)
    requires WellFormed(g.state) && NoDependencies(g.state) && ValidUnqualified(p.id) && AddPlugin(g, p).Ok?
    requires BUILTIN in g.state.registrations
    ensures var t := AddPlugin(g, p).value.state;
            && WellFormed(t) && NoDependencies(t) && Extends(g.state, t) && Present(t, p)
            && forall e | e in t.registrations && e !in g.state.registrations :: Declares(p, e, t.registrations[e])
  {
    AddHostFacts(g, p);
    AddRendererFacts(AddHost(g, p).value, p);
  }

  lemma StillMirrors(s: State, s': State, done: seq<Plugin>, p: Plugin)
    requires Mirrors(s, done) && WellFormed(s') && Extends(s, s') && Present(s', p)
    requires forall e | e in s'.registrations && e !in s.registrations :: Declares(p, e, s'.registrations[e])
    ensures Mirrors(s', done + [p])
  {
    assert p in done + [p];
    forall e | e in s'.registrations && e != BUILTIN ensures Declared(s', done + [p], e) {
      if e in s.registrations {
        assert Declared(s, done, e);
        var q :| q in done && Declares(q, e, s.registrations[e]);
        assert q in done + [p];
      }
    }
    forall q | q in done + [p] ensures Present(s', q) {
      if q in done { assert Present(s, q); }
    }
  }

  lemma Regroup(done: seq<Plugin>, plugins: seq<Plugin>)
    requires plugins != []
    ensures done + plugins == done + [plugins[0]] + plugins[1..]
  {}

  lemma AddPluginsStep(g: Partial, done: seq<Plugin>, plugins: seq<Plugin>) returns (next: Partial)
    requires Joined(g.state, done) && Parsed(plugins)
    requires plugins != [] && AddPlugins(g, plugins).Ok?
    ensures Joined(next.state, done + [plugins[0]]) && Parsed(plugins[1..])
    ensures AddPlugins(g, plugins) == AddPlugins(next, plugins[1..])
  {
    next := AddPlugin(g, plugins[0]).value;
    AddPluginJoins(g, done, plugins[0]);
  }

  lemma {:induction false} AddPluginsJoin(g: Partial, done: seq<Plugin>, plugins: seq<Plugin>, all: seq<Plugin>)
    requires Joined(g.state, done) && Parsed(plugins) && AddPlugins(g, plugins).Ok? && all == done + plugins
    ensures Joined(AddPlugins(g, plugins).value.state, all)
    decreases |plugins|
  {
    if plugins == [] {
      assert all == done;
    } else {
      var next := AddPluginsStep(g, done, plugins);
      Regroup(done, plugins);
      AddPluginsJoin(next, done + [plugins[0]], plugins[1..], all);
    }
  }

  /** Equal up to dependencies. */
  ghost predicate SameEntries(s: State, s': State) {
    && s' == s.(registrations := s'.registrations)
    && s'.registrations.Keys == s.registrations.Keys
    && forall e | e in s.registrations :: s'.registrations[e].(dependencies := {}) == s.registrations[e].(dependencies := {})
  }

  /** The dependency each combined plugin's renderer has on its host, and no other. */
  ghost function HostLinks(plugins: seq<Plugin>, e: Id): set<Id> {
    if exists p :: p in plugins && p.id == e && p.HasRuntimeHost() && p.renderer then {HostId(e)} else {}
  }

  lemma HostLinksStep(plugins: seq<Plugin>, e: Id)
    requires plugins != []
    ensures HostLinks(plugins, e) == HostLinks(plugins[1..], e)
              + if plugins[0].id == e && plugins[0].HasRuntimeHost() && plugins[0].renderer then {HostId(e)} else {}
  {
    assert forall p | p in plugins :: p == plugins[0] || p in plugins[1..];
    assert plugins[0] in plugins;
  }

  ghost predicate CanLink(s: State, plugins: seq<Plugin>) {
    forall p | p in plugins && p.renderer && p.host.Some? :: p.id in s.registrations && HostId(p.id) in s.registrations
  }

  lemma MirrorsCanLink(s: State, plugins: seq<Plugin>)
    requires Mirrors(s, plugins)
    ensures CanLink(s, plugins)
  {
    forall p | p in plugins && p.renderer && p.host.Some?
      ensures p.id in s.registrations && HostId(p.id) in s.registrations { assert Present(s, p); }
  }

  /** `s'` is `s` with the host links of `plugins` added. */
  ghost predicate LinkedBy(s: State, s': State, plugins: seq<Plugin>) {
    && SameEntries(s, s')
    && forall e | e in s.registrations ::
         s'.registrations[e].dependencies == s.registrations[e].dependencies + HostLinks(plugins, e)
  }

  lemma LinkOne(s: State, plugins: seq<Plugin>, s': State)
    requires plugins != [] && CanLink(s, plugins)
    requires var p := plugins[0];
             var next := if p.HasRuntimeHost() && p.renderer then RequireBefore(s, p.id, HostId(p.id)) else Ok(s);
             next.Ok? && LinkedBy(next.value, s', plugins[1..])
    ensures LinkedBy(s, s', plugins)
  {
    forall e | e in s.registrations { HostLinksStep(plugins, e); }
  }

  lemma {:induction false} LinkHostsFacts(s: State, plugins: seq<Plugin>)
    requires WellFormed(s) && CanLink(s, plugins)
    ensures LinkHosts(s, plugins).Ok? && WellFormed(LinkHosts(s, plugins).value)
    ensures LinkedBy(s, LinkHosts(s, plugins).value, plugins)
    decreases |plugins|
  {
    if plugins != [] {
      var p := plugins[0];
      assert p in plugins;
      if p.HasRuntimeHost() && p.renderer {
        RequireBeforeKeepsWellFormed(s, p.id, HostId(p.id));
        LinkHostsFacts(RequireBefore(s, p.id, HostId(p.id)).value, plugins[1..]);
      } else {
        LinkHostsFacts(s, plugins[1..]);
      }
      LinkOne(s, plugins, LinkHosts(s, plugins).value);
    }
  }

  lemma SameEntriesMirror(s: State, s': State, plugins: seq<Plugin>)
    requires Mirrors(s, plugins) && SameEntries(s, s') && WellFormed(s')
    ensures Mirrors(s', plugins)
  {
    forall e | e in s'.registrations && e != BUILTIN ensures Declared(s', plugins, e) {
      assert Declared(s, plugins, e);
      var p :| p in plugins && Declares(p, e, s.registrations[e]);
      assert Declares(p, e, s'.registrations[e]);
    }
    forall p | p in plugins ensures Present(s', p) { assert Present(s, p); }
  }

  /** The entries before linking, and that linking succeeds. */
  lemma CapabilityGraphJoined(registryId: nat, plugins: seq<Plugin>) returns (s: State)
    requires Parsed(plugins) && WithBuiltin(registryId).Ok?
    requires AddPlugins(Partial(WithBuiltin(registryId).value, None), plugins).Ok?
    ensures s == AddPlugins(Partial(WithBuiltin(registryId).value, None), plugins).value.state && Joined(s, plugins)
    ensures CapabilityGraph(registryId, plugins) == LinkHosts(s, plugins) && LinkHosts(s, plugins).Ok?
    ensures WellFormed(LinkHosts(s, plugins).value) && LinkedBy(s, LinkHosts(s, plugins).value, plugins)
  {
    WithBuiltinMirrors(registryId);
    var g := Partial(WithBuiltin(registryId).value, None);
    assert [] + plugins == plugins;
    AddPluginsJoin(g, [], plugins, plugins);
    s := AddPlugins(g, plugins).value.state;
    MirrorsCanLink(s, plugins);
    LinkHostsFacts(s, plugins);
  }

  /** The built graph mirrors the plugins; its only explicit dependencies are host before renderer. */
  lemma CapabilityGraphMirrors(registryId: nat, plugins: seq<Plugin>)
    requires Parsed(plugins) && CapabilityGraph(registryId, plugins).Ok?
    ensures var s := CapabilityGraph(registryId, plugins).value;
            && Mirrors(s, plugins)
            && forall e | e in s.registrations :: s.registrations[e].dependencies == HostLinks(plugins, e)
  {
    var s := CapabilityGraphJoined(registryId, plugins);
    SameEntriesMirror(s, LinkHosts(s, plugins).value, plugins);
  }

  // ----- leaving plugins out

  function Without(plugins: seq<Plugin>, removed: set<Id>): seq<Plugin> {
    if plugins == [] then []
    else (if plugins[0].id in removed then [] else [plugins[0]]) + Without(plugins[1..], removed)
  }

  lemma {:induction false} WithoutMembers(plugins: seq<Plugin>, removed: set<Id>)
    ensures forall p :: p in Without(plugins, removed) <==> p in plugins && p.id !in removed
  {
    if plugins != [] {
      WithoutMembers(plugins[1..], removed);
      assert forall p :: p in plugins <==> p == plugins[0] || p in plugins[1..];
    }
  }

  ghost predicate Kept(removed: set<Id>, entry: Id) {
    entry == BUILTIN || PluginOf(entry) !in removed
  }

  /** `t` holds exactly the kept entries of `s`, with earlier epochs at most. */
  ghost predicate Within(t: State, s: State, removed: set<Id>) {
    && t.nextEpoch <= s.nextEpoch
    && (forall e | e in t.registrations :: e in s.registrations && Kept(removed, e)
                                           && t.registrations[e].(epoch := 0) == s.registrations[e].(epoch := 0))
    && (forall e | e in s.registrations && Kept(removed, e) :: e in t.registrations)
  }

  /** The smaller index is the kept part of the larger one. */
  lemma WithinIndex(t: State, s: State, removed: set<Id>, k: Key)
    requires Within(t, s, removed) && WellFormed(t) && WellFormed(s)
    ensures k in t.providers <==> k in s.providers && Kept(removed, s.providers[k].provider)
    ensures k in t.providers ==>
              t.providers[k].provider == s.providers[k].provider && t.providers[k].descriptor == s.providers[k].descriptor
  {
    if k in t.providers {
      assert Backed(t, k);
      assert Indexed(s, t.providers[k].provider, t.providers[k].descriptor);
    }
    if k in s.providers && Kept(removed, s.providers[k].provider) {
      assert Backed(s, k);
      assert Indexed(t, s.providers[k].provider, s.providers[k].descriptor);
    }
  }

  lemma RegisterStaysPossible(t: State, s: State, removed: set<Id>, owner: Id, p: Plugin, offers: seq<Descriptor>)
    requires Within(t, s, removed) && WellFormed(t) && WellFormed(s) && Kept(removed, owner)
    requires RegisterFault(s, owner, p.generation, offers).None?
    ensures RegisterFault(t, owner, p.generation, offers).None?
  {
    NoConflictMeansFresh(s.providers, owner, offers, {});
    forall i | 0 <= i < |offers| ensures KeyOf(offers[i]) !in t.providers {
      assert offers[i] in offers;
      WithinIndex(t, s, removed, KeyOf(offers[i]));
    }
    FreshMeansNoConflict(t.providers, owner, offers, {});
  }

  /** An entry left out of the smaller registry. */
  lemma RegisterOutside(t: State, s: State, removed: set<Id>, owner: Id, p: Plugin, offers: seq<Descriptor>, needs: seq<Descriptor>)
    requires Within(t, s, removed) && WellFormed(s) && NoDependencies(s) && !Kept(removed, owner)
    requires Register(s, owner, p.generation, offers, needs, p.permissions).Ok?
    ensures Within(t, Register(s, owner, p.generation, offers, needs, p.permissions).value, removed)
  {
    RegisterFacts(s, owner, p, offers, needs);
  }

  /** An entry that joins both. */
  lemma RegisterWithin(t: State, s: State, removed: set<Id>, owner: Id, p: Plugin, offers: seq<Descriptor>, needs: seq<Descriptor>)
    requires Within(t, s, removed) && WellFormed(t) && WellFormed(s) && NoDependencies(t) && NoDependencies(s)
    requires Kept(removed, owner) && Register(s, owner, p.generation, offers, needs, p.permissions).Ok?
    ensures Register(t, owner, p.generation, offers, needs, p.permissions).Ok?
    ensures Within(Register(t, owner, p.generation, offers, needs, p.permissions).value,
                   Register(s, owner, p.generation, offers, needs, p.permissions).value, removed)
  {
    RegisterStaysPossible(t, s, removed, owner, p, offers);
    RegisterFacts(s, owner, p, offers, needs);
    RegisterFacts(t, owner, p, offers, needs);
  }

  ghost predicate WithinPartial(t: Partial, s: Partial, removed: set<Id>) {
    && Within(t.state, s.state, removed)
    && WellFormed(t.state) && WellFormed(s.state) && NoDependencies(t.state) && NoDependencies(s.state)
    && BUILTIN in s.state.registrations
    && (t.launch.Some? ==> s.launch.Some?)
  }

  lemma AddHostWithin(t: Partial, s: Partial, removed: set<Id>, p: Plugin)
    requires WithinPartial(t, s, removed) && ValidUnqualified(p.id) && AddHost(s, p).Ok?
    ensures p.id in removed ==> WithinPartial(t, AddHost(s, p).value, removed)
    ensures p.id !in removed ==> AddHost(t, p).Ok? && WithinPartial(AddHost(t, p).value, AddHost(s, p).value, removed)
  {
    EntryOwners(p.id);
    if p.host.Some? {
      AddHostFacts(s, p);
      if p.id in removed {
        RegisterOutside(t.state, s.state, removed, HostId(p.id), p, p.RuntimeHostOffers(), p.HostNeeds());
      } else {
        RegisterWithin(t.state, s.state, removed, HostId(p.id), p, p.RuntimeHostOffers(), p.HostNeeds());
        AddHostFacts(t, p);
      }
    }
  }

  lemma AddRendererWithin(t: Partial, s: Partial, removed: set<Id>, p: Plugin)
    requires WithinPartial(t, s, removed) && ValidUnqualified(p.id) && AddRenderer(s, p).Ok?
    ensures p.id in removed ==> WithinPartial(t, AddRenderer(s, p).value, removed)
    ensures p.id !in removed ==> AddRenderer(t, p).Ok? && WithinPartial(AddRenderer(t, p).value, AddRenderer(s, p).value, removed)
  {
    EntryOwners(p.id);
    if p.renderer {
      AddRendererFacts(s, p);
      if p.id in removed {
        RegisterOutside(t.state, s.state, removed, p.id, p, p.RendererOffers(), p.RendererNeeds());
      } else {
        RegisterWithin(t.state, s.state, removed, p.id, p, p.RendererOffers(), p.RendererNeeds());
        AddRendererFacts(t, p);
      }
    }
  }

  lemma {:induction false} AddPluginsWithin(t: Partial, s: Partial, removed: set<Id>, plugins: seq<Plugin>)
    requires WithinPartial(t, s, removed) && Parsed(plugins) && AddPlugins(s, plugins).Ok?
    ensures AddPlugins(t, Without(plugins, removed)).Ok?
    ensures WithinPartial(AddPlugins(t, Without(plugins, removed)).value, AddPlugins(s, plugins).value, removed)
    decreases |plugins|
  {
    if plugins != [] {
      var p, rest := plugins[0], plugins[1..];
      AddHostWithin(t, s, removed, p);
      var next := AddPlugin(s, p).value;
      if p.id in removed {
        AddRendererWithin(t, AddHost(s, p).value, removed, p);
        AddPluginsWithin(t, next, removed, rest);
        assert Without(plugins, removed) == Without(rest, removed);
      } else {
        AddRendererWithin(AddHost(t, p).value, AddHost(s, p).value, removed, p);
        AddPluginsWithin(AddPlugin(t, p).value, next, removed, rest);
        assert Without(plugins, removed)[0] == p && Without(plugins, removed)[1..] == Without(rest, removed);
      }
    }
  }

  lemma HostLinksWithin(plugins: seq<Plugin>, removed: set<Id>, e: Id)
    requires Parsed(plugins) && Kept(removed, e) && e != BUILTIN
    ensures HostLinks(Without(plugins, removed), e) == HostLinks(plugins, e)
  {
    WithoutMembers(plugins, removed);
    if exists p :: p in plugins && p.id == e && p.HasRuntimeHost() && p.renderer { EntryOwners(e); }
  }

  /** Leaving plugins out of a set whose graph can be built gives the kept part of that graph. */
  lemma CapabilityGraphWithin(registryId: nat, plugins: seq<Plugin>, removed: set<Id>)
    requires Parsed(plugins) && CapabilityGraph(registryId, plugins).Ok?
    ensures CapabilityGraph(registryId, Without(plugins, removed)).Ok?
    ensures Within(CapabilityGraph(registryId, Without(plugins, removed)).value, CapabilityGraph(registryId, plugins).value, removed)
  {
    WithBuiltinMirrors(registryId);
    WithoutMembers(plugins, removed);
    var g := Partial(WithBuiltin(registryId).value, None);
    AddPluginsWithin(g, g, removed, plugins);
    var s := CapabilityGraphJoined(registryId, plugins);
    var t := CapabilityGraphJoined(registryId, Without(plugins, removed));
    LinkedWithin(t, s, LinkHosts(t, Without(plugins, removed)).value, LinkHosts(s, plugins).value, removed, plugins);
  }

  lemma LinkedWithin(t: State, s: State, t': State, s': State, removed: set<Id>, plugins: seq<Plugin>)
    requires Within(t, s, removed) && NoDependencies(t) && NoDependencies(s) && Mirrors(s, plugins) && Parsed(plugins)
    requires LinkedBy(s, s', plugins) && LinkedBy(t, t', Without(plugins, removed))
    ensures Within(t', s', removed)
  {
    forall e | e in t.registrations ensures HostLinks(Without(plugins, removed), e) == HostLinks(plugins, e) {
      SameHostLinks(t, s, removed, plugins, e);
    }
    LinkedAlike(t, s, t', s', removed, plugins, Without(plugins, removed));
  }

  lemma SameHostLinks(t: State, s: State, removed: set<Id>, plugins: seq<Plugin>, e: Id)
    requires Within(t, s, removed) && Mirrors(s, plugins) && Parsed(plugins) && e in t.registrations
    ensures HostLinks(Without(plugins, removed), e) == HostLinks(plugins, e)
  {
    WithoutMembers(plugins, removed);
    if e != BUILTIN {
      HostLinksWithin(plugins, removed, e);
    } else {
      forall p | p in plugins && p.id == BUILTIN ensures !p.renderer { assert Present(s, p); }
    }
  }

  lemma LinkedAlike(
    t: State, s: State, t': State, s': State, removed: set<Id>, plugins: seq<Plugin>, kept: seq<Plugin>)
    requires Within(t, s, removed) && NoDependencies(t) && NoDependencies(s)
    requires LinkedBy(s, s', plugins) && LinkedBy(t, t', kept)
    requires forall e | e in t.registrations :: HostLinks(kept, e) == HostLinks(plugins, e)
    ensures Within(t', s', removed)
  {}
}
