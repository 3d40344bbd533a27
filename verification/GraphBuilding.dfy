/** Exactly which plugin sets build a capability graph, told from their manifests, and who owns a launch conflict. */
module GraphBuilding {
  import opened Results
  import opened Ids
  import opened Capabilities
  import opened PluginGraphs

  // ----- the condition

  /** One registration the graph asks for. */
  datatype Item = Item(owner: Id, generation: nat, offers: seq<Descriptor>)

  /** A plugin's entries: its host's, without the launch offer, and its renderer's. */
  function ItemsOf(p: Plugin): seq<Item> {
    (if p.host.Some? then [Item(HostId(p.id), p.generation, WithoutLaunch(p.HostOffers()))] else [])
    + (if p.renderer then [Item(p.id, p.generation, p.offers)] else [])
  }

  function AllItems(plugins: seq<Plugin>): seq<Item> {
    if plugins == [] then [] else AllItems(plugins[..|plugins| - 1]) + ItemsOf(plugins[|plugins| - 1])
  }

  function Offered(items: seq<Item>): seq<Descriptor> {
    if items == [] then [] else Offered(items[..|items| - 1]) + items[|items| - 1].offers
  }

  /** What all hosts together offer, the launch ability included. */
  function AllHostOffers(plugins: seq<Plugin>): seq<Descriptor> {
    if plugins == [] then [] else AllHostOffers(plugins[..|plugins| - 1]) + plugins[|plugins| - 1].HostOffers()
  }

  ghost predicate DistinctOwners(items: seq<Item>) {
    forall i, j | 0 <= i < j < |items| :: items[i].owner != items[j].owner
  }

  /** Owners are new, generations positive, and no two offers, those of the first entry included, name the same ability. */
  ghost predicate Registrable(root: Id, base: seq<Descriptor>, items: seq<Item>) {
    && (forall e | e in items :: e.generation > 0 && e.owner != root)
    && DistinctOwners(items)
    && DistinctKeys(base + Offered(items))
    && |items| < MAX_EPOCH
  }

  /** That over the built-in entry, and the launch ability is offered at most once by all hosts together. */
  ghost predicate Buildable(plugins: seq<Plugin>) {
    Registrable(BUILTIN, BuiltinOffers(), AllItems(plugins)) && multiset(AllHostOffers(plugins))[LAUNCH] <= 1
  }

  // ----- lists of offers

  lemma {:induction false} CountedLaunches(offers: seq<Descriptor>)
    ensures LaunchCount(offers) == multiset(offers)[LAUNCH]
    ensures multiset(WithoutLaunch(offers)) == multiset(offers)[LAUNCH := 0]
  {
    if offers != [] {
      CountedLaunches(offers[1..]);
      assert offers == [offers[0]] + offers[1..];
      if offers[0] == LAUNCH { assert WithoutLaunch(offers) == WithoutLaunch(offers[1..]); }
    }
  }

  lemma KeysOfBoth(a: seq<Descriptor>, b: seq<Descriptor>)
    ensures KeySet(a + b) == KeySet(a) + KeySet(b)
  {
    assert forall d :: d in a + b <==> d in a || d in b;
  }

  lemma DistinctKeysOfBoth(a: seq<Descriptor>, b: seq<Descriptor>)
    ensures DistinctKeys(a + b) <==>
              DistinctKeys(a) && DistinctKeys(b) && forall d | d in b :: KeyOf(d) !in KeySet(a)
  {
    if DistinctKeys(a + b) {
      forall i, j | 0 <= i < j < |a| ensures KeyOf(a[i]) != KeyOf(a[j]) { assert (a + b)[i] == a[i] && (a + b)[j] == a[j]; }
      forall i, j | 0 <= i < j < |b| ensures KeyOf(b[i]) != KeyOf(b[j]) {
        assert (a + b)[|a| + i] == b[i] && (a + b)[|a| + j] == b[j];
      }
      forall d | d in b ensures KeyOf(d) !in KeySet(a) {
        var j :| 0 <= j < |b| && b[j] == d;
        forall e | e in a ensures KeyOf(e) != KeyOf(d) {
          var i :| 0 <= i < |a| && a[i] == e;
          assert (a + b)[i] == e && (a + b)[|a| + j] == d;
        }
      }
    }
  }

  lemma OfferedMore(items: seq<Item>, e: Item)
    ensures Offered(items + [e]) == Offered(items) + e.offers
  {
    assert (items + [e])[..|items|] == items;
  }

  // ----- one registration

  ghost function Owners(items: seq<Item>): set<Id> {
    set e | e in items :: e.owner
  }

  /** The registry holds the built-in entry and these items. */
  ghost predicate Ledger(root: Id, base: seq<Descriptor>, s: State, items: seq<Item>) {
    && WellFormed(s) && Registrable(root, base, items)
    && s.registrations.Keys == {root} + Owners(items)
    && s.providers.Keys == KeySet(base + Offered(items))
    && s.nextEpoch == 1 + |items|
  }

  lemma OwnersMore(items: seq<Item>, e: Item)
    ensures DistinctOwners(items + [e]) <==> DistinctOwners(items) && e.owner !in Owners(items)
    ensures Owners(items + [e]) == Owners(items) + {e.owner}
  {
    var more := items + [e];
    assert more[|items|] == e && forall i | 0 <= i < |items| :: more[i] == items[i];
    assert forall x :: x in more <==> x in items || x == e;
    if DistinctOwners(more) {
      forall x | x in items ensures x.owner != e.owner {
        var i :| 0 <= i < |items| && items[i] == x;
        assert more[i].owner != more[|items|].owner;
      }
      forall i, j | 0 <= i < j < |items| ensures items[i].owner != items[j].owner { assert more[i].owner != more[j].owner; }
    }
  }

  lemma KeysMore(base: seq<Descriptor>, items: seq<Item>, e: Item)
    ensures DistinctKeys(base + Offered(items + [e])) <==>
              && DistinctKeys(base + Offered(items)) && DistinctKeys(e.offers)
              && forall d | d in e.offers :: KeyOf(d) !in KeySet(base + Offered(items))
    ensures KeySet(base + Offered(items + [e])) == KeySet(base + Offered(items)) + KeySet(e.offers)
  {
    OfferedMore(items, e);
    assert base + Offered(items + [e]) == (base + Offered(items)) + e.offers;
    DistinctKeysOfBoth(base + Offered(items), e.offers);
    KeysOfBoth(base + Offered(items), e.offers);
  }

  lemma RegistrableMore(root: Id, base: seq<Descriptor>, items: seq<Item>, e: Item)
    ensures Registrable(root, base, items + [e]) <==>
              && Registrable(root, base, items)
              && e.generation > 0 && e.owner != root && e.owner !in Owners(items) && |items| + 1 < MAX_EPOCH
              && DistinctKeys(e.offers) && forall d | d in e.offers :: KeyOf(d) !in KeySet(base + Offered(items))
  {
    OwnersMore(items, e);
    KeysMore(base, items, e);
    assert forall x :: x in items + [e] <==> x in items || x == e;
  }

  lemma {:induction false} RegistrablePrefix(root: Id, base: seq<Descriptor>, items: seq<Item>, more: seq<Item>)
    requires Registrable(root, base, items + more)
    ensures Registrable(root, base, items)
    decreases |more|
  {
    if more == [] {
      assert items + more == items;
    } else {
      var n := |more| - 1;
      assert items + more == (items + more[..n]) + [more[n]];
      RegistrableMore(root, base, items + more[..n], more[n]);
      RegistrablePrefix(root, base, items, more[..n]);
    }
  }

  lemma RegisterOkIff(s: State, e: Item, needs: seq<Descriptor>, grants: set<string>)
    ensures Register(s, e.owner, e.generation, e.offers, needs, grants).Ok? <==>
              && ValidProviderId(e.owner) && e.owner !in s.registrations && e.generation > 0 && s.nextEpoch != MAX_EPOCH
              && DistinctKeys(e.offers) && forall d | d in e.offers :: KeyOf(d) !in s.providers
  {
    if FirstConflict(s.providers, e.owner, e.offers, {}).None? {
      NoConflictMeansFresh(s.providers, e.owner, e.offers, {});
    } else if DistinctKeys(e.offers) && forall d | d in e.offers :: KeyOf(d) !in s.providers {
      FreshMeansNoConflict(s.providers, e.owner, e.offers, {});
    }
  }

  lemma RegisteredKeys(s: State, e: Item, needs: seq<Descriptor>, grants: set<string>)
    requires Register(s, e.owner, e.generation, e.offers, needs, grants).Ok?
    ensures Register(s, e.owner, e.generation, e.offers, needs, grants).value.providers.Keys == s.providers.Keys + KeySet(e.offers)
  {
    NoConflictMeansFresh(s.providers, e.owner, e.offers, {});
    IndexFacts(s.providers, e.owner, e.generation, s.nextEpoch + 1, e.offers);
    var t := Index(s.providers, e.owner, e.generation, s.nextEpoch + 1, e.offers);
    forall k | k in s.providers.Keys + KeySet(e.offers) ensures k in t {
      if k in KeySet(e.offers) { var d :| d in e.offers && KeyOf(d) == k; }
    }
  }

  lemma LedgerGrows(root: Id, base: seq<Descriptor>, s: State, t: State, items: seq<Item>, e: Item)
    requires Ledger(root, base, s, items) && Registrable(root, base, items + [e]) && WellFormed(t)
    requires t.registrations.Keys == s.registrations.Keys + {e.owner} && t.nextEpoch == s.nextEpoch + 1
    requires t.providers.Keys == s.providers.Keys + KeySet(e.offers)
    ensures Ledger(root, base, t, items + [e])
  {
    OwnersMore(items, e);
    KeysMore(base, items, e);
  }

  /** One more entry is registered exactly if the list with it is registrable. */
  lemma RegisterFits(root: Id, base: seq<Descriptor>, s: State, items: seq<Item>, e: Item, needs: seq<Descriptor>, grants: set<string>)
    requires Ledger(root, base, s, items) && ValidProviderId(e.owner)
    ensures var r := Register(s, e.owner, e.generation, e.offers, needs, grants);
            && (r.Ok? <==> Registrable(root, base, items + [e]))
            && (r.Ok? ==> Ledger(root, base, r.value, items + [e]))
  {
    RegistrableMore(root, base, items, e);
    RegisterOkIff(s, e, needs, grants);
    var r := Register(s, e.owner, e.generation, e.offers, needs, grants);
    if r.Ok? {
      RegisterKeepsWellFormed(s, e.owner, e.generation, e.offers, needs, grants);
      RegisteredKeys(s, e, needs, grants);
      LedgerGrows(root, base, s, r.value, items, e);
    }
  }

  // ----- one plugin

  /** The graph so far, with its launch owner. */
  ghost predicate Built(root: Id, base: seq<Descriptor>, g: Partial, done: seq<Plugin>) {
    && Ledger(root, base, g.state, AllItems(done))
    && Launched(g.launch, done)
  }

  lemma ValidOwners(p: Plugin)
    requires ValidUnqualified(p.id)
    ensures ValidProviderId(p.id) && ValidProviderId(HostId(p.id))
  {
    HostIdFacts(p.id);
  }

  lemma HostFits(root: Id, base: seq<Descriptor>, g: Partial, items: seq<Item>, p: Plugin)
    requires Ledger(root, base, g.state, items) && ValidUnqualified(p.id) && p.host.Some?
    ensures var e := Item(HostId(p.id), p.generation, WithoutLaunch(p.HostOffers()));
            var n := multiset(p.HostOffers())[LAUNCH];
            && (AddHost(g, p).Ok? <==> Registrable(root, base, items + [e]) && n + (if g.launch.Some? then 1 else 0) <= 1)
            && (AddHost(g, p).Ok? ==>
                  Ledger(root, base, AddHost(g, p).value.state, items + [e])
                  && AddHost(g, p).value.launch == if n > 0 then Some(HostId(p.id)) else g.launch)
  {
    ValidOwners(p);
    CountedLaunches(p.HostOffers());
    RegisterFits(root, base, g.state, items, Item(HostId(p.id), p.generation, WithoutLaunch(p.HostOffers())), p.HostNeeds(), p.permissions);
  }

  lemma RendererFits(root: Id, base: seq<Descriptor>, g: Partial, items: seq<Item>, p: Plugin)
    requires Ledger(root, base, g.state, items) && ValidUnqualified(p.id) && p.renderer
    ensures var e := Item(p.id, p.generation, p.offers);
            && (AddRenderer(g, p).Ok? <==> Registrable(root, base, items + [e]))
            && (AddRenderer(g, p).Ok? ==>
                  Ledger(root, base, AddRenderer(g, p).value.state, items + [e]) && AddRenderer(g, p).value.launch == g.launch)
  {
    RegisterFits(root, base, g.state, items, Item(p.id, p.generation, p.offers), p.RendererNeeds(), p.permissions);
  }

  /** Both entries of a plugin are added exactly if the list with them is registrable and the launch offer stays single. */
  lemma PluginFits(root: Id, base: seq<Descriptor>, g: Partial, items: seq<Item>, p: Plugin)
    requires Ledger(root, base, g.state, items) && ValidUnqualified(p.id)
    ensures var n := multiset(p.HostOffers())[LAUNCH];
            && (AddPlugin(g, p).Ok? <==> Registrable(root, base, items + ItemsOf(p)) && n + (if n > 0 && g.launch.Some? then 1 else 0) <= 1)
            && (AddPlugin(g, p).Ok? ==>
                  Ledger(root, base, AddPlugin(g, p).value.state, items + ItemsOf(p))
                  && AddPlugin(g, p).value.launch == if n > 0 then Some(HostId(p.id)) else g.launch)
  {
    var host := if p.host.Some? then [Item(HostId(p.id), p.generation, WithoutLaunch(p.HostOffers()))] else [];
    var rest := if p.renderer then [Item(p.id, p.generation, p.offers)] else [];
    assert items + ItemsOf(p) == (items + host) + rest;
    if p.host.Some? { HostFits(root, base, g, items, p); } else { assert items + host == items; }
    if AddHost(g, p).Ok? {
      var h := AddHost(g, p).value;
      if p.renderer { RendererFits(root, base, h, items + host, p); } else { assert (items + host) + rest == items + host; }
    }
    if Registrable(root, base, (items + host) + rest) { RegistrablePrefix(root, base, items + host, rest); }
  }

  lemma AllMore(done: seq<Plugin>, p: Plugin)
    ensures AllItems(done + [p]) == AllItems(done) + ItemsOf(p)
    ensures AllHostOffers(done + [p]) == AllHostOffers(done) + p.HostOffers()
    ensures multiset(AllHostOffers(done + [p]))[LAUNCH] == multiset(AllHostOffers(done))[LAUNCH] + multiset(p.HostOffers())[LAUNCH]
  {
    assert (done + [p])[..|done|] == done;
  }

  /** Who owns the launch offer so far. */
  ghost predicate Launched(launch: Option<Id>, done: seq<Plugin>) {
    && multiset(AllHostOffers(done))[LAUNCH] == (if launch.Some? then 1 else 0)
    && (launch.Some? ==> exists q :: q in done && LAUNCH in q.HostOffers() && launch.value == HostId(q.id))
  }

  lemma LaunchedMore(launch: Option<Id>, done: seq<Plugin>, p: Plugin)
    requires Launched(launch, done)
    ensures var n := multiset(p.HostOffers())[LAUNCH];
            && (multiset(AllHostOffers(done + [p]))[LAUNCH] <= 1 <==> n + (if n > 0 && launch.Some? then 1 else 0) <= 1)
            && (n + (if n > 0 && launch.Some? then 1 else 0) <= 1 ==>
                  Launched(if n > 0 then Some(HostId(p.id)) else launch, done + [p]))
  {
    AllMore(done, p);
    assert forall q :: q in done + [p] <==> q in done || q == p;
  }

  lemma AddOne(root: Id, base: seq<Descriptor>, g: Partial, done: seq<Plugin>, p: Plugin)
    requires Built(root, base, g, done) && ValidUnqualified(p.id)
    ensures AddPlugin(g, p).Ok? <==> Registrable(root, base, AllItems(done + [p])) && multiset(AllHostOffers(done + [p]))[LAUNCH] <= 1
    ensures AddPlugin(g, p).Ok? ==> Built(root, base, AddPlugin(g, p).value, done + [p])
  {
    AllMore(done, p);
    LaunchedMore(g.launch, done, p);
    PluginFits(root, base, g, AllItems(done), p);
  }

  lemma {:induction false} AddPluginsThen(g: Partial, done: seq<Plugin>, p: Plugin)
    ensures AddPlugins(g, done + [p]) ==
              match AddPlugins(g, done) case Ok(m) => AddPlugin(m, p) case Err(e) => Err(e)
    decreases |done|
  {
    if done == [] {
      assert [] + [p] == [p] && [p][1..] == [];
      assert AddPlugins(g, [p]) == match AddPlugin(g, p) case Err(e) => Err(e) case Ok(next) => AddPlugins(next, []);
    } else {
      assert (done + [p])[1..] == done[1..] + [p] && (done + [p])[0] == done[0];
      if AddPlugin(g, done[0]).Ok? { AddPluginsThen(AddPlugin(g, done[0]).value, done[1..], p); }
    }
  }

  lemma StartLedger(root: Id, base: seq<Descriptor>, s: State)
    requires WellFormed(s) && s.registrations.Keys == {root} && s.providers.Keys == KeySet(base) && s.nextEpoch == 1
    requires DistinctKeys(base)
    ensures Built(root, base, Partial(s, None), [])
  {
    assert base + [] == base;
  }

  lemma StartIsBuilt(registryId: nat)
    ensures WithBuiltin(registryId).Ok? && Built(BUILTIN, BuiltinOffers(), Partial(WithBuiltin(registryId).value, None), [])
  {
    BuiltinKeysAreDistinct();
    assert ValidUnqualified(BUILTIN);
    FirstIsBuilt(registryId, BUILTIN, BuiltinOffers());
  }

  lemma FirstIsBuilt(registryId: nat, root: Id, base: seq<Descriptor>)
    requires ValidUnqualified(root) && DistinctKeys(base)
    ensures var r := Register(Empty(registryId), root, 1, base, [], {});
            r.Ok? && Built(root, base, Partial(r.value, None), [])
  {
    FirstEntry(registryId, root, base);
    RegisteredKeys(Empty(registryId), Item(root, 1, base), [], {});
    StartLedger(root, base, Register(Empty(registryId), root, 1, base, [], {}).value);
  }

  lemma FewerFit(root: Id, base: seq<Descriptor>, done: seq<Plugin>, p: Plugin)
    requires Registrable(root, base, AllItems(done + [p])) && multiset(AllHostOffers(done + [p]))[LAUNCH] <= 1
    ensures Registrable(root, base, AllItems(done)) && multiset(AllHostOffers(done))[LAUNCH] <= 1
  {
    AllMore(done, p);
    RegistrablePrefix(root, base, AllItems(done), ItemsOf(p));
  }

  lemma {:induction false} AddAllFrom(root: Id, base: seq<Descriptor>, g: Partial, plugins: seq<Plugin>)
    requires Built(root, base, g, []) && Parsed(plugins)
    ensures var r := AddPlugins(g, plugins);
            && (r.Ok? <==> Registrable(root, base, AllItems(plugins)) && multiset(AllHostOffers(plugins))[LAUNCH] <= 1)
            && (r.Ok? ==> Built(root, base, r.value, plugins))
    decreases |plugins|
  {
    if plugins != [] {
      var n := |plugins| - 1;
      var done, p := plugins[..n], plugins[n];
      assert plugins == done + [p] && p in plugins;
      assert Parsed(done);
      AddAllFrom(root, base, g, done);
      AddPluginsThen(g, done, p);
      if AddPlugins(g, done).Ok? {
        AddOne(root, base, AddPlugins(g, done).value, done, p);
      } else if Registrable(root, base, AllItems(plugins)) && multiset(AllHostOffers(plugins))[LAUNCH] <= 1 {
        FewerFit(root, base, done, p);
      }
    }
  }

  /** Adding all plugins succeeds exactly if the whole set is buildable. */
  lemma AddAll(registryId: nat, plugins: seq<Plugin>)
    requires Parsed(plugins)
    ensures WithBuiltin(registryId).Ok?
    ensures var r := AddPlugins(Partial(WithBuiltin(registryId).value, None), plugins);
            (r.Ok? <==> Buildable(plugins)) && (r.Ok? ==> Built(BUILTIN, BuiltinOffers(), r.value, plugins))
  {
    StartIsBuilt(registryId);
    AddAllFrom(BUILTIN, BuiltinOffers(), Partial(WithBuiltin(registryId).value, None), plugins);
  }

  /**
   * A set of plugins builds a graph exactly if its entries have distinct new owners and positive
   * generations, no two offers name the same ability, built-in ones included, and all hosts together
   * offer the launch ability at most once.
   */
  lemma CapabilityGraphIsExact(registryId: nat, plugins: seq<Plugin>)
    requires Parsed(plugins)
    ensures CapabilityGraph(registryId, plugins).Ok? <==> Buildable(plugins)
  {
    AddAll(registryId, plugins);
    if Buildable(plugins) { var s := CapabilityGraphJoined(registryId, plugins); }
  }

  // ----- the launch conflict

  lemma {:induction false} FaultStays(g: Partial, done: seq<Plugin>, plugins: seq<Plugin>)
    requires AddPlugins(g, done).Err?
    ensures AddPlugins(g, done + plugins) == AddPlugins(g, done)
    decreases |done|
  {
    assert (done + plugins)[0] == done[0] && (done + plugins)[1..] == done[1..] + plugins;
    if AddPlugin(g, done[0]).Ok? { FaultStays(AddPlugin(g, done[0]).value, done[1..], plugins); }
  }

  /** The set with a plugin whose host is second to offer the launch ability is refused, naming both owners. */
  lemma LaunchConflictIsNamed(registryId: nat, done: seq<Plugin>, q: Plugin, p: Plugin, later: seq<Plugin>)
    requires Parsed(done + [p]) && Buildable(done)
    requires q in done && LAUNCH in q.HostOffers() && LAUNCH in p.HostOffers()
    ensures CapabilityGraph(registryId, done + [p] + later)
            == Err(CapabilityConflict(Key("codlet.client.launch", RuntimeScope), HostId(q.id), HostId(p.id)))
  {
    assert Parsed(done) by { assert forall x | x in done :: x in done + [p]; }
    AddAll(registryId, done);
    var g := Partial(WithBuiltin(registryId).value, None);
    var m := AddPlugins(g, done).value;
    OneLauncher(done, q);
    CountedLaunches(p.HostOffers());
    AddPluginsThen(g, done, p);
    FaultStays(g, done + [p], later);
  }

  /** A host that offers it twice is refused on its own. */
  lemma DoubleLaunchIsNamed(registryId: nat, done: seq<Plugin>, p: Plugin, later: seq<Plugin>)
    requires Parsed(done + [p]) && Buildable(done)
    requires multiset(AllHostOffers(done))[LAUNCH] == 0 && multiset(p.HostOffers())[LAUNCH] > 1
    ensures CapabilityGraph(registryId, done + [p] + later)
            == Err(CapabilityConflict(Key("codlet.client.launch", RuntimeScope), HostId(p.id), HostId(p.id)))
  {
    assert Parsed(done) by { assert forall x | x in done :: x in done + [p]; }
    AddAll(registryId, done);
    var g := Partial(WithBuiltin(registryId).value, None);
    CountedLaunches(p.HostOffers());
    AddPluginsThen(g, done, p);
    FaultStays(g, done + [p], later);
  }

  lemma {:induction false} LaunchersCounted(done: seq<Plugin>, q: Plugin)
    requires q in done && LAUNCH in q.HostOffers()
    ensures multiset(AllHostOffers(done))[LAUNCH] >= 1
    ensures forall r | r in done && r != q && LAUNCH in r.HostOffers() :: multiset(AllHostOffers(done))[LAUNCH] >= 2
    decreases |done|
  {
    var n := |done| - 1;
    assert done == done[..n] + [done[n]];
    AllMore(done[..n], done[n]);
    if q in done[..n] { LaunchersCounted(done[..n], q); }
    forall r | r in done && r != q && LAUNCH in r.HostOffers() ensures multiset(AllHostOffers(done))[LAUNCH] >= 2 {
      if r in done[..n] { LaunchersCounted(done[..n], r); }
    }
  }

  lemma OneLauncher(done: seq<Plugin>, q: Plugin)
    requires q in done && LAUNCH in q.HostOffers() && multiset(AllHostOffers(done))[LAUNCH] <= 1
    ensures multiset(AllHostOffers(done))[LAUNCH] == 1
    ensures forall r | r in done && LAUNCH in r.HostOffers() :: r == q
  {
    LaunchersCounted(done, q);
  }

  // ----- whose lists are whose

  /** With a renderer the top-level lists are the renderer's and the host brings its own; alone, the host has them. */
  lemma ListsBelong(p: Plugin)
    ensures p.renderer ==> p.RendererOffers() == p.offers && p.RendererNeeds() == p.needs
    ensures !p.renderer ==> p.RendererOffers() == [] && p.RendererNeeds() == []
    ensures p.host.Some? && p.renderer ==> p.HostOffers() == p.host.value.offers && p.HostNeeds() == p.host.value.needs
    ensures p.host.Some? && !p.renderer ==> p.HostOffers() == p.offers && p.HostNeeds() == p.needs
    ensures p.host.None? ==> p.HostOffers() == [] && p.HostNeeds() == []
  {}

  /** A renderer waits for its host exactly when the host has more to do than offer the launch ability. */
  lemma HostIsAwaitedIff(registryId: nat, plugins: seq<Plugin>, e: Id)
    requires Parsed(plugins) && CapabilityGraph(registryId, plugins).Ok?
    ensures var s := CapabilityGraph(registryId, plugins).value;
            e in s.registrations ==>
              s.registrations[e].dependencies ==
                if exists p :: p in plugins && p.id == e && p.renderer && p.host.Some? && !(p.host.value.needs == [] && p.host.value.offers == [LAUNCH])
                then {HostId(e)} else {}
  {
    CapabilityGraphMirrors(registryId, plugins);
  }
}
