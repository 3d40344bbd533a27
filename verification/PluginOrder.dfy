/** Projecting the order of entries back to an order of plugins. */
module PluginOrders {
  import opened Results
  import opened Ids
  import opened Graphs
  import opened Capabilities
  import opened Activation
  import opened Placement
  import opened PluginGraphs
  import opened GraphBuilding
  import opened Lifecycle

  function ById(plugins: seq<Plugin>): map<Id, Plugin> {
    if plugins == [] then map[]
    else ById(plugins[..|plugins| - 1])[plugins[|plugins| - 1].id := plugins[|plugins| - 1]]
  }

  /** The plugin an entry brings in, among those not brought in yet. */
  function Claim(entry: Id, byId: map<Id, Plugin>): Option<Id> {
    match HostPluginId(entry)
    case Some(p) => if p in byId && !byId[p].renderer then Some(p) else None
    case None => if entry in byId then Some(entry) else None
  }

  function Emit(order: seq<Id>, byId: map<Id, Plugin>): seq<Plugin> {
    if order == [] then []
    else
      match Claim(order[0], byId)
      case Some(p) => [byId[p]] + Emit(order[1..], byId - {p})
      case None => Emit(order[1..], byId)
  }

  /** The result is the projection of the registry's activation order. */
  ghost predicate OrderedPlugins(registryId: nat, plugins: seq<Plugin>, result: seq<Plugin>) {
    && CapabilityGraph(registryId, plugins).Ok?
    && exists order :: && IsActivationOrder(CapabilityGraph(registryId, plugins).value, order)
                       && result == Emit(order, ById(plugins))
  }

  method IndexPlugins(plugins: seq<Plugin>) returns (byId: map<Id, Plugin>)
    ensures byId == ById(plugins)
  {
    byId := map[];
    for i := 0 to |plugins|
      invariant byId == ById(plugins[..i])
    {
      assert plugins[..i + 1][..i] == plugins[..i];
      byId := byId[plugins[i].id := plugins[i]];
    }
    assert plugins[..|plugins|] == plugins;
  }

  /** Succeeds exactly on sets that build a graph and whose graph resolves. */
  method Order(registryId: nat, plugins: seq<Plugin>) returns (r: Result<seq<Plugin>, RegistryError>)
    requires Parsed(plugins)
    ensures r.Ok? <==> Resolves(registryId, plugins)
    ensures r.Ok? ==> Buildable(plugins)
    ensures match CapabilityGraph(registryId, plugins)
            case Err(e) => r == Err(e)
            case Ok(s) => r.Err? ==> if r.error.DependencyCycle? then IsCycle(GraphOf(s), r.error.providers) else FirstFault(s, r.error)
    ensures r.Ok? ==> OrderedPlugins(registryId, plugins, r.value)
  {
    CapabilityGraphIsExact(registryId, plugins);
    var fault, graph := BuildCapabilityGraph(registryId, plugins);
    if fault.Some? { return Err(fault.value); }
    CapabilityGraphMirrors(registryId, plugins);
    var resolved := graph.ResolveActivationOrder();
    if resolved.Err? { return Err(resolved.error); }
    var byId := IndexPlugins(plugins);
    var result := Drain(resolved.value, byId);
    r := Ok(result);
  }

  method Drain(order: seq<Id>, plugins: map<Id, Plugin>) returns (result: seq<Plugin>)
    ensures result == Emit(order, plugins)
  {
    result := [];
    var byId := plugins;
    var i := 0;
    while i < |order|
      invariant 0 <= i <= |order|
      invariant Emit(order, plugins) == result + Emit(order[i..], byId)
    {
      assert order[i..][1..] == order[i + 1..];
      var claimed := Claim(order[i], byId);
      if claimed.Some? {
        result := result + [byId[claimed.value]];
        byId := byId - {claimed.value};
      }
      i := i + 1;
    }
  }

  // ----- which entries claim a plugin

  ghost predicate DistinctIds(plugins: seq<Plugin>) {
    forall i, j | 0 <= i < j < |plugins| :: plugins[i].id != plugins[j].id
  }

  ghost predicate Claims(entry: Id, p: Plugin) {
    entry == p.id || (!p.renderer && entry == HostId(p.id))
  }

  ghost predicate Keyed(byId: map<Id, Plugin>) {
    forall id | id in byId :: byId[id].id == id && ValidUnqualified(id)
  }

  lemma ClaimMeans(entry: Id, byId: map<Id, Plugin>, p: Plugin)
    requires Keyed(byId) && p.id in byId && byId[p.id] == p
    ensures Claim(entry, byId) == Some(p.id) <==> Claims(entry, p)
  {
    HostIdFacts(p.id);
    if entry == HostId(p.id) { assert HostPluginId(entry) == Some(p.id); }
  }

  lemma {:induction false} ByIdFacts(plugins: seq<Plugin>)
    requires Parsed(plugins) && DistinctIds(plugins)
    ensures Keyed(ById(plugins))
    ensures forall p | p in plugins :: p.id in ById(plugins) && ById(plugins)[p.id] == p
    ensures forall id | id in ById(plugins) :: ById(plugins)[id] in plugins
  {
    if plugins != [] {
      var n := |plugins| - 1;
      ByIdFacts(plugins[..n]);
      assert plugins[n] in plugins;
      forall p | p in plugins ensures p.id in ById(plugins) && ById(plugins)[p.id] == p {
        if p != plugins[n] { assert p in plugins[..n]; }
      }
    }
  }

  // ----- each plugin exactly once

  lemma {:induction false} EmitMembers(order: seq<Id>, byId: map<Id, Plugin>)
    requires Keyed(byId)
    ensures DistinctIds(Emit(order, byId))
    ensures forall p :: p in Emit(order, byId) <==>
              p.id in byId && byId[p.id] == p && exists e :: e in order && Claims(e, p)
  {
    if order != [] {
      var rest := order[1..];
      forall p ensures (exists e :: e in order && Claims(e, p)) <==> Claims(order[0], p) || exists e :: e in rest && Claims(e, p) {
        assert forall e :: e in order <==> e == order[0] || e in rest;
      }
      forall p: Plugin | p.id in byId && byId[p.id] == p { ClaimMeans(order[0], byId, p); }
      match Claim(order[0], byId)
      case Some(id) =>
        EmitMembers(rest, byId - {id});
        EmitCons(byId[id], Emit(rest, byId - {id}), Emit(order, byId));
      case None =>
        EmitMembers(rest, byId);
    }
  }

  lemma EmitCons(p: Plugin, tail: seq<Plugin>, all: seq<Plugin>)
    requires all == [p] + tail && DistinctIds(tail) && forall q | q in tail :: q.id != p.id
    ensures DistinctIds(all) && forall q :: q in all <==> q == p || q in tail
  {
    forall i, j | 0 <= i < j < |all| ensures all[i].id != all[j].id {
      assert all[j] == tail[j - 1] && tail[j - 1] in tail;
    }
  }

  /** Every plugin has an entry in the order, and nobody appears twice. */
  lemma EachPluginOnce(registryId: nat, plugins: seq<Plugin>, result: seq<Plugin>)
    requires Parsed(plugins) && DistinctIds(plugins) && OrderedPlugins(registryId, plugins, result)
    ensures DistinctIds(result) && forall p :: p in result <==> p in plugins
  {
    var s := CapabilityGraph(registryId, plugins).value;
    var order :| IsActivationOrder(s, order) && result == Emit(order, ById(plugins));
    CapabilityGraphMirrors(registryId, plugins);
    ByIdFacts(plugins);
    EmitMembers(order, ById(plugins));
    forall p | p in plugins ensures exists e :: e in order && Claims(e, p) {
      assert Present(s, p);
      var e := if p.renderer then p.id else HostId(p.id);
      assert e in Elements(order);
      assert Claims(e, p);
    }
  }

  // ----- who comes first

  /** Some entry claims `p` before any entry claims `q`. */
  ghost predicate ClaimedBefore(order: seq<Id>, p: Plugin, q: Plugin) {
    exists i :: 0 <= i < |order| && Claims(order[i], p) && forall k | 0 <= k <= i :: !Claims(order[k], q)
  }

  ghost predicate Precedes(result: seq<Plugin>, p: Plugin, q: Plugin) {
    forall i, j | 0 <= i < |result| && 0 <= j < |result| && result[i] == p && result[j] == q :: i < j
  }

  lemma {:induction false} EmitPrecedes(order: seq<Id>, byId: map<Id, Plugin>, p: Plugin, q: Plugin)
    requires Keyed(byId) && p.id in byId && byId[p.id] == p && q.id in byId && byId[q.id] == q && p.id != q.id
    requires ClaimedBefore(order, p, q)
    ensures Precedes(Emit(order, byId), p, q)
  {
    var i :| 0 <= i < |order| && Claims(order[i], p) && forall k | 0 <= k <= i :: !Claims(order[k], q);
    var rest := order[1..];
    ClaimMeans(order[0], byId, p);
    ClaimMeans(order[0], byId, q);
    if Claims(order[0], p) {
      EmitMembers(rest, byId - {p.id});
      assert Emit(order, byId) == [p] + Emit(rest, byId - {p.id});
      assert p !in Emit(rest, byId - {p.id});
    } else {
      assert Claims(rest[i - 1], p) && forall k | 0 <= k <= i - 1 :: rest[k] == order[k + 1];
      assert ClaimedBefore(rest, p, q);
      match Claim(order[0], byId)
      case Some(x) =>
        EmitPrecedes(rest, byId - {x}, p, q);
        assert Emit(order, byId) == [byId[x]] + Emit(rest, byId - {x});
      case None =>
        EmitPrecedes(rest, byId, p, q);
    }
  }

  /** The edge from the entry offering `d` to an entry needing it. */
  lemma OfferEdge(s: State, e: Id, c: Id, d: Descriptor)
    requires WellFormed(s) && e in s.registrations && c in s.registrations
    requires d in s.registrations[e].offers && d in s.registrations[c].needs
    ensures Edge(GraphOf(s), e, c)
  {
    assert Indexed(s, e, d);
    assert s.providers[KeyOf(d)].provider == e;
  }

  lemma EdgePositions(s: State, order: seq<Id>, e: Id, c: Id) returns (i: nat, j: nat)
    requires IsActivationOrder(s, order) && Edge(GraphOf(s), e, c)
    ensures i < j < |order| && order[i] == e && order[j] == c
  {
    assert e in Elements(order) && c in Elements(order);
    i :| 0 <= i < |order| && order[i] == e;
    j :| 0 <= j < |order| && order[j] == c;
    assert Edge(GraphOf(s), order[i], order[j]);
  }

  /** The renderer entry of a combined plugin comes after its host entry. */
  lemma HostEntryFirst(s: State, plugins: seq<Plugin>, order: seq<Id>, q: Plugin, j: nat)
    requires Mirrors(s, plugins) && Parsed(plugins) && DistinctIds(plugins) && IsActivationOrder(s, order)
    requires forall e | e in s.registrations :: s.registrations[e].dependencies == HostLinks(plugins, e)
    requires q in plugins && q.renderer && q.HasRuntimeHost() && j < |order| && order[j] == HostId(q.id)
    ensures forall k | 0 <= k <= j :: order[k] != q.id
  {
    assert Present(s, q);
    assert HostId(q.id) in s.registrations[q.id].dependencies;
    var a, b := EdgePositions(s, order, HostId(q.id), q.id);
  }

  /** No claim on `q` comes up to the entry it needs something at. */
  lemma ClaimsComeLater(s: State, plugins: seq<Plugin>, order: seq<Id>, q: Plugin, d: Descriptor, j: nat)
    requires Mirrors(s, plugins) && Parsed(plugins) && DistinctIds(plugins) && IsActivationOrder(s, order)
    requires forall e | e in s.registrations :: s.registrations[e].dependencies == HostLinks(plugins, e)
    requires q in plugins && q.id != BUILTIN && d in q.AllNeeds()
    requires j < |order| && order[j] == if d in q.RendererNeeds() then q.id else HostId(q.id)
    ensures forall k | 0 <= k < j :: !Claims(order[k], q)
  {
    EntryOwners(q.id);
    if q.renderer {
      if d !in q.RendererNeeds() { HostEntryFirst(s, plugins, order, q, j); }
    } else {
      HostOnlyIdIsNoEntry(s, plugins, q);
      forall k | 0 <= k < j ensures order[k] != q.id { assert order[k] in Elements(order); }
    }
  }

  lemma SameIdSamePlugin(plugins: seq<Plugin>, x: Plugin, y: Plugin)
    requires DistinctIds(plugins) && x in plugins && y in plugins && x.id == y.id
    ensures x == y
  {
    var a :| 0 <= a < |plugins| && plugins[a] == x;
    var b :| 0 <= b < |plugins| && plugins[b] == y;
  }

  /** A host-only plugin's own id names no entry, unless it is the built-in one. */
  lemma HostOnlyIdIsNoEntry(s: State, plugins: seq<Plugin>, q: Plugin)
    requires Mirrors(s, plugins) && Parsed(plugins) && DistinctIds(plugins)
    requires q in plugins && !q.renderer && q.id != BUILTIN
    ensures q.id !in s.registrations
  {
    forall x, r | x in plugins ensures !Declares(x, q.id, r) {
      HostIdIsQualified(x.id);
      if x.id == q.id { SameIdSamePlugin(plugins, x, q); }
    }
    assert q.id in s.registrations ==> Declared(s, plugins, q.id);
  }

  lemma ProviderClaimedFirst(s: State, plugins: seq<Plugin>, order: seq<Id>, p: Plugin, q: Plugin, d: Descriptor)
    requires Mirrors(s, plugins) && Parsed(plugins) && DistinctIds(plugins) && IsActivationOrder(s, order)
    requires forall e | e in s.registrations :: s.registrations[e].dependencies == HostLinks(plugins, e)
    requires p in plugins && q in plugins && p.id != q.id && q.id != BUILTIN
    requires d in q.AllNeeds()
    requires d in p.RendererOffers() || (!p.renderer && d in p.RuntimeHostOffers())
    ensures ClaimedBefore(order, p, q)
  {
    assert Present(s, p) && Present(s, q);
    var e := if d in p.RendererOffers() then p.id else HostId(p.id);
    var c := NeedIsDeclared(s, q, d);
    OfferEdge(s, e, c, d);
    var i, j := EdgePositions(s, order, e, c);
    ClaimsComeLater(s, plugins, order, q, d, j);
    assert Claims(order[i], p);
  }

  // ----- the entry that decides a plugin's place

  /** The built-in entry waits for nothing, so it precedes every greater entry. */
  lemma BuiltinPrecedes(s: State, plugins: seq<Plugin>, order: seq<Id>) returns (i: nat)
    requires Mirrors(s, plugins) && IsActivationOrder(s, order)
    requires s.registrations[BUILTIN].dependencies == {}
    ensures i < |order| && order[i] == BUILTIN
    ensures forall j | 0 <= j < |order| && Less(BUILTIN, order[j]) :: i < j
  {
    assert BUILTIN in Elements(order);
    i :| 0 <= i < |order| && order[i] == BUILTIN;
    assert ProvidersOf(s, BUILTIN) == {};
    SourceGoesEarly(GraphOf(s), order, i);
  }

  /** The entry at which a plugin is emitted; the built-in entry stands in for a plugin of its id. */
  function Home(p: Plugin): Id {
    if p.renderer || p.id == BUILTIN then p.id else HostId(p.id)
  }

  lemma HomeIsPlaced(s: State, plugins: seq<Plugin>, order: seq<Id>, p: Plugin) returns (i: nat)
    requires Mirrors(s, plugins) && IsActivationOrder(s, order) && p in plugins && Parsed(plugins)
    ensures i < |order| && order[i] == Home(p) && Claims(order[i], p)
  {
    assert Present(s, p);
    assert Home(p) in Elements(order);
    i :| 0 <= i < |order| && order[i] == Home(p);
  }

  /** Nothing claims a plugin before its home entry does. */
  lemma HomeClaimsFirst(s: State, plugins: seq<Plugin>, order: seq<Id>, q: Plugin, j: nat)
    requires Mirrors(s, plugins) && Parsed(plugins) && DistinctIds(plugins) && IsActivationOrder(s, order)
    requires s.registrations[BUILTIN].dependencies == {}
    requires q in plugins && j < |order| && order[j] == Home(q)
    ensures forall k | 0 <= k < j :: !Claims(order[k], q)
  {
    if !q.renderer {
      if q.id == BUILTIN {
        var i := BuiltinPrecedes(s, plugins, order);
        BuiltinHostIsGreater();
      } else {
        HostOnlyIdIsNoEntry(s, plugins, q);
        forall k | 0 <= k < j ensures order[k] != q.id { assert order[k] in Elements(order); }
      }
    }
  }

  lemma BuiltinHostIsGreater()
    ensures Less(BUILTIN, HostId(BUILTIN))
  {
    HostIdFacts(BUILTIN);
  }

  lemma HomesDiffer(p: Plugin, q: Plugin)
    requires ValidUnqualified(p.id) && ValidUnqualified(q.id) && p.id != q.id
    ensures Home(p) != Home(q)
  {
    HostIdIsQualified(p.id);
    HostIdIsQualified(q.id);
    HostIdInjective(p.id, q.id);
  }

  /** What the graph of a plugin set says about the built-in entry. */
  lemma BuiltinIsSource(s: State, plugins: seq<Plugin>)
    requires Mirrors(s, plugins) && Parsed(plugins)
    requires forall e | e in s.registrations :: s.registrations[e].dependencies == HostLinks(plugins, e)
    ensures s.registrations[BUILTIN].dependencies == {} && ProvidersOf(s, BUILTIN) == {}
    ensures forall p | p in GraphOf(s) :: BUILTIN !in GraphOf(s)[p]
  {
    forall x | x in plugins && x.id == BUILTIN ensures !x.renderer { assert Present(s, x); }
    assert HostLinks(plugins, BUILTIN) == {};
  }

  lemma NotBoth(result: seq<Plugin>, p: Plugin, q: Plugin)
    requires p in result && q in result && p != q && Precedes(result, q, p)
    ensures !Precedes(result, p, q)
  {
    var i :| 0 <= i < |result| && result[i] == p;
    var j :| 0 <= j < |result| && result[j] == q;
    assert j < i;
  }

  /** The plugins stand in the order of their home entries. */
  lemma HomesDecide(s: State, plugins: seq<Plugin>, order: seq<Id>, p: Plugin, q: Plugin, i: nat, j: nat)
    requires Mirrors(s, plugins) && Parsed(plugins) && DistinctIds(plugins) && IsActivationOrder(s, order)
    requires s.registrations[BUILTIN].dependencies == {}
    requires p in plugins && q in plugins && p.id != q.id
    requires i < |order| && order[i] == Home(p) && Claims(order[i], p) && j < |order| && order[j] == Home(q)
    requires i < j
    ensures Precedes(Emit(order, ById(plugins)), p, q)
  {
    HomeClaimsFirst(s, plugins, order, q, j);
    assert ClaimedBefore(order, p, q);
    ByIdFacts(plugins);
    EmitPrecedes(order, ById(plugins), p, q);
  }

  lemma PlacedByHomes(registryId: nat, plugins: seq<Plugin>, result: seq<Plugin>, order: seq<Id>, p: Plugin, q: Plugin)
    returns (i: nat, j: nat)
    requires Parsed(plugins) && DistinctIds(plugins) && OrderedPlugins(registryId, plugins, result)
    requires IsActivationOrder(CapabilityGraph(registryId, plugins).value, order) && result == Emit(order, ById(plugins))
    requires p in plugins && q in plugins && p.id != q.id
    ensures i < |order| && order[i] == Home(p) && j < |order| && order[j] == Home(q)
    ensures Precedes(result, p, q) <==> i < j
  {
    CapabilityGraphMirrors(registryId, plugins);
    var s := CapabilityGraph(registryId, plugins).value;
    BuiltinIsSource(s, plugins);
    i := HomeIsPlaced(s, plugins, order, p);
    j := HomeIsPlaced(s, plugins, order, q);
    HomesDiffer(p, q);
    if i < j {
      HomesDecide(s, plugins, order, p, q, i, j);
    } else {
      HomesDecide(s, plugins, order, q, p, j, i);
      EachPluginOnce(registryId, plugins, result);
      NotBoth(result, p, q);
    }
  }

  // ----- the main results

  /**
   * Of any two plugins exactly which comes first, told from the graph: `p` precedes `q` if and only
   * if everything `p`'s home entry waits for is less than `q`'s, or goes no later than something
   * `q`'s waits for.
   */
  lemma PlacementIsExactFor(registryId: nat, plugins: seq<Plugin>, result: seq<Plugin>, p: Plugin, q: Plugin)
    requires Parsed(plugins) && DistinctIds(plugins) && OrderedPlugins(registryId, plugins, result)
    requires p in plugins && q in plugins && p.id != q.id
    ensures var g := GraphOf(CapabilityGraph(registryId, plugins).value);
            Precedes(result, p, q) <==> GoesFirst(g, Home(p), Home(q))
  {
    var s := CapabilityGraph(registryId, plugins).value;
    var order :| IsActivationOrder(s, order) && result == Emit(order, ById(plugins));
    var i, j := PlacedByHomes(registryId, plugins, result, order, p, q);
    GraphOfIsClosed(s);
    PlacementIsExact(GraphOf(s), order, i, j);
  }

  /** Whatever must come before a plugin's home entry brings its own plugin in earlier. */
  lemma ReachingComesFirst(registryId: nat, plugins: seq<Plugin>, result: seq<Plugin>, p: Plugin, q: Plugin)
    requires Parsed(plugins) && DistinctIds(plugins) && OrderedPlugins(registryId, plugins, result)
    requires p in plugins && q in plugins && p.id != q.id
    requires Reaches(GraphOf(CapabilityGraph(registryId, plugins).value), Home(p), Home(q))
    ensures Precedes(result, p, q) && !Precedes(result, q, p)
  {
    var s := CapabilityGraph(registryId, plugins).value;
    var order :| IsActivationOrder(s, order) && result == Emit(order, ById(plugins));
    HomesDiffer(p, q);
    var i, j := PlacedByHomes(registryId, plugins, result, order, p, q);
    EarlierUnlessSame(GraphOf(s), order, i, j);
    EachPluginOnce(registryId, plugins, result);
    NotBoth(result, q, p);
  }

  lemma EarlierUnlessSame(g: Graph, order: seq<Id>, i: nat, j: nat)
    requires Topological(g, order) && i < |order| && j < |order|
    requires Reaches(g, order[i], order[j]) && order[i] != order[j]
    ensures i < j
  {
    ReachedIsEarlier(g, order, i, j);
  }

  lemma EntryOffersComeFirst(registryId: nat, plugins: seq<Plugin>, result: seq<Plugin>, p: Plugin, q: Plugin, d: Descriptor)
    requires Parsed(plugins) && DistinctIds(plugins) && OrderedPlugins(registryId, plugins, result)
    requires p in plugins && q in plugins && p.id != q.id && q.id != BUILTIN
    requires d in q.AllNeeds()
    requires d in p.RendererOffers() || (!p.renderer && d in p.RuntimeHostOffers())
    ensures Precedes(result, p, q)
  {
    CapabilityGraphMirrors(registryId, plugins);
    var s := CapabilityGraph(registryId, plugins).value;
    var order :| IsActivationOrder(s, order) && result == Emit(order, ById(plugins));
    ProviderClaimedFirst(s, plugins, order, p, q, d);
    ByIdFacts(plugins);
    EmitPrecedes(order, ById(plugins), p, q);
  }

  /**
   * A plugin that offers what another one needs comes before it whenever the offer is its
   * renderer's or it is host-only, and the consumer does not have the reserved id. In the two cases
   * left, a combined plugin's host offer and the reserved consumer, it does exactly if the graph
   * puts its home entry first.
   */
  lemma ProvidersComeFirst(registryId: nat, plugins: seq<Plugin>, result: seq<Plugin>, p: Plugin, q: Plugin, d: Descriptor)
    requires Parsed(plugins) && DistinctIds(plugins) && OrderedPlugins(registryId, plugins, result)
    requires p in plugins && q in plugins && p.id != q.id
    requires d in q.AllNeeds() && (d in p.RendererOffers() || d in p.RuntimeHostOffers())
    ensures var g := GraphOf(CapabilityGraph(registryId, plugins).value);
            Precedes(result, p, q) <==>
              (q.id != BUILTIN && (d in p.RendererOffers() || !p.renderer)) || GoesFirst(g, Home(p), Home(q))
  {
    if q.id != BUILTIN && (d in p.RendererOffers() || !p.renderer) {
      EntryOffersComeFirst(registryId, plugins, result, p, q, d);
    } else {
      PlacementIsExactFor(registryId, plugins, result, p, q);
    }
  }

  /**
   * The reserved id: a plugin of that id stands where the built-in
   * entry does, so exactly the plugins reached from lesser entries only come before it.
   */
  lemma ReservedIdIsPlaced(registryId: nat, plugins: seq<Plugin>, result: seq<Plugin>, p: Plugin, q: Plugin)
    requires Parsed(plugins) && DistinctIds(plugins) && OrderedPlugins(registryId, plugins, result)
    requires p in plugins && q in plugins && p.id != q.id && q.id == BUILTIN
    ensures var g := GraphOf(CapabilityGraph(registryId, plugins).value);
            Precedes(result, p, q) <==> forall x | Reaches(g, x, Home(p)) :: Less(x, BUILTIN)
  {
    var s := CapabilityGraph(registryId, plugins).value;
    CapabilityGraphMirrors(registryId, plugins);
    BuiltinIsSource(s, plugins);
    PlacementIsExactFor(registryId, plugins, result, p, q);
    BeforeASource(GraphOf(s), Home(p), BUILTIN);
  }

  /**
   * What a combined plugin's host offers is ordered at entry level: in every activation order that
   * host entry comes before the entry that needs the offer.
   */
  lemma HostOffersComeFirst(registryId: nat, plugins: seq<Plugin>, order: seq<Id>, p: Plugin, q: Plugin, d: Descriptor)
    requires Parsed(plugins) && CapabilityGraph(registryId, plugins).Ok?
    requires IsActivationOrder(CapabilityGraph(registryId, plugins).value, order)
    requires p in plugins && q in plugins && p.host.Some? && d in p.RuntimeHostOffers() && d in q.AllNeeds()
    ensures exists i, j :: 0 <= i < j < |order| && order[i] == HostId(p.id)
                           && ((d in q.RendererNeeds() && order[j] == q.id) || (d in q.HostNeeds() && order[j] == HostId(q.id)))
  {
    CapabilityGraphMirrors(registryId, plugins);
    HostOfferIsEarlier(CapabilityGraph(registryId, plugins).value, plugins, order, p, q, d);
  }

  lemma HostOfferIsEarlier(s: State, plugins: seq<Plugin>, order: seq<Id>, p: Plugin, q: Plugin, d: Descriptor)
    requires Mirrors(s, plugins) && IsActivationOrder(s, order)
    requires p in plugins && q in plugins && p.host.Some? && d in p.RuntimeHostOffers() && d in q.AllNeeds()
    ensures exists i, j :: 0 <= i < j < |order| && order[i] == HostId(p.id)
                           && ((d in q.RendererNeeds() && order[j] == q.id) || (d in q.HostNeeds() && order[j] == HostId(q.id)))
  {
    assert Present(s, p);
    var c := NeedIsDeclared(s, q, d);
    OfferEdge(s, HostId(p.id), c, d);
    var i, j := EdgePositions(s, order, HostId(p.id), c);
  }
}
