/** Plugin sets that order successfully although a consumer stands before its provider. */
module OrderWitnesses {
  import opened Results
  import opened Ids
  import opened Graphs
  import opened Placement
  import opened Capabilities
  import opened Activation
  import opened PluginGraphs
  import opened PluginOrders

  // ----- plugins whose entries fit a registry join it

  /** No key of `offers` is taken. */
  ghost predicate Free(s: State, offers: seq<Descriptor>) {
    DistinctKeys(offers) && forall d | d in offers :: KeyOf(d) !in s.providers
  }

  ghost predicate Growing(s: State, entries: nat) {
    WellFormed(s) && NoDependencies(s) && s.nextEpoch == entries < 100
  }

  lemma Registers(s: State, id: Id, p: Plugin, offers: seq<Descriptor>, needs: seq<Descriptor>, entries: nat)
    requires Growing(s, entries) && ValidProviderId(id) && id !in s.registrations && p.generation > 0 && Free(s, offers)
    ensures var r := Register(s, id, p.generation, offers, needs, p.permissions);
            && r.Ok? && WellFormed(r.value) && NoDependencies(r.value) && r.value.nextEpoch == entries + 1
            && r.value.registrations.Keys == s.registrations.Keys + {id}
            && forall k | k in r.value.providers :: k in s.providers || k in KeySet(offers)
  {
    FreshMeansNoConflict(s.providers, id, offers, {});
    RegisterFacts(s, id, p, offers, needs);
    NewKeys(s, id, p, offers, needs);
  }

  lemma NewKeys(s: State, id: Id, p: Plugin, offers: seq<Descriptor>, needs: seq<Descriptor>)
    requires WellFormed(s) && NoDependencies(s) && Register(s, id, p.generation, offers, needs, p.permissions).Ok?
    ensures var t := Register(s, id, p.generation, offers, needs, p.permissions).value;
            forall k | k in t.providers :: k in s.providers || k in KeySet(offers)
  {
    RegisterFacts(s, id, p, offers, needs);
    var t := Register(s, id, p.generation, offers, needs, p.permissions).value;
    forall k | k in t.providers ensures k in s.providers || k in KeySet(offers) {
      assert Backed(t, k);
      var e, d := t.providers[k].provider, t.providers[k].descriptor;
      if e != id { assert Indexed(s, e, d); }
    }
  }

  /** The built-in entry alone. */
  lemma Starts(registryId: nat) returns (s: State)
    ensures WithBuiltin(registryId) == Ok(s) && Growing(s, 1) && s.registrations.Keys == {BUILTIN}
    ensures forall k | k in s.providers :: k in KeySet(BuiltinOffers())
  {
    WithBuiltinMirrors(registryId);
    s := WithBuiltin(registryId).value;
    forall k | k in s.providers ensures k in KeySet(BuiltinOffers()) {
      assert Backed(s, k);
    }
  }

  /** A host-only plugin joins. */
  lemma HostJoins(s: State, p: Plugin, entries: nat) returns (t: State)
    requires Growing(s, entries) && ValidProviderId(HostId(p.id)) && HostId(p.id) !in s.registrations
    requires p.host.Some? && p.generation > 0 && LaunchCount(p.HostOffers()) == 0 && Free(s, p.RuntimeHostOffers())
    ensures AddHost(Partial(s, None), p) == Ok(Partial(t, None))
    ensures WellFormed(t) && NoDependencies(t) && t.nextEpoch == entries + 1
    ensures t.registrations.Keys == s.registrations.Keys + {HostId(p.id)}
    ensures forall k | k in t.providers :: k in s.providers || k in KeySet(p.RuntimeHostOffers())
  {
    Registers(s, HostId(p.id), p, p.RuntimeHostOffers(), p.HostNeeds(), entries);
    t := Register(s, HostId(p.id), p.generation, p.RuntimeHostOffers(), p.HostNeeds(), p.permissions).value;
  }

  lemma RendererJoins(s: State, p: Plugin, entries: nat) returns (t: State)
    requires Growing(s, entries) && ValidProviderId(p.id) && p.id !in s.registrations
    requires p.renderer && p.generation > 0 && Free(s, p.RendererOffers())
    ensures AddRenderer(Partial(s, None), p) == Ok(Partial(t, None))
    ensures WellFormed(t) && NoDependencies(t) && t.nextEpoch == entries + 1
    ensures t.registrations.Keys == s.registrations.Keys + {p.id}
    ensures forall k | k in t.providers :: k in s.providers || k in KeySet(p.RendererOffers())
  {
    Registers(s, p.id, p, p.RendererOffers(), p.RendererNeeds(), entries);
    t := Register(s, p.id, p.generation, p.RendererOffers(), p.RendererNeeds(), p.permissions).value;
  }

  lemma AddTwo(g: Partial, m: Partial, s: Partial, p: Plugin, q: Plugin)
    requires AddPlugin(g, p) == Ok(m) && AddPlugin(m, q) == Ok(s)
    ensures AddPlugins(g, [p, q]) == Ok(s)
  {
    assert [p, q][1..] == [q];
    assert AddPlugins(s, []) == Ok(s);
    assert AddPlugins(m, [q]) == Ok(s);
  }

  /** A capability the built-in entry does not offer. */
  ghost predicate Own(d: Descriptor) {
    KeyOf(d) !in KeySet(BuiltinOffers()) && d != LAUNCH
  }

  // ----- a consumer of the reserved id

  /** Offers the capability from its renderer. */
  function Provider(id: Id, need: Descriptor): Plugin {
    Plugin(id, 1, None, true, [need], [], {})
  }

  /** A host-only plugin that needs it. */
  function Consumer(id: Id, need: Descriptor): Plugin {
    Plugin(id, 1, Some(HostEntry([], [])), false, [], [need], {})
  }

  lemma ReservedJoin(a: State, b: Id, z: Id, need: Descriptor) returns (s: State)
    requires Growing(a, 1) && a.registrations.Keys == {b} && KeyOf(need) !in a.providers
    requires ValidUnqualified(z) && ValidUnqualified(b) && z != b
    ensures AddPlugins(Partial(a, None), [Provider(z, need), Consumer(b, need)]) == Ok(Partial(s, None))
  {
    var p, q := Provider(z, need), Consumer(b, need);
    HostEntryFacts(b);
    var m := RendererJoins(a, p, 1);
    s := HostJoins(m, q, 2);
    AddTwo(Partial(a, None), Partial(m, None), Partial(s, None), p, q);
  }

  lemma ReservedBuilds(registryId: nat, z: Id, need: Descriptor)
    requires ValidUnqualified(z) && z != BUILTIN && Own(need)
    ensures CapabilityGraph(registryId, [Provider(z, need), Consumer(BUILTIN, need)]).Ok?
  {
    var a := Starts(registryId);
    BuiltinIsValid();
    var s := ReservedJoin(a, BUILTIN, z, need);
    NothingToLink(s, Provider(z, need), Consumer(BUILTIN, need));
  }

  lemma BuiltinIsValid()
    ensures ValidUnqualified(BUILTIN)
  {
  }

  /** What the graph then says. */
  lemma ReservedMirrors(registryId: nat, z: Id, need: Descriptor) returns (s: State)
    requires ValidUnqualified(z) && z != BUILTIN && Own(need)
    ensures CapabilityGraph(registryId, [Provider(z, need), Consumer(BUILTIN, need)]) == Ok(s)
    ensures ReservedShape(s, BUILTIN, z, HostId(BUILTIN), need)
  {
    var p, q := Provider(z, need), Consumer(BUILTIN, need);
    ReservedBuilds(registryId, z, need);
    BuiltinIsValid();
    CapabilityGraphMirrors(registryId, [p, q]);
    s := CapabilityGraph(registryId, [p, q]).value;
    ReservedHasShape(s, p, q, z, need);
  }

  ghost predicate ReservedShape(s: State, b: Id, z: Id, h: Id, need: Descriptor) {
    && s.registrations.Keys == {b, z, h}
    && ProvidersOf(s, b) == {} && ProvidersOf(s, z) == {} && ProvidersOf(s, h) == {z}
  }

  lemma ReservedHasShape(s: State, p: Plugin, q: Plugin, z: Id, need: Descriptor)
    requires p == Provider(z, need) && q == Consumer(BUILTIN, need) && ValidUnqualified(z) && z != BUILTIN
    requires Mirrors(s, [p, q])
    requires forall e | e in s.registrations :: s.registrations[e].dependencies == HostLinks([p, q], e)
    ensures ReservedShape(s, BUILTIN, z, HostId(BUILTIN), need)
  {
    ReservedEntries(s, p, q, z, need);
    forall e ensures HostLinks([p, q], e) == {} {}
    ReservedProviders(s, BUILTIN, z, HostId(BUILTIN), need);
  }

  lemma ReservedEntries(s: State, p: Plugin, q: Plugin, z: Id, need: Descriptor)
    requires p == Provider(z, need) && q == Consumer(BUILTIN, need) && z != BUILTIN && Mirrors(s, [p, q])
    ensures s.registrations.Keys == {BUILTIN, z, HostId(BUILTIN)}
    ensures s.registrations[z].needs == [] && s.registrations[HostId(BUILTIN)].needs == [need]
    ensures s.registrations[z].offers == [need]
  {
    assert [p, q][0] == p && [p, q][1] == q;
    assert Present(s, p) && Present(s, q);
    forall e | e in s.registrations && e != BUILTIN ensures e == z || e == HostId(BUILTIN) { PairEntries(s, p, q, e); }
  }

  lemma ReservedProviders(s: State, b: Id, z: Id, h: Id, need: Descriptor)
    requires WellFormed(s) && s.registrations.Keys == {b, z, h} && s.registrations[b].needs == []
    requires s.registrations[z].needs == [] && s.registrations[h].needs == [need] && s.registrations[z].offers == [need]
    requires forall e | e in s.registrations :: s.registrations[e].dependencies == {}
    ensures ReservedShape(s, b, z, h, need)
  {
    assert Indexed(s, z, need);
  }

  lemma ReservedEdges(s: State, b: Id, z: Id, h: Id, need: Descriptor)
    requires ReservedShape(s, b, z, h, need) && b != z && z != h && b != h
    ensures forall x, c :: Edge(GraphOf(s), x, c) <==> x == z && c == h
    ensures forall p | p in GraphOf(s) :: z !in GraphOf(s)[p]
  {
  }

  lemma ReservedTopological(s: State, b: Id, z: Id, h: Id, need: Descriptor)
    requires ReservedShape(s, b, z, h, need) && b != z && z != h && b != h
    ensures Topological(GraphOf(s), [b, z, h])
  {
    ReservedEdges(s, b, z, h, need);
    var t := [b, z, h];
    assert t[0] == b && t[1] == z && t[2] == h;
    assert Elements(t) == {b, z, h};
  }

  /** A registry that can be ordered has its activation order. */
  lemma OrderExists(s: State, t: seq<Id>) returns (order: seq<Id>)
    requires Topological(GraphOf(s), t)
    ensures IsActivationOrder(s, order)
  {
    GraphOfIsClosed(s);
    assert Greedy(GraphOf(s), []);
    order := GreedyCompletes(GraphOf(s), t, []);
  }

  lemma ReservedOrders(registryId: nat, z: Id, need: Descriptor)
    requires ValidUnqualified(z) && z != BUILTIN && Own(need)
    ensures exists result :: OrderedPlugins(registryId, [Provider(z, need), Consumer(BUILTIN, need)], result)
  {
    var plugins := [Provider(z, need), Consumer(BUILTIN, need)];
    var s := ReservedMirrors(registryId, z, need);
    BuiltinIsValid();
    HostEntryFacts(BUILTIN);
    ReservedTopological(s, BUILTIN, z, HostId(BUILTIN), need);
    var order := OrderExists(s, [BUILTIN, z, HostId(BUILTIN)]);
    assert OrderedPlugins(registryId, plugins, Emit(order, ById(plugins)));
  }

  /**
   * A host-only plugin of the reserved id that needs what `z`'s renderer offers: the pair always
   * orders, and the provider comes first exactly if its id is less than the reserved one.
   */
  lemma ReservedConsumerIsMisplaced(registryId: nat, z: Id, need: Descriptor)
    requires ValidUnqualified(z) && z != BUILTIN && Own(need)
    ensures var p, q := Provider(z, need), Consumer(BUILTIN, need);
            && need in q.AllNeeds() && need in p.RendererOffers()
            && (exists result :: OrderedPlugins(registryId, [p, q], result))
            && forall result | OrderedPlugins(registryId, [p, q], result) ::
                 Precedes(result, p, q) <==> Less(z, BUILTIN)
  {
    var p, q := Provider(z, need), Consumer(BUILTIN, need);
    ReservedOrders(registryId, z, need);
    forall result | OrderedPlugins(registryId, [p, q], result) ensures Precedes(result, p, q) <==> Less(z, BUILTIN) {
      ReservedPair(registryId, z, need, result);
    }
  }

  lemma ReservedPair(registryId: nat, z: Id, need: Descriptor, result: seq<Plugin>)
    requires ValidUnqualified(z) && z != BUILTIN && Own(need)
    requires OrderedPlugins(registryId, [Provider(z, need), Consumer(BUILTIN, need)], result)
    ensures Precedes(result, Provider(z, need), Consumer(BUILTIN, need)) <==> Less(z, BUILTIN)
  {
    var p, q := Provider(z, need), Consumer(BUILTIN, need);
    var s := ReservedMirrors(registryId, z, need);
    BuiltinIsValid();
    HostEntryFacts(BUILTIN);
    ReservedEdges(s, BUILTIN, z, HostId(BUILTIN), need);
    SourceIsReachedFromItself(GraphOf(s), z);
    PairIsParsed(p, q);
    ReservedIdIsPlaced(registryId, [p, q], result, p, q);
  }

  lemma PairIsParsed(p: Plugin, q: Plugin)
    requires ValidUnqualified(p.id) && ValidUnqualified(q.id) && p.id != q.id
    requires (p.host.Some? || p.renderer) && (q.host.Some? || q.renderer)
    ensures Parsed([p, q]) && DistinctIds([p, q]) && p in [p, q] && q in [p, q]
  {
    assert [p, q][0] == p && [p, q][1] == q;
  }

  lemma NothingToLink(s: State, p: Plugin, q: Plugin)
    requires p.host.None? && !q.renderer
    ensures LinkHosts(s, [p, q]) == Ok(s)
  {
    assert [p, q][1..] == [q] && [q][1..] == [];
    assert LinkHosts(s, []) == Ok(s) && LinkHosts(s, [q]) == Ok(s);
  }

  lemma HostEntryFacts(b: Id)
    requires ValidUnqualified(b)
    ensures HostId(b) != b && ValidProviderId(HostId(b)) && !ValidUnqualified(HostId(b))
  {
    HostIdFacts(b);
    HostIdIsQualified(b);
  }

  // ----- an offer of a combined plugin's host

  /** Its host offers `x`, its renderer needs `y`. */
  function Combined(id: Id, x: Descriptor, y: Descriptor): Plugin {
    Plugin(id, 1, Some(HostEntry([x], [])), true, [], [y], {})
  }

  /** A renderer between the two: it needs `x` and offers `y`. */
  function Between(id: Id, x: Descriptor, y: Descriptor): Plugin {
    Plugin(id, 1, None, true, [y], [x], {})
  }

  lemma CombinedOffers(id: Id, x: Descriptor, y: Descriptor)
    requires x != LAUNCH
    ensures var p := Combined(id, x, y);
            p.HostOffers() == [x] && p.RuntimeHostOffers() == [x] && LaunchCount(p.HostOffers()) == 0 && p.HasRuntimeHost()
  {
    assert WithoutLaunch([x][1..]) == [] && LaunchCount([x][1..]) == 0;
  }

  lemma CombinedJoins(s0: State, b: Id, a: Id, x: Descriptor, y: Descriptor) returns (m: State)
    requires Growing(s0, 1) && s0.registrations.Keys == {b} && ValidUnqualified(b)
    requires KeyOf(x) !in s0.providers && x != LAUNCH && ValidUnqualified(a) && a != b
    ensures AddPlugin(Partial(s0, None), Combined(a, x, y)) == Ok(Partial(m, None))
    ensures Growing(m, 3) && m.registrations.Keys == {b, HostId(a), a}
    ensures forall k | k in m.providers :: k in s0.providers || k == KeyOf(x)
  {
    var h := CombinedHostJoins(s0, b, a, x, y);
    m := CombinedRendererJoins(h, b, a, x, y);
  }

  lemma CombinedRendererJoins(h: State, b: Id, a: Id, x: Descriptor, y: Descriptor) returns (m: State)
    requires Growing(h, 2) && h.registrations.Keys == {b, HostId(a)} && ValidUnqualified(a) && a != b
    ensures AddRenderer(Partial(h, None), Combined(a, x, y)) == Ok(Partial(m, None))
    ensures Growing(m, 3) && m.registrations.Keys == {b, HostId(a), a}
    ensures forall k | k in m.providers :: k in h.providers
  {
    HostEntryFacts(a);
    m := RendererJoins(h, Combined(a, x, y), 2);
  }

  lemma CombinedHostJoins(s0: State, b: Id, a: Id, x: Descriptor, y: Descriptor) returns (h: State)
    requires Growing(s0, 1) && s0.registrations.Keys == {b} && ValidUnqualified(b)
    requires KeyOf(x) !in s0.providers && x != LAUNCH && ValidUnqualified(a) && a != b
    ensures AddHost(Partial(s0, None), Combined(a, x, y)) == Ok(Partial(h, None))
    ensures Growing(h, 2) && h.registrations.Keys == {b, HostId(a)}
    ensures forall k | k in h.providers :: k in s0.providers || k == KeyOf(x)
  {
    HostEntryFacts(a);
    CombinedOffers(a, x, y);
    h := HostJoins(s0, Combined(a, x, y), 1);
  }

  lemma CombinedJoin(s0: State, b: Id, a: Id, c: Id, x: Descriptor, y: Descriptor) returns (s: State)
    requires Growing(s0, 1) && s0.registrations.Keys == {b} && ValidUnqualified(b)
    requires KeyOf(x) !in s0.providers && KeyOf(y) !in s0.providers && KeyOf(x) != KeyOf(y) && x != LAUNCH
    requires ValidUnqualified(a) && ValidUnqualified(c) && a != b && c != b && a != c
    ensures AddPlugins(Partial(s0, None), [Combined(a, x, y), Between(c, x, y)]) == Ok(Partial(s, None))
    ensures s.registrations.Keys == {b, HostId(a), a, c}
  {
    HostEntryFacts(a);
    var m := CombinedJoins(s0, b, a, x, y);
    s := RendererJoins(m, Between(c, x, y), 3);
    AddTwo(Partial(s0, None), Partial(m, None), Partial(s, None), Combined(a, x, y), Between(c, x, y));
  }

  lemma CombinedLinks(s: State, p: Plugin, q: Plugin)
    requires p.renderer && p.host.Some? && p.HasRuntimeHost() && q.host.None?
    requires p.id in s.registrations && HostId(p.id) in s.registrations
    ensures LinkHosts(s, [p, q]).Ok?
  {
    assert [p, q][1..] == [q] && [q][1..] == [];
    var next := RequireBefore(s, p.id, HostId(p.id)).value;
    assert LinkHosts(next, []) == Ok(next) && LinkHosts(next, [q]) == Ok(next);
  }

  lemma CombinedBuilds(registryId: nat, a: Id, c: Id, x: Descriptor, y: Descriptor)
    requires ValidUnqualified(a) && ValidUnqualified(c) && a != BUILTIN && c != BUILTIN && a != c
    requires Own(x) && Own(y) && KeyOf(x) != KeyOf(y)
    ensures CapabilityGraph(registryId, [Combined(a, x, y), Between(c, x, y)]).Ok?
  {
    var s0 := Starts(registryId);
    BuiltinIsValid();
    var s := CombinedJoin(s0, BUILTIN, a, c, x, y);
    CombinedLinks(s, Combined(a, x, y), Between(c, x, y));
  }

  ghost predicate CombinedShape(s: State, b: Id, h: Id, a: Id, c: Id) {
    && s.registrations.Keys == {b, h, a, c}
    && ProvidersOf(s, b) == {} && ProvidersOf(s, h) == {} && ProvidersOf(s, c) == {h} && ProvidersOf(s, a) == {h, c}
  }

  /** Every entry but the built-in one belongs to one of the two plugins. */
  lemma PairEntries(s: State, p: Plugin, q: Plugin, e: Id)
    requires Mirrors(s, [p, q]) && e in s.registrations && e != BUILTIN
    ensures (e == p.id && p.renderer) || (e == HostId(p.id) && p.host.Some?) || (e == q.id && q.renderer) || (e == HostId(q.id) && q.host.Some?)
  {
    assert Declared(s, [p, q], e);
  }

  lemma CombinedEntries(s: State, p: Plugin, q: Plugin, a: Id, c: Id, x: Descriptor, y: Descriptor)
    requires p == Combined(a, x, y) && q == Between(c, x, y) && Mirrors(s, [p, q]) && x != LAUNCH
    ensures s.registrations.Keys == {BUILTIN, HostId(a), a, c}
    ensures s.registrations[HostId(a)].needs == [] && s.registrations[a].needs == [y] && s.registrations[c].needs == [x]
    ensures s.registrations[HostId(a)].offers == [x] && s.registrations[c].offers == [y]
  {
    CombinedOffers(a, x, y);
    assert [p, q][0] == p && [p, q][1] == q;
    assert Present(s, p) && Present(s, q);
    forall e | e in s.registrations && e != BUILTIN ensures e in {HostId(a), a, c} { PairEntries(s, p, q, e); }
  }

  lemma CombinedHasShape(s: State, p: Plugin, q: Plugin, a: Id, c: Id, x: Descriptor, y: Descriptor)
    requires p == Combined(a, x, y) && q == Between(c, x, y) && x != LAUNCH
    requires ValidUnqualified(a) && ValidUnqualified(c) && a != BUILTIN && c != BUILTIN && a != c
    requires Mirrors(s, [p, q])
    requires forall e | e in s.registrations :: s.registrations[e].dependencies == HostLinks([p, q], e)
    ensures CombinedShape(s, BUILTIN, HostId(a), a, c)
  {
    CombinedEntries(s, p, q, a, c, x, y);
    HostEntryFacts(a);
    CombinedOffers(a, x, y);
    CombinedHostLinks(p, q, a, c);
    CombinedProviders(s, BUILTIN, HostId(a), a, c, x, y);
  }

  lemma CombinedProviders(s: State, b: Id, h: Id, a: Id, c: Id, x: Descriptor, y: Descriptor)
    requires WellFormed(s) && s.registrations.Keys == {b, h, a, c} && s.registrations[b].needs == []
    requires s.registrations[h].needs == [] && s.registrations[a].needs == [y] && s.registrations[c].needs == [x]
    requires s.registrations[h].offers == [x] && s.registrations[c].offers == [y]
    requires forall e | e in s.registrations :: s.registrations[e].dependencies == if e == a then {h} else {}
    requires a != b && a != h && a != c
    ensures CombinedShape(s, b, h, a, c)
  {
    assert Indexed(s, h, x) && Indexed(s, c, y);
  }

  lemma CombinedHostLinks(p: Plugin, q: Plugin, a: Id, c: Id)
    requires p.id == a && q.id == c && a != c && p.HasRuntimeHost() && p.renderer && q.host.None?
    ensures HostLinks([p, q], a) == {HostId(a)} && forall e | e != a :: HostLinks([p, q], e) == {}
  {
    assert [p, q][0] == p && [p, q][1] == q;
  }

  lemma CombinedMirrors(registryId: nat, a: Id, c: Id, x: Descriptor, y: Descriptor) returns (s: State)
    requires ValidUnqualified(a) && ValidUnqualified(c) && a != BUILTIN && c != BUILTIN && a != c
    requires Own(x) && Own(y) && KeyOf(x) != KeyOf(y)
    ensures CapabilityGraph(registryId, [Combined(a, x, y), Between(c, x, y)]) == Ok(s)
    ensures CombinedShape(s, BUILTIN, HostId(a), a, c)
  {
    var p, q := Combined(a, x, y), Between(c, x, y);
    CombinedBuilds(registryId, a, c, x, y);
    PairIsParsed(p, q);
    CapabilityGraphMirrors(registryId, [p, q]);
    s := CapabilityGraph(registryId, [p, q]).value;
    CombinedHasShape(s, p, q, a, c, x, y);
  }

  lemma CombinedOrder(s: State, b: Id, h: Id, a: Id, c: Id) returns (order: seq<Id>)
    requires CombinedShape(s, b, h, a, c) && b != h && b != a && b != c && h != a && h != c && a != c
    ensures IsActivationOrder(s, order) && Reaches(GraphOf(s), c, a)
  {
    var t := [b, h, c, a];
    assert t[0] == b && t[1] == h && t[2] == c && t[3] == a;
    assert Edge(GraphOf(s), c, a);
    assert Elements(t) == {b, h, a, c};
    order := OrderExists(s, t);
  }

  /**
   * A renderer that needs what another plugin's host offers, and offers what that plugin's own
   * renderer needs, always orders before it: the provider of `x` comes after its consumer.
   */
  lemma CombinedProviderIsMisplaced(registryId: nat, a: Id, c: Id, x: Descriptor, y: Descriptor)
    requires ValidUnqualified(a) && ValidUnqualified(c) && a != BUILTIN && c != BUILTIN && a != c
    requires Own(x) && Own(y) && KeyOf(x) != KeyOf(y)
    ensures var p, q := Combined(a, x, y), Between(c, x, y);
            && x in q.AllNeeds() && x in p.AllOffers()
            && (exists result :: OrderedPlugins(registryId, [p, q], result))
            && forall result | OrderedPlugins(registryId, [p, q], result) :: Precedes(result, q, p) && !Precedes(result, p, q)
  {
    var p, q := Combined(a, x, y), Between(c, x, y);
    var s := CombinedMirrors(registryId, a, c, x, y);
    BuiltinIsValid();
    HostEntryFacts(a);
    var order := CombinedOrder(s, BUILTIN, HostId(a), a, c);
    assert OrderedPlugins(registryId, [p, q], Emit(order, ById([p, q])));
    PairIsParsed(p, q);
    forall result | OrderedPlugins(registryId, [p, q], result)
      ensures Precedes(result, q, p) && !Precedes(result, p, q)
    {
      ReachingComesFirst(registryId, [p, q], result, q, p);
    }
  }
}
