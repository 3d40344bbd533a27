/** The registry object: fields updated in place, proved against the value operations. */
module CapabilityRegistries {
  import opened Results
  import opened Ids
  import opened Graphs
  import opened Capabilities
  import opened Activation
  import opened CycleSearches

  class CapabilityRegistry {
    const registryId: nat
    var registrations: map<Id, Registration>
    var providers: map<Key, Record>
    var scopes: map<ScopeInstance, nat>
    var nextEpoch: nat

    ghost function Value(): State
      reads this
    {
      State(registryId, registrations, providers, scopes, nextEpoch)
    }

    constructor (id: nat)
      ensures Value() == Empty(id)
    {
      registryId := id;
      registrations, providers, scopes, nextEpoch := map[], map[], map[], 0;
    }

    /** The conflict check over the incoming descriptors, before anything is written. */
    method CheckConflicts(id: Id, offers: seq<Descriptor>) returns (fault: Option<RegistryError>)
      ensures fault == FirstConflict(providers, id, offers, {})
    {
      var incoming := {};
      var i := 0;
      while i < |offers|
        invariant 0 <= i <= |offers|
        invariant FirstConflict(providers, id, offers, {}) == FirstConflict(providers, id, offers[i..], incoming)
      {
        var key := KeyOf(offers[i]);
        if key in incoming { return Some(CapabilityConflict(key, id, id)); }
        if key in providers { return Some(CapabilityConflict(key, providers[key].provider, id)); }
        incoming := incoming + {key};
        assert offers[i..][1..] == offers[i + 1..];
        i := i + 1;
      }
      fault := None;
    }

    method AllocateEpoch() returns (r: Result<nat, RegistryError>)
      modifies this`nextEpoch
      ensures r == if old(nextEpoch) == MAX_EPOCH then Err(EpochOverflow) else Ok(old(nextEpoch) + 1)
      ensures nextEpoch == if r.Ok? then r.value else old(nextEpoch)
    {
      if nextEpoch == MAX_EPOCH { return Err(EpochOverflow); }
      nextEpoch := nextEpoch + 1;
      r := Ok(nextEpoch);
    }

    /** A refused registration leaves every field as it was. */
    method RegisterProvider(id: Id, generation: nat, offers: seq<Descriptor>, needs: seq<Descriptor>, grants: set<string>)
      returns (fault: Option<RegistryError>)
      modifies this
      ensures match Register(old(Value()), id, generation, offers, needs, grants)
              case Ok(after) => fault == None && Value() == after
              case Err(e) => fault == Some(e) && Value() == old(Value())
    {
      if !ValidProviderId(id) { return Some(InvalidProviderId(id)); }
      if id in registrations { return Some(ProviderConflict(id)); }
      if generation == 0 { return Some(InvalidGeneration(id, generation)); }
      var conflict := CheckConflicts(id, offers);
      if conflict.Some? { return conflict; }
      var issued := AllocateEpoch();
      if issued.Err? { return Some(issued.error); }
      var epoch := issued.value;
      IndexProvider(id, generation, epoch, offers);
      registrations := registrations[id := Registration(generation, epoch, offers, needs, grants, {})];
      fault := None;
    }

    method IndexProvider(id: Id, generation: nat, epoch: nat, offers: seq<Descriptor>)
      modifies this`providers
      ensures providers == Index(old(providers), id, generation, epoch, offers)
    {
      var i := 0;
      while i < |offers|
        invariant 0 <= i <= |offers|
        invariant Index(providers, id, generation, epoch, offers[i..]) == Index(old(providers), id, generation, epoch, offers)
      {
        providers := providers[KeyOf(offers[i]) := Record(id, generation, epoch, offers[i])];
        assert offers[i..][1..] == offers[i + 1..];
        i := i + 1;
      }
    }

    method RequireProviderBefore(consumer: Id, provider: Id) returns (fault: Option<RegistryError>)
      modifies this`registrations
      ensures match RequireBefore(old(Value()), consumer, provider)
              case Ok(after) => fault == None && Value() == after
              case Err(e) => fault == Some(e) && Value() == old(Value())
    {
      if provider !in registrations { return Some(UnknownProvider(provider)); }
      if consumer !in registrations { return Some(UnknownProvider(consumer)); }
      var registration := registrations[consumer];
      registrations := registrations[consumer := registration.(dependencies := registration.dependencies + {provider})];
      fault := None;
    }

    method RemoveKeys(offers: seq<Descriptor>)
      modifies this`providers
      ensures providers == old(providers) - KeySet(offers)
    {
      var i := 0;
      while i < |offers|
        invariant 0 <= i <= |offers|
        invariant providers == old(providers) - KeySet(offers[..i])
      {
        providers := providers - {KeyOf(offers[i])};
        assert offers[..i + 1] == offers[..i] + [offers[i]];
        assert KeySet(offers[..i + 1]) == KeySet(offers[..i]) + {KeyOf(offers[i])};
        i := i + 1;
      }
      assert offers[..i] == offers;
    }

    method UnregisterProvider(id: Id) returns (r: Result<bool, RegistryError>)
      modifies this`registrations, this`providers
      ensures match Unregister(old(Value()), id)
              case Ok((after, removed)) => r == Ok(removed) && Value() == after
              case Err(e) => r == Err(e) && Value() == old(Value())
    {
      if !ValidProviderId(id) { return Err(InvalidProviderId(id)); }
      if id !in registrations { return Ok(false); }
      var offers := registrations[id].offers;
      registrations := registrations - {id};
      RemoveKeys(offers);
      r := Ok(true);
    }

    method ActivateScope(scope: ScopeInstance) returns (r: Result<nat, RegistryError>)
      modifies this`scopes, this`nextEpoch
      ensures match Activate(old(Value()), scope)
              case Ok(after) => r == Ok(after.nextEpoch) && Value() == after
              case Err(e) => r == Err(e) && Value() == old(Value())
      ensures r.Ok? <==> scope !in old(scopes) && old(nextEpoch) != MAX_EPOCH
      ensures r.Ok? ==> r.value == old(nextEpoch) + 1 && scopes == old(scopes)[scope := r.value]
    {
      if scope in scopes { return Err(ScopeAlreadyActive(scope)); }
      r := AllocateEpoch();
      if r.Ok? { scopes := scopes[scope := r.value]; }
    }

    method DeactivateScope(scope: ScopeInstance) returns (removed: bool)
      modifies this`scopes
      ensures Value() == Deactivate(old(Value()), scope) && removed == (scope in old(scopes))
    {
      removed := scope in scopes;
      scopes := scopes - {scope};
    }

    // ----- activation order

    method FindProvider(consumer: Id, need: Descriptor) returns (r: Result<Record, RegistryError>)
      ensures r == ProviderForRequirement(Value(), consumer, need)
    {
      if KeyOf(need) !in providers { return Err(MissingRequirement(consumer, need)); }
      var provider := providers[KeyOf(need)];
      if provider.descriptor.api != need.api {
        return Err(VersionMismatch(consumer, provider.provider, need, provider.descriptor.api));
      }
      r := Ok(provider);
    }

    /** Links the explicit dependencies, or reports the least one that is not registered. */
    method LinkDependencies(consumer: Id, dependents0: Graph, counts0: map<Id, nat>)
      returns (fault: Option<RegistryError>, dependents: Graph, counts: map<Id, nat>)
      requires consumer in registrations && Unlinked(dependents0, counts0, consumer, registrations.Keys)
      ensures fault.Some? ==> FaultOf(Value(), consumer, fault.value)
      ensures fault.None? ==> registrations[consumer].dependencies <= registrations.Keys
      ensures fault.None? ==>
                Linked(dependents0, counts0, consumer, registrations[consumer].dependencies, dependents, counts)
    {
      dependents, counts, fault := dependents0, counts0, None;
      var dependencies := registrations[consumer].dependencies;
      var rest := dependencies;
      while rest != {} && fault == None
        invariant rest <= dependencies && dependencies - rest <= registrations.Keys
        invariant Linked(dependents0, counts0, consumer, dependencies - rest, dependents, counts)
        invariant fault.Some? ==> FaultOf(Value(), consumer, fault.value)
        decreases rest, fault == None
      {
        var provider := PickLeast(rest);
        if provider !in dependents {
          assert IsLeast(provider, dependencies - registrations.Keys);
          fault := Some(UnknownProvider(provider));
        } else {
          assert dependencies - (rest - {provider}) == dependencies - rest + {provider};
          dependents, counts := Insert(dependents0, dependents, counts0, counts, consumer, provider, dependencies - rest, registrations.Keys);
          rest := rest - {provider};
        }
      }
      assert rest == {} ==> dependencies - rest == dependencies;
    }

    /** Links the owner of one need, or reports that it has no matching provider. */
    method LinkNeed(consumer: Id, i: nat, ghost dependents0: Graph, dependents1: Graph, ghost counts0: map<Id, nat>, counts1: map<Id, nat>)
      returns (fault: Option<RegistryError>, dependents: Graph, counts: map<Id, nat>)
      requires IndexSound(Value()) && Unlinked(dependents0, counts0, consumer, registrations.Keys)
      requires consumer in registrations && i < |registrations[consumer].needs|
      requires registrations[consumer].dependencies <= registrations.Keys
      requires NeedsLinked(Value(), consumer, i, dependents0, counts0, dependents1, counts1)
      ensures fault.Some? ==> FaultOf(Value(), consumer, fault.value)
      ensures fault.None? ==> NeedsLinked(Value(), consumer, i + 1, dependents0, counts0, dependents, counts)
    {
      var found := FindProvider(consumer, registrations[consumer].needs[i]);
      if found.Err? {
        NeedIsAtFault(Value(), consumer, i, found.error);
        return Some(found.error), dependents1, counts1;
      }
      NextOwner(Value(), consumer, i);
      fault := None;
      dependents, counts := Insert(dependents0, dependents1, counts0, counts1, consumer, found.value.provider,
                                   ProvidersUpTo(Value(), consumer, i), registrations.Keys);
    }

    /** Links the owners of the needs, or reports the first need without a matching provider. */
    method LinkNeeds(consumer: Id, ghost dependents0: Graph, dependents1: Graph, ghost counts0: map<Id, nat>, counts1: map<Id, nat>)
      returns (fault: Option<RegistryError>, dependents: Graph, counts: map<Id, nat>)
      requires IndexSound(Value())
      requires consumer in registrations && Unlinked(dependents0, counts0, consumer, registrations.Keys)
      requires registrations[consumer].dependencies <= registrations.Keys
      requires Linked(dependents0, counts0, consumer, registrations[consumer].dependencies, dependents1, counts1)
      ensures fault.Some? ==> FaultOf(Value(), consumer, fault.value)
      ensures fault.None? ==> Satisfied(Value(), consumer)
      ensures fault.None? ==> Linked(dependents0, counts0, consumer, ProvidersOf(Value(), consumer), dependents, counts)
    {
      ghost var s := Value();
      var needs := |registrations[consumer].needs|;
      dependents, counts := dependents1, counts1;
      NoNeedsLinked(s, consumer, dependents0, counts0, dependents, counts);
      for i := 0 to needs
        invariant Value() == s && NeedsLinked(s, consumer, i, dependents0, counts0, dependents, counts)
      {
        fault, dependents, counts := LinkNeed(consumer, i, dependents0, dependents, counts0, counts);
        if fault.Some? { return; }
      }
      AllNeedsLinked(s, consumer, dependents0, counts0, dependents, counts);
      fault := None;
    }

    /** Inserts `consumer` below each of its providers and counts them, or reports its first fault. */
    method LinkConsumer(consumer: Id, dependents0: Graph, counts0: map<Id, nat>)
      returns (fault: Option<RegistryError>, dependents: Graph, counts: map<Id, nat>)
      requires IndexSound(Value())
      requires consumer in registrations && Unlinked(dependents0, counts0, consumer, registrations.Keys)
      ensures fault.Some? ==> FaultOf(Value(), consumer, fault.value)
      ensures fault.None? ==> Satisfied(Value(), consumer)
      ensures fault.None? ==> Linked(dependents0, counts0, consumer, ProvidersOf(Value(), consumer), dependents, counts)
    {
      fault, dependents, counts := LinkDependencies(consumer, dependents0, counts0);
      if fault.None? {
        fault, dependents, counts := LinkNeeds(consumer, dependents0, dependents, counts0, counts);
      }
    }

    /** Fills the graph and the counts for every consumer in order. */
    method BuildGraph() returns (fault: Option<RegistryError>, dependents: Graph, counts: map<Id, nat>)
      requires WellFormed(Value())
      ensures fault.Some? ==> FirstFault(Value(), fault.value)
      ensures fault.None? ==> AllSatisfied(Value()) && dependents == GraphOf(Value()) && CountsPending(dependents, counts, {})
    {
      dependents := map p | p in registrations :: {};
      counts := map p | p in registrations :: 0;
      var rest := registrations.Keys;
      fault := None;
      NothingBuilt(Value(), dependents, counts);
      while rest != {} && fault == None
        invariant rest <= registrations.Keys
        invariant Built(Value(), rest, dependents, counts) || fault.Some?
        invariant fault.Some? ==> FirstFault(Value(), fault.value)
        decreases rest, fault == None
      {
        var consumer := PickLeast(rest);
        NextIsUnlinked(Value(), rest, dependents, counts, consumer);
        ghost var before, beforeCounts := dependents, counts;
        fault, dependents, counts := LinkConsumer(consumer, dependents, counts);
        if fault.None? {
          BuiltFurther(Value(), rest, before, beforeCounts, consumer, dependents, counts);
          rest := rest - {consumer};
        } else {
          FaultIsFirst(Value(), rest, consumer, fault.value);
        }
      }
      if fault.None? { FullyBuilt(Value(), dependents, counts); }
    }

    /**
     * Succeeds exactly when every dependency and need is met and the graph is acyclic, with the
     * least order in the lexicographic sense; otherwise names the first fault or a real cycle.
     */
    method ResolveActivationOrder() returns (r: Result<seq<Id>, RegistryError>)
      requires WellFormed(Value())
      ensures r.Ok? <==> Resolvable(Value())
      ensures r.Ok? ==> IsActivationOrder(Value(), r.value)
      ensures r.Err? && r.error.DependencyCycle? ==>
                AllSatisfied(Value()) && IsCycle(GraphOf(Value()), r.error.providers)
      ensures r.Err? && !r.error.DependencyCycle? ==> FirstFault(Value(), r.error)
    {
      var fault, dependents, counts := BuildGraph();
      if fault.Some? {
        FirstFaultIsUnsatisfied(Value(), fault.value);
        return Err(fault.value);
      }
      GraphOfIsClosed(Value());
      var order := Kahn(dependents, counts);
      OrderIsComplete(dependents, order);
      assert dependents.Keys == registrations.Keys;
      assert |dependents| == |dependents.Keys| == |registrations|;
      if |order| != |registrations| {
        var cycle := FindDependencyCycle(dependents, dependents.Keys - Elements(order));
        r := Err(DependencyCycle(cycle));
      } else {
        r := Ok(order);
      }
    }
  }

  // ----- building the graph

  /** `c` has no edge and no count yet. */
  ghost predicate Unlinked(g: Graph, counts: map<Id, nat>, c: Id, nodes: set<Id>) {
    && g.Keys == nodes && counts.Keys == nodes
    && c in nodes && counts[c] == 0
    && forall p | p in g :: c !in g[p]
  }

  function WithEdges(g: Graph, c: Id, providers: set<Id>): Graph {
    map p | p in g :: if p in providers then g[p] + {c} else g[p]
  }

  /** `c` has been inserted below exactly the nodes of `providers`, and they have been counted. */
  ghost predicate Linked(
    before: Graph, beforeCounts: map<Id, nat>, c: Id, providers: set<Id>, after: Graph, counts: map<Id, nat>)
  {
    after == WithEdges(before, c, providers) && counts == beforeCounts[c := |providers|]
  }

  /** The providers of `c` by its dependencies and its first `i` needs. */
  ghost function ProvidersUpTo(s: State, c: Id, i: nat): set<Id>
    requires c in s.registrations && i <= |s.registrations[c].needs|
  {
    var r := s.registrations[c];
    r.dependencies + set d | d in r.needs[..i] && KeyOf(d) in s.providers :: s.providers[KeyOf(d)].provider
  }

  ghost predicate NeedsMet(s: State, c: Id, i: nat)
    requires c in s.registrations && i <= |s.registrations[c].needs|
  {
    forall j | 0 <= j < i :: ProviderForRequirement(s, c, s.registrations[c].needs[j]).Ok?
  }

  /** The first `i` needs of `c` have been looked up and their owners linked. */
  ghost predicate NeedsLinked(
    s: State, c: Id, i: nat, before: Graph, beforeCounts: map<Id, nat>, after: Graph, counts: map<Id, nat>)
    requires c in s.registrations && i <= |s.registrations[c].needs|
  {
    NeedsMet(s, c, i) && Linked(before, beforeCounts, c, ProvidersUpTo(s, c, i), after, counts)
  }

  lemma NoNeedsLinked(
    s: State, c: Id, before: Graph, beforeCounts: map<Id, nat>, after: Graph, counts: map<Id, nat>)
    requires c in s.registrations && Linked(before, beforeCounts, c, s.registrations[c].dependencies, after, counts)
    ensures NeedsLinked(s, c, 0, before, beforeCounts, after, counts)
  {
    assert ProvidersUpTo(s, c, 0) == s.registrations[c].dependencies;
  }

  lemma NextOwner(s: State, c: Id, i: nat)
    requires IndexSound(s) && c in s.registrations && i < |s.registrations[c].needs| && NeedsMet(s, c, i)
    requires ProviderForRequirement(s, c, s.registrations[c].needs[i]).Ok?
    ensures NeedsMet(s, c, i + 1)
    ensures var owner := ProviderForRequirement(s, c, s.registrations[c].needs[i]).value.provider;
            owner in s.registrations && ProvidersUpTo(s, c, i + 1) == ProvidersUpTo(s, c, i) + {owner}
  {
    var needs := s.registrations[c].needs;
    assert Backed(s, KeyOf(needs[i]));
    assert needs[..i + 1] == needs[..i] + [needs[i]];
  }

  lemma NeedIsAtFault(s: State, c: Id, i: nat, e: RegistryError)
    requires c in s.registrations && s.registrations[c].dependencies <= s.registrations.Keys
    requires i < |s.registrations[c].needs| && NeedsMet(s, c, i)
    requires ProviderForRequirement(s, c, s.registrations[c].needs[i]) == Err(e)
    ensures FaultOf(s, c, e)
  {}

  lemma AllNeedsLinked(
    s: State, c: Id, before: Graph, beforeCounts: map<Id, nat>, after: Graph, counts: map<Id, nat>)
    requires c in s.registrations && s.registrations[c].dependencies <= s.registrations.Keys
    requires NeedsLinked(s, c, |s.registrations[c].needs|, before, beforeCounts, after, counts)
    ensures Satisfied(s, c) && Linked(before, beforeCounts, c, ProvidersOf(s, c), after, counts)
  {
    var needs := s.registrations[c].needs;
    assert needs[..|needs|] == needs;
    assert ProvidersUpTo(s, c, |needs|) == ProvidersOf(s, c);
  }

  lemma NewEdgeIsLinked(
    g0: Graph, counts0: map<Id, nat>, c: Id, linked: set<Id>, g: Graph, counts: map<Id, nat>, p: Id)
    requires Linked(g0, counts0, c, linked, g, counts) && c in counts0
    requires p in g && c !in g[p]
    ensures Linked(g0, counts0, c, linked + {p}, g[p := g[p] + {c}], counts[c := counts[c] + 1])
  {
    assert p !in linked;
    assert |linked + {p}| == |linked| + 1;
    assert g[p := g[p] + {c}] == WithEdges(g0, c, linked + {p});
  }

  /** Adds one edge and counts it, unless it is there already. */
  method Insert(
    ghost dependents0: Graph, dependents: Graph, ghost counts0: map<Id, nat>, counts: map<Id, nat>,
    consumer: Id, provider: Id, ghost linked: set<Id>, ghost nodes: set<Id>)
    returns (dependents': Graph, counts': map<Id, nat>)
    requires Unlinked(dependents0, counts0, consumer, nodes) && provider in nodes
    requires Linked(dependents0, counts0, consumer, linked, dependents, counts)
    ensures Linked(dependents0, counts0, consumer, linked + {provider}, dependents', counts')
  {
    if consumer !in dependents[provider] {
      NewEdgeIsLinked(dependents0, counts0, consumer, linked, dependents, counts, provider);
      dependents' := dependents[provider := dependents[provider] + {consumer}];
      counts' := counts[consumer := counts[consumer] + 1];
    } else {
      assert linked + {provider} == linked;
      dependents', counts' := dependents, counts;
    }
  }

  /** Exactly the consumers outside `rest`, which are the lesser ones, have been linked and satisfied. */
  ghost predicate Built(s: State, rest: set<Id>, dependents: Graph, counts: map<Id, nat>) {
    && rest <= s.registrations.Keys
    && (forall c | c in s.registrations && c !in rest :: Satisfied(s, c))
    && (forall a, b | a in s.registrations && a !in rest && b in rest :: Less(a, b))
    && dependents == GraphUpTo(s, s.registrations.Keys - rest)
    && counts.Keys == s.registrations.Keys
    && (forall c | c in counts :: counts[c] == if c in rest then 0 else |ProvidersOf(s, c)|)
  }

  lemma NothingBuilt(s: State, dependents: Graph, counts: map<Id, nat>)
    requires dependents == map p | p in s.registrations :: {}
    requires counts == map p | p in s.registrations :: 0
    ensures Built(s, s.registrations.Keys, dependents, counts)
  {
    var none := GraphUpTo(s, s.registrations.Keys - s.registrations.Keys);
    forall p | p in dependents ensures dependents[p] == none[p] {}
  }

  lemma NextIsUnlinked(s: State, rest: set<Id>, dependents: Graph, counts: map<Id, nat>, c: Id)
    requires Built(s, rest, dependents, counts) && c in rest
    ensures Unlinked(dependents, counts, c, s.registrations.Keys)
  {}

  lemma BuiltFurther(
    s: State, rest: set<Id>, before: Graph, beforeCounts: map<Id, nat>, c: Id, after: Graph, counts: map<Id, nat>)
    requires Built(s, rest, before, beforeCounts) && IsLeast(c, rest)
    requires Satisfied(s, c) && Linked(before, beforeCounts, c, ProvidersOf(s, c), after, counts)
    ensures Built(s, rest - {c}, after, counts)
  {
    GraphGrows(s, rest, before, beforeCounts, c, after, counts);
  }

  lemma GraphGrows(
    s: State, rest: set<Id>, before: Graph, beforeCounts: map<Id, nat>, c: Id, after: Graph, counts: map<Id, nat>)
    requires rest <= s.registrations.Keys && c in rest && before == GraphUpTo(s, s.registrations.Keys - rest)
    requires Linked(before, beforeCounts, c, ProvidersOf(s, c), after, counts)
    ensures after == GraphUpTo(s, s.registrations.Keys - (rest - {c}))
  {
    var grown := GraphUpTo(s, s.registrations.Keys - (rest - {c}));
    forall p | p in after ensures after[p] == grown[p] {}
  }

  /** Every consumer before the least remaining one has been satisfied, so its fault comes first. */
  lemma FaultIsFirst(s: State, rest: set<Id>, c: Id, e: RegistryError)
    requires rest <= s.registrations.Keys && IsLeast(c, rest) && FaultOf(s, c, e)
    requires forall b | b in s.registrations && b !in rest :: Satisfied(s, b)
    ensures FirstFault(s, e)
  {
    forall b | b in s.registrations && Less(b, c) ensures Satisfied(s, b) {
      LessOrder(b, c, b);
    }
  }

  lemma FullyBuilt(s: State, dependents: Graph, counts: map<Id, nat>)
    requires WellFormed(s) && Built(s, {}, dependents, counts)
    ensures AllSatisfied(s) && dependents == GraphOf(s) && CountsPending(dependents, counts, {})
  {
    assert s.registrations.Keys - {} == s.registrations.Keys;
    assert dependents == GraphOf(s);
    forall c | c in dependents ensures counts[c] == |Pending(dependents, c, {})| {
      CountIsPending(s, c);
    }
  }

  lemma CountIsPending(s: State, c: Id)
    requires WellFormed(s) && AllSatisfied(s) && c in s.registrations
    ensures Pending(GraphOf(s), c, {}) == ProvidersOf(s, c)
  {
    ProvidersAreNodes(s, c);
    PendingInGraphOf(s, c);
  }

  /** A complete greedy order is the least topological one, and there is then no cycle. */
  lemma OrderIsComplete(g: Graph, order: seq<Id>)
    requires Closed(g) && Greedy(g, order)
    ensures |order| == |g| <==> Elements(order) == g.Keys
    ensures |order| == |g| ==> LexLeastTopological(g, order) && Acyclic(g)
  {
    GreedyIsTopological(g, order);
    DistinctCardinality(order);
    SubsetCardinality(Elements(order), g.Keys);
    assert |g| == |g.Keys|;
    if |order| == |g| {
      GreedyIsLexLeast(g, order);
      TopologicalMeansAcyclic(g, order);
    }
  }

  lemma SubsetCardinality(a: set<Id>, b: set<Id>)
    requires a <= b
    ensures |a| == |b| <==> a == b
  {
    assert b == a + (b - a);
    if |a| == |b| { assert b - a == {}; }
  }
}
