/** When an activation order exists, which one is chosen, and the loop that finds it. */
module Activation {
  import opened Results
  import opened Ids
  import opened Graphs
  import opened Capabilities
  import opened CapabilityCalls

  /** Everything `c` must come after: its explicit dependencies and the owners of what it needs. */
  function ProvidersOf(s: State, c: Id): set<Id>
    requires c in s.registrations
  {
    var r := s.registrations[c];
    r.dependencies + set d | d in r.needs && KeyOf(d) in s.providers :: s.providers[KeyOf(d)].provider
  }

  /** The edges declared by the consumers in `done`. */
  function GraphUpTo(s: State, done: set<Id>): Graph
    requires done <= s.registrations.Keys
  {
    map p | p in s.registrations :: set c | c in done && p in ProvidersOf(s, c)
  }

  /** The dependency graph the declarations describe. */
  function GraphOf(s: State): Graph {
    GraphUpTo(s, s.registrations.Keys)
  }

  /** Every dependency is registered and every need has a provider of exactly that version. */
  ghost predicate Satisfied(s: State, c: Id)
    requires c in s.registrations
  {
    var r := s.registrations[c];
    r.dependencies <= s.registrations.Keys && forall d | d in r.needs :: ProviderForRequirement(s, c, d).Ok?
  }

  ghost predicate AllSatisfied(s: State) {
    forall c | c in s.registrations :: Satisfied(s, c)
  }

  ghost predicate Resolvable(s: State) {
    AllSatisfied(s) && Acyclic(GraphOf(s))
  }

  /** The least unregistered dependency of `c`, or else its first need without a matching provider. */
  ghost predicate FaultOf(s: State, c: Id, e: RegistryError)
    requires c in s.registrations
  {
    var r := s.registrations[c];
    || (e.UnknownProvider? && IsLeast(e.id, r.dependencies - s.registrations.Keys))
    || (&& r.dependencies <= s.registrations.Keys
        && exists i :: && 0 <= i < |r.needs|
                       && ProviderForRequirement(s, c, r.needs[i]) == Err(e)
                       && forall j | 0 <= j < i :: ProviderForRequirement(s, c, r.needs[j]).Ok?)
  }

  /** The fault of the least consumer that has one. */
  ghost predicate FirstFault(s: State, e: RegistryError) {
    exists c :: && c in s.registrations
                && FaultOf(s, c, e)
                && forall b | b in s.registrations && Less(b, c) :: Satisfied(s, b)
  }

  /** The order a registry resolves to: the least of all topological orders. */
  ghost predicate IsActivationOrder(s: State, order: seq<Id>) {
    LexLeastTopological(GraphOf(s), order) && Greedy(GraphOf(s), order)
  }

  /** An edge is an explicit dependency, or an offer of the ability a need names. */
  lemma EdgesAreDeclared(s: State, p: Id, c: Id)
    requires WellFormed(s)
    ensures Edge(GraphOf(s), p, c) <==>
              && p in s.registrations && c in s.registrations
              && (p in s.registrations[c].dependencies
                  || exists d, o :: d in s.registrations[c].needs && o in s.registrations[p].offers
                                    && o.name == d.name && o.scope == d.scope)
  {
    if p in s.registrations && c in s.registrations {
      forall d, o | d in s.registrations[c].needs && o in s.registrations[p].offers && o.name == d.name && o.scope == d.scope
        ensures p in ProvidersOf(s, c)
      {
        assert Indexed(s, p, o);
      }
      forall d | d in s.registrations[c].needs && KeyOf(d) in s.providers && s.providers[KeyOf(d)].provider == p
        ensures exists o :: o in s.registrations[p].offers && o.name == d.name && o.scope == d.scope
      {
        assert Backed(s, KeyOf(d));
      }
    }
  }

  /** An entry is satisfied when what it depends on is registered and every need is offered exactly. */
  lemma SatisfiedIsOffered(s: State, c: Id)
    requires WellFormed(s) && c in s.registrations
    ensures Satisfied(s, c) <==>
              && (forall p | p in s.registrations[c].dependencies :: p in s.registrations)
              && (forall d | d in s.registrations[c].needs :: exists p :: p in s.registrations && d in s.registrations[p].offers)
  {
    forall d | d in s.registrations[c].needs { NeedIsMetByItsOffer(s, c, d); }
  }

  /** What each fault says about the registrations. */
  lemma FaultsAreTrue(s: State, e: RegistryError)
    requires WellFormed(s) && FirstFault(s, e)
    ensures e.UnknownProvider? || e.MissingRequirement? || e.VersionMismatch?
    ensures e.UnknownProvider? ==> e.id !in s.registrations && exists c :: c in s.registrations && e.id in s.registrations[c].dependencies
    ensures e.MissingRequirement? ==>
              && e.consumer in s.registrations && e.requirement in s.registrations[e.consumer].needs
              && forall p, o | p in s.registrations && o in s.registrations[p].offers :: !SameAbility(o, e.requirement)
    ensures e.VersionMismatch? ==>
              && e.consumer in s.registrations && e.requirement in s.registrations[e.consumer].needs
              && e.provider in s.registrations && e.providedApi != e.requirement.api
              && Descriptor(e.requirement.name, e.providedApi, e.requirement.scope) in s.registrations[e.provider].offers
  {
    var c :| c in s.registrations && FaultOf(s, c, e);
    var r := s.registrations[c];
    if !(e.UnknownProvider? && IsLeast(e.id, r.dependencies - s.registrations.Keys)) {
      var i :| 0 <= i < |r.needs| && ProviderForRequirement(s, c, r.needs[i]) == Err(e);
      LookupFaultIsTrue(s, c, r.needs[i], e);
    }
  }

  lemma LookupFaultIsTrue(s: State, c: Id, need: Descriptor, e: RegistryError)
    requires WellFormed(s) && ProviderForRequirement(s, c, need) == Err(e)
    ensures e == MissingRequirement(c, need) || e.VersionMismatch?
    ensures e.MissingRequirement? ==> forall p, o | p in s.registrations && o in s.registrations[p].offers :: !SameAbility(o, need)
    ensures e.VersionMismatch? ==>
              && e.consumer == c && e.requirement == need && e.provider in s.registrations && e.providedApi != need.api
              && Descriptor(need.name, e.providedApi, need.scope) in s.registrations[e.provider].offers
  {
    NeedIsMetByItsOffer(s, c, need);
    if KeyOf(need) in s.providers { assert Backed(s, KeyOf(need)); }
  }

  lemma GraphOfIsClosed(s: State)
    ensures Closed(GraphOf(s))
  {}

  /** A faulty registry has no order. */
  lemma FirstFaultIsUnsatisfied(s: State, e: RegistryError)
    requires FirstFault(s, e)
    ensures !AllSatisfied(s) && !e.DependencyCycle?
  {
    var c :| c in s.registrations && FaultOf(s, c, e);
    var r := s.registrations[c];
    if r.dependencies <= s.registrations.Keys {
      var i :| 0 <= i < |r.needs| && ProviderForRequirement(s, c, r.needs[i]) == Err(e);
      assert r.needs[i] in r.needs;
    }
    assert !Satisfied(s, c);
  }

  /** The owners of satisfied needs are registered, so the lookups in the graph cannot fail. */
  lemma ProvidersAreNodes(s: State, c: Id)
    requires WellFormed(s) && c in s.registrations && s.registrations[c].dependencies <= s.registrations.Keys
    ensures ProvidersOf(s, c) <= s.registrations.Keys
  {
    forall p | p in ProvidersOf(s, c) ensures p in s.registrations {
      if p !in s.registrations[c].dependencies {
        var d :| d in s.registrations[c].needs && KeyOf(d) in s.providers && s.providers[KeyOf(d)].provider == p;
        assert Backed(s, KeyOf(d));
      }
    }
  }

  lemma PendingInGraphOf(s: State, c: Id)
    requires c in s.registrations && ProvidersOf(s, c) <= s.registrations.Keys
    ensures Pending(GraphOf(s), c, {}) == ProvidersOf(s, c)
  {}

  // ----- Kahn's loop

  ghost predicate CountsPending(g: Graph, counts: map<Id, nat>, done: set<Id>) {
    && counts.Keys == g.Keys
    && forall c | c in g :: counts[c] == |Pending(g, c, done)|
  }

  /** Half-way through the dependents of `p`: those in `rest` have not been counted down. */
  ghost predicate CountsBetween(g: Graph, counts: map<Id, nat>, done: set<Id>, p: Id, rest: set<Id>)
    requires p in g
  {
    && counts.Keys == g.Keys
    && forall c | c in g :: counts[c] == |Pending(g, c, if c in g[p] - rest then done + {p} else done)|
  }

  lemma CountDown(g: Graph, counts: map<Id, nat>, done: set<Id>, p: Id, rest: set<Id>, c: Id)
    requires p in g && p !in done && Closed(g) && rest <= g[p] && c in rest
    requires CountsBetween(g, counts, done, p, rest)
    ensures counts[c] > 0
    ensures CountsBetween(g, counts[c := counts[c] - 1], done, p, rest - {c})
    ensures Released(g, g[p] - (rest - {c}), done, p)
            == Released(g, g[p] - rest, done, p) + if counts[c] == 1 then {c} else {}
  {
    PendingAfter(g, c, done, p);
    assert g[p] - (rest - {c}) == g[p] - rest + {c};
  }

  lemma AllCountedDown(g: Graph, counts: map<Id, nat>, done: set<Id>, p: Id)
    requires p in g && p !in done && CountsBetween(g, counts, done, p, {})
    ensures CountsPending(g, counts, done + {p})
  {
    forall c | c in g ensures counts[c] == |Pending(g, c, done + {p})| {
      PendingAfter(g, c, done, p);
    }
  }

  /** Counts down every dependent of `p`; no count is zero before it is decremented. */
  method Release(g: Graph, counts0: map<Id, nat>, ready0: set<Id>, p: Id, ghost done: set<Id>)
    returns (counts: map<Id, nat>, ready: set<Id>)
    requires Closed(g) && p in g && p !in done && CountsPending(g, counts0, done)
    ensures CountsPending(g, counts, done + {p})
    ensures ready == ready0 + Released(g, g[p], done, p)
  {
    counts, ready := counts0, ready0;
    var rest := g[p];
    while rest != {}
      invariant rest <= g[p]
      invariant CountsBetween(g, counts, done, p, rest)
      invariant ready == ready0 + Released(g, g[p] - rest, done, p)
      decreases rest
    {
      var c := PickLeast(rest);
      CountDown(g, counts, done, p, rest, c);
      counts := counts[c := counts[c] - 1];
      if counts[c] == 0 { ready := ready + {c}; }
      rest := rest - {c};
    }
    AllCountedDown(g, counts, done, p);
    assert g[p] - {} == g[p];
  }

  lemma NothingReadyMeansStalled(g: Graph, done: set<Id>)
    requires done <= g.Keys && Available(g, done) == {}
    ensures done != g.Keys ==> Stalled(g, g.Keys - done)
  {
    if done != g.Keys {
      var n :| n in g && n !in done;
      assert n in g.Keys - done;
    }
    forall n | n in g.Keys - done ensures Waits(g, g.Keys - done, n) {
      assert n !in Available(g, done);
      var q :| q in Pending(g, n, done);
      assert Edge(g, q, n);
    }
  }

  ghost predicate KahnInvariant(g: Graph, counts: map<Id, nat>, ready: set<Id>, order: seq<Id>) {
    && Elements(order) <= g.Keys
    && CountsPending(g, counts, Elements(order))
    && ready == Available(g, Elements(order))
    && (forall n | n in Elements(order) :: Pending(g, n, Elements(order)) == {})
    && Greedy(g, order)
  }

  /** Repeatedly take the least ready node; stop when none is left. */
  method Kahn(g: Graph, counts0: map<Id, nat>) returns (order: seq<Id>)
    requires Closed(g) && CountsPending(g, counts0, {})
    ensures Greedy(g, order) && Elements(order) <= g.Keys
    ensures Elements(order) != g.Keys ==> Stalled(g, g.Keys - Elements(order))
  {
    var counts := counts0;
    var ready := set p | p in counts && counts[p] == 0;
    order := [];
    assert Elements(order) == {};
    while ready != {}
      invariant KahnInvariant(g, counts, ready, order)
      decreases g.Keys - Elements(order)
    {
      var p := PickLeast(ready);
      GreedyExtends(g, order, p);
      AvailableAfter(g, Elements(order), p);
      counts, ready := Release(g, counts, ready - {p}, p, Elements(order));
      order := order + [p];
    }
    NothingReadyMeansStalled(g, Elements(order));
  }
}
