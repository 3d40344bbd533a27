/** Lifecycle planning: what a change affects, and in which order plugins are activated. */
module Lifecycle {
  import opened Ids
  import opened Graphs
  import opened Capabilities
  import opened Activation
  import opened CapabilityRegistries
  import opened PluginGraphs

  /** The set builds a graph and that graph has an activation order. */
  ghost predicate Resolves(registryId: nat, plugins: seq<Plugin>) {
    CapabilityGraph(registryId, plugins).Ok? && Resolvable(CapabilityGraph(registryId, plugins).value)
  }

  // ----- the dependent closure

  predicate Uses(p: Plugin, q: Plugin) {
    exists d :: d in p.AllNeeds() && d in q.AllOffers()
  }

  /** Whoever needs something offered from inside the set is inside as well. */
  ghost predicate ClosedUnder(plugins: seq<Plugin>, s: set<Id>) {
    forall p, q | p in plugins && q in plugins && q.id in s && Uses(p, q) :: p.id in s
  }

  /** The least set with the root that is closed under use. */
  ghost predicate IsDependentClosure(plugins: seq<Plugin>, root: Id, s: set<Id>) {
    && root in s
    && ClosedUnder(plugins, s)
    && forall other | root in other && ClosedUnder(plugins, other) :: s <= other
  }

  method DependentClosure(plugins: seq<Plugin>, root: Id) returns (affected: set<Id>)
    ensures IsDependentClosure(plugins, root, affected)
  {
    affected := {root};
    var all := {root} + set p | p in plugins :: p.id;
    while true
      invariant root in affected && affected <= all
      invariant forall other | root in other && ClosedUnder(plugins, other) :: affected <= other
      decreases all - affected
    {
      var provided := set q, d | q in plugins && q.id in affected && d in q.AllOffers() :: d;
      var dependents := set p | p in plugins && (exists d :: d in p.AllNeeds() && d in provided) :: p.id;
      DependentsAreForced(plugins, affected, provided, dependents);
      var before := affected;
      affected := affected + dependents;
      SubsetCardinality(before, affected);
      if |affected| == |before| {
        return;
      }
    }
  }

  /** One round adds exactly the users of the set so far. */
  lemma DependentsAreForced(plugins: seq<Plugin>, affected: set<Id>, provided: set<Descriptor>, dependents: set<Id>)
    requires provided == set q, d | q in plugins && q.id in affected && d in q.AllOffers() :: d
    requires dependents == set p | p in plugins && (exists d :: d in p.AllNeeds() && d in provided) :: p.id
    ensures forall other | affected <= other && ClosedUnder(plugins, other) :: dependents <= other
    ensures dependents <= affected ==> ClosedUnder(plugins, affected)
  {
    forall other, id | affected <= other && ClosedUnder(plugins, other) && id in dependents ensures id in other {
      var p :| p in plugins && p.id == id && exists d :: d in p.AllNeeds() && d in provided;
      var d :| d in p.AllNeeds() && d in provided;
      var q :| q in plugins && q.id in affected && d in q.AllOffers();
      assert Uses(p, q);
    }
    if dependents <= affected {
      forall p, q | p in plugins && q in plugins && q.id in affected && Uses(p, q) ensures p.id in affected {
        var d :| d in p.AllNeeds() && d in q.AllOffers();
        assert d in provided;
        assert p.id in dependents;
      }
    }
  }

  // ----- removing a closed set

  lemma {:induction false} WithoutLaunchMembers(offers: seq<Descriptor>)
    ensures forall d :: d in WithoutLaunch(offers) <==> d in offers && d != LAUNCH
  {
    if offers != [] {
      WithoutLaunchMembers(offers[1..]);
      assert forall d :: d in offers <==> d == offers[0] || d in offers[1..];
    }
  }

  lemma DeclaredOffers(p: Plugin, e: Id, r: Registration, d: Descriptor)
    requires Declares(p, e, r)
    ensures d in r.offers ==> d in p.AllOffers()
    ensures d in r.needs ==> d in p.AllNeeds()
    ensures ValidUnqualified(p.id) ==> PluginOf(e) == p.id
  {
    WithoutLaunchMembers(p.HostOffers());
    if ValidUnqualified(p.id) { EntryOwners(p.id); }
  }

  /** A need met in the whole set is met by exactly that descriptor. */
  lemma MetExactly(s: State, c: Id, d: Descriptor)
    requires WellFormed(s) && c in s.registrations && Satisfied(s, c) && d in s.registrations[c].needs
    ensures KeyOf(d) in s.providers && s.providers[KeyOf(d)].descriptor == d
    ensures s.providers[KeyOf(d)].provider in s.registrations
    ensures d in s.registrations[s.providers[KeyOf(d)].provider].offers
  {
    assert ProviderForRequirement(s, c, d).Ok?;
    assert Backed(s, KeyOf(d));
  }

  /** The provider of a kept consumer's need is kept, or the removed set was not closed. */
  lemma ProviderIsKept(s: State, plugins: seq<Plugin>, removed: set<Id>, c: Id, d: Descriptor)
    requires Mirrors(s, plugins) && Parsed(plugins) && ClosedUnder(plugins, removed)
    requires c in s.registrations && Kept(removed, c) && Satisfied(s, c) && d in s.registrations[c].needs
    ensures KeyOf(d) in s.providers && Kept(removed, s.providers[KeyOf(d)].provider)
  {
    MetExactly(s, c, d);
    var owner := s.providers[KeyOf(d)].provider;
    if owner != BUILTIN {
      assert Declared(s, plugins, owner) && Declared(s, plugins, c);
      var q :| q in plugins && Declares(q, owner, s.registrations[owner]);
      var p :| p in plugins && Declares(p, c, s.registrations[c]);
      DeclaredOffers(q, owner, s.registrations[owner], d);
      DeclaredOffers(p, c, s.registrations[c], d);
      assert Uses(p, q);
    }
  }

  lemma RemainingIsSatisfied(t: State, s: State, plugins: seq<Plugin>, removed: set<Id>)
    requires Mirrors(s, plugins) && WellFormed(t) && Within(t, s, removed) && Parsed(plugins)
    requires forall e | e in s.registrations :: s.registrations[e].dependencies == HostLinks(plugins, e)
    requires AllSatisfied(s) && ClosedUnder(plugins, removed)
    ensures AllSatisfied(t)
  {
    forall c | c in t.registrations ensures Satisfied(t, c) {
      forall d | d in t.registrations[c].needs ensures ProviderForRequirement(t, c, d).Ok? {
        ProviderIsKept(s, plugins, removed, c, d);
        MetExactly(s, c, d);
        WithinIndex(t, s, removed, KeyOf(d));
      }
      forall e | e in t.registrations[c].dependencies ensures e in t.registrations {
        assert e in HostLinks(plugins, c);
        var p :| p in plugins && p.id == c && p.HasRuntimeHost() && p.renderer;
        assert Present(s, p);
        EntryOwners(c);
      }
    }
  }

  lemma RemainingIsSubgraph(t: State, s: State, removed: set<Id>)
    requires WellFormed(t) && WellFormed(s) && Within(t, s, removed)
    ensures forall p, c | Edge(GraphOf(t), p, c) :: Edge(GraphOf(s), p, c)
  {
    forall p, c | Edge(GraphOf(t), p, c) ensures Edge(GraphOf(s), p, c) {
      if p !in t.registrations[c].dependencies {
        var d :| d in t.registrations[c].needs && KeyOf(d) in t.providers && t.providers[KeyOf(d)].provider == p;
        WithinIndex(t, s, removed, KeyOf(d));
      }
    }
  }

  /** Taking away any set that is closed under use leaves a set that still resolves. */
  lemma RemovalKeepsResolving(registryId: nat, plugins: seq<Plugin>, removed: set<Id>)
    requires Parsed(plugins) && Resolves(registryId, plugins) && ClosedUnder(plugins, removed)
    ensures Resolves(registryId, Without(plugins, removed))
  {
    WithoutMembers(plugins, removed);
    CapabilityGraphWithin(registryId, plugins, removed);
    CapabilityGraphMirrors(registryId, plugins);
    CapabilityGraphMirrors(registryId, Without(plugins, removed));
    var s := CapabilityGraph(registryId, plugins).value;
    var t := CapabilityGraph(registryId, Without(plugins, removed)).value;
    RemainingIsSatisfied(t, s, plugins, removed);
    RemainingIsSubgraph(t, s, removed);
    SubgraphAcyclic(GraphOf(s), GraphOf(t));
  }

  /** The launch ABI stays private to hosts, as the loader's renderer routing check guarantees. */
  ghost predicate LaunchIsPrivate(plugins: seq<Plugin>) {
    forall p | p in plugins :: LAUNCH !in p.RendererOffers()
  }

  lemma OffersAreRegistered(s: State, plugins: seq<Plugin>, q: Plugin, d: Descriptor)
    requires Mirrors(s, plugins) && q in plugins && ValidUnqualified(q.id) && d in q.AllOffers() && d != LAUNCH
    ensures KeyOf(d) in s.providers && s.providers[KeyOf(d)].descriptor == d
    ensures PluginOf(s.providers[KeyOf(d)].provider) == q.id && s.providers[KeyOf(d)].provider != BUILTIN
  {
    WithoutLaunchMembers(q.HostOffers());
    EntryOwners(q.id);
    assert Present(s, q);
    var e := if d in q.RendererOffers() then q.id else HostId(q.id);
    assert Indexed(s, e, d);
  }

  lemma LaunchIsNeverRegistered(s: State, plugins: seq<Plugin>, e: Id)
    requires Mirrors(s, plugins) && LaunchIsPrivate(plugins) && e in s.registrations
    ensures LAUNCH !in s.registrations[e].offers
  {
    if e != BUILTIN {
      assert Declared(s, plugins, e);
      var p :| p in plugins && Declares(p, e, s.registrations[e]);
      WithoutLaunchMembers(p.HostOffers());
    }
  }

  /** If what remains resolves, nobody left outside uses what was taken away. */
  lemma ResolvingMeansClosed(registryId: nat, plugins: seq<Plugin>, removed: set<Id>)
    requires Parsed(plugins) && Resolves(registryId, plugins) && LaunchIsPrivate(plugins)
    requires Resolves(registryId, Without(plugins, removed))
    ensures ClosedUnder(plugins, removed)
  {
    WithoutMembers(plugins, removed);
    CapabilityGraphWithin(registryId, plugins, removed);
    CapabilityGraphMirrors(registryId, plugins);
    CapabilityGraphMirrors(registryId, Without(plugins, removed));
    var s := CapabilityGraph(registryId, plugins).value;
    var t := CapabilityGraph(registryId, Without(plugins, removed)).value;
    forall p, q | p in plugins && q in plugins && q.id in removed && Uses(p, q) ensures p.id in removed {
      if p.id !in removed { KeptUserIsMet(t, s, plugins, removed, p, q); }
    }
  }

  /** The entry of a present plugin that declares a need. */
  lemma NeedIsDeclared(t: State, p: Plugin, d: Descriptor) returns (c: Id)
    requires Present(t, p) && d in p.AllNeeds()
    ensures c in t.registrations && d in t.registrations[c].needs
    ensures c == if d in p.RendererNeeds() then p.id else HostId(p.id)
  {
    c := if d in p.RendererNeeds() then p.id else HostId(p.id);
  }

  /** A user that stays behind has its need met by a plugin that stays behind. */
  lemma KeptUserIsMet(t: State, s: State, plugins: seq<Plugin>, removed: set<Id>, p: Plugin, q: Plugin)
    requires Mirrors(s, plugins) && Mirrors(t, Without(plugins, removed)) && Within(t, s, removed)
    requires Parsed(plugins) && LaunchIsPrivate(plugins) && AllSatisfied(t)
    requires p in plugins && q in plugins && p.id !in removed && Uses(p, q)
    ensures q.id !in removed
  {
    WithoutMembers(plugins, removed);
    var d :| d in p.AllNeeds() && d in q.AllOffers();
    var c := NeedIsDeclared(t, p, d);
    MetExactly(t, c, d);
    LaunchIsNeverRegistered(t, Without(plugins, removed), t.providers[KeyOf(d)].provider);
    OffersAreRegistered(s, plugins, q, d);
    WithinIndex(t, s, removed, KeyOf(d));
  }

  /** A set can be taken away exactly when it is closed under use. */
  lemma RemovableIffClosed(registryId: nat, plugins: seq<Plugin>, removed: set<Id>)
    requires Parsed(plugins) && Resolves(registryId, plugins) && LaunchIsPrivate(plugins)
    ensures Resolves(registryId, Without(plugins, removed)) <==> ClosedUnder(plugins, removed)
  {
    if ClosedUnder(plugins, removed) { RemovalKeepsResolving(registryId, plugins, removed); }
    if Resolves(registryId, Without(plugins, removed)) { ResolvingMeansClosed(registryId, plugins, removed); }
  }

  /** So the closure of a root is the least set with it whose removal leaves a resolving set. */
  lemma ClosureIsLeastRemovable(registryId: nat, plugins: seq<Plugin>, root: Id, closure: set<Id>)
    requires Parsed(plugins) && Resolves(registryId, plugins) && LaunchIsPrivate(plugins)
    requires IsDependentClosure(plugins, root, closure)
    ensures Resolves(registryId, Without(plugins, closure))
    ensures forall other | root in other && Resolves(registryId, Without(plugins, other)) :: closure <= other
  {
    RemovableIffClosed(registryId, plugins, closure);
    forall other | root in other && Resolves(registryId, Without(plugins, other)) ensures closure <= other {
      RemovableIffClosed(registryId, plugins, other);
    }
  }
}
