/** Told from the registrations and the history of operations: which calls run, which offer meets a need, what is refused. */
module CapabilityCalls {
  import opened Results
  import opened Ids
  import opened Capabilities

  // ----- which offer meets a need

  ghost predicate SameAbility(a: Descriptor, b: Descriptor) {
    a.name == b.name && a.scope == b.scope
  }

  /** A need finds the one registration that offers exactly it; another version of it, or none, is the error. */
  lemma NeedIsMetByItsOffer(s: State, consumer: Id, need: Descriptor)
    requires WellFormed(s)
    ensures forall id | id in s.registrations && need in s.registrations[id].offers ::
              ProviderForRequirement(s, consumer, need)
              == Ok(Record(id, s.registrations[id].generation, s.registrations[id].epoch, need))
    ensures forall id, d | id in s.registrations && d in s.registrations[id].offers && SameAbility(d, need) && d.api != need.api ::
              ProviderForRequirement(s, consumer, need) == Err(VersionMismatch(consumer, id, need, d.api))
    ensures (forall id, d | id in s.registrations && d in s.registrations[id].offers :: !SameAbility(d, need)) ==>
              ProviderForRequirement(s, consumer, need) == Err(MissingRequirement(consumer, need))
    ensures ProviderForRequirement(s, consumer, need).Ok? ==>
              exists id :: id in s.registrations && need in s.registrations[id].offers
  {
    forall id, d | id in s.registrations && d in s.registrations[id].offers && SameAbility(d, need)
      ensures KeyOf(need) in s.providers
      ensures s.providers[KeyOf(need)] == Record(id, s.registrations[id].generation, s.registrations[id].epoch, d)
    {
      assert Indexed(s, id, d);
    }
    if KeyOf(need) in s.providers { assert Backed(s, KeyOf(need)); }
  }

  // ----- what a registration is refused for

  /** The offer at `i` names an ability that an earlier offer or a live registration already has. */
  ghost predicate Taken(s: State, offers: seq<Descriptor>, i: nat)
    requires i < |offers|
  {
    || (exists j :: 0 <= j < i && SameAbility(offers[j], offers[i]))
    || (exists id, d :: id in s.registrations && d in s.registrations[id].offers && SameAbility(d, offers[i]))
  }

  /** Who has it: the newcomer itself for a repetition, otherwise the registration that offers it. */
  ghost predicate TakenBy(s: State, id: Id, offers: seq<Descriptor>, i: nat, owner: Id)
    requires i < |offers|
  {
    if exists j :: 0 <= j < i && SameAbility(offers[j], offers[i]) then owner == id
    else exists d :: owner in s.registrations && d in s.registrations[owner].offers && SameAbility(d, offers[i])
  }

  lemma {:induction false} FirstConflictIsFirst(s: State, id: Id, offers: seq<Descriptor>, done: nat, seen: set<Key>)
    requires WellFormed(s) && done <= |offers| && seen == set j | 0 <= j < done :: KeyOf(offers[j])
    requires forall i | 0 <= i < done :: !Taken(s, offers, i)
    ensures var fault := FirstConflict(s.providers, id, offers[done..], seen);
            if fault.None? then forall i | 0 <= i < |offers| :: !Taken(s, offers, i)
            else exists i, owner :: && 0 <= i < |offers| && Taken(s, offers, i) && TakenBy(s, id, offers, i, owner)
                                    && (forall k | 0 <= k < i :: !Taken(s, offers, k))
                                    && fault == Some(CapabilityConflict(Key(offers[i].name, offers[i].scope), owner, id))
    decreases |offers| - done
  {
    if done < |offers| {
      assert offers[done..][0] == offers[done] && offers[done..][1..] == offers[done + 1..];
      TakenMeansIndexed(s, offers, done, seen);
      if KeyOf(offers[done]) in seen {
        assert TakenBy(s, id, offers, done, id);
      } else if KeyOf(offers[done]) in s.providers {
        assert TakenBy(s, id, offers, done, s.providers[KeyOf(offers[done])].provider);
      } else {
        FirstConflictIsFirst(s, id, offers, done + 1, seen + {KeyOf(offers[done])});
      }
    }
  }

  lemma TakenMeansIndexed(s: State, offers: seq<Descriptor>, i: nat, seen: set<Key>)
    requires WellFormed(s) && i < |offers| && seen == set j | 0 <= j < i :: KeyOf(offers[j])
    ensures KeyOf(offers[i]) in seen <==> exists j :: 0 <= j < i && SameAbility(offers[j], offers[i])
    ensures KeyOf(offers[i]) in s.providers <==>
              exists id, d :: id in s.registrations && d in s.registrations[id].offers && SameAbility(d, offers[i])
    ensures KeyOf(offers[i]) in s.providers ==>
              var owner := s.providers[KeyOf(offers[i])].provider;
              exists d :: owner in s.registrations && d in s.registrations[owner].offers && SameAbility(d, offers[i])
  {
    var k := KeyOf(offers[i]);
    if k in s.providers {
      assert Backed(s, k);
      assert SameAbility(s.providers[k].descriptor, offers[i]);
    }
    forall id, d | id in s.registrations && d in s.registrations[id].offers && SameAbility(d, offers[i]) ensures k in s.providers {
      assert Indexed(s, id, d);
    }
  }

  ghost predicate Registrable(s: State, id: Id, generation: nat, offers: seq<Descriptor>) {
    && (ValidUnqualified(id) || exists p :: ValidUnqualified(p) && id == HostId(p))
    && id !in s.registrations && generation > 0
    && (forall i | 0 <= i < |offers| :: !Taken(s, offers, i))
    && s.nextEpoch < MAX_EPOCH
  }

  /**
   * A registration succeeds exactly on a valid, free id, a positive generation and abilities nobody
   * has, and adds itself alone; a refusal for an ability names the first one taken and who has it.
   */
  lemma RegisterIsExact(s: State, id: Id, generation: nat, offers: seq<Descriptor>, needs: seq<Descriptor>, grants: set<string>)
    requires WellFormed(s)
    ensures var r := Register(s, id, generation, offers, needs, grants);
            && (r.Ok? <==> Registrable(s, id, generation, offers))
            && (r.Ok? ==>
                  && r.value.registrations
                     == s.registrations[id := Registration(generation, s.nextEpoch + 1, offers, needs, grants, {})]
                  && r.value.scopes == s.scopes && r.value.registryId == s.registryId)
            && (r.Err? && id in s.registrations && ValidProviderId(id) ==> r.error == ProviderConflict(id))
            && (r.Err? && r.error.CapabilityConflict? ==>
                  exists i, owner :: && 0 <= i < |offers| && Taken(s, offers, i) && TakenBy(s, id, offers, i, owner)
                                     && (forall k | 0 <= k < i :: !Taken(s, offers, k))
                                     && r.error == CapabilityConflict(Key(offers[i].name, offers[i].scope), owner, id))
  {
    FirstConflictIsFirst(s, id, offers, 0, {});
    assert offers[0..] == offers;
    ValidIdIsPlainOrHost(id);
  }

  lemma ValidIdIsPlainOrHost(id: Id)
    ensures ValidProviderId(id) <==> ValidUnqualified(id) || exists p :: ValidUnqualified(p) && id == HostId(p)
  {
    if p :| ValidUnqualified(p) && id == HostId(p) { HostIdFacts(p); }
  }

  // ----- the other operations

  /** Unregistering takes the one registration, and with it its offers, and leaves everything else. */
  lemma UnregisterIsExact(s: State, id: Id, consumer: Id, need: Descriptor)
    requires WellFormed(s)
    ensures ValidProviderId(id) ==>
              && Unregister(s, id).Ok? && Unregister(s, id).value.1 == (id in s.registrations)
              && var t := Unregister(s, id).value.0;
                 && t.registrations == s.registrations - {id} && t.scopes == s.scopes && t.nextEpoch == s.nextEpoch
                 && (ProviderForRequirement(t, consumer, need).Ok? <==>
                       exists other :: other in s.registrations && other != id && need in s.registrations[other].offers)
    ensures !ValidProviderId(id) ==> Unregister(s, id) == Err(InvalidProviderId(id))
  {
    if ValidProviderId(id) {
      var t := Unregister(s, id).value.0;
      if id in s.registrations { UnregisterKeepsWellFormed(s, id); }
      NeedIsMetByItsOffer(t, consumer, need);
      forall other | other in s.registrations && other != id && need in s.registrations[other].offers
        ensures ProviderForRequirement(t, consumer, need).Ok?
      {
        assert other in t.registrations && t.registrations[other] == s.registrations[other];
      }
    }
  }

  /** A scope that is not active becomes active under the next epoch, and nothing else changes. */
  lemma ActivateIsExact(s: State, scope: ScopeInstance)
    ensures Activate(s, scope).Ok? <==> scope !in s.scopes && s.nextEpoch != MAX_EPOCH
    ensures Activate(s, scope).Ok? ==>
              && Activate(s, scope).value == s.(scopes := Activate(s, scope).value.scopes, nextEpoch := s.nextEpoch + 1)
              && scope in Activate(s, scope).value.scopes
              && Activate(s, scope).value.scopes[scope] == s.nextEpoch + 1
              && Activate(s, scope).value.scopes - {scope} == s.scopes
    ensures scope in s.scopes ==> Activate(s, scope) == Err(ScopeAlreadyActive(scope))
    ensures scope !in Deactivate(s, scope).scopes
    ensures forall other | other != scope ::
              (other in s.scopes <==> other in Deactivate(s, scope).scopes)
              && (other in s.scopes ==> Deactivate(s, scope).scopes[other] == s.scopes[other])
    ensures Deactivate(s, scope) == s.(scopes := Deactivate(s, scope).scopes)
  {}

  /** So a principal can be issued for an activated scope exactly when its consumer is registered in that generation. */
  lemma ActivatedScopeIssues(s: State, scope: ScopeInstance, consumer: Id, generation: nat)
    requires Activate(s, scope).Ok?
    ensures var t := Activate(s, scope).value;
            var r := IssuePrincipal(t, consumer, generation, scope);
            && (r.Ok? <==> consumer in s.registrations && s.registrations[consumer].generation == generation)
            && (r.Ok? ==> r.value.scope == scope && r.value.scopeGeneration == s.nextEpoch + 1
                          && r.value.consumer == consumer && r.value.grants == s.registrations[consumer].grants)
  {}

  // ----- which calls run

  /** The operations that end a principal. */
  predicate EndsPrincipal(op: Op, consumer: Id, scope: ScopeInstance) {
    op == UnregisterOp(consumer) || op == DeactivateOp(scope)
  }

  predicate Within(ops: seq<Op>, consumer: Id, scope: ScopeInstance) {
    exists op :: op in ops && EndsPrincipal(op, consumer, scope)
  }

  lemma StepDecidesPrincipal(s: State, op: Op, p: Principal)
    requires WellFormed(s) && PrincipalIsCurrent(s, p)
    ensures PrincipalIsCurrent(Step(s, op), p) <==> !EndsPrincipal(op, p.consumer, p.scope)
  {}

  /** Only unregistering its consumer or deactivating its scope ends a principal. */
  lemma {:induction false} RunDecidesPrincipal(s: State, ops: seq<Op>, p: Principal)
    requires WellFormed(s) && Authentic(s, p) && PrincipalIsCurrent(s, p)
    ensures PrincipalIsCurrent(Run(s, ops), p) <==> !Within(ops, p.consumer, p.scope)
    decreases |ops|
  {
    if ops != [] {
      var t := Step(s, ops[0]);
      assert forall op :: op in ops <==> op == ops[0] || op in ops[1..];
      StepKeepsWellFormed(s, ops[0]);
      StepRevokes(s, ops[0], p);
      StepDecidesPrincipal(s, ops[0], p);
      if PrincipalIsCurrent(t, p) {
        RunDecidesPrincipal(t, ops[1..], p);
      } else {
        RunRevokes(t, ops[1..], p);
      }
    }
  }

  predicate EndsLease(op: Op, l: Lease) {
    || EndsPrincipal(op, l.owner, l.ownerScope)
    || op == UnregisterOp(l.provider) || op == DeactivateOp(l.providerScope)
  }

  /** Only unregistering it ends a registration, only deactivating it a scope. */
  lemma StepKeepsLive(s: State, op: Op, id: Id, scope: ScopeInstance)
    requires WellFormed(s)
    ensures id in s.registrations ==>
              (id in Step(s, op).registrations <==> op != UnregisterOp(id))
              && (op != UnregisterOp(id) ==>
                    Step(s, op).registrations[id].(dependencies := {}) == s.registrations[id].(dependencies := {}))
    ensures scope in s.scopes ==>
              (scope in Step(s, op).scopes <==> op != DeactivateOp(scope))
              && (op != DeactivateOp(scope) ==> Step(s, op).scopes[scope] == s.scopes[scope])
    ensures Step(s, op).registryId == s.registryId
  {}

  lemma OfferStays(s: State, t: State, l: Lease)
    requires WellFormed(s) && WellFormed(t) && ProviderIsCurrent(s, l)
    requires l.provider in s.registrations && l.provider in t.registrations
    requires t.registrations[l.provider].(dependencies := {}) == s.registrations[l.provider].(dependencies := {})
    ensures ProviderIsCurrent(t, l)
  {
    assert Backed(s, KeyOf(l.requirement));
    assert Indexed(t, l.provider, l.requirement);
  }

  lemma CurrentProviderIsLive(t: State, l: Lease)
    requires WellFormed(t)
    ensures ProviderIsCurrent(t, l) ==> l.provider in t.registrations
  {
    if ProviderIsCurrent(t, l) { assert Backed(t, KeyOf(l.requirement)); }
  }

  lemma StepDecidesLease(s: State, op: Op, l: Lease)
    requires WellFormed(s) && LeaseIsCurrent(s, l)
    ensures LeaseIsCurrent(Step(s, op), l) <==> !EndsLease(op, l)
  {
    var t := Step(s, op);
    StepKeepsWellFormed(s, op);
    assert Backed(s, KeyOf(l.requirement));
    StepKeepsLive(s, op, l.provider, l.providerScope);
    StepKeepsLive(s, op, l.owner, l.ownerScope);
    DecidedLease(s, t, op, l);
  }

  lemma DecidedLease(s: State, t: State, op: Op, l: Lease)
    requires WellFormed(s) && WellFormed(t) && LeaseIsCurrent(s, l) && l.provider in s.registrations && t.registryId == s.registryId
    requires forall id | id in {l.owner, l.provider} ::
               (id in t.registrations <==> op != UnregisterOp(id))
               && (op != UnregisterOp(id) ==> t.registrations[id].(dependencies := {}) == s.registrations[id].(dependencies := {}))
    requires forall scope | scope in {l.ownerScope, l.providerScope} ::
               (scope in t.scopes <==> op != DeactivateOp(scope))
               && (op != DeactivateOp(scope) ==> t.scopes[scope] == s.scopes[scope])
    ensures LeaseIsCurrent(t, l) <==> !EndsLease(op, l)
  {
    if op == UnregisterOp(l.provider) { CurrentProviderIsLive(t, l); } else { OfferStays(s, t, l); }
    assert OwnerIsCurrent(t, l) <==> op != UnregisterOp(l.owner);
  }

  lemma {:induction false} RunDecidesLease(s: State, ops: seq<Op>, l: Lease)
    requires WellFormed(s) && AuthenticLease(s, l) && LeaseIsCurrent(s, l)
    ensures LeaseIsCurrent(Run(s, ops), l) <==> !exists op :: op in ops && EndsLease(op, l)
    decreases |ops|
  {
    if ops != [] {
      var t := Step(s, ops[0]);
      assert forall op :: op in ops <==> op == ops[0] || op in ops[1..];
      StepKeepsWellFormed(s, ops[0]);
      StepRevokesLease(s, ops[0], l);
      StepDecidesLease(s, ops[0], l);
      if LeaseIsCurrent(t, l) {
        RunDecidesLease(t, ops[1..], l);
      } else {
        RunRevokesLease(t, ops[1..], l);
      }
    }
  }

  /** What a resolved lease names. */
  lemma ResolvedFacts(t: State, p: Principal, need: Descriptor, l: Lease)
    requires WellFormed(t) && ResolveCapability(t, p, need) == Ok(l)
    ensures PrincipalIsCurrent(t, p) && IsOwnedBy(l, p) && LeaseIsCurrent(t, l) && AuthenticLease(t, l)
    ensures l.requirement == need && l.providerScope == if need.scope == RuntimeScope then Runtime else p.scope
    ensures l.provider in t.registrations && need in t.registrations[l.provider].offers
  {
    assert Backed(t, KeyOf(need));
  }

  lemma CallsFrom(t: State, c: seq<Op>, p: Principal, need: Descriptor, l: Lease)
    requires WellFormed(t) && Authentic(t, p) && ResolveCapability(t, p, need) == Ok(l)
    ensures var runtime := if need.scope == RuntimeScope then Runtime else p.scope;
            InvokeGuard(Run(t, c), p, l)
            == if UnregisterOp(p.consumer) in c || DeactivateOp(p.scope) in c then Some(StalePrincipal(p.consumer, p.scope))
               else if UnregisterOp(l.provider) in c || DeactivateOp(runtime) in c then Some(StaleLease(p.consumer, need, p.scope))
               else None
  {
    ResolvedFacts(t, p, need, l);
    RunDecidesPrincipal(t, c, p);
    RunDecidesLease(t, c, l);
    EndedBy(c, l, p);
  }

  /**
   * A principal issued after `a`, a lease it resolved after `b`, a call after `c`: the call runs
   * exactly if nothing in `c` unregistered consumer or provider or deactivated the principal's scope
   * or the provider's, which is the runtime's for a runtime need and otherwise the principal's own.
   */
  lemma CallsRunUntilRevoked(
    registryId: nat, a: seq<Op>, b: seq<Op>, c: seq<Op>, consumer: Id, generation: nat, scope: ScopeInstance, need: Descriptor)
    requires IssuePrincipal(Run(Empty(registryId), a), consumer, generation, scope).Ok?
    requires var s := Run(Empty(registryId), a);
             ResolveCapability(Run(s, b), IssuePrincipal(s, consumer, generation, scope).value, need).Ok?
    ensures var s := Run(Empty(registryId), a);
            var p := IssuePrincipal(s, consumer, generation, scope).value;
            var l := ResolveCapability(Run(s, b), p, need).value;
            var runtime := if need.scope == RuntimeScope then Runtime else scope;
            && l.provider in Run(s, b).registrations && need in Run(s, b).registrations[l.provider].offers
            && InvokeGuard(Run(Run(s, b), c), p, l)
               == if UnregisterOp(consumer) in c || DeactivateOp(scope) in c then Some(StalePrincipal(consumer, scope))
                  else if UnregisterOp(l.provider) in c || DeactivateOp(runtime) in c then Some(StaleLease(consumer, need, scope))
                  else None
  {
    var s := Run(Empty(registryId), a);
    var p := IssuePrincipal(s, consumer, generation, scope).value;
    var t := Run(s, b);
    ReachableIsWellFormed(registryId, a);
    RunKeepsWellFormed(s, b);
    RunRevokes(s, b, p);
    ResolvedFacts(t, p, need, ResolveCapability(t, p, need).value);
    CallsFrom(t, c, p, need, ResolveCapability(t, p, need).value);
  }

  lemma EndedBy(c: seq<Op>, l: Lease, p: Principal)
    requires IsOwnedBy(l, p)
    ensures Within(c, p.consumer, p.scope) <==> UnregisterOp(p.consumer) in c || DeactivateOp(p.scope) in c
    ensures (exists op :: op in c && EndsLease(op, l)) <==>
              Within(c, p.consumer, p.scope) || UnregisterOp(l.provider) in c || DeactivateOp(l.providerScope) in c
  {
    if UnregisterOp(p.consumer) in c { assert EndsPrincipal(UnregisterOp(p.consumer), p.consumer, p.scope); }
    if DeactivateOp(p.scope) in c { assert EndsPrincipal(DeactivateOp(p.scope), p.consumer, p.scope); }
    if UnregisterOp(l.provider) in c { assert EndsLease(UnregisterOp(l.provider), l); }
    if DeactivateOp(l.providerScope) in c { assert EndsLease(DeactivateOp(l.providerScope), l); }
    if op :| op in c && EndsPrincipal(op, p.consumer, p.scope) { assert EndsLease(op, l); }
  }

  /** Deactivating the provider's scope ends the lease for good, whatever is activated again. */
  lemma ProviderScopeRevokesForGood(
    registryId: nat, a: seq<Op>, c: seq<Op>, p: Principal, need: Descriptor)
    requires ResolveCapability(Run(Empty(registryId), a), p, need).Ok?
    ensures var s := Run(Empty(registryId), a);
            var l := ResolveCapability(s, p, need).value;
            && l.providerScope == (if need.scope == RuntimeScope then Runtime else p.scope)
            && InvokeGuard(Run(Step(s, DeactivateOp(l.providerScope)), c), p, l).Some?
  {
    var s := Run(Empty(registryId), a);
    ReachableIsWellFormed(registryId, a);
    var l := ResolveCapability(s, p, need).value;
    var op := DeactivateOp(l.providerScope);
    assert Backed(s, KeyOf(need));
    StepRevokesLease(s, op, l);
    StepKeepsWellFormed(s, op);
    StepDecidesLease(s, op, l);
    RunRevokesLease(Step(s, op), c, l);
  }

  /** A lease serves the principal that resolved it and no other one ever issued. */
  lemma LeaseServesItsOwner(
    registryId: nat, a: seq<Op>, b: seq<Op>, c: seq<Op>, q: Principal, need: Descriptor,
    consumer: Id, generation: nat, scope: ScopeInstance)
    requires ResolveCapability(Run(Empty(registryId), a), q, need).Ok?
    requires IssuePrincipal(Run(Run(Empty(registryId), a), b), consumer, generation, scope).Ok?
    ensures var s := Run(Empty(registryId), a);
            var p := IssuePrincipal(Run(s, b), consumer, generation, scope).value;
            InvokeGuard(Run(Run(s, b), c), p, ResolveCapability(s, q, need).value).None? ==>
              consumer == q.consumer && scope == q.scope && generation == q.generation
              && p.registration == q.registration && p.scopeGeneration == q.scopeGeneration
  {}

  /** A runtime need can be met from anywhere, any other from a scope of its own kind. */
  predicate Fits(need: Scope, scope: ScopeInstance) {
    || need == RuntimeScope || (need == TargetScope && scope.Target?)
    || (need == BackendSessionScope && scope.BackendSession?) || (need == ThreadScope && scope.Thread?)
  }

  /** What resolving answers a current principal, from the declarations, the active scopes and the offers. */
  ghost predicate Answers(t: State, consumer: Id, scope: ScopeInstance, need: Descriptor, r: Result<Lease, AccessError>)
    requires consumer in t.registrations
  {
    var runtime := if need.scope == RuntimeScope then Runtime else scope;
    if need !in t.registrations[consumer].needs then r == Err(UndeclaredRequirement(consumer, need))
    else if !Fits(need.scope, scope) then r == Err(ScopeMismatch(need, scope))
    else if runtime !in t.scopes then r == Err(ScopeInactive(runtime))
    else
      && (r.Ok? <==> exists id :: id in t.registrations && need in t.registrations[id].offers)
      && (forall id, d | id in t.registrations && d in t.registrations[id].offers && SameAbility(d, need) && d.api != need.api ::
            r == Err(Registry(VersionMismatch(consumer, id, need, d.api))))
      && ((forall id, d | id in t.registrations && d in t.registrations[id].offers :: !SameAbility(d, need)) ==>
            r == Err(Registry(MissingRequirement(consumer, need))))
      && (r.Ok? ==> r.value.provider in t.registrations && need in t.registrations[r.value.provider].offers
                    && r.value.providerScope == runtime && r.value.requirement == need)
  }

  lemma ResolveAnswers(t: State, p: Principal, need: Descriptor)
    requires WellFormed(t) && PrincipalIsCurrent(t, p)
    ensures Answers(t, p.consumer, p.scope, need, ResolveCapability(t, p, need))
  {
    NeedIsMetByItsOffer(t, p.consumer, need);
  }

  /** A principal resolves until it is ended, and what it gets is told from the registry of that moment. */
  lemma ResolveIsExact(
    registryId: nat, a: seq<Op>, b: seq<Op>, consumer: Id, generation: nat, scope: ScopeInstance, need: Descriptor)
    requires IssuePrincipal(Run(Empty(registryId), a), consumer, generation, scope).Ok?
    ensures var s := Run(Empty(registryId), a);
            var r := ResolveCapability(Run(s, b), IssuePrincipal(s, consumer, generation, scope).value, need);
            if UnregisterOp(consumer) in b || DeactivateOp(scope) in b then r == Err(StalePrincipal(consumer, scope))
            else consumer in Run(s, b).registrations && Answers(Run(s, b), consumer, scope, need, r)
  {
    var s := Run(Empty(registryId), a);
    var p := IssuePrincipal(s, consumer, generation, scope).value;
    var t := Run(s, b);
    ReachableIsWellFormed(registryId, a);
    RunKeepsWellFormed(s, b);
    RunDecidesPrincipal(s, b, p);
    PrincipalEndedBy(b, consumer, scope);
    if PrincipalIsCurrent(t, p) { ResolveAnswers(t, p, need); }
  }

  lemma PrincipalEndedBy(b: seq<Op>, consumer: Id, scope: ScopeInstance)
    ensures Within(b, consumer, scope) <==> UnregisterOp(consumer) in b || DeactivateOp(scope) in b
  {
    if UnregisterOp(consumer) in b { assert EndsPrincipal(UnregisterOp(consumer), consumer, scope); }
    if DeactivateOp(scope) in b { assert EndsPrincipal(DeactivateOp(scope), consumer, scope); }
  }
}
