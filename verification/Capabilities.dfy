/** The capability registry as a value: its entities, its operations and what every run keeps. */
module Capabilities {
  import opened Results
  import opened Ids

  const MAX_EPOCH := 0xFFFF_FFFF_FFFF_FFFF

  datatype Scope = RuntimeScope | TargetScope | BackendSessionScope | ThreadScope

  datatype ScopeInstance = Runtime | Target(id: string) | BackendSession(id: string) | Thread(id: string) {
    function Kind(): Scope {
      match this
      case Runtime => RuntimeScope
      case Target(_) => TargetScope
      case BackendSession(_) => BackendSessionScope
      case Thread(_) => ThreadScope
    }
  }

  datatype Descriptor = Descriptor(name: string, api: nat, scope: Scope)

  datatype Key = Key(name: string, scope: Scope)

  function KeyOf(d: Descriptor): Key {
    Key(d.name, d.scope)
  }

  datatype Registration = Registration(
    generation: nat,
    epoch: nat,
    offers: seq<Descriptor>,
    needs: seq<Descriptor>,
    grants: set<string>,
    dependencies: set<Id>)

  datatype Record = Record(provider: Id, generation: nat, epoch: nat, descriptor: Descriptor)

  datatype State = State(
    registryId: nat,
    registrations: map<Id, Registration>,
    providers: map<Key, Record>,
    scopes: map<ScopeInstance, nat>,
    nextEpoch: nat)

  datatype RegistryError =
    | InvalidProviderId(id: Id)
    | ProviderConflict(id: Id)
    | InvalidGeneration(id: Id, generation: nat)
    | ScopeAlreadyActive(scope: ScopeInstance)
    | CapabilityConflict(key: Key, existing: Id, conflicting: Id)
    | MissingRequirement(consumer: Id, requirement: Descriptor)
    | VersionMismatch(consumer: Id, provider: Id, requirement: Descriptor, providedApi: nat)
    | DependencyCycle(providers: seq<Id>)
    | UnknownProvider(id: Id)
    | EpochOverflow // the process aborts before anything is written

  function Empty(registryId: nat): State {
    State(registryId, map[], map[], map[], 0)
  }

  // ----- operations

  /** The first provided key that repeats or is already taken. */
  function FirstConflict(providers: map<Key, Record>, id: Id, offers: seq<Descriptor>, seen: set<Key>): Option<RegistryError> {
    if offers == [] then None
    else
      var k := KeyOf(offers[0]);
      if k in seen then Some(CapabilityConflict(k, id, id))
      else if k in providers then Some(CapabilityConflict(k, providers[k].provider, id))
      else FirstConflict(providers, id, offers[1..], seen + {k})
  }

  /** Why a registration is refused, in the order the checks run. */
  function RegisterFault(s: State, id: Id, generation: nat, offers: seq<Descriptor>): Option<RegistryError> {
    if !ValidProviderId(id) then Some(InvalidProviderId(id))
    else if id in s.registrations then Some(ProviderConflict(id))
    else if generation == 0 then Some(InvalidGeneration(id, generation))
    else
      match FirstConflict(s.providers, id, offers, {})
      case Some(e) => Some(e)
      case None => if s.nextEpoch == MAX_EPOCH then Some(EpochOverflow) else None
  }

  function Index(providers: map<Key, Record>, id: Id, generation: nat, epoch: nat, offers: seq<Descriptor>): map<Key, Record>
    decreases |offers|
  {
    if offers == [] then providers
    else Index(providers[KeyOf(offers[0]) := Record(id, generation, epoch, offers[0])], id, generation, epoch, offers[1..])
  }

  function Register(
    s: State, id: Id, generation: nat, offers: seq<Descriptor>, needs: seq<Descriptor>, grants: set<string>)
    : Result<State, RegistryError>
  {
    match RegisterFault(s, id, generation, offers)
    case Some(e) => Err(e)
    case None =>
      var epoch := s.nextEpoch + 1;
      Ok(s.(nextEpoch := epoch,
            providers := Index(s.providers, id, generation, epoch, offers),
            registrations := s.registrations[id := Registration(generation, epoch, offers, needs, grants, {})]))
  }

  function RequireBefore(s: State, consumer: Id, provider: Id): Result<State, RegistryError> {
    if provider !in s.registrations then Err(UnknownProvider(provider))
    else if consumer !in s.registrations then Err(UnknownProvider(consumer))
    else
      var r := s.registrations[consumer];
      Ok(s.(registrations := s.registrations[consumer := r.(dependencies := r.dependencies + {provider})]))
  }

  function KeySet(offers: seq<Descriptor>): set<Key> {
    set d | d in offers :: KeyOf(d)
  }

  function Unregister(s: State, id: Id): Result<(State, bool), RegistryError> {
    if !ValidProviderId(id) then Err(InvalidProviderId(id))
    else if id !in s.registrations then Ok((s, false))
    else
      Ok((s.(registrations := s.registrations - {id},
             providers := s.providers - KeySet(s.registrations[id].offers)), true))
  }

  function Activate(s: State, scope: ScopeInstance): Result<State, RegistryError> {
    if scope in s.scopes then Err(ScopeAlreadyActive(scope))
    else if s.nextEpoch == MAX_EPOCH then Err(EpochOverflow)
    else Ok(s.(nextEpoch := s.nextEpoch + 1, scopes := s.scopes[scope := s.nextEpoch + 1]))
  }

  function Deactivate(s: State, scope: ScopeInstance): State {
    s.(scopes := s.scopes - {scope})
  }

  // ----- tokens

  datatype Principal = Principal(
    registryId: nat,
    consumer: Id,
    generation: nat,
    registration: nat,
    scope: ScopeInstance,
    scopeGeneration: nat,
    grants: set<string>)

  datatype Lease = Lease(
    registryId: nat,
    owner: Id,
    ownerGeneration: nat,
    ownerRegistration: nat,
    ownerScope: ScopeInstance,
    ownerScopeGeneration: nat,
    providerScope: ScopeInstance,
    providerScopeGeneration: nat,
    provider: Id,
    providerGeneration: nat,
    providerRegistration: nat,
    requirement: Descriptor)

  datatype AccessError =
    | Registry(error: RegistryError)
    | PluginNotRegistered(id: Id)
    | StaleGeneration(id: Id, requested: nat, current: nat)
    | UndeclaredRequirement(consumer: Id, requirement: Descriptor)
    | ScopeMismatch(requirement: Descriptor, scope: ScopeInstance)
    | ScopeInactive(scope: ScopeInstance)
    | StalePrincipal(consumer: Id, scope: ScopeInstance)
    | StaleLease(consumer: Id, requirement: Descriptor, scope: ScopeInstance)
    | LeaseOwnerMismatch(consumer: Id, requirement: Descriptor)

  predicate Holds(s: State, scope: ScopeInstance, generation: nat) {
    scope in s.scopes && s.scopes[scope] == generation
  }

  predicate PrincipalIsCurrent(s: State, p: Principal) {
    && p.registryId == s.registryId
    && Holds(s, p.scope, p.scopeGeneration)
    && p.consumer in s.registrations
    && var r := s.registrations[p.consumer];
       r.generation == p.generation && r.epoch == p.registration && r.grants == p.grants
  }

  predicate OwnerIsCurrent(s: State, l: Lease) {
    && l.owner in s.registrations
    && var r := s.registrations[l.owner];
       r.generation == l.ownerGeneration && r.epoch == l.ownerRegistration && l.requirement in r.needs
  }

  predicate ProviderIsCurrent(s: State, l: Lease) {
    && KeyOf(l.requirement) in s.providers
    && s.providers[KeyOf(l.requirement)]
       == Record(l.provider, l.providerGeneration, l.providerRegistration, l.requirement)
  }

  predicate LeaseIsCurrent(s: State, l: Lease) {
    && l.registryId == s.registryId
    && Holds(s, l.ownerScope, l.ownerScopeGeneration)
    && Holds(s, l.providerScope, l.providerScopeGeneration)
    && OwnerIsCurrent(s, l)
    && ProviderIsCurrent(s, l)
  }

  predicate IsOwnedBy(l: Lease, p: Principal) {
    && l.registryId == p.registryId
    && l.owner == p.consumer
    && l.ownerGeneration == p.generation
    && l.ownerRegistration == p.registration
    && l.ownerScope == p.scope
    && l.ownerScopeGeneration == p.scopeGeneration
  }

  /** An issued principal is current at once. */
  function IssuePrincipal(s: State, consumer: Id, generation: nat, scope: ScopeInstance): (r: Result<Principal, AccessError>)
    ensures r.Ok? ==> PrincipalIsCurrent(s, r.value)
  {
    if consumer !in s.registrations then Err(PluginNotRegistered(consumer))
    else if s.registrations[consumer].generation != generation then
      Err(StaleGeneration(consumer, generation, s.registrations[consumer].generation))
    else if scope !in s.scopes then Err(ScopeInactive(scope))
    else
      var r := s.registrations[consumer];
      Ok(Principal(s.registryId, consumer, generation, r.epoch, scope, s.scopes[scope], r.grants))
  }

  function ProviderForRequirement(s: State, consumer: Id, requirement: Descriptor): Result<Record, RegistryError> {
    if KeyOf(requirement) !in s.providers then Err(MissingRequirement(consumer, requirement))
    else
      var r := s.providers[KeyOf(requirement)];
      if r.descriptor.api != requirement.api
      then Err(VersionMismatch(consumer, r.provider, requirement, r.descriptor.api))
      else Ok(r)
  }

  /** In a registry whose index agrees with its registrations, a resolved lease is current and owned. */
  function ResolveCapability(s: State, p: Principal, requirement: Descriptor): (r: Result<Lease, AccessError>)
    ensures r.Ok? ==> IsOwnedBy(r.value, p) && PrincipalIsCurrent(s, p)
    ensures r.Ok? && IndexSound(s) ==> LeaseIsCurrent(s, r.value)
  {
    if !PrincipalIsCurrent(s, p) then Err(StalePrincipal(p.consumer, p.scope))
    else if requirement !in s.registrations[p.consumer].needs then Err(UndeclaredRequirement(p.consumer, requirement))
    else if p.scope.Kind() != requirement.scope && requirement.scope != RuntimeScope then
      Err(ScopeMismatch(requirement, p.scope))
    else
      var providerScope := if requirement.scope == RuntimeScope then Runtime else p.scope;
      if providerScope !in s.scopes then Err(ScopeInactive(providerScope))
      else
        match ProviderForRequirement(s, p.consumer, requirement)
        case Err(e) => Err(Registry(e))
        case Ok(rec) =>
          Ok(Lease(s.registryId, p.consumer, p.generation, p.registration, p.scope, p.scopeGeneration,
                   providerScope, s.scopes[providerScope], rec.provider, rec.generation, rec.epoch, requirement))
  }

  /** Whether the guarded call runs, or why it does not. */
  function InvokeGuard(s: State, p: Principal, l: Lease): Option<AccessError> {
    if !PrincipalIsCurrent(s, p) then Some(StalePrincipal(p.consumer, p.scope))
    else if !IsOwnedBy(l, p) then Some(LeaseOwnerMismatch(p.consumer, l.requirement))
    else if !LeaseIsCurrent(s, l) then Some(StaleLease(l.owner, l.requirement, l.ownerScope))
    else None
  }

  // ----- what every reachable state satisfies

  ghost predicate DistinctKeys(offers: seq<Descriptor>) {
    forall i, j | 0 <= i < j < |offers| :: KeyOf(offers[i]) != KeyOf(offers[j])
  }

  /** The index entry for `k` restates one descriptor of its provider's live registration. */
  ghost predicate Backed(s: State, k: Key)
    requires k in s.providers
  {
    var rec := s.providers[k];
    && KeyOf(rec.descriptor) == k
    && rec.provider in s.registrations
    && var r := s.registrations[rec.provider];
       rec.descriptor in r.offers && rec.generation == r.generation && rec.epoch == r.epoch
  }

  ghost predicate IndexSound(s: State) {
    forall k | k in s.providers :: Backed(s, k)
  }

  ghost predicate Indexed(s: State, id: Id, d: Descriptor)
    requires id in s.registrations
  {
    var r := s.registrations[id];
    KeyOf(d) in s.providers && s.providers[KeyOf(d)] == Record(id, r.generation, r.epoch, d)
  }

  ghost predicate IndexComplete(s: State) {
    forall id, d | id in s.registrations && d in s.registrations[id].offers :: Indexed(s, id, d)
  }

  ghost predicate EpochsIssued(s: State) {
    && s.nextEpoch <= MAX_EPOCH
    && (forall id | id in s.registrations :: 1 <= s.registrations[id].epoch <= s.nextEpoch)
    && (forall c | c in s.scopes :: 1 <= s.scopes[c] <= s.nextEpoch)
  }

  ghost predicate EpochsDistinct(s: State) {
    && (forall a, b | a in s.registrations && b in s.registrations && a != b ::
          s.registrations[a].epoch != s.registrations[b].epoch)
    && (forall a, b | a in s.scopes && b in s.scopes && a != b :: s.scopes[a] != s.scopes[b])
    && (forall a, b | a in s.registrations && b in s.scopes :: s.registrations[a].epoch != s.scopes[b])
  }

  ghost predicate WellFormed(s: State) {
    && IndexSound(s)
    && IndexComplete(s)
    && (forall id | id in s.registrations ::
          ValidProviderId(id) && s.registrations[id].generation > 0 && DistinctKeys(s.registrations[id].offers))
    && EpochsIssued(s)
    && EpochsDistinct(s)
  }

  /** Consequence: two live registrations never share a capability key. */
  lemma KeysAreExclusive(s: State, a: Id, b: Id, d: Descriptor, e: Descriptor)
    requires WellFormed(s)
    requires a in s.registrations && d in s.registrations[a].offers
    requires b in s.registrations && e in s.registrations[b].offers
    requires KeyOf(d) == KeyOf(e)
    ensures a == b && d == e
  {
    assert Indexed(s, a, d) && Indexed(s, b, e);
  }

  // ----- registration keeps the index in step

  lemma {:induction false} NoConflictMeansFresh(providers: map<Key, Record>, id: Id, offers: seq<Descriptor>, seen: set<Key>)
    requires FirstConflict(providers, id, offers, seen).None?
    ensures forall d | d in offers :: KeyOf(d) !in providers && KeyOf(d) !in seen
    ensures DistinctKeys(offers)
  {
    if offers != [] {
      var rest := offers[1..];
      NoConflictMeansFresh(providers, id, rest, seen + {KeyOf(offers[0])});
      forall d | d in offers ensures KeyOf(d) !in providers && KeyOf(d) !in seen {
        if d != offers[0] { assert d in rest; }
      }
      forall i, j | 0 <= i < j < |offers| ensures KeyOf(offers[i]) != KeyOf(offers[j]) {
        assert offers[j] == rest[j - 1] && rest[j - 1] in rest;
        if i > 0 { assert offers[i] == rest[i - 1]; }
      }
    }
  }

  /** Indexing adds exactly the provided keys, each with its own descriptor. */
  lemma {:induction false} IndexFacts(m: map<Key, Record>, id: Id, generation: nat, epoch: nat, offers: seq<Descriptor>)
    requires DistinctKeys(offers)
    ensures forall d | d in offers ::
              KeyOf(d) in Index(m, id, generation, epoch, offers)
              && Index(m, id, generation, epoch, offers)[KeyOf(d)] == Record(id, generation, epoch, d)
    ensures forall k | k in Index(m, id, generation, epoch, offers) ::
              k in KeySet(offers) || (k in m && m[k] == Index(m, id, generation, epoch, offers)[k])
    ensures forall k | k in m && k !in KeySet(offers) ::
              k in Index(m, id, generation, epoch, offers) && Index(m, id, generation, epoch, offers)[k] == m[k]
    decreases |offers|
  {
    if offers != [] {
      var d0, rest := offers[0], offers[1..];
      var k0 := KeyOf(d0);
      var m0 := m[k0 := Record(id, generation, epoch, d0)];
      IndexFacts(m0, id, generation, epoch, rest);
      assert k0 !in KeySet(rest);
      assert KeySet(offers) == KeySet(rest) + {k0} by {
        assert forall d | d in offers :: d == d0 || d in rest;
      }
      forall d | d in offers ensures d == d0 || d in rest {}
    }
  }

  lemma RegisterKeepsIndex(
    s: State, id: Id, generation: nat, offers: seq<Descriptor>, needs: seq<Descriptor>, grants: set<string>)
    requires WellFormed(s) && Register(s, id, generation, offers, needs, grants).Ok?
    ensures IndexSound(Register(s, id, generation, offers, needs, grants).value)
    ensures IndexComplete(Register(s, id, generation, offers, needs, grants).value)
  {
    var s' := Register(s, id, generation, offers, needs, grants).value;
    NoConflictMeansFresh(s.providers, id, offers, {});
    IndexFacts(s.providers, id, generation, s.nextEpoch + 1, offers);
    forall k | k in s'.providers ensures Backed(s', k) {
      if k in KeySet(offers) {
        var d :| d in offers && KeyOf(d) == k;
      } else {
        assert Backed(s, k);
      }
    }
    forall other, d | other in s'.registrations && d in s'.registrations[other].offers
      ensures Indexed(s', other, d)
    {
      if other != id {
        assert Indexed(s, other, d);
      }
    }
  }

  lemma RegisterKeepsWellFormed(
    s: State, id: Id, generation: nat, offers: seq<Descriptor>, needs: seq<Descriptor>, grants: set<string>)
    requires WellFormed(s) && Register(s, id, generation, offers, needs, grants).Ok?
    ensures WellFormed(Register(s, id, generation, offers, needs, grants).value)
  {
    RegisterKeepsIndex(s, id, generation, offers, needs, grants);
    NoConflictMeansFresh(s.providers, id, offers, {});
  }

  lemma UnregisterKeepsWellFormed(s: State, id: Id)
    requires WellFormed(s) && id in s.registrations
    ensures WellFormed(s.(registrations := s.registrations - {id},
                          providers := s.providers - KeySet(s.registrations[id].offers)))
  {
    var s' := s.(registrations := s.registrations - {id},
                 providers := s.providers - KeySet(s.registrations[id].offers));
    forall k | k in s'.providers ensures Backed(s', k) {
      assert Backed(s, k);
    }
    forall other, d | other in s'.registrations && d in s'.registrations[other].offers
      ensures Indexed(s', other, d)
    {
      assert Indexed(s, other, d);
      forall e | e in s.registrations[id].offers ensures KeyOf(e) != KeyOf(d) {
        assert Indexed(s, id, e);
      }
    }
  }

  lemma RequireBeforeKeepsWellFormed(s: State, consumer: Id, provider: Id)
    requires WellFormed(s) && RequireBefore(s, consumer, provider).Ok?
    ensures WellFormed(RequireBefore(s, consumer, provider).value)
  {
    var s' := RequireBefore(s, consumer, provider).value;
    forall k | k in s'.providers ensures Backed(s', k) {
      assert Backed(s, k);
    }
    forall other, d | other in s'.registrations && d in s'.registrations[other].offers
      ensures Indexed(s', other, d)
    {
      assert Indexed(s, other, d);
    }
  }

  /** The index does not mention scopes. */
  lemma ScopesKeepIndex(s: State, scopes: map<ScopeInstance, nat>, nextEpoch: nat)
    requires IndexSound(s) && IndexComplete(s)
    ensures IndexSound(s.(scopes := scopes, nextEpoch := nextEpoch))
    ensures IndexComplete(s.(scopes := scopes, nextEpoch := nextEpoch))
  {
    var s' := s.(scopes := scopes, nextEpoch := nextEpoch);
    forall k | k in s'.providers ensures Backed(s', k) {
      assert Backed(s, k);
    }
    forall other, d | other in s'.registrations && d in s'.registrations[other].offers
      ensures Indexed(s', other, d)
    {
      assert Indexed(s, other, d);
    }
  }

  lemma ActivateKeepsWellFormed(s: State, scope: ScopeInstance)
    requires WellFormed(s) && Activate(s, scope).Ok?
    ensures WellFormed(Activate(s, scope).value)
  {
    ScopesKeepIndex(s, s.scopes[scope := s.nextEpoch + 1], s.nextEpoch + 1);
  }

  lemma DeactivateKeepsWellFormed(s: State, scope: ScopeInstance)
    requires WellFormed(s)
    ensures WellFormed(Deactivate(s, scope))
  {
    ScopesKeepIndex(s, s.scopes - {scope}, s.nextEpoch);
  }

  // ----- runs

  datatype Op =
    | RegisterOp(id: Id, generation: nat, offers: seq<Descriptor>, needs: seq<Descriptor>, grants: set<string>)
    | RequireBeforeOp(consumer: Id, provider: Id)
    | UnregisterOp(id: Id)
    | ActivateOp(scope: ScopeInstance)
    | DeactivateOp(scope: ScopeInstance)

  function OrElse(r: Result<State, RegistryError>, s: State): State {
    if r.Ok? then r.value else s
  }

  /** One operation; a refused one changes nothing. */
  function Step(s: State, op: Op): State {
    match op
    case RegisterOp(id, generation, offers, needs, grants) => OrElse(Register(s, id, generation, offers, needs, grants), s)
    case RequireBeforeOp(consumer, provider) => OrElse(RequireBefore(s, consumer, provider), s)
    case UnregisterOp(id) => if Unregister(s, id).Ok? then Unregister(s, id).value.0 else s
    case ActivateOp(scope) => OrElse(Activate(s, scope), s)
    case DeactivateOp(scope) => Deactivate(s, scope)
  }

  function Run(s: State, ops: seq<Op>): State
    decreases |ops|
  {
    if ops == [] then s else Run(Step(s, ops[0]), ops[1..])
  }

  lemma StepKeepsWellFormed(s: State, op: Op)
    requires WellFormed(s)
    ensures WellFormed(Step(s, op))
    ensures Step(s, op).registryId == s.registryId && s.nextEpoch <= Step(s, op).nextEpoch
  {
    match op
    case RegisterOp(id, generation, offers, needs, grants) =>
      if Register(s, id, generation, offers, needs, grants).Ok? {
        RegisterKeepsWellFormed(s, id, generation, offers, needs, grants);
      }
    case RequireBeforeOp(consumer, provider) =>
      if RequireBefore(s, consumer, provider).Ok? { RequireBeforeKeepsWellFormed(s, consumer, provider); }
    case UnregisterOp(id) =>
      if id in s.registrations { UnregisterKeepsWellFormed(s, id); }
    case ActivateOp(scope) =>
      if Activate(s, scope).Ok? { ActivateKeepsWellFormed(s, scope); }
    case DeactivateOp(scope) =>
      DeactivateKeepsWellFormed(s, scope);
  }

  /** Every run from a new registry keeps the index, the keys and the epochs in agreement. */
  lemma {:induction false} RunKeepsWellFormed(s: State, ops: seq<Op>)
    requires WellFormed(s)
    ensures WellFormed(Run(s, ops))
    decreases |ops|
  {
    if ops != [] {
      StepKeepsWellFormed(s, ops[0]);
      RunKeepsWellFormed(Step(s, ops[0]), ops[1..]);
    }
  }

  lemma ReachableIsWellFormed(registryId: nat, ops: seq<Op>)
    ensures WellFormed(Run(Empty(registryId), ops))
  {
    RunKeepsWellFormed(Empty(registryId), ops);
  }

  // ----- revocation is permanent

  /** What stays true of a principal once this registry has issued it. */
  ghost predicate Authentic(s: State, p: Principal) {
    && p.registryId == s.registryId
    && p.registration <= s.nextEpoch
    && p.scopeGeneration <= s.nextEpoch
    && (p.consumer in s.registrations && s.registrations[p.consumer].epoch == p.registration ==>
          s.registrations[p.consumer].generation == p.generation && s.registrations[p.consumer].grants == p.grants)
  }

  ghost predicate AuthenticLease(s: State, l: Lease) {
    && l.registryId == s.registryId
    && l.ownerRegistration <= s.nextEpoch
    && l.ownerScopeGeneration <= s.nextEpoch
    && l.providerScopeGeneration <= s.nextEpoch
    && l.providerRegistration <= s.nextEpoch
  }

  /** A surviving registration with an old epoch is the same registration. */
  lemma StepNeverReusesEpochs(s: State, op: Op)
    requires WellFormed(s)
    ensures forall id | id in Step(s, op).registrations && Step(s, op).registrations[id].epoch <= s.nextEpoch ::
              && id in s.registrations
              && Step(s, op).registrations[id].(dependencies := {}) == s.registrations[id].(dependencies := {})
    ensures forall c | c in Step(s, op).scopes && Step(s, op).scopes[c] <= s.nextEpoch ::
              c in s.scopes && s.scopes[c] == Step(s, op).scopes[c]
  {
    StepKeepsOldRegistrations(s, op);
    StepKeepsOldScopes(s, op);
  }

  lemma StepKeepsOldRegistrations(s: State, op: Op)
    requires WellFormed(s)
    ensures forall id | id in Step(s, op).registrations && Step(s, op).registrations[id].epoch <= s.nextEpoch ::
              && id in s.registrations
              && Step(s, op).registrations[id].(dependencies := {}) == s.registrations[id].(dependencies := {})
  {}

  lemma StepKeepsOldScopes(s: State, op: Op)
    requires WellFormed(s)
    ensures forall c | c in Step(s, op).scopes && Step(s, op).scopes[c] <= s.nextEpoch ::
              c in s.scopes && s.scopes[c] == Step(s, op).scopes[c]
  {}

  /** An index entry with an old epoch was there before the step. */
  lemma StepNeverReindexes(s: State, op: Op, k: Key)
    requires WellFormed(s)
    requires k in Step(s, op).providers && Step(s, op).providers[k].epoch <= s.nextEpoch
    ensures k in s.providers && s.providers[k] == Step(s, op).providers[k]
  {
    match op
    case RegisterOp(id, generation, offers, needs, grants) =>
      if Register(s, id, generation, offers, needs, grants).Ok? {
        RegisterNeverReindexes(s, id, generation, offers, needs, grants, k);
      }
    case _ => OtherStepsOnlyUnindex(s, op, k);
  }

  lemma OtherStepsOnlyUnindex(s: State, op: Op, k: Key)
    requires !op.RegisterOp? && k in Step(s, op).providers
    ensures k in s.providers && s.providers[k] == Step(s, op).providers[k]
  {}

  lemma RegisterNeverReindexes(
    s: State, id: Id, generation: nat, offers: seq<Descriptor>, needs: seq<Descriptor>, grants: set<string>, k: Key)
    requires Register(s, id, generation, offers, needs, grants).Ok?
    requires var t := Register(s, id, generation, offers, needs, grants).value;
             k in t.providers && t.providers[k].epoch <= s.nextEpoch
    ensures k in s.providers && s.providers[k] == Register(s, id, generation, offers, needs, grants).value.providers[k]
  {
    NoConflictMeansFresh(s.providers, id, offers, {});
    IndexFacts(s.providers, id, generation, s.nextEpoch + 1, offers);
    forall d | d in offers ensures KeyOf(d) != k {}
  }

  lemma StepRevokes(s: State, op: Op, p: Principal)
    requires WellFormed(s) && Authentic(s, p)
    ensures Authentic(Step(s, op), p)
    ensures PrincipalIsCurrent(Step(s, op), p) ==> PrincipalIsCurrent(s, p)
  {
    StepNeverReusesEpochs(s, op);
    StepKeepsWellFormed(s, op);
  }

  lemma StepRevokesLease(s: State, op: Op, l: Lease)
    requires WellFormed(s) && AuthenticLease(s, l)
    ensures AuthenticLease(Step(s, op), l)
    ensures LeaseIsCurrent(Step(s, op), l) ==> LeaseIsCurrent(s, l)
  {
    StepNeverReusesEpochs(s, op);
    StepKeepsWellFormed(s, op);
    var k := KeyOf(l.requirement);
    if LeaseIsCurrent(Step(s, op), l) { StepNeverReindexes(s, op, k); }
  }

  lemma {:induction false} RunRevokes(s: State, ops: seq<Op>, p: Principal)
    requires WellFormed(s) && Authentic(s, p)
    ensures Authentic(Run(s, ops), p)
    ensures PrincipalIsCurrent(Run(s, ops), p) ==> PrincipalIsCurrent(s, p)
    decreases |ops|
  {
    if ops != [] {
      StepKeepsWellFormed(s, ops[0]);
      StepRevokes(s, ops[0], p);
      RunRevokes(Step(s, ops[0]), ops[1..], p);
    }
  }

  lemma {:induction false} RunRevokesLease(s: State, ops: seq<Op>, l: Lease)
    requires WellFormed(s) && AuthenticLease(s, l)
    ensures AuthenticLease(Run(s, ops), l)
    ensures LeaseIsCurrent(Run(s, ops), l) ==> LeaseIsCurrent(s, l)
    decreases |ops|
  {
    if ops != [] {
      StepKeepsWellFormed(s, ops[0]);
      StepRevokesLease(s, ops[0], l);
      RunRevokesLease(Step(s, ops[0]), ops[1..], l);
    }
  }

  /**
   * Principals: issued after any run `a`, stale after any continuation `b`, then stale after every
   * continuation `c`, whatever is registered or activated again under the same names.
   */
  lemma PrincipalRevocationIsPermanent(
    registryId: nat, a: seq<Op>, b: seq<Op>, c: seq<Op>, consumer: Id, generation: nat, scope: ScopeInstance)
    requires IssuePrincipal(Run(Empty(registryId), a), consumer, generation, scope).Ok?
    ensures var p := IssuePrincipal(Run(Empty(registryId), a), consumer, generation, scope).value;
            var later := Run(Run(Empty(registryId), a), b);
            !PrincipalIsCurrent(later, p) ==> !PrincipalIsCurrent(Run(later, c), p)
  {
    var s := Run(Empty(registryId), a);
    var p := IssuePrincipal(s, consumer, generation, scope).value;
    ReachableIsWellFormed(registryId, a);
    RunRevokes(s, b, p);
    RunKeepsWellFormed(s, b);
    RunRevokes(Run(s, b), c, p);
  }

  /** Leases: resolved for an issued principal after `a` and `b`, stale after `c`, then stale after every `d`. */
  lemma LeaseRevocationIsPermanent(
    registryId: nat, a: seq<Op>, b: seq<Op>, c: seq<Op>, p: Principal, requirement: Descriptor)
    requires ResolveCapability(Run(Empty(registryId), a), p, requirement).Ok?
    ensures var l := ResolveCapability(Run(Empty(registryId), a), p, requirement).value;
            var later := Run(Run(Empty(registryId), a), b);
            && LeaseIsCurrent(Run(Empty(registryId), a), l)
            && (!LeaseIsCurrent(later, l) ==> !LeaseIsCurrent(Run(later, c), l))
  {
    var s := Run(Empty(registryId), a);
    ReachableIsWellFormed(registryId, a);
    var l := ResolveCapability(s, p, requirement).value;
    assert Backed(s, KeyOf(requirement));
    RunRevokesLease(s, b, l);
    RunKeepsWellFormed(s, b);
    RunRevokesLease(Run(s, b), c, l);
  }

  /** A current lease vouches for the issued principal that owns it, grants included. */
  lemma CurrentLeaseImpliesCurrentOwner(
    registryId: nat, a: seq<Op>, b: seq<Op>, consumer: Id, generation: nat, scope: ScopeInstance, l: Lease)
    requires IssuePrincipal(Run(Empty(registryId), a), consumer, generation, scope).Ok?
    ensures var p := IssuePrincipal(Run(Empty(registryId), a), consumer, generation, scope).value;
            var later := Run(Run(Empty(registryId), a), b);
            IsOwnedBy(l, p) && LeaseIsCurrent(later, l) ==> PrincipalIsCurrent(later, p)
  {
    var s := Run(Empty(registryId), a);
    var p := IssuePrincipal(s, consumer, generation, scope).value;
    ReachableIsWellFormed(registryId, a);
    RunRevokes(s, b, p);
  }

  /** After unregistering the consumer or deactivating the scope no call made with the principal ever runs again. */
  lemma ReplacementRevokesForGood(
    registryId: nat, a: seq<Op>, op: Op, c: seq<Op>, consumer: Id, generation: nat, scope: ScopeInstance, l: Lease)
    requires IssuePrincipal(Run(Empty(registryId), a), consumer, generation, scope).Ok?
    requires op == UnregisterOp(consumer) || op == DeactivateOp(scope)
    ensures var s := Run(Empty(registryId), a);
            var p := IssuePrincipal(s, consumer, generation, scope).value;
            InvokeGuard(Run(Step(s, op), c), p, l).Some?
  {
    var s := Run(Empty(registryId), a);
    var p := IssuePrincipal(s, consumer, generation, scope).value;
    ReachableIsWellFormed(registryId, a);
    StepRevokes(s, op, p);
    StepKeepsWellFormed(s, op);
    RunRevokes(Step(s, op), c, p);
  }

  /** Replacing the provider kills the lease for good even when the same descriptor comes back. */
  lemma ProviderReplacementRevokesForGood(
    registryId: nat, a: seq<Op>, c: seq<Op>, p: Principal, requirement: Descriptor)
    requires ResolveCapability(Run(Empty(registryId), a), p, requirement).Ok?
    ensures var s := Run(Empty(registryId), a);
            var l := ResolveCapability(s, p, requirement).value;
            InvokeGuard(Run(Step(s, UnregisterOp(l.provider)), c), p, l).Some?
  {
    var s := Run(Empty(registryId), a);
    ReachableIsWellFormed(registryId, a);
    var l := ResolveCapability(s, p, requirement).value;
    var op := UnregisterOp(l.provider);
    assert Backed(s, KeyOf(requirement));
    StepRevokesLease(s, op, l);
    StepKeepsWellFormed(s, op);
    RunRevokesLease(Step(s, op), c, l);
  }
}
