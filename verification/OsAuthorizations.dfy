/** Exact-generation OS authorizations: who holds one, when it is live, and what revokes it. */
module OsAuthorizations {
  import opened Results
  import opened Ids

  const MAX_GENERATION := 9_007_199_254_740_991
  const MAX_AUTHORIZATION_IDENTITIES := 4096

  /** The recorded grant a token was issued for; only equality matters. */
  type Registration = string

  /** A token some owner still holds; `granted` once `authorize` has returned it. */
  datatype Token = Token(
    plugin: Id, generation: nat, registration: Registration, live: bool, reported: bool, granted: bool)

  /** An exact generation of a plugin. */
  datatype Pair = Pair(plugin: Id, generation: nat)

  datatype Owner = Owner(generation: nat, token: nat)

  /** `nextToken`, `grants` and `reports`, with the number of times each pair was reported, record history. */
  datatype Broker = Broker(
    tokens: map<nat, Token>,
    owners: map<Id, Owner>,
    closing: bool,
    nextToken: nat,
    grants: set<Pair>,
    reports: map<Pair, nat>)

  function Start(): Broker {
    Broker(map[], map[], false, 0, {}, map[])
  }

  /** First half of `authorize`: a fresh token, checked against the registry, not yet published. */
  function Prepare(b: Broker, plugin: Id, generation: nat, registration: Registration, current: Option<Registration>): Broker {
    if b.closing || !(1 <= generation <= MAX_GENERATION) || current != Some(registration) then b
    else b.(tokens := b.tokens[b.nextToken := Token(plugin, generation, registration, true, false, false)],
            nextToken := b.nextToken + 1)
  }

  function Silence(tokens: map<nat, Token>, t: nat): map<nat, Token> {
    if t in tokens then tokens[t := tokens[t].(live := false)] else tokens
  }

  predicate CanPublish(b: Broker, t: nat) {
    && t in b.tokens && !b.tokens[t].granted
    && (if b.tokens[t].plugin in b.owners then b.owners[b.tokens[t].plugin].generation < b.tokens[t].generation
        else |b.owners| < MAX_AUTHORIZATION_IDENTITIES)
  }

  /** Second half, under the owners' lock: refuse an old generation, or silence the previous token and take over. */
  function Publish(b: Broker, t: nat): Broker {
    if t !in b.tokens || b.tokens[t].granted then b
    else if !CanPublish(b, t) then b.(tokens := b.tokens - {t})
    else
      var token := b.tokens[t];
      var silenced := if token.plugin in b.owners then Silence(b.tokens, b.owners[token.plugin].token) else b.tokens;
      b.(tokens := silenced[t := token.(granted := true)],
         owners := b.owners[token.plugin := Owner(token.generation, t)],
         grants := b.grants + {Pair(token.plugin, token.generation)})
  }

  function RevokeOwner(b: Broker, plugin: Id, generation: nat): Broker {
    if plugin in b.owners && b.owners[plugin].generation == generation
    then b.(tokens := Silence(b.tokens, b.owners[plugin].token))
    else b
  }

  /** The owner's token is held and its recorded grant is no longer the registered one. */
  predicate Changed(b: Broker, plugin: Id, registered: map<Id, Registration>) {
    && plugin in b.owners && b.owners[plugin].token in b.tokens
    && (plugin !in registered || registered[plugin] != b.tokens[b.owners[plugin].token].registration)
  }

  /** One owner's turn in `revoke_changed`. */
  function RevokeIfChanged(b: Broker, plugin: Id, registered: map<Id, Registration>): Broker {
    if !Changed(b, plugin, registered) then b
    else
      var t := b.owners[plugin].token;
      b.(tokens := b.tokens[t := b.tokens[t].(live := false, reported := true)],
         reports := if b.tokens[t].reported then b.reports else Report(b.reports, Pair(plugin, b.owners[plugin].generation)))
  }

  function Report(reports: map<Pair, nat>, p: Pair): map<Pair, nat> {
    reports[p := (if p in reports then reports[p] else 0) + 1]
  }

  datatype Action =
    | PrepareAction(plugin: Id, generation: nat, registration: Registration, current: Option<Registration>)
    | PublishAction(token: nat)
    | RevokeAction(token: nat)
    | RevokeOwnerAction(plugin: Id, generation: nat)
    | RevokeChangedAction(plugin: Id, registered: map<Id, Registration>)
    | DropAction(token: nat)
    | CloseAction
    | SilenceOwnerAction(plugin: Id)

  /** Any interleaving of the calls, the loops broken into one owner at a time. */
  function Step(b: Broker, a: Action): Broker {
    match a
    case PrepareAction(plugin, generation, registration, current) => Prepare(b, plugin, generation, registration, current)
    case PublishAction(t) => Publish(b, t)
    case RevokeAction(t) => b.(tokens := Silence(b.tokens, t))
    case RevokeOwnerAction(plugin, generation) => RevokeOwner(b, plugin, generation)
    case RevokeChangedAction(plugin, registered) => RevokeIfChanged(b, plugin, registered)
    case DropAction(t) => b.(tokens := b.tokens - {t})
    case CloseAction => b.(closing := true)
    case SilenceOwnerAction(plugin) =>
      if plugin in b.owners then b.(tokens := Silence(b.tokens, b.owners[plugin].token)) else b
  }

  function Run(b: Broker, actions: seq<Action>): Broker
    decreases |actions|
  {
    if actions == [] then b else Run(Step(b, actions[0]), actions[1..])
  }

  // ----- what every run keeps

  ghost predicate TokensCounted(b: Broker) {
    && (forall t | t in b.tokens :: t < b.nextToken)
    && (forall t | t in b.tokens && b.tokens[t].granted :: Pair(b.tokens[t].plugin, b.tokens[t].generation) in b.grants)
  }

  ghost predicate LiveOwned(b: Broker) {
    forall t | t in b.tokens && b.tokens[t].granted && b.tokens[t].live ::
      b.tokens[t].plugin in b.owners && b.owners[b.tokens[t].plugin] == Owner(b.tokens[t].generation, t)
  }

  ghost predicate TokensKnown(b: Broker) {
    TokensCounted(b) && LiveOwned(b)
  }

  ghost predicate OwnersRecorded(b: Broker) {
    (forall p | p in b.owners ::
          && b.owners[p].token < b.nextToken
          && Pair(p, b.owners[p].generation) in b.grants
          && (b.owners[p].token in b.tokens ==>
                && b.tokens[b.owners[p].token].plugin == p && b.tokens[b.owners[p].token].granted
                && b.tokens[b.owners[p].token].generation == b.owners[p].generation))
  }

  ghost predicate GrantsBelow(b: Broker) {
    forall g | g in b.grants :: g.plugin in b.owners && g.generation <= b.owners[g.plugin].generation
  }

  ghost predicate OwnersHighest(b: Broker) {
    OwnersRecorded(b) && GrantsBelow(b)
  }

  /** A reported pair was reported once and is old, or its token carries the mark. */
  ghost predicate ReportsMarked(b: Broker) {
    forall r | r in b.reports ::
      && b.reports[r] == 1
      && r.plugin in b.owners && r.generation <= b.owners[r.plugin].generation
      && (r.generation == b.owners[r.plugin].generation && b.owners[r.plugin].token in b.tokens ==>
            b.tokens[b.owners[r.plugin].token].reported)
  }

  ghost predicate MarksReported(b: Broker) {
    forall t | t in b.tokens && b.tokens[t].reported :: Pair(b.tokens[t].plugin, b.tokens[t].generation) in b.reports
  }

  ghost predicate Inv(b: Broker) {
    TokensKnown(b) && OwnersHighest(b) && ReportsMarked(b) && MarksReported(b)
  }

  lemma PublishKeepsTokens(b: Broker, t: nat)
    requires TokensKnown(b) && OwnersHighest(b)
    ensures TokensKnown(Publish(b, t))
  {
    PublishKeepsCount(b, t);
    PublishKeepsLive(b, t);
  }

  lemma PublishKeepsCount(b: Broker, t: nat)
    requires TokensCounted(b)
    ensures TokensCounted(Publish(b, t))
  {}

  lemma PublishKeepsLive(b: Broker, t: nat)
    requires LiveOwned(b)
    ensures LiveOwned(Publish(b, t))
  {}

  lemma PublishKeepsOwners(b: Broker, t: nat)
    requires TokensKnown(b) && OwnersHighest(b)
    ensures OwnersHighest(Publish(b, t))
  {
    PublishKeepsRecords(b, t);
    PublishKeepsGrants(b, t);
  }

  lemma PublishKeepsRecords(b: Broker, t: nat)
    requires TokensKnown(b) && OwnersRecorded(b)
    ensures OwnersRecorded(Publish(b, t))
  {}

  lemma PublishKeepsGrants(b: Broker, t: nat)
    requires GrantsBelow(b)
    ensures GrantsBelow(Publish(b, t))
  {}

  lemma PublishKeepsReports(b: Broker, t: nat)
    requires OwnersHighest(b) && ReportsMarked(b) && MarksReported(b)
    ensures ReportsMarked(Publish(b, t))
  {}

  lemma PublishKeepsMarks(b: Broker, t: nat)
    requires MarksReported(b)
    ensures MarksReported(Publish(b, t))
  {}

  lemma PublishKeeps(b: Broker, t: nat)
    requires Inv(b)
    ensures Inv(Publish(b, t))
  {
    PublishKeepsTokens(b, t);
    PublishKeepsOwners(b, t);
    PublishKeepsReports(b, t);
    PublishKeepsMarks(b, t);
  }

  /** Silencing changes nothing of a token but whether it is live. */
  lemma SilenceFacts(tokens: map<nat, Token>, t: nat)
    ensures Silence(tokens, t).Keys == tokens.Keys
    ensures forall u | u in tokens ::
              && Silence(tokens, t)[u] == tokens[u].(live := Silence(tokens, t)[u].live)
              && (Silence(tokens, t)[u].live ==> tokens[u].live)
  {}

  lemma SilenceKeepsTokens(b: Broker, t: nat)
    requires TokensKnown(b) && OwnersHighest(b)
    ensures TokensKnown(b.(tokens := Silence(b.tokens, t))) && OwnersHighest(b.(tokens := Silence(b.tokens, t)))
  {
    SilenceFacts(b.tokens, t);
  }

  lemma SilenceKeeps(b: Broker, t: nat)
    requires Inv(b)
    ensures Inv(b.(tokens := Silence(b.tokens, t)))
  {
    SilenceKeepsTokens(b, t);
    SilenceFacts(b.tokens, t);
  }

  lemma PrepareKeeps(b: Broker, plugin: Id, generation: nat, registration: Registration, current: Option<Registration>)
    requires Inv(b)
    ensures Inv(Prepare(b, plugin, generation, registration, current))
  {}

  lemma RevokeIfChangedKeeps(b: Broker, plugin: Id, registered: map<Id, Registration>)
    requires Inv(b)
    ensures Inv(RevokeIfChanged(b, plugin, registered))
  {}

  lemma DropKeeps(b: Broker, t: nat)
    requires Inv(b)
    ensures Inv(b.(tokens := b.tokens - {t})) && Inv(b.(closing := true))
  {}

  lemma StepKeeps(b: Broker, a: Action)
    requires Inv(b)
    ensures Inv(Step(b, a))
  {
    match a
    case PrepareAction(plugin, generation, registration, current) => PrepareKeeps(b, plugin, generation, registration, current);
    case PublishAction(t) => PublishKeeps(b, t);
    case RevokeAction(t) => SilenceKeeps(b, t);
    case RevokeOwnerAction(plugin, generation) => if plugin in b.owners { SilenceKeeps(b, b.owners[plugin].token); }
    case RevokeChangedAction(plugin, registered) => RevokeIfChangedKeeps(b, plugin, registered);
    case DropAction(t) => DropKeeps(b, t);
    case CloseAction => DropKeeps(b, 0);
    case SilenceOwnerAction(plugin) => if plugin in b.owners { SilenceKeeps(b, b.owners[plugin].token); }
  }

  lemma {:induction false} RunKeeps(b: Broker, actions: seq<Action>)
    requires Inv(b)
    ensures Inv(Run(b, actions))
    decreases |actions|
  {
    if actions != [] {
      StepKeeps(b, actions[0]);
      RunKeeps(Step(b, actions[0]), actions[1..]);
    }
  }

  /** In every reachable state two live granted tokens of one plugin are the same, of its highest generation. */
  lemma OneLiveAuthorization(actions: seq<Action>, t: nat, u: nat)
    requires var b := Run(Start(), actions);
             && t in b.tokens && u in b.tokens && b.tokens[t].granted && b.tokens[u].granted
             && b.tokens[t].live && b.tokens[t].plugin == b.tokens[u].plugin
    ensures var b := Run(Start(), actions);
            && (b.tokens[u].live ==> t == u)
            && b.tokens[u].generation <= b.tokens[t].generation
            && forall g | g in b.grants && g.plugin == b.tokens[t].plugin :: g.generation <= b.tokens[t].generation
  {
    RunKeeps(Start(), actions);
  }

  /** A grant always raises its plugin's generation, so no generation is granted twice. */
  lemma GenerationsIncrease(actions: seq<Action>, t: nat)
    requires var b := Run(Start(), actions); t in b.tokens && !b.tokens[t].granted
    ensures var b := Run(Start(), actions);
            var after := Publish(b, t);
            t in after.tokens ==>
              forall g | g in b.grants && g.plugin == b.tokens[t].plugin :: g.generation < b.tokens[t].generation
  {
    RunKeeps(Start(), actions);
  }

  lemma StepNeverRevives(b: Broker, a: Action, t: nat)
    requires Inv(b) && t in b.tokens && !b.tokens[t].live
    ensures t in Step(b, a).tokens ==> !Step(b, a).tokens[t].live
    ensures Step(b, a).nextToken >= b.nextToken
  {}

  lemma StepNeverReallocates(b: Broker, a: Action, t: nat)
    requires Inv(b) && t !in b.tokens && t < b.nextToken
    ensures t !in Step(b, a).tokens && t < Step(b, a).nextToken
  {}

  /** Once a token is not live, or gone, it is never live again. */
  lemma {:induction false} NeverRevived(b: Broker, actions: seq<Action>, t: nat)
    requires Inv(b) && t < b.nextToken && (t in b.tokens ==> !b.tokens[t].live)
    ensures t in Run(b, actions).tokens ==> !Run(b, actions).tokens[t].live
    decreases |actions|
  {
    if actions != [] {
      var next := Step(b, actions[0]);
      StepKeeps(b, actions[0]);
      if t in b.tokens { StepNeverRevives(b, actions[0], t); } else { StepNeverReallocates(b, actions[0], t); }
      assert Run(b, actions) == Run(next, actions[1..]);
      NeverRevived(next, actions[1..], t);
    }
  }

  /** No (plugin, generation) pair is reported twice in any run. */
  lemma ReportedAtMostOnce(actions: seq<Action>)
    ensures var r := Run(Start(), actions).reports;
            forall pair | pair in r :: r[pair] == 1
  {
    RunKeeps(Start(), actions);
  }

  // ----- single calls

  /** A token comes into being exactly for a generation in range whose recorded grant is registered, while the broker is open. */
  lemma PrepareIsExact(b: Broker, plugin: Id, generation: nat, registration: Registration, current: Option<Registration>)
    ensures var t := Prepare(b, plugin, generation, registration, current);
            if !b.closing && 1 <= generation <= 9_007_199_254_740_991 && current.Some? && current.value == registration
            then && t == b.(tokens := t.tokens, nextToken := b.nextToken + 1)
                 && t.tokens == b.tokens[b.nextToken := Token(plugin, generation, registration, true, false, false)]
            else t == b
  {}

  /** Once the broker closes no token comes into being any more. */
  lemma {:induction false} NothingAfterClosing(b: Broker, actions: seq<Action>)
    requires b.closing
    ensures Run(b, actions).closing && Run(b, actions).nextToken == b.nextToken && Run(b, actions).tokens.Keys <= b.tokens.Keys
    decreases |actions|
  {
    if actions != [] {
      ClosedStep(b, actions[0]);
      NothingAfterClosing(Step(b, actions[0]), actions[1..]);
    }
  }

  lemma ClosedStep(b: Broker, a: Action)
    requires b.closing
    ensures Step(b, a).closing && Step(b, a).nextToken == b.nextToken && Step(b, a).tokens.Keys <= b.tokens.Keys
  {}

  /** Revoking an owner silences its token of exactly that generation and nothing else. */
  lemma RevokeOwnerIsExact(b: Broker, plugin: Id, generation: nat)
    requires Inv(b)
    ensures var t := RevokeOwner(b, plugin, generation);
            && t == b.(tokens := t.tokens) && t.tokens.Keys == b.tokens.Keys
            && forall u | u in b.tokens ::
                 t.tokens[u] ==
                   if plugin in b.owners && b.owners[plugin] == Owner(generation, u) then b.tokens[u].(live := false) else b.tokens[u]
  {}

  // ----- the loop over all owners

  /** The owner table with its lock held. */
  class OwnerTable {
    var broker: Broker

    constructor ()
      ensures broker == Start()
    {
      broker := Start();
    }

    /** Publish a prepared token; false when its generation is not new or the table is full. */
    method PublishToken(t: nat) returns (ok: bool)
      requires t in broker.tokens && !broker.tokens[t].granted
      modifies this
      ensures broker == Publish(old(broker), t)
      ensures var token := old(broker).tokens[t];
              ok <==> if token.plugin in old(broker).owners
                      then old(broker).owners[token.plugin].generation < token.generation
                      else |old(broker).owners| < 4096
      ensures !ok ==> broker == old(broker).(tokens := old(broker).tokens - {t})
      ensures ok ==> TookOver(old(broker), t, broker)
    {
      var token := broker.tokens[t];
      if token.plugin in broker.owners {
        var previous := broker.owners[token.plugin];
        if previous.generation >= token.generation {
          broker := broker.(tokens := broker.tokens - {t});
          return false;
        }
        if previous.token in broker.tokens {
          broker := broker.(tokens := broker.tokens[previous.token := broker.tokens[previous.token].(live := false)]);
        }
      } else if |broker.owners| >= MAX_AUTHORIZATION_IDENTITIES {
        broker := broker.(tokens := broker.tokens - {t});
        return false;
      }
      broker := broker.(tokens := broker.tokens[t := token.(granted := true)],
                        owners := broker.owners[token.plugin := Owner(token.generation, t)],
                        grants := broker.grants + {Pair(token.plugin, token.generation)});
      ok := true;
    }

    /** One owner's turn; the answer is the pair it reports, if any. */
    method RevokeOne(p: Id, registered: map<Id, Registration>) returns (added: Option<Pair>)
      requires Inv(broker)
      modifies this
      ensures added == Turn(old(broker), p, registered)
      ensures broker == RevokeIfChanged(old(broker), p, registered)
      ensures broker.reports == if added.Some? then Report(old(broker).reports, added.value) else old(broker).reports
    {
      added := None;
      if p in broker.owners && broker.owners[p].token in broker.tokens {
        var owner := broker.owners[p];
        var token := broker.tokens[owner.token];
        if p !in registered || registered[p] != token.registration {
          broker := broker.(tokens := broker.tokens[owner.token := token.(live := false, reported := true)]);
          if !token.reported {
            added := Some(Pair(p, owner.generation));
            broker := broker.(reports := Report(broker.reports, added.value));
          }
        }
      }
    }

    /**
     * Afterwards exactly the tokens whose grant is no longer the registered one are silent and marked,
     * all others are as before, and the answer names those of them that were not reported before.
     */
    method RevokeChanged(registered: map<Id, Registration>) returns (changed: seq<Pair>)
      requires Inv(broker)
      modifies this
      ensures Inv(broker) && broker.reports == ReportAll(old(broker).reports, changed)
      ensures broker.owners == old(broker.owners)
      ensures forall p | Changed(old(broker), p, registered) :: Disabled(broker, p)
      ensures Swept(old(broker), broker, {}, registered) && Named(old(broker), {}, changed, registered)
    {
      changed := [];
      var rest := broker.owners.Keys;
      ghost var first := broker;
      assert forall t | t in first.tokens && Stale(first, t, registered) :: first.tokens[t].plugin in rest;
      while rest != {}
        invariant Revoking(first, broker, rest, changed, registered)
        invariant Swept(first, broker, rest, registered) && Named(first, rest, changed, registered)
        decreases rest
      {
        var p := PickLeast(rest);
        ghost var before := broker;
        var added := RevokeOne(p, registered);
        OwnerRevoked(first, before, p, rest, changed, registered, added);
        SweptFurther(first, before, p, rest, registered);
        NamedFurther(first, before, p, rest, changed, registered, added);
        rest := rest - {p};
        if added.Some? { changed := changed + [added.value]; }
      }
    }
  }

  /** The token is granted and owned now, the one it replaces is silent, and all others are as before. */
  ghost predicate TookOver(b: Broker, t: nat, after: Broker)
    requires t in b.tokens
  {
    var token := b.tokens[t];
    && after.tokens.Keys == b.tokens.Keys && after.tokens[t] == token.(granted := true)
    && after.owners == b.owners[token.plugin := Owner(token.generation, t)]
    && (forall u | u in b.tokens && u != t ::
          after.tokens[u] ==
            if token.plugin in b.owners && b.owners[token.plugin].token == u then b.tokens[u].(live := false) else b.tokens[u])
    && after == b.(tokens := after.tokens, owners := after.owners, grants := b.grants + {Pair(token.plugin, token.generation)})
  }

  /** Its plugin's owner entry names this token, and what is registered for the plugin is not its grant. */
  predicate Stale(b: Broker, t: nat, registered: map<Id, Registration>)
    requires t in b.tokens
  {
    var token := b.tokens[t];
    && token.plugin in b.owners && b.owners[token.plugin].token == t
    && (token.plugin !in registered || registered[token.plugin] != token.registration)
  }

  /** The stale tokens of the owners outside `rest` are silent and marked; every other token is as it was. */
  ghost predicate Swept(first: Broker, b: Broker, rest: set<Id>, registered: map<Id, Registration>) {
    && b.tokens.Keys == first.tokens.Keys
    && (forall t | t in first.tokens ::
          b.tokens[t] == if Stale(first, t, registered) && first.tokens[t].plugin !in rest
                         then first.tokens[t].(live := false, reported := true) else first.tokens[t])
    && b == first.(tokens := b.tokens, reports := b.reports)
  }

  /** The pairs named are those of the stale tokens outside `rest` that were not reported before. */
  ghost predicate Named(first: Broker, rest: set<Id>, changed: seq<Pair>, registered: map<Id, Registration>) {
    forall x :: x in changed <==>
      exists t :: t in first.tokens && Stale(first, t, registered) && first.tokens[t].plugin !in rest && !first.tokens[t].reported
                  && x == Pair(first.tokens[t].plugin, first.tokens[t].generation)
  }

  lemma SweptFurther(first: Broker, b: Broker, p: Id, rest: set<Id>, registered: map<Id, Registration>)
    requires Inv(first) && Swept(first, b, rest, registered) && p in rest
    ensures Swept(first, RevokeIfChanged(b, p, registered), rest - {p}, registered)
  {
    if p in first.owners && first.owners[p].token in first.tokens {
      assert first.tokens[first.owners[p].token].plugin == p;
    }
  }

  /** One owner's turn names its pair exactly if its token is stale and was not reported. */
  lemma NamedFurther(
    first: Broker, b: Broker, p: Id, rest: set<Id>, changed: seq<Pair>, registered: map<Id, Registration>, added: Option<Pair>)
    requires Inv(first) && Swept(first, b, rest, registered) && Named(first, rest, changed, registered) && p in rest
    requires Turn(b, p, registered) == added
    ensures Named(first, rest - {p}, if added.Some? then changed + [added.value] else changed, registered)
  {
    var later := if added.Some? then changed + [added.value] else changed;
    forall x ensures x in later <==> x in changed || added == Some(x) {}
    if p in first.owners && first.owners[p].token in first.tokens {
      OwnTokenOnly(first, p);
    }
    forall t | t in first.tokens && Stale(first, t, registered) && first.tokens[t].plugin == p
      ensures p in first.owners && t == first.owners[p].token {}
  }

  lemma OwnTokenOnly(b: Broker, p: Id)
    requires Inv(b) && p in b.owners && b.owners[p].token in b.tokens
    ensures b.tokens[b.owners[p].token].plugin == p && b.tokens[b.owners[p].token].generation == b.owners[p].generation
  {}

  /** The pair one owner's turn reports. */
  function Turn(b: Broker, p: Id, registered: map<Id, Registration>): Option<Pair> {
    if p in b.owners && b.owners[p].token in b.tokens && Stale(b, b.owners[p].token, registered) && !b.tokens[b.owners[p].token].reported
    then Some(Pair(p, b.owners[p].generation)) else None
  }

  /** Part-way through the table: the owners in `rest` are still to come. */
  ghost predicate Revoking(first: Broker, b: Broker, rest: set<Id>, changed: seq<Pair>, registered: map<Id, Registration>) {
    && Inv(b) && rest <= b.owners.Keys && SameTokens(first, b)
    && b.reports == ReportAll(first.reports, changed)
    && forall p | Changed(first, p, registered) && p !in rest :: Disabled(b, p)
  }

  lemma OwnerRevoked(
    first: Broker, b: Broker, p: Id, rest: set<Id>, changed: seq<Pair>, registered: map<Id, Registration>, added: Option<Pair>)
    requires Revoking(first, b, rest, changed, registered) && p in rest
    requires RevokeIfChanged(b, p, registered).reports == if added.Some? then Report(b.reports, added.value) else b.reports
    ensures Revoking(first, RevokeIfChanged(b, p, registered), rest - {p},
                     if added.Some? then changed + [added.value] else changed, registered)
  {
    RevokeIfChangedKeeps(b, p, registered);
    RevokeIfChangedDisables(first, b, p, registered);
    if added.Some? { assert (changed + [added.value])[..|changed|] == changed; }
    SameOwners(b, p, registered);
  }

  lemma SameOwners(b: Broker, p: Id, registered: map<Id, Registration>)
    ensures RevokeIfChanged(b, p, registered).owners == b.owners
  {}

  function ReportAll(reports: map<Pair, nat>, pairs: seq<Pair>): map<Pair, nat> {
    if pairs == [] then reports
    else Report(ReportAll(reports, pairs[..|pairs| - 1]), pairs[|pairs| - 1])
  }

  ghost predicate SameTokens(a: Broker, b: Broker) {
    && a.owners == b.owners && a.tokens.Keys == b.tokens.Keys
    && forall t | t in a.tokens :: a.tokens[t].registration == b.tokens[t].registration
  }

  /** The plugin's token is not live and its pair has been reported. */
  ghost predicate Disabled(b: Broker, p: Id) {
    && p in b.owners && b.owners[p].token in b.tokens
    && !b.tokens[b.owners[p].token].live
    && Pair(p, b.owners[p].generation) in b.reports
  }

  lemma RevokeIfChangedStays(first: Broker, b: Broker, p: Id, registered: map<Id, Registration>)
    requires SameTokens(first, b)
    ensures SameTokens(first, RevokeIfChanged(b, p, registered))
    ensures forall q | Disabled(b, q) :: Disabled(RevokeIfChanged(b, p, registered), q)
  {}

  lemma RevokeIfChangedDisables(first: Broker, b: Broker, p: Id, registered: map<Id, Registration>)
    requires Inv(b) && SameTokens(first, b)
    ensures SameTokens(first, RevokeIfChanged(b, p, registered))
    ensures Changed(first, p, registered) ==> Disabled(RevokeIfChanged(b, p, registered), p)
    ensures forall q | Disabled(b, q) :: Disabled(RevokeIfChanged(b, p, registered), q)
  {
    RevokeIfChangedStays(first, b, p, registered);
  }
}
