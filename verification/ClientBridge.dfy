/** The epoch and receipt client of the owned client bridge, against a peer that may reply anything. */
module ClientBridge {
  import opened Results
  import opened Ids

  const MAX_EPOCH := 0xFFFF_FFFF_FFFF_FFFF

  datatype Provider = Provider(id: Id, generation: nat)

  datatype Fault = Uncertain | Protocol | IdentityInvalid | Disconnected | OperationFailed
    | SnapshotFailed | AuthorityLost | ActivationFailed

  datatype Verdict = Rejected | Applied | RolledBack | Degraded | Unrecognised

  /** A reply's fields, already matched against the peer's process id unless pending or unknown. */
  datatype Reply = Reply(
    pending: bool, unknown: bool, verdict: Verdict, epoch: Option<nat>,
    owner: Option<Provider>, activationValid: bool)

  /** A mutation carries its operation id; a status query names the operation it asks about. */
  datatype Command =
    | Change(operation: nat, provider: Option<Provider>, expectedEpoch: nat, previous: Option<Id>)
    | Ready(operation: nat)
    | Status(operation: nat)
    | Revoke(operation: nat, expectedEpoch: nat, revoked: Id)

  /** The other end: it keeps what it was sent and what it answered, as it likes. */
  class Peer {
    var sent: seq<Command>
    var answers: seq<Result<Reply, Fault>>

    constructor ()
      ensures sent == [] && answers == []
    {
      sent, answers := [], [];
    }

    method Request(c: Command) returns (r: Result<Reply, Fault>)
      modifies this
      ensures sent == old(sent) + [c] && answers == old(answers) + [r]
      ensures r.Err? ==> r.error in {Uncertain, Protocol, IdentityInvalid, Disconnected, OperationFailed}
    {
      sent := sent + [c];
      var reply: Reply := *;
      var fault: Fault := *;
      var fails: bool := *;
      r := if fails && fault in {Uncertain, Protocol, IdentityInvalid, Disconnected, OperationFailed}
           then Err(fault) else Ok(reply);
      answers := answers + [r];
    }
  }

  datatype State = State(epoch: nat, provider: Option<Provider>, leased: bool)

  /** The epoch a verdict must come with. */
  function ExpectedEpoch(epoch: nat, v: Verdict): Option<nat> {
    match v
    case Rejected => Some(epoch)
    case Unrecognised => None
    case _ => if epoch < MAX_EPOCH then Some(epoch + 1) else None
  }

  /** A reply may name nobody, the requested provider or the recorded one. */
  predicate KnownOwner(s: State, requested: Option<Provider>, r: Reply) {
    r.owner.None? || r.owner == requested || r.owner == s.provider
  }

  predicate Acceptable(s: State, requested: Option<Provider>, r: Reply) {
    && ExpectedEpoch(s.epoch, r.verdict).Some?
    && r.epoch == ExpectedEpoch(s.epoch, r.verdict)
    && KnownOwner(s, requested, r)
    && r.activationValid
  }

  /** The state after a reply to a change: recorded if acceptable, otherwise nothing is trusted any more. */
  function Accept(s: State, requested: Option<Provider>, r: Reply): State {
    if Acceptable(s, requested, r) then s.(epoch := r.epoch.value, provider := r.owner) else Invalid(s)
  }

  function Invalid(s: State): State {
    s.(provider := None, leased := false)
  }

  /** A reply that is believed: a known verdict with its epoch, a known owner, a valid activation. */
  predicate Believed(s: State, requested: Option<Provider>, r: Reply) {
    && r.activationValid
    && (r.owner.None? || r.owner == requested || r.owner == s.provider)
    && match r.verdict
       case Rejected => r.epoch == Some(s.epoch)
       case Applied => s.epoch < 0xFFFF_FFFF_FFFF_FFFF && r.epoch == Some(s.epoch + 1)
       case RolledBack => s.epoch < 0xFFFF_FFFF_FFFF_FFFF && r.epoch == Some(s.epoch + 1)
       case Degraded => s.epoch < 0xFFFF_FFFF_FFFF_FFFF && r.epoch == Some(s.epoch + 1)
       case Unrecognised => false
  }

  /** An answer that settles what became of an operation. */
  predicate Settled(a: Result<Reply, Fault>) {
    a.Ok? && !a.value.pending && !a.value.unknown
  }

  /** What one `replace` may do to the recorded state. */
  ghost predicate Moves(before: State, after: State, requested: Option<Provider>) {
    && before.epoch <= after.epoch <= before.epoch + 2
    && (after.provider.None? || after.provider == requested || after.provider == before.provider)
    && (after.leased ==> before.leased)
  }

  /** Only status queries about the one operation. */
  ghost predicate OnlyQueries(operation: nat, commands: seq<Command>) {
    forall c | c in commands :: c == Status(operation)
  }

  /** The requested change once, then queries, then at most one revocation. */
  ghost predicate SendsOnce(operation: nat, change: Command, commands: seq<Command>) {
    commands == []
    || exists queries: seq<Command>, tail: seq<Command> ::
         && commands == [change] + queries + tail
         && OnlyQueries(operation, queries)
         && (tail == [] || (|tail| == 1 && tail[0].Revoke? && tail[0].operation == operation))
  }

  /** Readiness once, then queries about it, then at most the one change that clears the provider. */
  ghost predicate StartsOnce(ready: nat, operation: nat, clear: Command, commands: seq<Command>) {
    exists queries: seq<Command>, tail: seq<Command> ::
      && commands == [Ready(ready)] + queries + tail
      && OnlyQueries(ready, queries)
      && SendsOnce(operation, clear, tail)
  }

  /** The newest answer is this reply, and it came after `before`. */
  ghost predicate LastAnswer(before: seq<Result<Reply, Fault>>, now: seq<Result<Reply, Fault>>, reply: Reply) {
    before <= now && |before| < |now| && now[|now| - 1] == Ok(reply)
  }

  /** One of the answers since `before` is this reply. */
  ghost predicate Answered(before: seq<Result<Reply, Fault>>, now: seq<Result<Reply, Fault>>, reply: Reply) {
    before <= now && exists i :: |before| <= i < |now| && now[i] == Ok(reply)
  }

  class SourceRuntime {
    const peer: Peer
    var state: State
    var sequence: nat

    constructor (p: Peer, provider: Option<Provider>)
      ensures peer == p && state == State(0, provider, true)
    {
      peer := p;
      state := State(0, provider, true);
      sequence := 0;
    }

    /** Ask for the receipt of an uncertain operation until it is settled or time runs out; never send it again. */
    method AwaitReceipt(operation: nat) returns (r: Option<Reply>)
      modifies peer
      ensures |old(peer.sent)| <= |peer.sent| && peer.sent[..|old(peer.sent)|] == old(peer.sent)
      ensures OnlyQueries(operation, peer.sent[|old(peer.sent)|..])
      ensures |old(peer.answers)| < |peer.answers| && old(peer.answers) <= peer.answers
      ensures forall i | |old(peer.answers)| <= i < |peer.answers| - 1 :: peer.answers[i].Ok? && peer.answers[i].value.pending
      ensures var last := peer.answers[|peer.answers| - 1]; r == if Settled(last) then Some(last.value) else None
    {
      var polls: nat := *;
      while true
        invariant |old(peer.sent)| <= |peer.sent| && peer.sent[..|old(peer.sent)|] == old(peer.sent)
        invariant OnlyQueries(operation, peer.sent[|old(peer.sent)|..])
        invariant old(peer.answers) <= peer.answers
        invariant forall i | |old(peer.answers)| <= i < |peer.answers| :: peer.answers[i].Ok? && peer.answers[i].value.pending
        decreases polls
      {
        ghost var before := peer.sent;
        var observed := peer.Request(Status(operation));
        assert peer.sent[|old(peer.sent)|..] == before[|old(peer.sent)|..] + [Status(operation)];
        if observed.Ok? && !observed.value.pending && !observed.value.unknown { return Some(observed.value); }
        if observed.Err? || !observed.value.pending || polls == 0 { return None; }
        polls := polls - 1;
      }
    }

    /** Send the change and find out what became of it. */
    method Submit(operation: nat, change: Command) returns (r: Result<Reply, Fault>)
      modifies this`state, peer
      ensures |old(peer.sent)| < |peer.sent| && peer.sent[..|old(peer.sent)| + 1] == old(peer.sent) + [change]
      ensures OnlyQueries(operation, peer.sent[|old(peer.sent)| + 1..])
      ensures |old(peer.answers)| < |peer.answers| && old(peer.answers) <= peer.answers
      ensures var first, last := peer.answers[|old(peer.answers)|], peer.answers[|peer.answers| - 1];
              && (first != Err(Uncertain) ==> r == first)
              && (first == Err(Uncertain) ==> r == if Settled(last) then last else Err(Uncertain))
      ensures r.Ok? ==> state == old(state)
      ensures r.Err? ==> state == if r.error in {Uncertain, Protocol, IdentityInvalid} then Invalid(old(state)) else old(state)
      ensures r.Err? ==> r.error in {Uncertain, Protocol, IdentityInvalid, Disconnected, OperationFailed}
    {
      r := peer.Request(change);
      if r.Err? {
        match r.error {
          case Uncertain =>
            var settled := AwaitReceipt(operation);
            if settled.Some? { return Ok(settled.value); }
            state := Invalid(state);
          case Protocol => state := Invalid(state);
          case IdentityInvalid => state := Invalid(state);
          case _ =>
        }
      }
    }

    /** Take the source away from a provider whose authority no longer holds. */
    method RevokeAuthority(operation: nat, provider: Provider)
      requires state.provider == Some(provider)
      modifies this`state, peer
      ensures peer.sent == old(peer.sent) + [Revoke(operation, old(state).epoch, provider.id)]
      ensures old(peer.answers) <= peer.answers && |peer.answers| == |old(peer.answers)| + 1
      ensures var a := peer.answers[|old(peer.answers)|];
              var confirmed := && a.Ok? && a.value.verdict == Applied && a.value.owner.None?
                               && old(state).epoch < MAX_EPOCH && a.value.epoch == Some(old(state).epoch + 1);
              state == State(if confirmed then old(state).epoch + 1 else old(state).epoch, None, confirmed && old(state).leased)
      ensures state.provider.None? && old(state).epoch <= state.epoch <= old(state).epoch + 1
      ensures state.leased ==> old(state).leased && state.epoch == old(state).epoch + 1
    {
      var cleared := peer.Request(Revoke(operation, state.epoch, provider.id));
      if cleared.Ok? && cleared.value.verdict == Applied && cleared.value.owner.None?
         && state.epoch < MAX_EPOCH && cleared.value.epoch == Some(state.epoch + 1) {
        state := state.(epoch := state.epoch + 1);
      } else {
        state := Invalid(state);
      }
      state := state.(provider := None);
    }

    /** What the settling answer to a change leads to; nothing that is not believed stays recorded. */
    method Judge(operation: nat, requested: Option<Provider>, answer: Reply) returns (r: Result<(), Fault>)
      modifies this`state, peer
      ensures Moves(old(state), state, requested)
      ensures old(peer.answers) <= peer.answers
      ensures peer.sent == old(peer.sent)
              || (|peer.sent| == |old(peer.sent)| + 1 && peer.sent[..|old(peer.sent)|] == old(peer.sent)
                  && peer.sent[|old(peer.sent)|].Revoke? && peer.sent[|old(peer.sent)|].operation == operation)
      ensures !Believed(old(state), requested, answer) ==> r == Err(Protocol) && state == State(old(state).epoch, None, false)
      ensures Believed(old(state), requested, answer) && r != Err(AuthorityLost) ==>
                if answer.verdict != Applied
                then r == Err(ActivationFailed) && state == old(state).(epoch := answer.epoch.value, provider := answer.owner)
                else if answer.owner == requested then r == Ok(()) && state == State(old(state).epoch + 1, requested, old(state).leased)
                else r == Err(Protocol) && state == State(old(state).epoch + 1, None, false)
      ensures r == Err(AuthorityLost) ==>
                && Believed(old(state), requested, answer) && answer.owner.Some? && state.provider.None?
                && peer.sent == old(peer.sent) + [Revoke(operation, answer.epoch.value, answer.owner.value.id)]
    {
      var trusted := Acceptable(state, requested, answer);
      AcceptFacts(state, requested, answer);
      state := Accept(state, requested, answer);
      if !trusted { return Err(Protocol); }
      if state.provider.Some? {
        var authority: bool := *;
        if !authority {
          RevokeAuthority(operation, state.provider.value);
          return Err(AuthorityLost);
        }
      }
      if answer.verdict != Applied { return Err(ActivationFailed); }
      if state.provider != requested {
        state := Invalid(state);
        return Err(Protocol);
      }
      r := Ok(());
    }

    /**
     * Replace or clear the provider. Success means the epoch went up by one and exactly the
     * requested provider is recorded; a reply that is not believed leaves nothing trusted. `reply` is
     * the answer that settled the change.
     */
    method Replace(requested: Option<Provider>) returns (r: Result<(), Fault>, ghost reply: Option<Reply>)
      modifies this, peer
      ensures Moves(old(state), state, requested)
      ensures |old(peer.sent)| <= |peer.sent| && peer.sent[..|old(peer.sent)|] == old(peer.sent)
      ensures SendsOnce(old(sequence), Change(old(sequence), requested, old(state).epoch, OwnerOf(old(state))),
                        peer.sent[|old(peer.sent)|..])
      ensures |peer.sent| > |old(peer.sent)| ==>
                peer.sent[|old(peer.sent)|] == Change(old(sequence), requested, old(state).epoch,
                                                      if old(state).provider.Some? then Some(old(state).provider.value.id) else None)
      ensures sequence == old(sequence) + 1
      ensures r.Ok? ==> state == State(old(state).epoch + 1, requested, old(state).leased)
      ensures r.Err? && r.error in {Uncertain, Protocol, IdentityInvalid} ==>
                state.provider.None? && !state.leased
      ensures r.Err? && r.error in {Disconnected, OperationFailed, SnapshotFailed} ==> state == old(state)
      ensures r.Err? && r.error == AuthorityLost ==> state.provider.None?
      ensures old(peer.answers) <= peer.answers
      ensures peer.answers != old(peer.answers) ==>
                var first := peer.answers[|old(peer.answers)|];
                && (first.Ok? ==> reply == Some(first.value))
                && (first.Err? && first.error != Uncertain ==> r == Err(first.error))
                && (first == Err(Uncertain) && reply.None? ==> r == Err(Uncertain))
      ensures reply.None? ==> r.Err? && r.error in {Uncertain, Protocol, IdentityInvalid, Disconnected, OperationFailed, SnapshotFailed}
      ensures reply.Some? && !Believed(old(state), requested, reply.value) ==>
                r == Err(Protocol) && state == State(old(state).epoch, None, false)
      ensures r.Ok? ==>
                reply.Some? && Believed(old(state), requested, reply.value) && reply.value.verdict == Applied && reply.value.owner == requested
      ensures reply.Some? && Believed(old(state), requested, reply.value) && r != Err(AuthorityLost) ==>
                if reply.value.verdict != Applied
                then r == Err(ActivationFailed)
                     && state == old(state).(epoch := reply.value.epoch.value, provider := reply.value.owner)
                else if reply.value.owner == requested then r.Ok?
                else r == Err(Protocol) && state == State(old(state).epoch + 1, None, false)
      ensures r == Err(AuthorityLost) ==> reply.Some? && Believed(old(state), requested, reply.value) && reply.value.owner.Some?
    {
      reply := None;
      var operation := sequence;
      sequence := sequence + 1;
      ghost var base := peer.sent;
      var change := Change(operation, requested, state.epoch, OwnerOf(state));
      var snapshot: bool := *;
      if requested.Some? && !snapshot {
        assert peer.sent[|base|..] == [];
        return Err(SnapshotFailed), None;
      }
      var submitted := Submit(operation, change);
      SentSoFar(base, peer.sent, operation, change);
      if submitted.Err? { return Err(submitted.error), None; }
      reply := Some(submitted.value);
      ghost var sent := peer.sent;
      r := Judge(operation, requested, submitted.value);
      if peer.sent != sent { SentWithRevocation(base, sent, peer.sent, operation, change); }
    }

    /** A provider among the affected plugins is cleared; anything else is left alone. */
    method RetireIfAffected(affected: set<Id>) returns (r: Result<(), Fault>)
      modifies this, peer
      ensures Moves(old(state), state, None)
      ensures old(state).provider.None? || old(state).provider.value.id !in affected ==>
                r.Ok? && state == old(state) && peer.sent == old(peer.sent)
      ensures r.Ok? ==> state.provider.None? || state.provider.value.id !in affected
    {
      if state.provider.Some? && state.provider.value.id in affected {
        ghost var reply: Option<Reply>;
        r, reply := Replace(None);
      } else {
        r := Ok(());
      }
    }

    /**
     * The first receipt fixes the provider: none, or exactly the one started with; uncertain
     * readiness is only queried, never sent again.
     */
    method CompleteStartup(provider: Option<Provider>, ready: nat) returns (r: Result<bool, Fault>, ghost last: Option<Reply>)
      modifies this, peer
      ensures r.Ok? ==> state == old(state).(provider := if r.value then provider else None) && (r.value ==> provider.Some?)
      ensures state.provider.None? || state.provider == provider || state.provider == old(state).provider
      ensures |old(peer.sent)| < |peer.sent| && peer.sent[..|old(peer.sent)| + 1] == old(peer.sent) + [Ready(ready)]
      ensures r.Ok? ==> OnlyQueries(ready, peer.sent[|old(peer.sent)| + 1..])
      ensures StartsOnce(ready, old(sequence),
                         Change(old(sequence), None, old(state).epoch, OwnerOf(old(state).(provider := provider))),
                         peer.sent[|old(peer.sent)|..])
      ensures r.Ok? ==> last.Some?
      ensures last.Some? ==>
                Answered(old(peer.answers), peer.answers, last.value)
                && var good := && last.value.verdict == Applied && last.value.epoch == Some(0) && last.value.activationValid
                               && (last.value.owner.None? || last.value.owner == provider);
                   && (r.Ok? ==> good && r.value == last.value.owner.Some?)
                   && (!good ==> r.Err? && state == old(state))
      ensures last.None? ==> state == old(state)
    {
      last := None;
      ghost var base := peer.sent;
      ghost var clear := Change(sequence, None, state.epoch, OwnerOf(state.(provider := provider)));
      var first := peer.Request(Ready(ready));
      StartsSoFar(base, peer.sent, ready, sequence, clear);
      var reply: Reply;
      if first.Ok? {
        reply := first.value;
      } else if first.error == Uncertain {
        var status := peer.Request(Status(ready));
        StartsSoFar(base, peer.sent, ready, sequence, clear);
        if status.Err? { return Err(status.error), None; }
        reply := status.value;
      } else {
        return Err(first.error), None;
      }
      var polls: nat := *;
      while reply.pending && polls > 0
        invariant state == old(state) && sequence == old(sequence)
        invariant |base| < |peer.sent| && peer.sent[..|base| + 1] == base + [Ready(ready)]
        invariant OnlyQueries(ready, peer.sent[|base| + 1..])
        invariant LastAnswer(old(peer.answers), peer.answers, reply)
        decreases polls
      {
        ghost var before := peer.sent;
        var status := peer.Request(Status(ready));
        assert peer.sent[|base| + 1..] == before[|base| + 1..] + [Status(ready)];
        StartsSoFar(base, peer.sent, ready, sequence, clear);
        if status.Err? { return Err(status.error), None; }
        reply := status.value;
        polls := polls - 1;
      }
      StartsSoFar(base, peer.sent, ready, sequence, clear);
      last := Some(reply);
      if reply.verdict != Applied || reply.epoch != Some(0) { return Err(Protocol), last; }
      if reply.owner.Some? && reply.owner != provider { return Err(IdentityInvalid), last; }
      if !reply.activationValid { return Err(Protocol), last; }
      var installed: bool := *;
      if installed != reply.owner.Some? { return Err(Protocol), last; }
      state := state.(provider := reply.owner);
      var authority: bool := *;
      if reply.owner.Some? && !authority {
        ghost var sent := peer.sent;
        ghost var answer: Option<Reply>;
        var cleared: Result<(), Fault>;
        cleared, answer := Replace(None);
        StartsWithClear(base, sent, peer.sent, ready, old(sequence), clear);
        return Err(if cleared.Err? then cleared.error else AuthorityLost), last;
      }
      r := Ok(reply.owner.Some?);
    }
  }

  function OwnerOf(s: State): Option<Id> {
    if s.provider.Some? then Some(s.provider.value.id) else None
  }

  /** An accepted reply moves the epoch exactly as its verdict says; any other is not recorded at all. */
  lemma AcceptFacts(s: State, requested: Option<Provider>, r: Reply)
    ensures Moves(s, Accept(s, requested, r), requested)
    ensures Acceptable(s, requested, r) ==>
              Accept(s, requested, r).epoch == s.epoch + (if r.verdict == Rejected then 0 else 1)
              && Accept(s, requested, r).leased == s.leased
    ensures !Acceptable(s, requested, r) ==> Accept(s, requested, r) == State(s.epoch, None, false)
    ensures Acceptable(s, requested, r) <==> Believed(s, requested, r)
  {}

  /**
   * A reply to a change is recorded exactly if its verdict is known, its epoch the one that verdict
   * comes with, its owner nobody, the requested provider or the recorded one, and its activation valid.
   */
  lemma RecordedExactly(s: State, requested: Option<Provider>, r: Reply)
    ensures var known := r.owner.None? || r.owner == requested || r.owner == s.provider;
            var stays := r.verdict == Rejected && r.epoch == Some(s.epoch);
            var moves := r.verdict in {Applied, RolledBack, Degraded} && s.epoch < 0xFFFF_FFFF_FFFF_FFFF && r.epoch == Some(s.epoch + 1);
            Accept(s, requested, r) ==
              if (stays || moves) && known && r.activationValid
              then State(if moves then s.epoch + 1 else s.epoch, r.owner, s.leased)
              else State(s.epoch, None, false)
  {}

  /** Along any sequence of replies the epoch counts the accepted changes that were not rejected. */
  function Replies(s: State, rs: seq<(Option<Provider>, Reply)>): State {
    if rs == [] then s else Accept(Replies(s, rs[..|rs| - 1]), rs[|rs| - 1].0, rs[|rs| - 1].1)
  }

  function Counted(s: State, rs: seq<(Option<Provider>, Reply)>): nat {
    if rs == [] then 0
    else
      Counted(s, rs[..|rs| - 1])
      + if Acceptable(Replies(s, rs[..|rs| - 1]), rs[|rs| - 1].0, rs[|rs| - 1].1) && rs[|rs| - 1].1.verdict != Rejected
        then 1 else 0
  }

  /** And the recorded provider was there at the start or was asked for. */
  lemma {:induction false} RepliesFacts(s: State, rs: seq<(Option<Provider>, Reply)>)
    ensures Replies(s, rs).epoch == s.epoch + Counted(s, rs)
    ensures Replies(s, rs).provider.Some? ==>
              Replies(s, rs).provider == s.provider || exists i :: 0 <= i < |rs| && rs[i].0 == Replies(s, rs).provider
    ensures Replies(s, rs).leased ==> s.leased
  {
    if rs != [] {
      var n := |rs| - 1;
      RepliesFacts(s, rs[..n]);
      AcceptFacts(Replies(s, rs[..n]), rs[n].0, rs[n].1);
      if Replies(s, rs).provider.Some? && Replies(s, rs).provider == Replies(s, rs[..n]).provider && Replies(s, rs).provider != s.provider {
        var i :| 0 <= i < n && rs[..n][i].0 == Replies(s, rs[..n]).provider;
        assert rs[i].0 == Replies(s, rs).provider;
      }
    }
  }

  lemma SentSoFar(base: seq<Command>, sent: seq<Command>, operation: nat, change: Command)
    requires |base| < |sent| && sent[..|base| + 1] == base + [change]
    requires OnlyQueries(operation, sent[|base| + 1..])
    ensures sent[..|base|] == base && SendsOnce(operation, change, sent[|base|..])
  {
    var queries := sent[|base| + 1..];
    assert sent == base + [change] + queries;
    assert sent[|base|..] == [change] + queries + [];
  }

  lemma StartsSoFar(base: seq<Command>, sent: seq<Command>, ready: nat, operation: nat, clear: Command)
    requires |base| < |sent| && sent[..|base| + 1] == base + [Ready(ready)]
    requires OnlyQueries(ready, sent[|base| + 1..])
    ensures StartsOnce(ready, operation, clear, sent[|base|..])
  {
    var queries := sent[|base| + 1..];
    assert sent == base + [Ready(ready)] + queries;
    var tail: seq<Command> := [];
    assert SendsOnce(operation, clear, tail);
    assert sent[|base|..] == [Ready(ready)] + queries + tail;
  }

  lemma StartsWithClear(base: seq<Command>, sent: seq<Command>, all: seq<Command>, ready: nat, operation: nat, clear: Command)
    requires |base| < |sent| <= |all| && sent[..|base| + 1] == base + [Ready(ready)] && all[..|sent|] == sent
    requires OnlyQueries(ready, sent[|base| + 1..]) && SendsOnce(operation, clear, all[|sent|..])
    ensures all[..|base| + 1] == base + [Ready(ready)] && StartsOnce(ready, operation, clear, all[|base|..])
  {
    var queries, tail := sent[|base| + 1..], all[|sent|..];
    assert sent == base + [Ready(ready)] + queries;
    assert all == sent + tail;
    assert all[|base|..] == [Ready(ready)] + queries + tail;
  }

  /** So readiness is never sent again. */
  lemma ReadyIsSentOnce(ready: nat, operation: nat, clear: Command, commands: seq<Command>)
    requires StartsOnce(ready, operation, clear, commands) && clear.Change?
    ensures commands != [] && commands[0] == Ready(ready) && forall i | 0 < i < |commands| :: !commands[i].Ready?
  {
    var queries: seq<Command>, tail: seq<Command> :|
      commands == [Ready(ready)] + queries + tail && OnlyQueries(ready, queries) && SendsOnce(operation, clear, tail);
    forall i | 0 < i < |commands| ensures !commands[i].Ready? {
      if i <= |queries| {
        assert commands[i] == queries[i - 1] && queries[i - 1] in queries;
      } else {
        var k := i - 1 - |queries|;
        assert commands[i] == tail[k];
        ChangeOnceIsNotReady(operation, clear, tail, k);
      }
    }
  }

  lemma ChangeOnceIsNotReady(operation: nat, change: Command, commands: seq<Command>, k: nat)
    requires SendsOnce(operation, change, commands) && change.Change? && k < |commands|
    ensures !commands[k].Ready?
  {
    var queries: seq<Command>, tail: seq<Command> :|
      && commands == [change] + queries + tail && OnlyQueries(operation, queries)
      && (tail == [] || (|tail| == 1 && tail[0].Revoke? && tail[0].operation == operation));
    if 0 < k <= |queries| {
      assert commands[k] == queries[k - 1] && queries[k - 1] in queries;
    } else if k > |queries| {
      assert commands[k] == tail[k - 1 - |queries|];
    }
  }

  lemma SentWithRevocation(base: seq<Command>, sent: seq<Command>, all: seq<Command>, operation: nat, change: Command)
    requires |base| < |sent| && sent[..|base| + 1] == base + [change]
    requires OnlyQueries(operation, sent[|base| + 1..])
    requires |all| == |sent| + 1 && all[..|sent|] == sent && all[|sent|].Revoke? && all[|sent|].operation == operation
    ensures all[..|base|] == base && SendsOnce(operation, change, all[|base|..])
  {
    var queries, tail := sent[|base| + 1..], [all[|sent|]];
    assert sent == base + [change] + queries;
    assert all == sent + tail;
    assert all[|base|..] == [change] + queries + tail;
  }
}
