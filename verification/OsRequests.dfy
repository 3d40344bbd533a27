/** Bounded admission of OS requests, the permit two owners share, and delivery of one result. */
module OsRequests {
  import opened Results

  const MAX_OS_OPERATIONS := 16

  datatype Fault = CleanupIncomplete(detail: string) | Other(code: string)

  type Outcome = Result<string, Fault>

  // ----- one operation handle

  /** What the result channel holds for the handle. */
  datatype Channel = Waiting | Ready(outcome: Outcome) | Disconnected

  /** What one poll meets: the guard's verdict, the channel, and a fresh check of the authorization. */
  datatype Poll = Poll(guard: Option<Fault>, channel: Channel, current: Option<Fault>)

  /** The operation's own answer for a completed channel. */
  function Settle(cause: Option<Fault>, outcome: Outcome, current: Option<Fault>): Outcome {
    if outcome.Err? && outcome.error.CleanupIncomplete? then outcome
    else if cause.Some? then Err(cause.value)
    else if current.Some? then Err(current.value)
    else outcome
  }

  class Operation {
    var delivered: bool
    var holdsPermit: bool
    var cancelled: bool
    var cause: Option<Fault>

    constructor ()
      ensures !delivered && holdsPermit && !cancelled && cause.None?
    {
      delivered, holdsPermit, cancelled, cause := false, true, false, None;
    }

    /** One poll; it delivers at most once and then gives up its share of the permit. */
    method TryResult(p: Poll) returns (r: Option<Outcome>)
      modifies this
      ensures (r, delivered, cause) == PollOnce(old(delivered), old(cause), p)
      ensures r.Some? ==> !old(delivered) && delivered && !holdsPermit
      ensures r.None? ==> delivered == old(delivered) && holdsPermit == old(holdsPermit)
      ensures cancelled == (old(cancelled) || (!old(delivered) && p.guard.Some?))
      ensures r.Some? <==> !old(delivered) && !p.channel.Waiting?
      ensures r.Some? && p.channel.Ready? ==>
                r.value == if p.channel.outcome.Err? && p.channel.outcome.error.CleanupIncomplete? then p.channel.outcome
                           else if old(cause).Some? then Err(old(cause).value)
                           else if p.guard.Some? then Err(p.guard.value)
                           else if p.current.Some? then Err(p.current.value)
                           else p.channel.outcome
    {
      if delivered { return None; }
      if p.guard.Some? {
        if cause.None? { cause := p.guard; }
        cancelled := true;
      }
      match p.channel {
        case Ready(outcome) =>
          if outcome.Err? && outcome.error.CleanupIncomplete? {
            r := Some(outcome);
          } else if cause.Some? {
            r := Some(Err(cause.value));
            cause := None;
          } else if p.current.Some? {
            r := Some(Err(p.current.value));
          } else {
            r := Some(outcome);
          }
        case Waiting => return None;
        case Disconnected =>
          r := Some(Err(CleanupIncomplete("worker stopped without confirming cleanup")));
      }
      delivered := true;
      holdsPermit := false;
    }
  }

  /** The effect of one poll on the handle: its answer, whether it has delivered, the remembered cause. */
  function PollOnce(delivered: bool, cause: Option<Fault>, p: Poll): (Option<Outcome>, bool, Option<Fault>) {
    if delivered then (None, true, cause)
    else
      var seen := if cause.None? then p.guard else cause;
      match p.channel
      case Waiting => (None, false, seen)
      case Disconnected => (Some(Err(CleanupIncomplete("worker stopped without confirming cleanup"))), true, seen)
      case Ready(outcome) =>
        (Some(Settle(seen, outcome, p.current)), true,
         if (outcome.Err? && outcome.error.CleanupIncomplete?) || seen.None? then seen else None)
  }

  /** The answers of a series of polls. */
  function Polls(delivered: bool, cause: Option<Fault>, ps: seq<Poll>): seq<Option<Outcome>>
    decreases |ps|
  {
    if ps == [] then []
    else
      var (r, d, c) := PollOnce(delivered, cause, ps[0]);
      [r] + Polls(d, c, ps[1..])
  }

  function FirstGuard(ps: seq<Poll>): Option<Fault> {
    if ps == [] then None else if ps[0].guard.Some? then ps[0].guard else FirstGuard(ps[1..])
  }

  lemma {:induction false} DeliveredStaysSilent(cause: Option<Fault>, ps: seq<Poll>, i: nat)
    requires i < |ps|
    ensures |Polls(true, cause, ps)| == |ps| && Polls(true, cause, ps)[i] == None
  {
    if |ps| > 1 { DeliveredStaysSilent(cause, ps[1..], if i > 0 then i - 1 else 0); }
  }

  lemma {:induction false} PollsLength(delivered: bool, cause: Option<Fault>, ps: seq<Poll>)
    ensures |Polls(delivered, cause, ps)| == |ps|
    decreases |ps|
  {
    if ps != [] {
      var (r, d, c) := PollOnce(delivered, cause, ps[0]);
      PollsLength(d, c, ps[1..]);
    }
  }

  lemma {:induction false} AnswersOnceFrom(cause: Option<Fault>, ps: seq<Poll>, i: nat)
    requires i < |ps| && |Polls(false, cause, ps)| == |ps|
    decreases |ps|
    ensures Polls(false, cause, ps)[i].Some? <==>
              !ps[i].channel.Waiting? && forall k | 0 <= k < i :: ps[k].channel.Waiting?
    ensures Polls(false, cause, ps)[i].Some? && ps[i].channel.Ready? ==>
              Polls(false, cause, ps)[i].value
              == Settle(if cause.Some? then cause else FirstGuard(ps[..i + 1]), ps[i].channel.outcome, ps[i].current)
    ensures Polls(false, cause, ps)[i].Some? && ps[i].channel.Disconnected? ==>
              Polls(false, cause, ps)[i].value.Err? && Polls(false, cause, ps)[i].value.error.CleanupIncomplete?
  {
    var (r, d, c) := PollOnce(false, cause, ps[0]);
    assert ps[..i + 1][1..] == ps[1..][..i];
    if i > 0 {
      PollsLength(d, c, ps[1..]);
      if d {
        DeliveredStaysSilent(c, ps[1..], i - 1);
      } else {
        AnswersOnceFrom(c, ps[1..], i - 1);
        assert forall k | 0 <= k < i - 1 :: ps[1..][k] == ps[k + 1];
        assert forall k | 1 <= k < i :: ps[k] == ps[1..][k - 1];
      }
    }
  }

  lemma {:induction false} FirstGuardIsFirst(ps: seq<Poll>, k: nat)
    requires k < |ps| && ps[k].guard.Some? && forall m | 0 <= m < k :: ps[m].guard.None?
    ensures FirstGuard(ps) == ps[k].guard
    decreases |ps|
  {
    if k > 0 {
      assert forall m | 0 <= m < k - 1 :: ps[1..][m] == ps[m + 1];
      FirstGuardIsFirst(ps[1..], k - 1);
    }
  }

  lemma {:induction false} NoGuardAtAll(ps: seq<Poll>)
    requires forall m | 0 <= m < |ps| :: ps[m].guard.None?
    ensures FirstGuard(ps) == None
    decreases |ps|
  {
    if ps != [] {
      assert forall m | 0 <= m < |ps| - 1 :: ps[1..][m] == ps[m + 1];
      NoGuardAtAll(ps[1..]);
    }
  }

  /** The first poll up to `i` at which a guard saw a fault, if there is one. */
  lemma FirstFault(ps: seq<Poll>, i: nat) returns (first: Option<nat>)
    requires i < |ps|
    ensures first.None? ==> FirstGuard(ps[..i + 1]).None? && forall m | 0 <= m <= i :: ps[m].guard.None?
    ensures first.Some? ==> first.value <= i && ps[first.value].guard.Some? && FirstGuard(ps[..i + 1]) == ps[first.value].guard
    ensures first.Some? ==> forall m | 0 <= m < first.value :: ps[m].guard.None?
  {
    var k := 0;
    while k <= i && ps[k].guard.None?
      invariant 0 <= k <= i + 1 && forall m | 0 <= m < k :: ps[m].guard.None?
      decreases i + 1 - k
    {
      k := k + 1;
    }
    if k <= i {
      FirstGuardIsFirst(ps[..i + 1], k);
      first := Some(k);
    } else {
      NoGuardAtAll(ps[..i + 1]);
      first := None;
    }
  }

  /**
   * Whatever the polls meet, only the first one after completion answers. A worker that stopped, or a
   * cleanup that is incomplete, is said as it is; otherwise the first fault any guard saw up to then,
   * then what the check of the moment finds, and the result only if none of these.
   */
  lemma DeliversOnceWithFirstCause(ps: seq<Poll>, i: nat)
    requires i < |ps|
    ensures |Polls(false, None, ps)| == |ps|
    ensures Polls(false, None, ps)[i].Some? <==>
              !ps[i].channel.Waiting? && forall k | 0 <= k < i :: ps[k].channel.Waiting?
    ensures Polls(false, None, ps)[i].Some? && ps[i].channel.Disconnected? ==>
              Polls(false, None, ps)[i].value.Err? && Polls(false, None, ps)[i].value.error.CleanupIncomplete?
    ensures Polls(false, None, ps)[i].Some? && ps[i].channel.Ready? ==>
              var answer, outcome := Polls(false, None, ps)[i].value, ps[i].channel.outcome;
              && (outcome.Err? && outcome.error.CleanupIncomplete? ==> answer == outcome)
              && (!(outcome.Err? && outcome.error.CleanupIncomplete?) ==>
                    && (forall k | 0 <= k <= i && ps[k].guard.Some? && (forall m | 0 <= m < k :: ps[m].guard.None?) ::
                          answer == Err(ps[k].guard.value))
                    && ((forall k | 0 <= k <= i :: ps[k].guard.None?) ==>
                          answer == if ps[i].current.Some? then Err(ps[i].current.value) else outcome))
  {
    PollsLength(false, None, ps);
    AnswersOnceFrom(None, ps, i);
    var first := FirstFault(ps, i);
    if first.Some? {
      forall k | 0 <= k <= i && ps[k].guard.Some? && (forall m | 0 <= m < k :: ps[m].guard.None?) ensures k == first.value {}
    }
  }

  // ----- the retained counter

  /** A permit lives while its operation handle or its queued work holds it. */
  datatype Permit = Permit(handle: bool, work: bool)

  /** `reserving` counts requests between taking a slot and handing the permit out or back. */
  datatype Pool = Pool(retained: nat, reserving: nat, permits: map<nat, Permit>, next: nat)

  datatype Action = Reserve | Enqueue | Refuse | ReleaseHandle(op: nat) | ReleaseWork(op: nat)

  /** The last holder of a permit gives the slot back. */
  function Release(p: Pool, op: nat, after: Permit): Pool {
    if after.handle || after.work then p.(permits := p.permits[op := after])
    else p.(permits := p.permits - {op}, retained := if p.retained > 0 then p.retained - 1 else 0)
  }

  function Step(p: Pool, a: Action): Pool {
    match a
    case Reserve =>
      if p.retained < MAX_OS_OPERATIONS then p.(retained := p.retained + 1, reserving := p.reserving + 1) else p
    case Enqueue =>
      if p.reserving > 0
      then p.(reserving := p.reserving - 1, permits := p.permits[p.next := Permit(true, true)], next := p.next + 1)
      else p
    case Refuse =>
      if p.reserving > 0
      then p.(reserving := p.reserving - 1, retained := if p.retained > 0 then p.retained - 1 else 0)
      else p
    case ReleaseHandle(op) =>
      if op in p.permits && p.permits[op].handle then Release(p, op, p.permits[op].(handle := false)) else p
    case ReleaseWork(op) =>
      if op in p.permits && p.permits[op].work then Release(p, op, p.permits[op].(work := false)) else p
  }

  function Run(p: Pool, actions: seq<Action>): Pool
    decreases |actions|
  {
    if actions == [] then p else Run(Step(p, actions[0]), actions[1..])
  }

  ghost predicate Balanced(p: Pool) {
    && p.retained == p.reserving + |p.permits|
    && p.retained <= MAX_OS_OPERATIONS
    && (forall op | op in p.permits :: op < p.next && (p.permits[op].handle || p.permits[op].work))
  }

  lemma StepBalances(p: Pool, a: Action)
    requires Balanced(p)
    ensures Balanced(Step(p, a))
    ensures a.Refuse? || a.ReleaseHandle? || a.ReleaseWork? ==> Step(p, a) == p || p.retained > 0
  {
    match a
    case ReleaseHandle(op) => if op in p.permits { assert (p.permits - {op}).Keys == p.permits.Keys - {op}; }
    case ReleaseWork(op) => if op in p.permits { assert (p.permits - {op}).Keys == p.permits.Keys - {op}; }
    case _ =>
  }

  /** In every reachable state the counter is the number of permits out, within its bound, and it never underflows. */
  lemma {:induction false} RetainedCountsPermits(p: Pool, actions: seq<Action>)
    requires Balanced(p)
    ensures Balanced(Run(p, actions))
    decreases |actions|
  {
    if actions != [] {
      StepBalances(p, actions[0]);
      RetainedCountsPermits(Step(p, actions[0]), actions[1..]);
    }
  }

  /** The bound is tight for admission: a request is turned away exactly when sixteen are out. */
  lemma AdmissionIsExact(actions: seq<Action>)
    ensures var p := Run(Pool(0, 0, map[], 0), actions);
            && p.retained == p.reserving + |p.permits| <= MAX_OS_OPERATIONS
            && (Step(p, Reserve) == p <==> p.reserving + |p.permits| == 16)
            && (Step(p, Reserve) != p ==> Step(p, Reserve) == p.(retained := p.retained + 1, reserving := p.reserving + 1))
  {
    RetainedCountsPermits(Pool(0, 0, map[], 0), actions);
  }

  lemma {:induction false} GoneStaysGone(p: Pool, op: nat, actions: seq<Action>)
    requires op !in p.permits && op < p.next
    ensures op !in Run(p, actions).permits
    decreases |actions|
  {
    if actions != [] { GoneStaysGone(Step(p, actions[0]), op, actions[1..]); }
  }

  /** A permit is out, and its slot taken, until both its handle and its queued work have let go of it. */
  lemma {:induction false} SlotIsHeldUntilBothLetGo(p: Pool, op: nat, actions: seq<Action>)
    requires op in p.permits && op < p.next && (p.permits[op].handle || p.permits[op].work)
    ensures var handle, work := p.permits[op].handle && ReleaseHandle(op) !in actions, p.permits[op].work && ReleaseWork(op) !in actions;
            && (op in Run(p, actions).permits <==> handle || work)
            && (op in Run(p, actions).permits ==> Run(p, actions).permits[op] == Permit(handle, work))
    decreases |actions|
  {
    if actions != [] {
      var q := Step(p, actions[0]);
      assert forall a :: a in actions <==> a == actions[0] || a in actions[1..];
      if op in q.permits {
        SlotIsHeldUntilBothLetGo(q, op, actions[1..]);
      } else {
        GoneStaysGone(q, op, actions[1..]);
      }
    }
  }
}
