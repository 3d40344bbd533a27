/**
 * The restart hook and its watcher: every interleaving of hook calls, the watcher thread, the owner's
 * stop flag and exit, and other code patching the same slot. Each read, wait and write is one step;
 * the lock is the `holder`.
 */
module RestartHook {
  import opened Results

  const COMMAND_LIMIT := 4096

  datatype Call = Call(command: Option<string>, flags: nat)

  predicate WellShaped(c: Call) {
    c.command.Some? && |c.command.value| < COMMAND_LIMIT
  }

  datatype Wait = Timeout | Signaled | Broken

  /** Where a hook call stands inside the lock, in the order the code tests and acts. */
  datatype HookStage = ReadEnabled | ReadStop | WaitOwner | JudgeCommand | Unregister | Signal | Save

  /** Why the watcher left its loops. */
  datatype Reason = StopSeen | OwnerGone | WaitBroke | Refused

  /** What the watcher's last section found. */
  datatype Verdict = NothingSaved | StopSet | Waited(wait: Wait)

  datatype Watcher =
    | Looping | LoopWaiting | Searching | Installing | Swapping | Guarding | GuardWaiting
    | Leaving(why: Reason)
    | Checking(why: Reason) | FinalWaiting(why: Reason) | Replaying(why: Reason, verdict: Verdict)
    | Disabling(why: Reason, verdict: Verdict)
    | Restoring(why: Reason, verdict: Verdict)
    | Done(why: Reason, verdict: Verdict)

  datatype Holder = Free | Hook(stage: HookStage, call: Call) | ByWatcher

  datatype Slot = Original | Ours | Foreign

  /** The import slot: whether the original function is known, the slot ever held the hook, and is remembered. */
  datatype Patch = Patch(target: bool, hooked: bool, slot: Slot, owned: bool)

  /** Calls in the order they took the lock, and where each one went. */
  datatype Books = Books(
    entered: seq<Call>, suppressed: seq<Call>, failed: seq<Call>, pending: seq<Call>, forwarded: seq<Call>)

  datatype State = State(
    enabled: bool, stop: bool, exited: bool,
    watcher: Watcher, holder: Holder, patch: Patch,
    saved: Option<Call>, books: Books, replayed: seq<Call>)

  const INITIAL := State(
    true, false, false, Looping, Free, Patch(false, false, Original, false), None, Books([], [], [], [], []), [])

  /** What the environment decides in a step. */
  datatype Event =
    | SetStop
    | OwnerExit
    | PatchSlot
    | Enter(call: Call)
    | HookStep(wait: Wait, ok: bool)
    | Forward(at: nat)
    | WatcherStep(wait: Wait, ok: bool, found: Search)

  datatype Search = NoModule | OtherFile | Updater

  /** A zero-time wait reports the owner's exit only once it happened, and time only before. */
  predicate Possible(s: State, w: Wait) {
    (w == Timeout ==> !s.exited) && (w == Signaled ==> s.exited)
  }

  // ----- hook calls

  /** Leave the lock; the call goes to the original function afterwards. */
  function PassThrough(s: State, c: Call): State {
    s.(holder := Free, books := s.books.(pending := s.books.pending + [c]))
  }

  function Fail(s: State, c: Call): State {
    s.(holder := Free, books := s.books.(failed := s.books.failed + [c]))
  }

  function Suppress(s: State, c: Call): State {
    s.(holder := Free, saved := Some(c), books := s.books.(suppressed := s.books.suppressed + [c]))
  }

  datatype Decision = GoOn(stage: HookStage) | HandOn | GiveUp | KeepIt

  /** The next test or action of a hook call. */
  function Decide(s: State, stage: HookStage, c: Call, wait: Wait, ok: bool): Decision {
    match stage
    case ReadEnabled => if s.enabled then GoOn(ReadStop) else HandOn
    case ReadStop => if s.stop then HandOn else GoOn(WaitOwner)
    case WaitOwner =>
      if !Possible(s, wait) then GoOn(WaitOwner) else if wait == Timeout then GoOn(JudgeCommand) else HandOn
    case JudgeCommand => if WellShaped(c) then GoOn(Unregister) else HandOn
    case Unregister => if ok then GoOn(Signal) else GiveUp
    case Signal => if ok then GoOn(Save) else HandOn
    case Save => KeepIt
  }

  function HookMove(s: State, wait: Wait, ok: bool): State
    requires s.holder.Hook?
  {
    var c := s.holder.call;
    match Decide(s, s.holder.stage, c, wait, ok)
    case GoOn(stage) => s.(holder := Hook(stage, c))
    case HandOn => PassThrough(s, c)
    case GiveUp => Fail(s, c)
    case KeepIt => Suppress(s, c)
  }

  // ----- the watcher

  /** The exchange succeeds if nobody changed the slot; failing to restore its protection still leaves the hook in. */
  function AfterSwap(s: State, ok: bool): State {
    if s.patch.slot != Original
    then s.(patch := s.patch.(owned := false), watcher := Leaving(Refused))
    else s.(patch := s.patch.(slot := Ours, hooked := true), watcher := if ok then Guarding else Leaving(Refused))
  }

  /** The moves that only read. */
  function Advance(s: State, wait: Wait, found: Search): Watcher {
    match s.watcher
    case Looping => if s.stop then Leaving(StopSeen) else LoopWaiting
    case LoopWaiting => if Possible(s, wait) then AfterWait(wait, Searching) else LoopWaiting
    case Searching => (match found case NoModule => Looping case OtherFile => Leaving(Refused) case Updater => Installing)
    case Guarding => if s.stop then Leaving(StopSeen) else GuardWaiting
    case GuardWaiting => if Possible(s, wait) then AfterWait(wait, Guarding) else GuardWaiting
    case Checking(why) =>
      if s.saved.None? then Disabling(why, NothingSaved)
      else if s.stop then Replaying(why, StopSet) else FinalWaiting(why)
    case FinalWaiting(why) =>
      if !Possible(s, wait) then s.watcher
      else if wait == Signaled then Replaying(why, Waited(wait)) else Disabling(why, Waited(wait))
    case _ => s.watcher
  }

  function WatcherMove(s: State, wait: Wait, ok: bool, found: Search): State {
    match s.watcher
    case Installing =>
      if ok then s.(patch := s.patch.(target := true, owned := true), watcher := Swapping)
      else s.(watcher := Leaving(Refused))
    case Swapping => AfterSwap(s, ok)
    case Leaving(why) => if s.holder == Free then s.(holder := ByWatcher, watcher := Checking(why)) else s
    case Replaying(why, v) =>
      if s.saved.None? then s
      else s.(replayed := s.replayed + [s.saved.value], watcher := Disabling(why, v))
    case Disabling(why, v) => s.(enabled := false, holder := Free, watcher := Restoring(why, v))
    case Restoring(why, v) =>
      var restored := s.patch.owned && ok && s.patch.slot == Ours;
      s.(patch := s.patch.(slot := if restored then Original else s.patch.slot), watcher := Done(why, v))
    case _ => s.(watcher := Advance(s, wait, found))
  }

  function AfterWait(wait: Wait, next: Watcher): Watcher {
    match wait case Timeout => next case Signaled => Leaving(OwnerGone) case Broken => Leaving(WaitBroke)
  }

  // ----- runs

  function Arrive(s: State, c: Call): State {
    s.(holder := Hook(ReadEnabled, c), books := s.books.(entered := s.books.entered + [c]))
  }

  function Forwarded(b: Books, at: nat): Books
    requires at < |b.pending|
  {
    b.(pending := b.pending[..at] + b.pending[at + 1..], forwarded := b.forwarded + [b.pending[at]])
  }

  /** A step that is not possible leaves the state alone. Calls arrive once the slot has pointed at the hook. */
  function Apply(s: State, e: Event): State {
    match e
    case SetStop => s.(stop := true)
    case OwnerExit => s.(exited := true)
    case PatchSlot => s.(patch := s.patch.(slot := Foreign))
    case Enter(c) => if s.holder == Free && s.patch.hooked then Arrive(s, c) else s
    case HookStep(wait, ok) => if s.holder.Hook? then HookMove(s, wait, ok) else s
    case Forward(at) => if at < |s.books.pending| then s.(books := Forwarded(s.books, at)) else s
    case WatcherStep(wait, ok, found) => WatcherMove(s, wait, ok, found)
  }

  function Run(s: State, events: seq<Event>): State
    decreases |events|
  {
    if events == [] then s else Run(Apply(s, events[0]), events[1..])
  }

  // ----- what every step keeps

  function InHook(s: State): multiset<Call> {
    if s.holder.Hook? then multiset{s.holder.call} else multiset{}
  }

  /** Every call that arrived is in exactly one place, one of them being inside the lock. */
  ghost predicate Balanced(b: Books, inside: multiset<Call>) {
    multiset(b.entered) == multiset(b.suppressed) + multiset(b.failed) + multiset(b.pending) + multiset(b.forwarded) + inside
  }

  ghost predicate Accounted(s: State) {
    Balanced(s.books, InHook(s))
  }

  predicate Last(calls: seq<Call>, saved: Option<Call>) {
    if calls == [] then saved == None else saved == Some(calls[|calls| - 1])
  }

  predicate InLastSection(w: Watcher) {
    w.Checking? || w.FinalWaiting? || w.Replaying? || w.Disabling?
  }

  predicate Finished(w: Watcher) {
    w.Restoring? || w.Done?
  }

  /** The lock and the flag it protects; a hook past its first test runs while the flag is up. */
  predicate LockHeld(s: State) {
    && (InLastSection(s.watcher) <==> s.holder == ByWatcher)
    && (s.enabled <==> !Finished(s.watcher))
    && (s.holder.Hook? && s.holder.stage != ReadEnabled ==> s.enabled)
  }

  /** The hook never runs without the original function, nor copies a command that does not fit. */
  ghost predicate HookSafe(s: State) {
    && (s.patch.hooked ==> s.patch.target)
    && (s.holder.Hook? || s.watcher.Swapping? ==> s.patch.target)
    && (s.holder.Hook? && s.holder.stage in {Unregister, Signal, Save} ==> WellShaped(s.holder.call))
    && (forall c | c in s.books.suppressed :: WellShaped(c))
  }

  /** A reason the watcher gives is a fact that stays true. */
  predicate Justified(s: State, why: Reason) {
    (why == StopSeen ==> s.stop) && (why == OwnerGone ==> s.exited)
  }

  predicate Replays(v: Verdict) {
    v == StopSet || v == Waited(Signaled)
  }

  /** The last section's verdict agrees with what was saved and why the watcher left. */
  predicate Consistent(s: State, why: Reason, v: Verdict) {
    && (v == NothingSaved <==> s.saved.None?)
    && (v == StopSet ==> s.stop)
    && (why == StopSeen ==> v == NothingSaved || v == StopSet)
    && (why == OwnerGone ==> v != Waited(Timeout))
  }

  predicate Progress(s: State) {
    match s.watcher
    case Leaving(why) => Justified(s, why) && s.replayed == []
    case Checking(why) => Justified(s, why) && s.replayed == []
    case FinalWaiting(why) => Justified(s, why) && s.replayed == [] && s.saved.Some? && why != StopSeen
    case Replaying(why, v) => Justified(s, why) && s.replayed == [] && Consistent(s, why, v) && Replays(v)
    case Disabling(why, v) => Settled(s, why, v)
    case Restoring(why, v) => Settled(s, why, v)
    case Done(why, v) => Settled(s, why, v)
    case _ => s.replayed == []
  }

  predicate Settled(s: State, why: Reason, v: Verdict) {
    && Justified(s, why) && Consistent(s, why, v)
    && s.replayed == if s.saved.Some? && Replays(v) then [s.saved.value] else []
  }

  ghost predicate Control(s: State) {
    LockHeld(s) && HookSafe(s) && Progress(s)
  }

  ghost predicate Inv(s: State) {
    Accounted(s) && Last(s.books.suppressed, s.saved) && Control(s)
  }

  /** The books: a call leaves the lock for exactly one of three lists. */
  lemma LeavingBalances(b: Books, c: Call)
    requires Balanced(b, multiset{c})
    ensures Balanced(b.(pending := b.pending + [c]), multiset{})
    ensures Balanced(b.(failed := b.failed + [c]), multiset{})
    ensures Balanced(b.(suppressed := b.suppressed + [c]), multiset{})
  {
    assert multiset(b.pending + [c]) == multiset(b.pending) + multiset{c};
    assert multiset(b.failed + [c]) == multiset(b.failed) + multiset{c};
    assert multiset(b.suppressed + [c]) == multiset(b.suppressed) + multiset{c};
  }

  /** A hook's move keeps its call inside the lock or files it, and nothing else in the books changes. */
  lemma HookMoveFiles(s: State, wait: Wait, ok: bool)
    requires s.holder.Hook?
    ensures var t, b, c := HookMove(s, wait, ok), s.books, s.holder.call;
            || (t.holder.Hook? && t.holder.call == c && t.books == b)
            || (t.holder.Free? && t.books == b.(pending := b.pending + [c]))
            || (t.holder.Free? && t.books == b.(failed := b.failed + [c]))
            || (t.holder.Free? && t.books == b.(suppressed := b.suppressed + [c]))
  {
  }

  lemma HookMoveAccounts(s: State, wait: Wait, ok: bool)
    requires s.holder.Hook? && Accounted(s)
    ensures Accounted(HookMove(s, wait, ok))
  {
    var t := HookMove(s, wait, ok);
    HookMoveFiles(s, wait, ok);
    FiledBalances(s.books, s.holder.call, t.books, t.holder);
  }

  lemma FiledBalances(b: Books, c: Call, later: Books, holder: Holder)
    requires Balanced(b, multiset{c})
    requires || (holder.Hook? && holder.call == c && later == b)
             || (holder.Free? && later == b.(pending := b.pending + [c]))
             || (holder.Free? && later == b.(failed := b.failed + [c]))
             || (holder.Free? && later == b.(suppressed := b.suppressed + [c]))
    ensures Balanced(later, if holder.Hook? then multiset{holder.call} else multiset{})
  {
    LeavingBalances(b, c);
  }

  lemma ForwardBalances(b: Books, at: nat, inside: multiset<Call>)
    requires at < |b.pending| && Balanced(b, inside)
    ensures Balanced(Forwarded(b, at), inside)
  {
    var c := Forwarded(b, at);
    var x := b.pending[at];
    assert b.pending == b.pending[..at] + [x] + b.pending[at + 1..];
    assert multiset(b.pending) == multiset(c.pending) + multiset{x};
    assert multiset(c.forwarded) == multiset(b.forwarded) + multiset{x};
    var rest := multiset(b.suppressed) + multiset(b.failed);
    assert rest + multiset(b.pending) + multiset(b.forwarded) == rest + multiset(c.pending) + multiset(c.forwarded);
  }

  /** The watcher takes and leaves the lock without touching a call inside it. */
  lemma WatcherMoveKeepsInside(s: State, wait: Wait, ok: bool, found: Search)
    requires LockHeld(s)
    ensures InHook(WatcherMove(s, wait, ok, found)) == InHook(s)
  {
    if !s.watcher.Leaving? && !s.watcher.Disabling? {
      assert WatcherMove(s, wait, ok, found).holder == s.holder;
    }
  }

  lemma SameBooksAccount(s: State, t: State)
    requires Accounted(s) && t.books == s.books && InHook(t) == InHook(s)
    ensures Accounted(t)
  {
  }

  lemma WatcherMoveAccounts(s: State, wait: Wait, ok: bool, found: Search)
    requires Accounted(s) && LockHeld(s)
    ensures Accounted(WatcherMove(s, wait, ok, found))
  {
    WatcherMoveKeepsInside(s, wait, ok, found);
    WatcherMoveKeepsLists(s, wait, ok, found);
    SameBooksAccount(s, WatcherMove(s, wait, ok, found));
  }

  lemma WatcherMoveKeepsLists(s: State, wait: Wait, ok: bool, found: Search)
    ensures var t := WatcherMove(s, wait, ok, found);
            && t.books == s.books && t.saved == s.saved && t.stop == s.stop && t.exited == s.exited
  {
  }

  /** A call past its first test was admitted by a raised flag, one past the fourth is well shaped. */
  lemma DecideFacts(s: State, stage: HookStage, c: Call, wait: Wait, ok: bool)
    ensures var d := Decide(s, stage, c, wait, ok);
            && (d.GoOn? ==> s.enabled || stage != ReadEnabled)
            && (d.GoOn? && d.stage in {Unregister, Signal, Save} ==>
                  WellShaped(c) || stage in {Unregister, Signal})
            && (d.GoOn? ==> d.stage != ReadEnabled)
            && (d.KeepIt? <==> stage == Save)
  {
  }

  lemma HookMoveKeepsLock(s: State, wait: Wait, ok: bool)
    requires s.holder.Hook? && LockHeld(s)
    ensures LockHeld(HookMove(s, wait, ok))
  {
    DecideFacts(s, s.holder.stage, s.holder.call, wait, ok);
  }

  lemma HookMoveKeepsSafety(s: State, wait: Wait, ok: bool)
    requires s.holder.Hook? && HookSafe(s)
    ensures HookSafe(HookMove(s, wait, ok))
  {
    DecideFacts(s, s.holder.stage, s.holder.call, wait, ok);
  }

  lemma HookMoveKeepsProgress(s: State, wait: Wait, ok: bool)
    requires s.holder.Hook? && Control(s) && Last(s.books.suppressed, s.saved)
    ensures Progress(HookMove(s, wait, ok)) && Last(HookMove(s, wait, ok).books.suppressed, HookMove(s, wait, ok).saved)
  {
    DecideFacts(s, s.holder.stage, s.holder.call, wait, ok);
  }

  /** Moves that only read neither enter nor leave the last section. */
  lemma AdvanceSection(s: State, wait: Wait, found: Search)
    ensures var w := Advance(s, wait, found);
            InLastSection(w) == InLastSection(s.watcher) && Finished(w) == Finished(s.watcher)
  {
  }

  lemma WatcherMoveKeepsLock(s: State, wait: Wait, ok: bool, found: Search)
    requires LockHeld(s)
    ensures LockHeld(WatcherMove(s, wait, ok, found))
  {
    AdvanceSection(s, wait, found);
  }

  lemma AdvanceNeverSwaps(s: State, wait: Wait, found: Search)
    ensures Advance(s, wait, found).Swapping? ==> s.watcher.Swapping?
  {
  }

  lemma WatcherMoveKeepsSafety(s: State, wait: Wait, ok: bool, found: Search)
    requires HookSafe(s)
    ensures HookSafe(WatcherMove(s, wait, ok, found))
  {
    AdvanceNeverSwaps(s, wait, found);
    WatcherMoveKeepsLists(s, wait, ok, found);
  }

  lemma AdvanceKeepsProgress(s: State, wait: Wait, found: Search)
    requires Control(s)
    ensures Progress(s.(watcher := Advance(s, wait, found)))
  {
    if s.watcher.FinalWaiting? || s.watcher.LoopWaiting? || s.watcher.GuardWaiting? {
      assert wait.Timeout? || wait.Signaled? || wait.Broken?;
    }
  }

  lemma ReplayKeepsProgress(s: State, wait: Wait, ok: bool, found: Search)
    requires Progress(s) && s.watcher.Replaying?
    ensures Progress(WatcherMove(s, wait, ok, found))
  {
    assert WatcherMove(s, wait, ok, found).replayed == [s.saved.value];
  }

  lemma FinishKeepsProgress(s: State, wait: Wait, ok: bool, found: Search)
    requires Progress(s) && (s.watcher.Disabling? || Finished(s.watcher))
    ensures Progress(WatcherMove(s, wait, ok, found))
  {
    assert Settled(WatcherMove(s, wait, ok, found), s.watcher.why, s.watcher.verdict);
  }

  lemma WatcherMoveKeepsProgress(s: State, wait: Wait, ok: bool, found: Search)
    requires Control(s)
    ensures Progress(WatcherMove(s, wait, ok, found))
  {
    if s.watcher.Replaying? {
      ReplayKeepsProgress(s, wait, ok, found);
    } else if s.watcher.Disabling? || Finished(s.watcher) {
      FinishKeepsProgress(s, wait, ok, found);
    } else {
      AdvanceKeepsProgress(s, wait, found);
    }
  }

  lemma HookStepKeeps(s: State, wait: Wait, ok: bool)
    requires Inv(s) && s.holder.Hook?
    ensures Inv(HookMove(s, wait, ok))
  {
    HookMoveAccounts(s, wait, ok);
    HookMoveKeepsLock(s, wait, ok);
    HookMoveKeepsSafety(s, wait, ok);
    HookMoveKeepsProgress(s, wait, ok);
  }

  lemma WatcherStepKeeps(s: State, wait: Wait, ok: bool, found: Search)
    requires Inv(s)
    ensures Inv(WatcherMove(s, wait, ok, found))
  {
    WatcherMoveAccounts(s, wait, ok, found);
    WatcherMoveKeepsLists(s, wait, ok, found);
    WatcherMoveKeepsLock(s, wait, ok, found);
    WatcherMoveKeepsSafety(s, wait, ok, found);
    WatcherMoveKeepsProgress(s, wait, ok, found);
  }

  lemma ForwardKeeps(s: State, at: nat)
    requires Inv(s) && at < |s.books.pending|
    ensures Inv(s.(books := Forwarded(s.books, at)))
  {
    ForwardBalances(s.books, at, InHook(s));
  }

  lemma ArriveKeeps(s: State, c: Call)
    requires Inv(s) && s.holder == Free && s.patch.hooked
    ensures Inv(Arrive(s, c))
  {
    assert multiset(s.books.entered + [c]) == multiset(s.books.entered) + multiset{c};
  }

  lemma OutsideKeeps(s: State, e: Event)
    requires Inv(s) && (e.SetStop? || e.OwnerExit? || e.PatchSlot?)
    ensures Inv(Apply(s, e))
  {
  }

  lemma StepKeeps(s: State, e: Event)
    requires Inv(s)
    ensures Inv(Apply(s, e))
  {
    match e
    case HookStep(wait, ok) => if s.holder.Hook? { HookStepKeeps(s, wait, ok); }
    case Forward(at) => if at < |s.books.pending| { ForwardKeeps(s, at); }
    case WatcherStep(wait, ok, found) => WatcherStepKeeps(s, wait, ok, found);
    case Enter(c) => if s.holder == Free && s.patch.hooked { ArriveKeeps(s, c); }
    case _ => OutsideKeeps(s, e);
  }

  lemma {:induction false} RunKeeps(s: State, events: seq<Event>)
    requires Inv(s)
    ensures Inv(Run(s, events))
    decreases |events|
  {
    if events != [] {
      StepKeeps(s, events[0]);
      RunKeeps(Apply(s, events[0]), events[1..]);
    }
  }

  // ----- the main results

  /**
   * When the watcher is done, the latest suppressed registration, and it alone, was handed to the
   * original function exactly if the last section saw the stop flag or the owner's exit. Leaving
   * through the stop flag always hands it over; leaving through the owner's exit does unless the
   * last wait breaks.
   */
  lemma LatestIsHandedOver(events: seq<Event>)
    ensures var s := Run(INITIAL, events);
            s.watcher.Done? && s.books.suppressed != [] ==>
              var latest := s.books.suppressed[|s.books.suppressed| - 1];
              && (s.replayed == [latest] <==> Replays(s.watcher.verdict))
              && (s.replayed == [] <==> !Replays(s.watcher.verdict))
              && (s.watcher.why == StopSeen ==> s.replayed == [latest])
              && (s.watcher.why == OwnerGone && s.watcher.verdict != Waited(Broken) ==> s.replayed == [latest])
  {
    RunKeeps(INITIAL, events);
    var s := Run(INITIAL, events);
    if s.watcher.Done? {
      assert Settled(s, s.watcher.why, s.watcher.verdict);
      match s.watcher.verdict
      case Waited(w) => assert w == Timeout || w == Signaled || w == Broken;
      case _ =>
    }
  }

  lemma {:induction false} RunMore(s: State, events: seq<Event>, e: Event)
    ensures Run(s, events + [e]) == Apply(Run(s, events), e)
    decreases |events|
  {
    if events == [] {
      assert [] + [e] == [e] && [e][1..] == [];
      assert Run(s, [e]) == Run(Apply(s, e), []);
    } else {
      assert (events + [e])[1..] == events[1..] + [e];
      RunMore(Apply(s, events[0]), events[1..], e);
    }
  }

  /** The hook suppresses a call that nothing prevents it from suppressing. */
  lemma SuppressRun(s: State, events: seq<Event>, c: Call) returns (more: seq<Event>)
    requires s == Run(INITIAL, events)
    requires s.holder == Free && s.patch.hooked && s.enabled && !s.stop && !s.exited && WellShaped(c)
    ensures Run(INITIAL, more) == Suppress(Arrive(s, c), c)
  {
    RunMore(INITIAL, events, Enter(c));
    more := events + [Enter(c)];
    var go := HookStep(Timeout, true);
    var stages := [ReadEnabled, ReadStop, WaitOwner, JudgeCommand, Unregister, Signal, Save];
    var i := 0;
    while i < 6
      invariant 0 <= i <= 6
      invariant Run(INITIAL, more) == Arrive(s, c).(holder := Hook(stages[i], c))
    {
      RunMore(INITIAL, more, go);
      more := more + [go];
      i := i + 1;
    }
    RunMore(INITIAL, more, go);
    more := more + [go];
  }

  /** The watcher leaves after putting the hook in but failing to restore the slot's protection. */
  lemma RefusedRun() returns (events: seq<Event>)
    ensures Run(INITIAL, events) == INITIAL.(watcher := Leaving(Refused), patch := Patch(true, true, Ours, true))
  {
    var read := WatcherStep(Timeout, true, Updater);
    events := [];
    RunMore(INITIAL, events, read);
    events := events + [read];
    RunMore(INITIAL, events, read);
    events := events + [read];
    RunMore(INITIAL, events, read);
    events := events + [read];
    RunMore(INITIAL, events, read);
    events := events + [read];
    assert Run(INITIAL, events) == INITIAL.(watcher := Swapping, patch := Patch(true, false, Original, true));
    var swap := WatcherStep(Timeout, false, Updater);
    RunMore(INITIAL, events, swap);
    events := events + [swap];
  }

  /**
   * The hand-over can fail while the owner is alive: the watcher leaves through a failed install,
   * a call is suppressed before its last section, and that registration never reaches the original.
   */
  lemma RegistrationCanBeLost(c: Call)
    requires WellShaped(c)
    ensures exists events :: var s := Run(INITIAL, events);
              && s.watcher.Done? && s.books.suppressed == [c] && s.replayed == []
              && s.books.pending == [] && s.books.forwarded == [] && !s.stop && !s.exited
  {
    var refused := RefusedRun();
    var events := SuppressRun(Run(INITIAL, refused), refused, c);
    var s := Run(INITIAL, events);
    var read := WatcherStep(Timeout, true, Updater);
    RunMore(INITIAL, events, read);
    events := events + [read];
    RunMore(INITIAL, events, read);
    events := events + [read];
    RunMore(INITIAL, events, read);
    events := events + [read];
    assert Run(INITIAL, events) == s.(holder := ByWatcher, watcher := Disabling(Refused, Waited(Timeout)));
    RunMore(INITIAL, events, read);
    events := events + [read];
    RunMore(INITIAL, events, read);
    events := events + [read];
  }

  /** No call is dropped or answered twice, whatever the interleaving. */
  lemma EveryCallIsAccountedFor(events: seq<Event>)
    ensures var s := Run(INITIAL, events);
            && Accounted(s)
            && (s.holder == Free && s.books.pending == [] ==>
                  multiset(s.books.entered) == multiset(s.books.suppressed) + multiset(s.books.failed) + multiset(s.books.forwarded))
  {
    RunKeeps(INITIAL, events);
  }

  /** What the watcher leaves behind: nothing is suppressed, failed or replayed any more. */
  ghost predicate Quiet(s: State, t: State) {
    t.books.suppressed == s.books.suppressed && t.books.failed == s.books.failed && t.replayed == s.replayed && t.saved == s.saved
  }

  lemma StepStaysQuiet(s: State, e: Event)
    requires Inv(s) && Finished(s.watcher)
    ensures Finished(Apply(s, e).watcher) && Quiet(s, Apply(s, e))
    ensures s.books.entered <= Apply(s, e).books.entered
  {
  }

  lemma {:induction false} RunStaysQuiet(s: State, events: seq<Event>)
    requires Inv(s) && Finished(s.watcher)
    ensures Quiet(s, Run(s, events)) && s.books.entered <= Run(s, events).books.entered
    decreases |events|
  {
    if events != [] {
      StepStaysQuiet(s, events[0]);
      StepKeeps(s, events[0]);
      RunStaysQuiet(Apply(s, events[0]), events[1..]);
    }
  }

  function Passing(s: State): multiset<Call> {
    multiset(s.books.pending) + multiset(s.books.forwarded) + InHook(s)
  }

  lemma LaterCalls(b: Books, c: Books, inside: multiset<Call>, later: multiset<Call>)
    requires Balanced(b, inside) && Balanced(c, later)
    requires b.suppressed == c.suppressed && b.failed == c.failed && b.entered <= c.entered
    ensures multiset(c.pending) + multiset(c.forwarded) + later
         == multiset(b.pending) + multiset(b.forwarded) + inside + multiset(c.entered[|b.entered|..])
  {
    var x, y := b.entered, c.entered[|b.entered|..];
    assert c.entered == x + y;
    var kept := multiset(b.suppressed) + multiset(b.failed);
    var left := multiset(b.pending) + multiset(b.forwarded) + inside;
    var right := multiset(c.pending) + multiset(c.forwarded) + later;
    assert multiset(x) == kept + left && multiset(c.entered) == kept + right;
    assert multiset(c.entered) == multiset(x) + multiset(y);
    Cancel(kept, right, left + multiset(y));
  }

  lemma Cancel(kept: multiset<Call>, a: multiset<Call>, b: multiset<Call>)
    requires kept + a == kept + b
    ensures a == b
  {
    assert forall c :: (kept + a)[c] == kept[c] + a[c] && (kept + b)[c] == kept[c] + b[c];
  }

  /** Once the watcher gave up the lock for good, every later call goes to the original function. */
  lemma LaterCallsPassThrough(before: seq<Event>, after: seq<Event>)
    ensures var s := Run(INITIAL, before);
            var t := Run(s, after);
            Finished(s.watcher) ==>
              && Quiet(s, t) && s.books.entered <= t.books.entered
              && Passing(t) == Passing(s) + multiset(t.books.entered[|s.books.entered|..])
  {
    var s := Run(INITIAL, before);
    RunKeeps(INITIAL, before);
    if Finished(s.watcher) {
      var t := Run(s, after);
      RunKeeps(s, after);
      RunStaysQuiet(s, after);
      LaterCalls(s.books, t.books, InHook(s), InHook(t));
    }
  }

  lemma ForeignOutlivesWatcher(s: State, wait: Wait, ok: bool, found: Search)
    requires s.patch.slot == Foreign
    ensures WatcherMove(s, wait, ok, found).patch.slot == Foreign
  {
  }

  lemma ForeignOutlivesHook(s: State, wait: Wait, ok: bool)
    requires s.holder.Hook?
    ensures HookMove(s, wait, ok).patch == s.patch
  {
  }

  lemma ForeignStep(s: State, e: Event)
    requires s.patch.slot == Foreign
    ensures Apply(s, e).patch.slot == Foreign
  {
    match e
    case WatcherStep(wait, ok, found) => ForeignOutlivesWatcher(s, wait, ok, found);
    case HookStep(wait, ok) => if s.holder.Hook? { ForeignOutlivesHook(s, wait, ok); }
    case _ =>
  }

  /** A slot somebody else patched is never written again. */
  lemma {:induction false} ForeignPatchStays(s: State, events: seq<Event>)
    requires s.patch.slot == Foreign
    ensures Run(s, events).patch.slot == Foreign
    decreases |events|
  {
    if events != [] {
      ForeignStep(s, events[0]);
      ForeignPatchStays(Apply(s, events[0]), events[1..]);
    }
  }

  /** The original function is known, and the command fits its buffer, whenever the hook needs them. */
  lemma HookIsAlwaysSafe(events: seq<Event>)
    ensures var s := Run(INITIAL, events);
            && (s.patch.hooked || s.holder.Hook? ==> s.patch.target)
            && (s.saved.Some? ==> WellShaped(s.saved.value))
  {
    RunKeeps(INITIAL, events);
  }

  // ----- what becomes of one call

  /** Seven moves take a call that meets nobody else through the lock. */
  function Through(s: State, waits: Wait, unregistered: bool, signalled: bool): State {
    Run(s, [HookStep(waits, true), HookStep(waits, true), HookStep(waits, true), HookStep(waits, true),
            HookStep(waits, unregistered), HookStep(waits, signalled), HookStep(waits, true)])
  }

  lemma ThroughSteps(s: State, wait: Wait, unregistered: bool, signalled: bool)
    ensures var go := HookStep(wait, true);
            var a := Apply(Apply(Apply(Apply(s, go), go), go), go);
            Through(s, wait, unregistered, signalled)
            == Apply(Apply(Apply(a, HookStep(wait, unregistered)), HookStep(wait, signalled)), go)
  {
    var go := HookStep(wait, true);
    var x, y := HookStep(wait, unregistered), HookStep(wait, signalled);
    RunCons(s, go, [go, go, go, x, y, go]);
    RunCons(Apply(s, go), go, [go, go, x, y, go]);
    var b := Apply(Apply(s, go), go);
    RunCons(b, go, [go, x, y, go]);
    RunCons(Apply(b, go), go, [x, y, go]);
    var c := Apply(Apply(b, go), go);
    RunCons(c, x, [y, go]);
    RunCons(Apply(c, x), y, [go]);
    RunCons(Apply(Apply(c, x), y), go, []);
  }

  lemma RunCons(s: State, e: Event, events: seq<Event>)
    ensures Run(s, [e] + events) == Run(Apply(s, e), events)
  {
    assert ([e] + events)[1..] == events;
  }

  /**
   * A call is suppressed exactly while the hook is enabled, nobody asked to stop, the wait finds the
   * owner alive, the command fits, and both the unregistering and the signal succeed. It fails exactly when all that
   * holds up to the unregistering, which does not. Every other call is passed on.
   */
  lemma CallIsJudgedExactly(s: State, c: Call, wait: Wait, unregistered: bool, signalled: bool)
    requires s.holder == Hook(ReadEnabled, c) && (wait == Timeout ==> !s.exited) && (wait == Signaled ==> s.exited)
    ensures var t := Through(s, wait, unregistered, signalled);
            var fits := c.command.Some? && |c.command.value| < 4096;
            var tried := s.enabled && !s.stop && wait == Timeout && fits;
            && t.holder == Free
            && t.books == (if tried && !unregistered then s.books.(failed := s.books.failed + [c])
                           else if tried && signalled then s.books.(suppressed := s.books.suppressed + [c])
                           else s.books.(pending := s.books.pending + [c]))
            && t.saved == if tried && unregistered && signalled then Some(c) else s.saved
  {
    ThroughSteps(s, wait, unregistered, signalled);
  }

  /** The call in the lock, if any, has not got past the test of the stop flag, or of the owner. */
  predicate NotPast(s: State, stages: set<HookStage>) {
    s.holder.Hook? ==> s.holder.stage in stages
  }

  predicate Over(s: State) {
    || (s.stop && NotPast(s, {ReadEnabled, ReadStop}))
    || (s.exited && NotPast(s, {ReadEnabled, ReadStop, WaitOwner}))
  }

  lemma StepStaysOver(s: State, e: Event)
    requires Over(s)
    ensures Over(Apply(s, e)) && Apply(s, e).books.suppressed == s.books.suppressed && Apply(s, e).books.failed == s.books.failed
  {
    match e
    case WatcherStep(wait, ok, found) => WatcherMoveKeepsLists(s, wait, ok, found);
    case _ =>
  }

  /**
   * Once the stop flag is up, or the owner gone, and no call is past the test of it, no call is ever
   * suppressed or failed any more: whatever arrives is passed on.
   */
  lemma {:induction false} NoCallIsTakenWhenOver(s: State, events: seq<Event>)
    requires Over(s)
    ensures Run(s, events).books.suppressed == s.books.suppressed && Run(s, events).books.failed == s.books.failed
    decreases |events|
  {
    if events != [] {
      StepStaysOver(s, events[0]);
      NoCallIsTakenWhenOver(Apply(s, events[0]), events[1..]);
    }
  }

  // ----- what the watcher's last moves do

  /** With the lock taken and something saved, it is handed over exactly on the stop flag or a signalled owner. */
  lemma LastSectionIsExact(s: State, why: Reason, wait: Wait, found: Search)
    requires s.watcher == Checking(why) && s.saved.Some? && (wait == Timeout ==> !s.exited) && (wait == Signaled ==> s.exited)
    ensures var look := WatcherStep(wait, true, found);
            var t := if s.stop then Apply(Apply(s, look), look) else Apply(Apply(Apply(s, look), look), look);
            if s.stop || wait == Signaled
            then t.replayed == s.replayed + [s.saved.value] && t.watcher.Disabling?
            else t.replayed == s.replayed && (t.watcher.Disabling? || t.watcher.Restoring?)
  {}

  /** The watcher leaves its loops exactly on the stop flag, a signalled owner or a broken wait, each under its own name. */
  lemma LoopsEndExactly(s: State, wait: Wait, ok: bool, found: Search)
    ensures var t := Apply(s, WatcherStep(wait, ok, found));
            && (s.watcher == Looping || s.watcher == Guarding ==>
                  t.watcher == if s.stop then Leaving(StopSeen) else if s.watcher == Looping then LoopWaiting else GuardWaiting)
            && (s.watcher == LoopWaiting || s.watcher == GuardWaiting ==>
                  t.watcher == if wait == Broken then Leaving(WaitBroke)
                               else if wait == Signaled && s.exited then Leaving(OwnerGone)
                               else if wait == Timeout && !s.exited then (if s.watcher == LoopWaiting then Searching else Guarding)
                               else s.watcher)
  {}

  /** The slot is given back exactly if this hook put itself there, is there still, and the write succeeds. */
  lemma RestoreIsExact(s: State, why: Reason, v: Verdict, wait: Wait, ok: bool, found: Search)
    requires s.watcher == Restoring(why, v)
    ensures var t := Apply(s, WatcherStep(wait, ok, found));
            && t.watcher == Done(why, v)
            && t.patch == (if s.patch.owned && ok && s.patch.slot == Ours then s.patch.(slot := Original) else s.patch)
  {}

  /** The hook goes in exactly where the original still is, and only into the updater. */
  lemma SwapIsExact(s: State, wait: Wait, ok: bool, found: Search)
    ensures s.watcher.Swapping? ==>
              var t := Apply(s, WatcherStep(wait, ok, found));
              && (s.patch.slot == Original ==> t.patch.slot == Ours && t.patch.hooked)
              && (s.patch.slot != Original ==> t.patch.slot == s.patch.slot && t.watcher == Leaving(Refused))
    ensures s.watcher.Searching? ==>
              (Apply(s, WatcherStep(wait, ok, found)).watcher.Installing? <==> found == Updater)
  {}
}
