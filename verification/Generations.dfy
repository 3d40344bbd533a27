/** Allocation of plugin generations by planning, rollback and host starts on one shared map. */
module Generations {
  import opened Ids

  const MAX_GENERATION := 9_007_199_254_740_991
  const MAX_HOST_IDENTITIES := 4096

  datatype Pair = Pair(plugin: Id, generation: nat)

  type GenerationMap = map<Id, nat>

  function Current(g: GenerationMap, id: Id): nat {
    if id in g then g[id] else 0
  }

  predicate Exhausted(g: GenerationMap, id: Id) {
    Current(g, id) >= MAX_GENERATION
  }

  /** The pairs a list of plugins gets, in order, and the map afterwards; stops at the first refusal. */
  datatype Allocation = Allocation(map': GenerationMap, pairs: seq<Pair>, complete: bool)

  /** `admits` stands for the checks made on each plugin, before or after its generation is taken. */
  function Allocate(g: GenerationMap, ids: seq<Id>, admits: Id -> bool): Allocation {
    if ids == [] then Allocation(g, [], true)
    else
      var rest := Allocate(g, ids[..|ids| - 1], admits);
      var id := ids[|ids| - 1];
      if !rest.complete || !admits(id) || Exhausted(rest.map', id) then rest.(complete := false)
      else
        var n := Current(rest.map', id) + 1;
        Allocation(rest.map'[id := n], rest.pairs + [Pair(id, n)], true)
  }

  // ----- what is allocated, plugin by plugin

  /** How often the plugin comes before position `i`. */
  ghost function Earlier(ids: seq<Id>, i: nat): nat
    requires i < |ids|
  {
    multiset(ids[..i])[ids[i]]
  }

  /** The plugin at `i` is admitted and has a next generation. */
  ghost predicate Admitted(g: GenerationMap, ids: seq<Id>, admits: Id -> bool, i: nat)
    requires i < |ids|
  {
    admits(ids[i]) && (if ids[i] in g then g[ids[i]] else 0) + Earlier(ids, i) < MAX_GENERATION
  }

  /** Every plugin of the first `n` got the generation after its last one. */
  ghost predicate Raises(g: GenerationMap, ids: seq<Id>, n: nat, a: Allocation)
    requires n <= |ids|
  {
    && |a.pairs| == n
    && (forall i | 0 <= i < n :: a.pairs[i] == Pair(ids[i], (if ids[i] in g then g[ids[i]] else 0) + Earlier(ids, i) + 1))
    && (forall id :: (id in a.map' <==> id in g || id in ids[..n])
                     && (id in a.map' ==> a.map'[id] == (if id in g then g[id] else 0) + multiset(ids[..n])[id]))
  }

  /**
   * An allocation is complete exactly if every plugin is admitted and has a next generation; it stops
   * at the first that is not. Those before it got the generation after their last one, each.
   */
  lemma {:induction false} AllocateIsExact(g: GenerationMap, ids: seq<Id>, admits: Id -> bool) returns (n: nat)
    ensures n <= |ids| && (Allocate(g, ids, admits).complete <==> n == |ids|)
    ensures forall i | 0 <= i < n :: Admitted(g, ids, admits, i)
    ensures n < |ids| ==> !Admitted(g, ids, admits, n)
    ensures Raises(g, ids, n, Allocate(g, ids, admits))
    decreases |ids|
  {
    if ids == [] {
      n := 0;
    } else {
      var last := |ids| - 1;
      n := AllocateIsExact(g, ids[..last], admits);
      SameBelow(g, ids, admits, n, Allocate(g, ids[..last], admits));
      if n == last {
        LastIsAdmittedIff(g, ids, admits, Allocate(g, ids[..last], admits));
        if Admitted(g, ids, admits, last) {
          LastIsTaken(g, ids, admits);
          n := n + 1;
        }
      }
    }
  }

  lemma LastIsTaken(g: GenerationMap, ids: seq<Id>, admits: Id -> bool)
    requires ids != [] && Allocate(g, ids[..|ids| - 1], admits).complete
    requires Raises(g, ids, |ids| - 1, Allocate(g, ids[..|ids| - 1], admits)) && Admitted(g, ids, admits, |ids| - 1)
    ensures Allocate(g, ids, admits).complete && Raises(g, ids, |ids|, Allocate(g, ids, admits))
  {
    var before, a := Allocate(g, ids[..|ids| - 1], admits), Allocate(g, ids, admits);
    LastIsAdmittedIff(g, ids, admits, before);
    AllocateNext(g, ids, admits);
    OneMoreRaised(g, ids, before, a);
  }

  /** Without its last plugin the list asks the same of the others. */
  lemma SameBelow(g: GenerationMap, ids: seq<Id>, admits: Id -> bool, n: nat, a: Allocation)
    requires ids != [] && n < |ids| && Raises(g, ids[..|ids| - 1], n, a)
    ensures forall i | 0 <= i < |ids| - 1 :: Admitted(g, ids[..|ids| - 1], admits, i) <==> Admitted(g, ids, admits, i)
    ensures Raises(g, ids, n, a)
  {
    var head := ids[..|ids| - 1];
    assert forall i | 0 <= i < |ids| :: head[..i] == ids[..i];
    assert forall i | 0 <= i < |ids| - 1 :: Earlier(head, i) == Earlier(ids, i);
  }

  lemma AllocateNext(g: GenerationMap, ids: seq<Id>, admits: Id -> bool)
    requires ids != []
    ensures var before, id := Allocate(g, ids[..|ids| - 1], admits), ids[|ids| - 1];
            var next := (if id in before.map' then before.map'[id] else 0) + 1;
            before.complete && admits(id) && !Exhausted(before.map', id) ==>
              Allocate(g, ids, admits) == Allocation(before.map'[id := next], before.pairs + [Pair(id, next)], true)
  {}

  lemma LastIsAdmittedIff(g: GenerationMap, ids: seq<Id>, admits: Id -> bool, before: Allocation)
    requires ids != [] && Raises(g, ids, |ids| - 1, before)
    ensures Admitted(g, ids, admits, |ids| - 1) <==> admits(ids[|ids| - 1]) && !Exhausted(before.map', ids[|ids| - 1])
  {
    var last := |ids| - 1;
    assert ids[last] in ids[..last] <==> multiset(ids[..last])[ids[last]] > 0;
  }

  lemma CompleteIffAdmitted(g: GenerationMap, ids: seq<Id>, admits: Id -> bool)
    ensures Allocate(g, ids, admits).complete <==> forall i | 0 <= i < |ids| :: Admitted(g, ids, admits, i)
    ensures Allocate(g, ids, admits).complete ==> Raises(g, ids, |ids|, Allocate(g, ids, admits))
    ensures !Allocate(g, ids, admits).complete ==>
              exists n :: 0 <= n < |ids| && !Admitted(g, ids, admits, n) && Raises(g, ids, n, Allocate(g, ids, admits))
  {
    var n := AllocateIsExact(g, ids, admits);
  }

  lemma OneMoreRaised(g: GenerationMap, ids: seq<Id>, before: Allocation, a: Allocation)
    requires ids != [] && Raises(g, ids, |ids| - 1, before)
    requires var id := ids[|ids| - 1];
             var next := (if id in before.map' then before.map'[id] else 0) + 1;
             a == Allocation(before.map'[id := next], before.pairs + [Pair(id, next)], true)
    ensures Raises(g, ids, |ids|, a)
  {
    var last := |ids| - 1;
    assert ids[..|ids|] == ids && ids == ids[..last] + [ids[last]];
  }

  /** Works on a copy and publishes it only when every entry was admitted and the set orders. */
  method Prepare(g: GenerationMap, ids: seq<Id>, admits: Id -> bool, orders: bool) returns (g': GenerationMap, handed: seq<Pair>, ok: bool)
    ensures ok <==> Allocate(g, ids, admits).complete && orders
    ensures ok ==> g' == Allocate(g, ids, admits).map' && handed == Allocate(g, ids, admits).pairs
    ensures !ok ==> g' == g && handed == []
  {
    var prepared: GenerationMap, entries: seq<Pair> := g, [];
    var i := 0;
    while i < |ids|
      invariant 0 <= i <= |ids|
      invariant Allocate(g, ids[..i], admits) == Allocation(prepared, entries, true)
    {
      assert ids[..i + 1][..i] == ids[..i];
      var id := ids[i];
      if Exhausted(prepared, id) || !admits(id) {
        Incomplete(g, ids, i + 1, admits);
        return g, [], false;
      }
      entries := entries + [Pair(id, Current(prepared, id) + 1)];
      prepared := prepared[id := Current(prepared, id) + 1];
      i := i + 1;
    }
    assert ids[..i] == ids;
    if !orders { return g, [], false; }
    g', handed, ok := prepared, entries, true;
  }

  /** Restores in order on the live map; what a failed rollback took stays taken. */
  method Rollback(g: GenerationMap, ids: seq<Id>, trusted: Id -> bool) returns (g': GenerationMap, handed: seq<Pair>, ok: bool)
    ensures g' == Allocate(g, ids, trusted).map' && ok == Allocate(g, ids, trusted).complete
    ensures handed == if ok then Allocate(g, ids, trusted).pairs else []
  {
    g', handed := g, [];
    var i := 0;
    while i < |ids|
      invariant 0 <= i <= |ids|
      invariant Allocate(g, ids[..i], trusted) == Allocation(g', handed, true)
    {
      assert ids[..i + 1][..i] == ids[..i];
      var id := ids[i];
      if !trusted(id) || Exhausted(g', id) {
        Incomplete(g, ids, i + 1, trusted);
        return g', [], false;
      }
      handed := handed + [Pair(id, Current(g', id) + 1)];
      g' := g'[id := Current(g', id) + 1];
      i := i + 1;
    }
    assert ids[..i] == ids;
    ok := true;
  }

  lemma {:induction false} Incomplete(g: GenerationMap, ids: seq<Id>, i: nat, admits: Id -> bool)
    requires i <= |ids| && !Allocate(g, ids[..i], admits).complete
    ensures !Allocate(g, ids, admits).complete && Allocate(g, ids, admits).map' == Allocate(g, ids[..i], admits).map'
    decreases |ids| - i
  {
    if i < |ids| {
      assert ids[..i + 1][..i] == ids[..i];
      Incomplete(g, ids, i + 1, admits);
    } else {
      assert ids[..i] == ids;
    }
  }

  // ----- runs over one map

  /** `handed` counts how often each pair was handed out. */
  datatype State = State(generations: GenerationMap, handed: map<Pair, nat>)

  datatype Op =
    | PrepareOp(ids: seq<Id>, admits: Id -> bool, orders: bool)
    | RollbackOp(ids: seq<Id>, trusted: Id -> bool)
    | HostOp(id: Id)
    | ObserveOp(id: Id, generation: nat)

  function Hand(handed: map<Pair, nat>, pairs: seq<Pair>): map<Pair, nat> {
    if pairs == [] then handed
    else
      var before := Hand(handed, pairs[..|pairs| - 1]);
      var p := pairs[|pairs| - 1];
      before[p := (if p in before then before[p] else 0) + 1]
  }

  function Step(s: State, op: Op): State {
    match op
    case PrepareOp(ids, admits, orders) =>
      var a := Allocate(s.generations, ids, admits);
      if a.complete && orders then State(a.map', Hand(s.handed, a.pairs)) else s
    case RollbackOp(ids, trusted) =>
      var a := Allocate(s.generations, ids, trusted);
      State(a.map', if a.complete then Hand(s.handed, a.pairs) else s.handed)
    case HostOp(id) =>
      if id !in s.generations && |s.generations| >= MAX_HOST_IDENTITIES then s
      else
        var a := Allocate(s.generations, [id], _ => true);
        State(a.map', Hand(s.handed, a.pairs))
    case ObserveOp(id, generation) =>
      if 1 <= generation <= MAX_GENERATION then s.(generations := Observe(s.generations, id, generation)) else s
  }

  /** A generation found running elsewhere raises the map, never lowers it. */
  function Observe(g: GenerationMap, id: Id, generation: nat): GenerationMap {
    g[id := if Current(g, id) < generation then generation else Current(g, id)]
  }

  function Run(s: State, ops: seq<Op>): State
    decreases |ops|
  {
    if ops == [] then s else Run(Step(s, ops[0]), ops[1..])
  }

  ghost predicate Inv(s: State) {
    && (forall id | id in s.generations :: 1 <= s.generations[id] <= MAX_GENERATION)
    && (forall p | p in s.handed :: s.handed[p] == 1 && 1 <= p.generation <= Current(s.generations, p.plugin))
  }

  /** The next generation of a plugin has never been handed out. */
  lemma NextIsFresh(s: State, id: Id)
    requires Inv(s) && !Exhausted(s.generations, id)
    ensures var n := Current(s.generations, id) + 1;
            && Pair(id, n) !in s.handed
            && Inv(State(s.generations[id := n], s.handed[Pair(id, n) := 1]))
  {}

  /** Allocating is fresh at every step: the pairs are new and the map stays within its range. */
  lemma {:induction false} AllocateKeeps(s: State, ids: seq<Id>, admits: Id -> bool)
    requires Inv(s)
    ensures Inv(State(Allocate(s.generations, ids, admits).map', Hand(s.handed, Allocate(s.generations, ids, admits).pairs)))
  {
    if ids != [] {
      var rest := Allocate(s.generations, ids[..|ids| - 1], admits);
      var a := Allocate(s.generations, ids, admits);
      var before := State(rest.map', Hand(s.handed, rest.pairs));
      AllocateKeeps(s, ids[..|ids| - 1], admits);
      var id := ids[|ids| - 1];
      if rest.complete && admits(id) && !Exhausted(rest.map', id) {
        var n := Current(rest.map', id) + 1;
        NextIsFresh(before, id);
        HandOne(s.handed, rest.pairs, Pair(id, n));
        assert State(a.map', Hand(s.handed, a.pairs))
               == State(rest.map'[id := n], before.handed[Pair(id, n) := 1]);
      } else {
        assert State(a.map', Hand(s.handed, a.pairs)) == before;
      }
    }
  }

  lemma {:induction false} AllocateRaises(g: GenerationMap, ids: seq<Id>, admits: Id -> bool)
    ensures Raised(g, Allocate(g, ids, admits).map')
  {
    if ids != [] { AllocateRaises(g, ids[..|ids| - 1], admits); }
  }

  ghost predicate Raised(a: GenerationMap, b: GenerationMap) {
    forall id | id in a :: id in b && a[id] <= b[id]
  }

  lemma HandOne(handed: map<Pair, nat>, pairs: seq<Pair>, p: Pair)
    ensures Hand(handed, pairs + [p])
            == Hand(handed, pairs)[p := (if p in Hand(handed, pairs) then Hand(handed, pairs)[p] else 0) + 1]
  {
    assert (pairs + [p])[..|pairs|] == pairs;
  }

  lemma StepKeeps(s: State, op: Op)
    requires Inv(s)
    ensures Inv(Step(s, op))
  {
    match op
    case PrepareOp(ids, admits, orders) => AllocateKeeps(s, ids, admits);
    case RollbackOp(ids, trusted) =>
      AllocateKeeps(s, ids, trusted);
      AllocateRaises(s.generations, ids, trusted);
    case HostOp(id) => AllocateKeeps(s, [id], _ => true);
    case ObserveOp(_, _) =>
  }

  /** Over every run no pair is handed out twice, and every generation lies in the safe integer range. */
  lemma {:induction false} NeverHandedOutTwice(s: State, ops: seq<Op>)
    requires Inv(s)
    ensures Inv(Run(s, ops))
    decreases |ops|
  {
    if ops != [] {
      StepKeeps(s, ops[0]);
      NeverHandedOutTwice(Step(s, ops[0]), ops[1..]);
    }
  }

  lemma HandedOnceFromStart(ops: seq<Op>)
    ensures var s := Run(State(map[], map[]), ops);
            && (forall p | p in s.handed :: s.handed[p] == 1 && 1 <= p.generation <= MAX_GENERATION)
            && (forall id | id in s.generations :: 1 <= s.generations[id] <= MAX_GENERATION)
  {
    NeverHandedOutTwice(State(map[], map[]), ops);
  }

  /** A generation in range that is observed raises the plugin's last one to at least itself, and hands out nothing. */
  lemma ObservingIsExact(s: State, id: Id, generation: nat)
    ensures var t := Step(s, ObserveOp(id, generation));
            var last := if id in s.generations then s.generations[id] else 0;
            t == if 1 <= generation <= 9_007_199_254_740_991
                 then s.(generations := s.generations[id := if last < generation then generation else last]) else s
  {}

  /** A host start gives one next generation, unless its plugin would be one identity too many or has none left. */
  lemma HostStartIsExact(s: State, id: Id)
    ensures var last := if id in s.generations then s.generations[id] else 0;
            Step(s, HostOp(id)) ==
              if (id in s.generations || |s.generations| < MAX_HOST_IDENTITIES) && last < MAX_GENERATION
              then State(s.generations[id := last + 1],
                         s.handed[Pair(id, last + 1) := (if Pair(id, last + 1) in s.handed then s.handed[Pair(id, last + 1)] else 0) + 1])
              else s
  {
    assert [id][..0] == [];
    assert Allocate(s.generations, [], _ => true) == Allocation(s.generations, [], true);
    var a := Allocate(s.generations, [id], _ => true);
    assert Hand(s.handed, []) == s.handed;
    if a.complete { assert a.pairs[..0] == []; }
  }
}
