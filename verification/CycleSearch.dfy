/** The depth-first search that names a cycle once the ordering loop stalls. */
module CycleSearches {
  import opened Results
  import opened Ids
  import opened Graphs

  datatype Visit = Active | Complete

  /** The stack is a path of the active nodes, each at its own depth. */
  ghost predicate StackIsActivePath(g: Graph, states: map<Id, Visit>, stack: seq<Id>, depth: map<Id, nat>) {
    && IsPath(g, stack)
    && (forall i | 0 <= i < |stack| :: stack[i] in depth && depth[stack[i]] == i)
    && (forall x | x in depth :: x in states && states[x] == Active && depth[x] < |stack| && stack[depth[x]] == x)
    && (forall x | x in states && states[x] == Active :: x in depth)
  }

  /** The completed nodes are a closed postorder. */
  ghost predicate CompleteIsRanked(g: Graph, states: map<Id, Visit>, rank: map<Id, nat>) {
    && RankedClosed(g, rank)
    && (forall x | x in rank :: x in states && states[x] == Complete && rank[x] < |rank|)
    && (forall x | x in states && states[x] == Complete :: x in rank)
  }

  ghost predicate Consistent(
    g: Graph, states: map<Id, Visit>, stack: seq<Id>, depth: map<Id, nat>, rank: map<Id, nat>)
  {
    && Closed(g)
    && states.Keys <= g.Keys
    && StackIsActivePath(g, states, stack, depth)
    && CompleteIsRanked(g, states, rank)
  }

  lemma EnterKeepsStack(g: Graph, states: map<Id, Visit>, stack: seq<Id>, depth: map<Id, nat>, n: Id)
    requires StackIsActivePath(g, states, stack, depth) && n !in states
    requires stack != [] ==> Edge(g, stack[|stack| - 1], n)
    ensures StackIsActivePath(g, states[n := Active], stack + [n], depth[n := |stack|])
  {}

  lemma EnterKeeps(
    g: Graph, states: map<Id, Visit>, stack: seq<Id>, depth: map<Id, nat>, rank: map<Id, nat>, n: Id)
    requires Consistent(g, states, stack, depth, rank) && n in g && n !in states
    requires stack != [] ==> Edge(g, stack[|stack| - 1], n)
    ensures Consistent(g, states[n := Active], stack + [n], depth[n := |stack|], rank)
  {
    EnterKeepsStack(g, states, stack, depth, n);
    assert CompleteIsRanked(g, states[n := Active], rank);
  }

  lemma LeaveKeepsStack(g: Graph, states: map<Id, Visit>, stack: seq<Id>, depth: map<Id, nat>, n: Id)
    requires StackIsActivePath(g, states, stack, depth)
    requires stack != [] && stack[|stack| - 1] == n
    ensures StackIsActivePath(g, states[n := Complete], stack[..|stack| - 1], depth - {n})
  {}

  lemma LeaveKeepsRanks(g: Graph, states: map<Id, Visit>, rank: map<Id, nat>, n: Id)
    requires CompleteIsRanked(g, states, rank)
    requires n in states && states[n] == Active && n in g && g[n] <= rank.Keys
    ensures CompleteIsRanked(g, states[n := Complete], rank[n := |rank|])
  {
    assert n !in rank;
    RankGrows(g, rank, n);
    RankCounts(rank, n);
  }

  lemma RankGrows(g: Graph, rank: map<Id, nat>, n: Id)
    requires RankedClosed(g, rank) && n in g && n !in rank && g[n] <= rank.Keys
    requires forall x | x in rank :: rank[x] < |rank|
    ensures RankedClosed(g, rank[n := |rank|])
  {}

  lemma RankCounts(rank: map<Id, nat>, n: Id)
    requires n !in rank
    ensures |rank[n := |rank|]| == |rank| + 1
  {
    var more := rank[n := |rank|];
    assert more.Keys == rank.Keys + {n};
    assert |more| == |more.Keys|;
  }

  lemma LeaveKeeps(
    g: Graph, states: map<Id, Visit>, stack: seq<Id>, depth: map<Id, nat>, rank: map<Id, nat>, n: Id)
    requires Consistent(g, states, stack, depth, rank)
    requires stack != [] && stack[|stack| - 1] == n && n in g && g[n] <= rank.Keys
    ensures Consistent(g, states[n := Complete], stack[..|stack| - 1], depth - {n}, rank[n := |rank|])
    ensures states[n := Complete].Keys == states.Keys
    ensures rank[n := |rank|].Keys == rank.Keys + {n}
  {
    LeaveKeepsStack(g, states, stack, depth, n);
    LeaveKeepsRanks(g, states, rank, n);
  }

  /** The part of the stack from an active node on closes into a cycle. */
  lemma ActiveClosesCycle(g: Graph, states: map<Id, Visit>, stack: seq<Id>, depth: map<Id, nat>, start: nat)
    requires StackIsActivePath(g, states, stack, depth)
    requires start < |stack| && Edge(g, stack[|stack| - 1], stack[start])
    ensures IsCycle(g, stack[start..])
  {}

  class CycleSearch {
    const graph: Graph
    var states: map<Id, Visit>
    var stack: seq<Id>
    ghost var depth: map<Id, nat>
    ghost var rank: map<Id, nat>

    ghost predicate Valid()
      reads this
    {
      Consistent(graph, states, stack, depth, rank)
    }

    constructor (g: Graph)
      requires Closed(g)
      ensures Valid() && graph == g && states == map[] && stack == [] && rank == map[]
    {
      graph := g;
      states, stack, depth, rank := map[], [], map[], map[];
    }

    /**
     * Explores everything reachable from `provider`: either names a cycle of the graph, or
     * completes `provider` and restores the stack.
     */
    method Visit(provider: Id) returns (cycle: Option<seq<Id>>)
      requires Valid()
      requires provider in graph && provider !in states
      requires stack != [] ==> Edge(graph, stack[|stack| - 1], provider)
      modifies this
      ensures cycle.Some? ==> IsCycle(graph, cycle.value)
      ensures cycle.None? ==>
                && Valid()
                && stack == old(stack)
                && old(rank).Keys + {provider} <= rank.Keys
                && old(states).Keys <= states.Keys
      decreases graph.Keys - states.Keys, 0
    {
      Enter(provider);
      ghost var mine := stack;
      var rest := graph[provider];
      while rest != {}
        invariant Valid() && stack == mine && rest <= graph[provider]
        invariant old(states).Keys + {provider} <= states.Keys
        invariant old(rank).Keys <= rank.Keys
        invariant graph[provider] - rest <= rank.Keys
        decreases rest
      {
        var dependent := PickLeast(rest);
        cycle := Follow(dependent);
        if cycle.Some? { return; }
        rest := rest - {dependent};
      }
      Leave(provider);
      cycle := None;
    }

    /** Looks at one dependent of the node on top of the stack. */
    method Follow(dependent: Id) returns (cycle: Option<seq<Id>>)
      requires Valid()
      requires stack != [] && dependent in graph && Edge(graph, stack[|stack| - 1], dependent)
      modifies this
      ensures cycle.Some? ==> IsCycle(graph, cycle.value)
      ensures cycle.None? ==>
                && Valid()
                && stack == old(stack)
                && old(rank).Keys + {dependent} <= rank.Keys
                && old(states).Keys <= states.Keys
      decreases graph.Keys - states.Keys, 1
    {
      if dependent !in states {
        cycle := Visit(dependent);
      } else if states[dependent] == Active {
        var closing := CutStack(dependent);
        cycle := Some(closing);
      } else {
        cycle := None;
      }
    }

    method Enter(provider: Id)
      requires Valid()
      requires provider in graph && provider !in states
      requires stack != [] ==> Edge(graph, stack[|stack| - 1], provider)
      modifies this`states, this`stack, this`depth
      ensures Valid() && stack == old(stack) + [provider]
      ensures states.Keys == old(states).Keys + {provider}
    {
      ghost var known := states.Keys;
      EnterKeeps(graph, states, stack, depth, rank, provider);
      assert states[provider := Active].Keys == known + {provider};
      depth, states, stack := depth[provider := |stack|], states[provider := Active], stack + [provider];
    }

    method CutStack(dependent: Id) returns (cycle: seq<Id>)
      requires Valid() && stack != []
      requires dependent in states && states[dependent] == Active
      requires Edge(graph, stack[|stack| - 1], dependent)
      ensures IsCycle(graph, cycle)
    {
      assert stack[depth[dependent]] == dependent;
      var start :| 0 <= start < |stack| && stack[start] == dependent;
      ActiveClosesCycle(graph, states, stack, depth, start);
      cycle := stack[start..];
    }

    method Leave(provider: Id)
      requires Valid()
      requires stack != [] && stack[|stack| - 1] == provider
      requires graph[provider] <= rank.Keys
      modifies this
      ensures Valid() && stack == old(stack)[..|old(stack)| - 1]
      ensures rank.Keys == old(rank).Keys + {provider}
      ensures states.Keys == old(states).Keys
    {
      LeaveKeeps(graph, states, stack, depth, rank, provider);
      stack, states := stack[..|stack| - 1], states[provider := Complete];
      depth, rank := depth - {provider}, rank[provider := |rank|];
    }
  }

  /**
   * Whenever a set of nodes is stalled the search returns a cycle; the statement after the
   * loop, where the program would abort, is never reached.
   */
  method FindDependencyCycle(graph: Graph, ghost stuck: set<Id>) returns (cycle: seq<Id>)
    requires Closed(graph) && Stalled(graph, stuck)
    ensures IsCycle(graph, cycle)
  {
    var search := new CycleSearch(graph);
    var rest := graph.Keys;
    while rest != {}
      invariant search.Valid() && search.graph == graph && search.stack == [] && fresh(search)
      invariant rest <= graph.Keys && graph.Keys - rest <= search.rank.Keys
      decreases rest
    {
      var provider := PickLeast(rest);
      rest := rest - {provider};
      if provider !in search.states {
        var found := search.Visit(provider);
        if found.Some? { return found.value; }
      }
    }
    StalledIsNotRanked(graph, search.rank, stuck);
    assert false;
    cycle := [];
  }
}
