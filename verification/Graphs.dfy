/** Dependency graphs: from each provider to the set of its dependents. */
module Graphs {
  import opened Ids

  type Graph = map<Id, set<Id>>

  /** Every dependent is itself a node. */
  ghost predicate Closed(g: Graph) {
    forall p | p in g :: g[p] <= g.Keys
  }

  ghost predicate Edge(g: Graph, p: Id, c: Id) {
    p in g && c in g[p]
  }

  ghost predicate Distinct(s: seq<Id>) {
    forall i, j | 0 <= i < j < |s| :: s[i] != s[j]
  }

  ghost function Elements(s: seq<Id>): set<Id> {
    set x | x in s
  }

  ghost predicate IsPath(g: Graph, s: seq<Id>) {
    forall i | 0 <= i < |s| - 1 :: Edge(g, s[i], s[i + 1])
  }

  /** Distinct nodes, consecutive edges, and an edge from the last back to the first. */
  ghost predicate IsCycle(g: Graph, s: seq<Id>) {
    && s != []
    && Distinct(s)
    && IsPath(g, s)
    && Edge(g, s[|s| - 1], s[0])
  }

  ghost predicate Acyclic(g: Graph) {
    forall s :: !IsCycle(g, s)
  }

  /** A permutation of the nodes with every provider before its dependents. */
  ghost predicate Topological(g: Graph, o: seq<Id>) {
    && Distinct(o)
    && Elements(o) == g.Keys
    && forall i, j | 0 <= i < |o| && 0 <= j < |o| && Edge(g, o[i], o[j]) :: i < j
  }

  /** The providers of `c` that are not done yet. */
  ghost function Pending(g: Graph, c: Id, done: set<Id>): set<Id> {
    set p | p in g && p !in done && c in g[p]
  }

  /** The nodes not done whose providers all are. */
  ghost function Available(g: Graph, done: set<Id>): set<Id> {
    set n | n in g && n !in done && Pending(g, n, done) == {}
  }

  ghost predicate Greedy(g: Graph, o: seq<Id>) {
    forall i | 0 <= i < |o| :: IsLeast(o[i], Available(g, Elements(o[..i])))
  }

  /** Lexicographic order on sequences of ids. */
  ghost predicate LexLeq(a: seq<Id>, b: seq<Id>) {
    if a == [] then true
    else if b == [] then false
    else Less(a[0], b[0]) || (a[0] == b[0] && LexLeq(a[1..], b[1..]))
  }

  ghost predicate LexLeastTopological(g: Graph, o: seq<Id>) {
    Topological(g, o) && forall other | Topological(g, other) :: LexLeq(o, other)
  }

  lemma {:induction false} DistinctCardinality(s: seq<Id>)
    requires Distinct(s)
    ensures |Elements(s)| == |s|
  {
    if s == [] {
    } else {
      var n := |s| - 1;
      DistinctCardinality(s[..n]);
      assert Elements(s) == Elements(s[..n]) + {s[n]};
    }
  }

  /** The next node of any other order with the same prefix was available to the greedy one. */
  lemma NextIsAvailable(g: Graph, other: seq<Id>, i: nat)
    requires Topological(g, other) && i < |other|
    ensures other[i] in Available(g, Elements(other[..i]))
  {
    var n, done := other[i], Elements(other[..i]);
    assert n in Elements(other);
    forall p | p in g && n in g[p] ensures p in done {
      assert p in Elements(other);
      var k :| 0 <= k < |other| && other[k] == p;
      assert Edge(g, other[k], other[i]);
      assert p == other[..i][k];
    }
  }

  /** Taking the least available node keeps an order greedy. */
  lemma GreedyExtends(g: Graph, order: seq<Id>, p: Id)
    requires Greedy(g, order) && IsLeast(p, Available(g, Elements(order)))
    ensures Greedy(g, order + [p]) && Elements(order + [p]) == Elements(order) + {p}
    ensures p in g && p !in Elements(order)
  {
    var order' := order + [p];
    forall i | 0 <= i < |order'| ensures IsLeast(order'[i], Available(g, Elements(order'[..i]))) {
      if i < |order| {
        assert order'[..i] == order[..i];
      } else {
        assert order'[..i] == order;
      }
    }
  }

  lemma {:induction false} GreedyFrom(g: Graph, o: seq<Id>, other: seq<Id>, i: nat)
    requires Topological(g, other) && Greedy(g, o)
    requires |o| == |other| && i <= |o| && o[..i] == other[..i]
    ensures LexLeq(o[i..], other[i..])
    decreases |o| - i
  {
    if i < |o| {
      NextIsAvailable(g, other, i);
      if o[i] == other[i] {
        assert o[..i + 1] == o[..i] + [o[i]] && other[..i + 1] == other[..i] + [other[i]];
        GreedyFrom(g, o, other, i + 1);
        assert o[i..][1..] == o[i + 1..] && other[i..][1..] == other[i + 1..];
      }
    }
  }

  /** Always taking the least available node gives the lexicographically least order. */
  lemma GreedyIsLexLeast(g: Graph, o: seq<Id>)
    requires Topological(g, o) && Greedy(g, o)
    ensures LexLeastTopological(g, o)
  {
    forall other | Topological(g, other) ensures LexLeq(o, other) {
      DistinctCardinality(o);
      DistinctCardinality(other);
      GreedyFrom(g, o, other, 0);
      assert o[0..] == o && other[0..] == other;
    }
  }

  lemma {:induction false} PathAdvances(g: Graph, o: seq<Id>, s: seq<Id>, i: nat, j: nat)
    requires Closed(g) && Topological(g, o) && IsPath(g, s) && s != []
    requires i < |o| && j < |o| && o[i] == s[0] && o[j] == s[|s| - 1]
    ensures i <= j
    decreases |s|
  {
    if |s| > 1 {
      var n := |s| - 2;
      assert Edge(g, s[n], s[n + 1]);
      assert s[n] in Elements(o);
      var k :| 0 <= k < |o| && o[k] == s[n];
      PathAdvances(g, o, s[..|s| - 1], i, k);
    }
  }

  /** A graph that can be ordered has no cycle. */
  lemma TopologicalMeansAcyclic(g: Graph, o: seq<Id>)
    requires Closed(g) && Topological(g, o)
    ensures Acyclic(g)
  {
    forall s | IsCycle(g, s) ensures false {
      assert s[0] in Elements(o) && s[|s| - 1] in Elements(o);
      var i :| 0 <= i < |o| && o[i] == s[0];
      var j :| 0 <= j < |o| && o[j] == s[|s| - 1];
      PathAdvances(g, o, s, i, j);
    }
  }

  /** Some member of the set must come before `n`. */
  ghost predicate Waits(g: Graph, stuck: set<Id>, n: Id) {
    exists p :: p in stuck && Edge(g, p, n)
  }

  /** A nonempty set of nodes each of which still waits for a member of the set. */
  ghost predicate Stalled(g: Graph, stuck: set<Id>) {
    && stuck != {}
    && stuck <= g.Keys
    && forall n {:trigger Waits(g, stuck, n)} | n in stuck :: Waits(g, stuck, n)
  }

  /** Finished nodes are ranked so that every edge out of one leads to a lower rank. */
  ghost predicate RankedClosed(g: Graph, rank: map<Id, nat>) {
    && rank.Keys <= g.Keys
    && forall p, c | p in rank && c in g[p] :: c in rank && rank[c] < rank[p]
  }

  lemma {:induction false} HighestRank(s: set<Id>, rank: map<Id, nat>) returns (top: Id)
    requires s != {} && s <= rank.Keys
    ensures top in s && forall n | n in s :: rank[n] <= rank[top]
  {
    top :| top in s;
    if s != {top} {
      var other := HighestRank(s - {top}, rank);
      if rank[top] < rank[other] { top := other; }
    }
  }

  /** A stalled set is never wholly ranked: its highest member waits for one without a rank. */
  lemma StalledIsNotRanked(g: Graph, rank: map<Id, nat>, stuck: set<Id>)
    requires Stalled(g, stuck) && RankedClosed(g, rank)
    ensures exists n :: n in stuck && n !in rank
  {
    var ranked := stuck * rank.Keys;
    if ranked == {} {
      var n :| n in stuck;
      assert n !in ranked;
    } else {
      var top := HighestRank(ranked, rank);
      assert Waits(g, stuck, top);
      var p :| p in stuck && Edge(g, p, top);
      assert p !in rank;
    }
  }

  /** A subgraph of an acyclic graph is acyclic. */
  lemma SubgraphAcyclic(g: Graph, h: Graph)
    requires Acyclic(g)
    requires forall p, c | Edge(h, p, c) :: Edge(g, p, c)
    ensures Acyclic(h)
  {
    forall s | IsCycle(h, s) ensures false {
      assert IsCycle(g, s);
    }
  }

  /** Greedy choices never repeat a node and never place one before its providers. */
  lemma GreedyIsTopological(g: Graph, o: seq<Id>)
    requires Greedy(g, o)
    ensures Distinct(o) && Elements(o) <= g.Keys
    ensures Elements(o) == g.Keys ==> Topological(g, o)
  {
    forall i, j | 0 <= i < j < |o| ensures o[i] != o[j] {
      assert o[..j][i] in Elements(o[..j]);
      assert o[j] in Available(g, Elements(o[..j]));
    }
    forall x | x in Elements(o) ensures x in g {
      var i :| 0 <= i < |o| && o[i] == x;
      assert o[i] in Available(g, Elements(o[..i]));
    }
    forall i, j | 0 <= i < |o| && 0 <= j < |o| && Edge(g, o[i], o[j]) ensures i < j {
      assert o[j] in Available(g, Elements(o[..j]));
      assert o[i] !in Pending(g, o[j], Elements(o[..j]));
      var k :| 0 <= k < j && o[..j][k] == o[i];
    }
  }

  lemma PendingAfter(g: Graph, c: Id, done: set<Id>, p: Id)
    requires p in g && p !in done
    ensures c in g[p] ==>
              && p in Pending(g, c, done)
              && Pending(g, c, done + {p}) == Pending(g, c, done) - {p}
              && |Pending(g, c, done + {p})| == |Pending(g, c, done)| - 1
    ensures c !in g[p] ==> Pending(g, c, done + {p}) == Pending(g, c, done)
  {
    if c in g[p] {
      assert Pending(g, c, done + {p}) == Pending(g, c, done) - {p};
    } else {
      assert Pending(g, c, done + {p}) == Pending(g, c, done);
    }
  }

  /** The members of `part` that wait for nothing once `p` is done as well. */
  ghost function Released(g: Graph, part: set<Id>, done: set<Id>, p: Id): set<Id> {
    set c | c in part && c in g && Pending(g, c, done + {p}) == {}
  }

  /** Taking an available node makes available exactly the dependents it was the last to hold back. */
  lemma AvailableAfter(g: Graph, done: set<Id>, p: Id)
    requires p in Available(g, done)
    requires forall n | n in done :: Pending(g, n, done) == {}
    ensures Available(g, done + {p})
            == Available(g, done) - {p} + Released(g, g[p], done, p)
    ensures forall n | n in done + {p} :: Pending(g, n, done + {p}) == {}
  {
    forall n | n in g ensures n in g[p] ==> p in Pending(g, n, done) {
      PendingAfter(g, n, done, p);
    }
    forall n ensures n !in g[p] ==> Pending(g, n, done + {p}) == Pending(g, n, done) {
      PendingAfter(g, n, done, p);
    }
  }

  /** A node that waits for nothing precedes every greater node. */
  lemma SourceGoesEarly(g: Graph, o: seq<Id>, i: nat)
    requires Greedy(g, o) && Distinct(o) && i < |o| && o[i] in g
    requires forall p | p in g :: o[i] !in g[p]
    ensures forall j | 0 <= j < |o| && Less(o[i], o[j]) :: i < j
  {
    forall j | 0 <= j <= i ensures !Less(o[i], o[j]) {
      var done := Elements(o[..j]);
      assert Pending(g, o[i], done) == {};
      assert o[i] !in done;
      assert o[i] in Available(g, done);
      LessOrder(o[i], o[j], o[i]);
    }
  }
}
