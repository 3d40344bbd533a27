/** Where the greedy order puts one node relative to another, told from the graph alone. */
module Placement {
  import opened Ids
  import opened Graphs

  /** With a node the set holds everything that node must come after. */
  ghost predicate AncestorClosed(g: Graph, s: set<Id>) {
    forall p, c | Edge(g, p, c) && c in s :: p in s
  }

  /** `x` is `y` or must come before it: it lies in every such set with `y`. */
  ghost predicate Reaches(g: Graph, x: Id, y: Id) {
    forall s: set<Id> | AncestorClosed(g, s) && y in s :: x in s
  }

  ghost predicate HasPath(g: Graph, x: Id, y: Id) {
    exists s :: s != [] && IsPath(g, s) && s[0] == x && s[|s| - 1] == y
  }

  lemma {:induction false} PathStaysInside(g: Graph, s: seq<Id>, inside: set<Id>)
    requires s != [] && IsPath(g, s) && AncestorClosed(g, inside) && s[|s| - 1] in inside
    ensures s[0] in inside
    decreases |s|
  {
    if |s| > 1 {
      var n := |s| - 2;
      assert Edge(g, s[n], s[n + 1]);
      PathStaysInside(g, s[..|s| - 1], inside);
    }
  }

  lemma PathGrows(g: Graph, p: Id, c: Id, y: Id)
    requires Edge(g, p, c) && HasPath(g, c, y)
    ensures HasPath(g, p, y)
  {
    var s :| s != [] && IsPath(g, s) && s[0] == c && s[|s| - 1] == y;
    var t := [p] + s;
    forall i | 0 <= i < |t| - 1 ensures Edge(g, t[i], t[i + 1]) {
      if i > 0 { assert t[i] == s[i - 1] && t[i + 1] == s[i]; }
    }
    assert IsPath(g, t) && t[0] == p && t[|t| - 1] == y;
  }

  /** Reaching is having a path. */
  lemma ReachesIsHavingAPath(g: Graph, x: Id, y: Id)
    ensures Reaches(g, x, y) <==> HasPath(g, x, y)
  {
    if HasPath(g, x, y) {
      var s :| s != [] && IsPath(g, s) && s[0] == x && s[|s| - 1] == y;
      forall inside: set<Id> | AncestorClosed(g, inside) && y in inside ensures x in inside {
        PathStaysInside(g, s, inside);
      }
    }
    if Reaches(g, x, y) {
      assert IsPath(g, [y]) && [y][0] == y;
      var inside := {y} + set p | p in g && HasPath(g, p, y);
      forall p, c | Edge(g, p, c) && c in inside ensures p in inside { PathGrows(g, p, c, y); }
      assert AncestorClosed(g, inside);
    }
  }

  lemma EdgeThenReaches(g: Graph, x: Id, y: Id, z: Id)
    requires Edge(g, x, y) && Reaches(g, y, z)
    ensures Reaches(g, x, z)
  {
  }

  /** A node that waits for nothing is reached from itself only. */
  lemma SourceIsReachedFromItself(g: Graph, y: Id)
    requires forall p | p in g :: y !in g[p]
    ensures forall x :: Reaches(g, x, y) <==> x == y
  {
    assert AncestorClosed(g, {y});
  }

  lemma ReachedIsEarlier(g: Graph, o: seq<Id>, k: nat, j: nat)
    requires Topological(g, o) && k < |o| && j < |o| && Reaches(g, o[k], o[j])
    ensures k <= j
  {
    var before := Elements(o[..j + 1]);
    forall p, c | Edge(g, p, c) && c in before ensures p in before {
      assert p in Elements(o);
      var a :| 0 <= a < |o| && o[a] == p;
      var b :| 0 <= b <= j && o[..j + 1][b] == c;
      assert o[..j + 1][a] == p;
    }
    assert AncestorClosed(g, before);
    assert o[..j + 1][j] in before;
    var m :| 0 <= m <= j && o[..j + 1][m] == o[k];
  }

  /** What reaches a node is a node. */
  lemma ReachingHasPosition(g: Graph, o: seq<Id>, x: Id, j: nat) returns (k: nat)
    requires Topological(g, o) && j < |o| && Reaches(g, x, o[j])
    ensures k < |o| && o[k] == x
  {
    assert AncestorClosed(g, Elements(o));
    k :| 0 <= k < |o| && o[k] == x;
  }

  lemma ProvidersDone(g: Graph, o: seq<Id>, i: nat, k: nat)
    requires Topological(g, o) && i < |o| && k <= i
    ensures o[i] in Available(g, Elements(o[..k])) <==> forall m | 0 <= m < |o| && Edge(g, o[m], o[i]) :: m < k
  {
    var done := Elements(o[..k]);
    assert o[i] in Elements(o);
    if forall m | 0 <= m < |o| && Edge(g, o[m], o[i]) :: m < k {
      forall p | p in g && o[i] in g[p] ensures p in done {
        assert p in Elements(o);
        var m :| 0 <= m < |o| && o[m] == p;
        assert o[..k][m] == p;
      }
    }
    forall m | 0 <= m < |o| && Edge(g, o[m], o[i]) && k <= m ensures o[m] in Pending(g, o[i], done) {}
  }

  /** `k` cannot be overtaken by `i`: its node is less, or some provider of `o[i]` does not come before it. */
  ghost predicate Clear(g: Graph, o: seq<Id>, k: nat, i: nat)
    requires k < |o| && i < |o|
  {
    Less(o[k], o[i]) || exists m :: 0 <= m < |o| && Edge(g, o[m], o[i]) && k <= m
  }

  lemma EarlierIsClear(g: Graph, o: seq<Id>, k: nat, i: nat)
    requires Topological(g, o) && Greedy(g, o) && k < i < |o|
    ensures Clear(g, o, k, i)
  {
    ProvidersDone(g, o, i, k);
    assert IsLeast(o[k], Available(g, Elements(o[..k])));
  }

  lemma FirstOnTheWay(g: Graph, o: seq<Id>, i: nat, j: nat) returns (k: nat)
    requires i <= j < |o|
    ensures i <= k <= j && Reaches(g, o[k], o[j]) && forall m | i <= m < k :: !Reaches(g, o[m], o[j])
  {
    k := i;
    while !Reaches(g, o[k], o[j])
      invariant i <= k <= j && forall m | i <= m < k :: !Reaches(g, o[m], o[j])
      decreases j - k
    {
      k := k + 1;
    }
  }

  /** The first node not yet placed on the way to `o[j]` was available when `o[i]` was taken. */
  lemma LaterIsNotClear(g: Graph, o: seq<Id>, i: nat, j: nat) returns (k: nat)
    requires Closed(g) && Topological(g, o) && Greedy(g, o) && i <= j < |o|
    ensures i <= k <= j && Reaches(g, o[k], o[j]) && !Clear(g, o, k, i)
  {
    k := FirstOnTheWay(g, o, i, j);
    forall m | 0 <= m < |o| && Edge(g, o[m], o[k]) ensures m < i {
      EdgeThenReaches(g, o[m], o[k], o[j]);
    }
    AvailableIsNotLess(g, o, i, k);
  }

  lemma AvailableIsNotLess(g: Graph, o: seq<Id>, i: nat, k: nat)
    requires Topological(g, o) && Greedy(g, o) && i <= k < |o|
    requires forall m | 0 <= m < |o| && Edge(g, o[m], o[k]) :: m < i
    ensures !Clear(g, o, k, i)
  {
    ProvidersDone(g, o, k, i);
    assert IsLeast(o[i], Available(g, Elements(o[..i])));
    LessOrder(o[i], o[k], o[i]);
  }

  /**
   * Exactly which of two nodes comes first: nothing that must come before the one may be overtaken
   * by the other.
   */
  lemma GreedyPosition(g: Graph, o: seq<Id>, j: nat, i: nat)
    requires Closed(g) && Topological(g, o) && Greedy(g, o) && j < |o| && i < |o|
    ensures j < i <==> forall k | 0 <= k < |o| && Reaches(g, o[k], o[j]) :: Clear(g, o, k, i)
  {
    if j < i {
      forall k | 0 <= k < |o| && Reaches(g, o[k], o[j]) ensures Clear(g, o, k, i) {
        ReachedIsEarlier(g, o, k, j);
        EarlierIsClear(g, o, k, i);
      }
    } else {
      var k := LaterIsNotClear(g, o, i, j);
    }
  }

  /**
   * `a` goes before `b`, told without the order: everything that reaches `a` is less than `b` or
   * goes no later than some provider of `b`. `n` bounds the depth of the providers looked at.
   */
  ghost predicate GoesWithin(g: Graph, a: Id, b: Id, n: nat)
    decreases n, 0
  {
    n > 0 && forall x | Reaches(g, x, a) :: MayPrecede(g, x, b, n - 1)
  }

  ghost predicate MayPrecede(g: Graph, x: Id, b: Id, n: nat)
    decreases n, 1
  {
    Less(x, b) || exists l :: Edge(g, l, b) && (x == l || GoesWithin(g, x, l, n))
  }

  ghost predicate GoesFirst(g: Graph, a: Id, b: Id) {
    GoesWithin(g, a, b, |g|)
  }

  lemma GoesWhenAllDo(g: Graph, a: Id, b: Id, n: nat, less: nat)
    requires n == less + 1 && forall x | Reaches(g, x, a) :: MayPrecede(g, x, b, less)
    ensures GoesWithin(g, a, b, n)
  {
  }

  lemma GoesMeansAllDo(g: Graph, x: Id, a: Id, b: Id, n: nat, less: nat)
    requires GoesWithin(g, a, b, n) && Reaches(g, x, a) && n == less + 1
    ensures MayPrecede(g, x, b, less)
  {
  }

  lemma {:induction false} PlacedWithin(g: Graph, o: seq<Id>, j: nat, i: nat, n: nat)
    requires Closed(g) && Topological(g, o) && Greedy(g, o) && j < |o| && i < |o| && i < n
    ensures GoesWithin(g, o[j], o[i], n) <==> j < i
    decreases i, 3
  {
    if j < i { PlacedEarlier(g, o, j, i, n); } else { PlacedLater(g, o, j, i, n); }
  }

  lemma {:induction false} PlacedEarlier(g: Graph, o: seq<Id>, j: nat, i: nat, n: nat)
    requires Closed(g) && Topological(g, o) && Greedy(g, o) && j < i < |o| && i < n
    ensures GoesWithin(g, o[j], o[i], n)
    decreases i, 2
  {
    var less: nat := n - 1;
    forall x | Reaches(g, x, o[j]) ensures MayPrecede(g, x, o[i], less) {
      OneMayPrecede(g, o, x, j, i, less);
    }
    GoesWhenAllDo(g, o[j], o[i], n, less);
  }

  lemma {:induction false} OneMayPrecede(g: Graph, o: seq<Id>, x: Id, j: nat, i: nat, n: nat)
    requires Closed(g) && Topological(g, o) && Greedy(g, o) && j < i < |o| && i <= n
    requires Reaches(g, x, o[j])
    ensures MayPrecede(g, x, o[i], n)
    decreases i, 1
  {
    var k := ReachingHasPosition(g, o, x, j);
    ReachedIsEarlier(g, o, k, j);
    EarlierIsClear(g, o, k, i);
    NoLaterIsClear(g, o, k, i, n);
  }

  lemma {:induction false} PlacedLater(g: Graph, o: seq<Id>, j: nat, i: nat, n: nat)
    requires Closed(g) && Topological(g, o) && Greedy(g, o) && i <= j < |o| && i < n
    ensures !GoesWithin(g, o[j], o[i], n)
    decreases i, 2
  {
    var k := LaterIsNotClear(g, o, i, j);
    var less: nat := n - 1;
    NoLaterIsClear(g, o, k, i, less);
    if GoesWithin(g, o[j], o[i], n) { GoesMeansAllDo(g, o[k], o[j], o[i], n, less); }
  }

  lemma {:induction false} NoLaterIsClear(g: Graph, o: seq<Id>, k: nat, i: nat, n: nat)
    requires Closed(g) && Topological(g, o) && Greedy(g, o) && k < |o| && i < |o| && i <= n
    ensures MayPrecede(g, o[k], o[i], n) == Clear(g, o, k, i)
    decreases i, 0
  {
    forall m | 0 <= m < |o| && Edge(g, o[m], o[i])
      ensures (o[k] == o[m] || GoesWithin(g, o[k], o[m], n)) <==> k <= m
    {
      PlacedWithin(g, o, k, m, n);
    }
    ProvidersArePlaced(g, o, k, i, n);
  }

  lemma ProvidersArePlaced(g: Graph, o: seq<Id>, k: nat, i: nat, n: nat)
    requires Topological(g, o) && k < |o| && i < |o|
    requires forall m | 0 <= m < |o| && Edge(g, o[m], o[i]) :: (o[k] == o[m] || GoesWithin(g, o[k], o[m], n)) <==> k <= m
    ensures MayPrecede(g, o[k], o[i], n) == Clear(g, o, k, i)
  {
    forall l | Edge(g, l, o[i]) ensures exists m :: 0 <= m < |o| && o[m] == l {
      assert l in Elements(o);
    }
  }

  /** Exactly which of two nodes comes first in the least order. */
  lemma PlacementIsExact(g: Graph, o: seq<Id>, j: nat, i: nat)
    requires Closed(g) && Topological(g, o) && Greedy(g, o) && j < |o| && i < |o|
    ensures GoesFirst(g, o[j], o[i]) <==> j < i
  {
    DistinctCardinality(o);
    assert |g| == |g.Keys| == |o|;
    PlacedWithin(g, o, j, i, |g|);
  }

  /** Before a node that waits for nothing go exactly the nodes reached from lesser ones only. */
  lemma BeforeASource(g: Graph, a: Id, b: Id)
    requires b in g && forall p | p in g :: b !in g[p]
    ensures GoesFirst(g, a, b) <==> forall x | Reaches(g, x, a) :: Less(x, b)
  {
    assert |g| == |g.Keys| && b in g.Keys;
    assert |g| > 0;
    var less: nat := |g| - 1;
    if GoesFirst(g, a, b) {
      forall x | Reaches(g, x, a) ensures Less(x, b) {
        SourceHasNoProvider(g, x, b, less);
        GoesMeansAllDo(g, x, a, b, |g|, less);
      }
    }
    if forall x | Reaches(g, x, a) :: Less(x, b) {
      forall x | Reaches(g, x, a) ensures MayPrecede(g, x, b, less) {}
      GoesWhenAllDo(g, a, b, |g|, less);
    }
  }

  lemma SourceHasNoProvider(g: Graph, x: Id, b: Id, n: nat)
    requires forall p | p in g :: b !in g[p]
    ensures MayPrecede(g, x, b, n) <==> Less(x, b)
  {
  }

  // ----- an order exists as soon as there is any topological one

  lemma SomethingIsAvailable(g: Graph, t: seq<Id>, done: set<Id>)
    requires Topological(g, t) && done <= g.Keys && done != g.Keys
    ensures Available(g, done) != {}
  {
    var x :| x in g.Keys && x !in done;
    assert x in Elements(t);
    var last :| 0 <= last < |t| && t[last] == x;
    var i := 0;
    while t[i] in done
      invariant 0 <= i <= last && forall k | 0 <= k < i :: t[k] in done
      decreases last - i
    {
      i := i + 1;
    }
    var prefix := Elements(t[..i]);
    assert forall x | x in prefix :: x in done;
    NextIsAvailable(g, t, i);
    assert t[i] in Available(g, done);
  }

  /** The greedy choices can be continued to the end. */
  lemma GreedyCompletes(g: Graph, t: seq<Id>, o: seq<Id>) returns (all: seq<Id>)
    requires Closed(g) && Topological(g, t) && Greedy(g, o)
    ensures Greedy(g, all) && LexLeastTopological(g, all)
    decreases |g.Keys - Elements(o)|
  {
    GreedyIsTopological(g, o);
    if Elements(o) == g.Keys {
      GreedyIsLexLeast(g, o);
      all := o;
    } else {
      SomethingIsAvailable(g, t, Elements(o));
      LeastExists(Available(g, Elements(o)));
      var x :| IsLeast(x, Available(g, Elements(o)));
      var more := o + [x];
      GreedyExtends(g, o, x);
      assert g.Keys - Elements(more) < g.Keys - Elements(o);
      CardinalityDrops(g.Keys - Elements(more), g.Keys - Elements(o));
      all := GreedyCompletes(g, t, more);
    }
  }

  lemma CardinalityDrops(a: set<Id>, b: set<Id>)
    requires a < b
    ensures |a| < |b|
  {
    var x :| x in b && x !in a;
    assert |b - a| > 0 by { assert x in b - a; }
    assert b == a + (b - a);
  }
}
