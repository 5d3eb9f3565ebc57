/** Walks, cycles and ranks of a finite directed graph, given as each node's targets. */
module Digraph {
  predicate Edge<K>(g: map<K, set<K>>, a: K, b: K) {
    a in g && b in g[a]
  }

  ghost predicate Walk<K>(g: map<K, set<K>>, path: seq<K>) {
    path != [] && forall i, j | 0 <= i < j < |path| && j == i + 1 :: Edge(g, path[i], path[j])
  }

  ghost predicate Reaches<K(!new)>(g: map<K, set<K>>, a: K, b: K) {
    exists path: seq<K> :: Walk(g, path) && path[0] == a && path[|path| - 1] == b
  }

  /** The edge closes a walk back to its own start. */
  ghost predicate Closes<K(!new)>(g: map<K, set<K>>, a: K, b: K) {
    Edge(g, a, b) && Reaches(g, b, a)
  }

  ghost predicate CycleOf<K>(g: map<K, set<K>>, path: seq<K>) {
    |path| > 1 && Walk(g, path) && path[0] == path[|path| - 1]
  }

  ghost predicate Cyclic<K(!new)>(g: map<K, set<K>>) {
    exists path: seq<K> :: CycleOf(g, path)
  }

  lemma ClosingEdgeIsCyclic<K(!new)>(g: map<K, set<K>>, a: K, b: K)
    requires Closes(g, a, b)
    ensures Cyclic(g)
  {
    var path :| Walk(g, path) && path[0] == b && path[|path| - 1] == a;
    assert CycleOf(g, path + [b]);
  }

  /** Every node has a rank, above the rank of each of its targets. */
  ghost predicate Ranks<K(!new)>(g: map<K, set<K>>, rank: map<K, nat>) {
    rank.Keys == g.Keys && forall a, b | Edge(g, a, b) :: b in rank && rank[b] < rank[a]
  }

  lemma {:induction false} WalkDescends<K(!new)>(g: map<K, set<K>>, rank: map<K, nat>, path: seq<K>)
    requires Ranks(g, rank) && Walk(g, path) && |path| > 1
    ensures path[0] in rank && path[|path| - 1] in rank && rank[path[|path| - 1]] < rank[path[0]]
    decreases |path|
  {
    assert Edge(g, path[0], path[1]);
    if |path| > 2 {
      WalkDescends(g, rank, path[1..]);
    }
  }

  lemma RankedIsAcyclic<K(!new)>(g: map<K, set<K>>, rank: map<K, nat>)
    requires Ranks(g, rank)
    ensures !Cyclic(g)
  {
    if path :| CycleOf(g, path) {
      WalkDescends(g, rank, path);
    }
  }

  /** A suffix of a walk, from where it visits `a`, reaches the walk's end. */
  lemma SuffixReaches<K(!new)>(g: map<K, set<K>>, path: seq<K>, a: K)
    requires Walk(g, path) && a in path
    ensures Reaches(g, a, path[|path| - 1])
  {
    var k :| 0 <= k < |path| && path[k] == a;
    assert Walk(g, path[k..]);
  }

  /** A set that contains the targets of its own nodes contains every walk that starts in it. */
  lemma {:induction false} ClosedKeepsWalks<K(!new)>(g: map<K, set<K>>, nodes: set<K>, path: seq<K>)
    requires forall a, b | a in nodes && Edge(g, a, b) :: b in nodes
    requires Walk(g, path) && path[0] in nodes
    ensures path[|path| - 1] in nodes
    decreases |path|
  {
    if |path| > 1 {
      assert Edge(g, path[0], path[1]);
      ClosedKeepsWalks(g, nodes, path[1..]);
    }
  }

  lemma ReachesFurther<K(!new)>(g: map<K, set<K>>, a: K, b: K, c: K)
    requires Reaches(g, a, b) && Edge(g, b, c)
    ensures Reaches(g, a, c)
  {
    var path :| Walk(g, path) && path[0] == a && path[|path| - 1] == b;
    assert Walk(g, path + [c]);
  }

  lemma {:induction false} DistinctFit<K>(s: seq<K>, all: set<K>)
    requires forall t <- s :: t in all
    requires forall i, j | 0 <= i < j < |s| :: s[i] != s[j]
    ensures |s| <= |all|
  {
    if s != [] {
      DistinctFit(s[..|s| - 1], all - {s[|s| - 1]});
    }
  }
}
