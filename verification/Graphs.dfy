/** Directed graphs, given as flat adjacency matrices; cycles, sources, topological orders. */
module Graphs {
  import opened Counting

  datatype Graph = Graph(n: nat, edges: set<(nat, nat)>)

  predicate Edge(g: Graph, i: nat, j: nat) {
    i < g.n && j < g.n && (i, j) in g.edges
  }

  /** The graph of a row-major matrix: an edge is an entry equal to 1. */
  function FromMatrix(n: nat, a: seq<int>): Graph
    requires |a| == n * n
  {
    Graph(n, set i: nat, j: nat | i < n && j < n && Entry(n, a, i, j) == 1 :: (i, j))
  }

  function Entry(n: nat, a: seq<int>, i: nat, j: nat): int
    requires |a| == n * n && i < n && j < n
  {
    IndexInRange(n, i, j);
    a[i * n + j]
  }

  lemma IndexInRange(n: nat, i: nat, j: nat)
    requires i < n && j < n
    ensures 0 <= i * n + j < n * n
  {
    MulMono(i + 1, n, n);
  }

  /** Row i, column j of the matrix is the edge from i to j. */
  lemma EdgeIsEntry(n: nat, a: seq<int>, i: nat, j: nat)
    requires |a| == n * n
    ensures i < n && j < n ==> 0 <= i * n + j < |a| && (Edge(FromMatrix(n, a), i, j) <==> a[i * n + j] == 1)
    ensures i >= n || j >= n ==> !Edge(FromMatrix(n, a), i, j)
  {
    if i < n && j < n {
      IndexInRange(n, i, j);
      assert Entry(n, a, i, j) == a[i * n + j];
    }
  }

  /** No later node of t has an entry 1 for an earlier one. */
  predicate NoBackEntry(n: nat, a: seq<int>, t: seq<nat>)
    requires |a| == n * n
  {
    forall p, q :: 0 <= p < q < |t| && t[p] < n && t[q] < n ==> (IndexInRange(n, t[q], t[p]); a[t[q] * n + t[p]] != 1)
  }

  lemma BackEntries(n: nat, a: seq<int>, t: seq<nat>)
    requires |a| == n * n && forall p :: 0 <= p < |t| ==> t[p] < n
    ensures NoBackEntry(n, a, t) <==> forall p, q :: 0 <= p < q < |t| ==> !Edge(FromMatrix(n, a), t[q], t[p])
  {
    forall p, q | 0 <= p < q < |t|
      ensures 0 <= t[q] * n + t[p] < |a| && (Edge(FromMatrix(n, a), t[q], t[p]) <==> a[t[q] * n + t[p]] == 1)
    {
      EdgeIsEntry(n, a, t[q], t[p]);
    }
  }

  /** On the matrix itself: a topological order has no back entry. */
  lemma OrderOnEntries(n: nat, a: seq<int>, t: seq<nat>)
    requires |a| == n * n
    ensures TopologicalOrder(FromMatrix(n, a), t) ==> NoBackEntry(n, a, t)
  {
    if TopologicalOrder(FromMatrix(n, a), t) {
      BackEntries(n, a, t);
    }
  }

  // ---------------------------------------------------------------- walks, cycles, orders

  ghost predicate Walk(g: Graph, w: seq<nat>) {
    |w| > 0 && forall k :: 0 <= k < |w| - 1 ==> Edge(g, w[k], w[k + 1])
  }

  ghost predicate Cycle(g: Graph, w: seq<nat>) {
    |w| >= 2 && Walk(g, w) && w[0] == w[|w| - 1]
  }

  ghost predicate Acyclic(g: Graph) {
    forall w :: !Cycle(g, w)
  }

  /** v has no predecessor inside the set. */
  ghost predicate Source(g: Graph, nodes: set<nat>, v: nat) {
    v in nodes && forall u :: u in nodes ==> !Edge(g, u, v)
  }

  /** Without sources one can walk backwards for ever. */
  lemma {:induction false} BackwardWalk(g: Graph, nodes: set<nat>, len: nat) returns (w: seq<nat>)
    requires nodes != {} && len > 0
    requires forall v :: v in nodes ==> !Source(g, nodes, v)
    ensures |w| == len && Walk(g, w) && forall k :: 0 <= k < len ==> w[k] in nodes
  {
    if len == 1 {
      var v :| v in nodes;
      w := [v];
    } else {
      var rest := BackwardWalk(g, nodes, len - 1);
      assert !Source(g, nodes, rest[0]);
      var u :| u in nodes && Edge(g, u, rest[0]);
      w := [u] + rest;
      WalkCons(g, u, rest);
    }
  }

  lemma WalkCons(g: Graph, u: nat, w: seq<nat>)
    requires Walk(g, w) && Edge(g, u, w[0])
    ensures Walk(g, [u] + w)
  {
    forall k | 0 <= k < |w|
      ensures Edge(g, ([u] + w)[k], ([u] + w)[k + 1])
    {
      assert k > 0 ==> Edge(g, w[k - 1], w[k - 1 + 1]);
    }
  }

  /** A set of nodes without a source contains a cycle. */
  lemma NoSourceMeansCycle(g: Graph, nodes: set<nat>) returns (loop: seq<nat>)
    requires nodes != {} && forall u :: u in nodes ==> u < g.n && !Source(g, nodes, u)
    ensures Cycle(g, loop)
  {
    var w := BackwardWalk(g, nodes, g.n + 1);
    var i, j := Pigeonhole(w, g.n);
    loop := w[i..j + 1];
    forall k | 0 <= k < |loop| - 1
      ensures Edge(g, loop[k], loop[k + 1])
    {
      assert Edge(g, w[i + k], w[i + k + 1]);
    }
  }

  /** In an acyclic graph every nonempty set of nodes has a source. */
  lemma SourceExists(g: Graph, nodes: set<nat>) returns (v: nat)
    requires Acyclic(g) && nodes != {} && forall u :: u in nodes ==> u < g.n
    ensures Source(g, nodes, v)
  {
    if forall u :: u in nodes ==> !Source(g, nodes, u) {
      var loop := NoSourceMeansCycle(g, nodes);
      assert false;
    }
    v :| v in nodes && Source(g, nodes, v);
  }

  /** t lists all nodes once, each after all of its predecessors. */
  ghost predicate TopologicalOrder(g: Graph, t: seq<nat>) {
    && |t| == g.n && (forall p :: 0 <= p < |t| ==> t[p] < g.n)
    && (forall v :: 0 <= v < g.n ==> v in t)
    && (forall p, q :: 0 <= p < q < |t| ==> t[p] != t[q])
    && (forall p, q :: 0 <= p < |t| && 0 <= q < |t| && Edge(g, t[p], t[q]) ==> p < q)
  }

  /** A graph with a topological order has no cycle. */
  lemma OrderedIsAcyclic(g: Graph, t: seq<nat>)
    requires TopologicalOrder(g, t)
    ensures Acyclic(g)
  {
    forall w
      ensures !Cycle(g, w)
    {
      if Cycle(g, w) {
        assert Edge(g, w[0], w[0 + 1]);
        assert w[0] in t;
        var p: nat :| p < |t| && t[p] == w[0];
        var q := PositionGrows(g, t, w, p, |w| - 1);
      }
    }
  }

  lemma {:induction false} PositionGrows(g: Graph, t: seq<nat>, w: seq<nat>, p: nat, k: nat) returns (q: nat)
    requires TopologicalOrder(g, t) && Walk(g, w) && k < |w| && p < |t| && t[p] == w[0]
    ensures q < |t| && t[q] == w[k] && p <= q && (k > 0 ==> p < q)
  {
    if k == 0 {
      q := p;
    } else {
      var r := PositionGrows(g, t, w, p, k - 1);
      assert Edge(g, w[k - 1], w[k - 1 + 1]);
      assert w[k] in t;
      q :| q < |t| && t[q] == w[k];
    }
  }
}
