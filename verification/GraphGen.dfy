/** The random graph generator: edges only go forward in a random permutation, so the boss
    and the workers always succeed on its output. */
module GraphGen {
  import opened Counting
  import opened Graphs
  import opened TopoSort
  import Shuffle

  /** What the nested loops write, for the permutation and the coin tosses. */
  ghost predicate Assigned(m: seq<seq<int>>, perm: seq<nat>, coin: (nat, nat) -> bool, n: nat)
    requires Shuffle.Permutation(perm, n) && |m| == n && forall i :: 0 <= i < n ==> |m[i]| == n
  {
    && (forall i :: 0 <= i < n ==> m[i][i] == 0)
    && (forall i, j :: 0 <= i < j < n ==> m[perm[i]][perm[j]] == (if coin(i, j) then 1 else 0) && m[perm[j]][perm[i]] == 0)
  }

  method Generate(n: nat, rnd: nat -> nat, coin: (nat, nat) -> bool) returns (a: array2<int>, perm: array<nat>)
    ensures fresh(a) && a.Length0 == a.Length1 == n && perm.Length == n
    ensures perm[..] == Shuffle.Shuffled(n, rnd, n)
    ensures Shuffle.Permutation(perm[..], n) && Assigned(Rows(a), perm[..], coin, n)
  {
    perm := Shuffle.Run(n, rnd);
    a := new int[n, n];
    var pm := perm[..];
    for i := 0 to n
      invariant perm[..] == pm
      invariant forall k :: 0 <= k < i ==> a[k, k] == 0
      invariant forall p, q :: 0 <= p < q < n && p < i ==>
                  a[pm[p], pm[q]] == (if coin(p, q) then 1 else 0) && a[pm[q], pm[p]] == 0
    {
      AssignRow(a, pm, coin, i);
    }
  }

  /** The diagonal entry i and the pairs of position i with all later positions. */
  method AssignRow(a: array2<int>, perm: seq<nat>, coin: (nat, nat) -> bool, i: nat)
    requires a.Length0 == a.Length1 && Shuffle.Permutation(perm, a.Length0) && i < a.Length0
    modifies a
    ensures a[i, i] == 0 && forall k :: 0 <= k < a.Length0 && k != i ==> a[k, k] == old(a[k, k])
    ensures forall q :: i < q < a.Length0 ==> a[perm[i], perm[q]] == (if coin(i, q) then 1 else 0) && a[perm[q], perm[i]] == 0
    ensures forall p, q :: 0 <= p < q < a.Length0 && p < i ==>
              a[perm[p], perm[q]] == old(a[perm[p], perm[q]]) && a[perm[q], perm[p]] == old(a[perm[q], perm[p]])
  {
    a[i, i] := 0;
    for j := i + 1 to a.Length0
      invariant a[i, i] == 0 && forall k :: 0 <= k < a.Length0 && k != i ==> a[k, k] == old(a[k, k])
      invariant forall q :: i < q < j ==> a[perm[i], perm[q]] == (if coin(i, q) then 1 else 0) && a[perm[q], perm[i]] == 0
      invariant forall p, q :: 0 <= p < q < a.Length0 && p < i ==>
                  a[perm[p], perm[q]] == old(a[perm[p], perm[q]]) && a[perm[q], perm[p]] == old(a[perm[q], perm[p]])
    {
      a[perm[i], perm[j]] := if coin(i, j) then 1 else 0;
      a[perm[j], perm[i]] := 0;
    }
  }

  ghost function Rows(a: array2<int>): (m: seq<seq<int>>)
    reads a
    ensures |m| == a.Length0 && forall i :: 0 <= i < |m| ==> |m[i]| == a.Length1
  {
    seq(a.Length0, i requires 0 <= i < a.Length0 reads a =>
      seq(a.Length1, j requires 0 <= j < a.Length1 reads a => a[i, j]))
  }

  /** The graph of a square matrix of rows. */
  ghost function RowsGraph(m: seq<seq<int>>): Graph
    requires forall i :: 0 <= i < |m| ==> |m[i]| == |m|
  {
    Graph(|m|, set i: nat, j: nat | i < |m| && j < |m| && m[i][j] == 1 :: (i, j))
  }

  /** The permutation is a topological order of whatever was generated. */
  lemma GeneratedOrdered(m: seq<seq<int>>, perm: seq<nat>, coin: (nat, nat) -> bool)
    requires Shuffle.Permutation(perm, |m|) && forall i :: 0 <= i < |m| ==> |m[i]| == |m|
    requires Assigned(m, perm, coin, |m|)
    ensures TopologicalOrder(RowsGraph(m), perm) && Acyclic(RowsGraph(m))
  {
    DistinctBelow(perm, |m|);
    forall p, q | 0 <= p < |perm| && 0 <= q < |perm| && Edge(RowsGraph(m), perm[p], perm[q])
      ensures p < q
    {
      assert m[perm[p]][perm[q]] == 1;
    }
    OrderedIsAcyclic(RowsGraph(m), perm);
  }

  /** Every entry is assigned, with 0 or 1. */
  lemma GeneratedBinary(m: seq<seq<int>>, perm: seq<nat>, coin: (nat, nat) -> bool, u: nat, v: nat)
    requires Shuffle.Permutation(perm, |m|) && forall i :: 0 <= i < |m| ==> |m[i]| == |m|
    requires Assigned(m, perm, coin, |m|) && u < |m| && v < |m|
    ensures m[u][v] == 0 || m[u][v] == 1
  {
    DistinctBelow(perm, |m|);
    assert u in perm && v in perm;
    var p: nat :| p < |perm| && perm[p] == u;
    var q: nat :| q < |perm| && perm[q] == v;
    assert p < q || p == q || q < p;
  }

  // ---------------------------------------------------------------- what the boss reads

  /** The first k rows printed one after the other. */
  ghost function Printed(m: seq<seq<int>>, k: nat): seq<int>
    requires k <= |m|
  {
    if k == 0 then [] else Printed(m, k - 1) + m[k - 1]
  }

  lemma OldEntry(before: seq<int>, row: seq<int>, n: nat, i: nat, j: nat, v: int)
    requires EntryAt(before, n, i, j, v)
    ensures EntryAt(before + row, n, i, j, v)
  {
  }

  lemma NewEntry(before: seq<int>, row: seq<int>, n: nat, i: nat, j: nat)
    requires |before| == i * n && j < |row|
    ensures EntryAt(before + row, n, i, j, row[j])
  {
  }

  lemma OneRowMore(k: nat, n: nat)
    ensures (k + 1) * n == k * n + n
  {
  }

  lemma {:induction false} PrintedEntries(m: seq<seq<int>>, n: nat, k: nat)
    requires k <= |m| && forall i :: 0 <= i < |m| ==> |m[i]| == n
    ensures |Printed(m, k)| == k * n
    ensures forall i, j :: 0 <= i < k && 0 <= j < n ==> EntryAt(Printed(m, k), n, i, j, m[i][j])
  {
    if k > 0 {
      var before := Printed(m, k - 1);
      PrintedEntries(m, n, k - 1);
      OneRowMore(k - 1, n);
      forall i, j | 0 <= i < k && 0 <= j < n
        ensures EntryAt(Printed(m, k), n, i, j, m[i][j])
      {
        if i < k - 1 {
          assert EntryAt(before, n, i, j, m[i][j]);
          OldEntry(before, m[k - 1], n, i, j, m[i][j]);
        } else {
          NewEntry(before, m[k - 1], n, k - 1, j);
        }
      }
    }
  }

  ghost predicate EntryAt(a: seq<int>, n: nat, i: nat, j: nat, v: int) {
    0 <= i * n + j < |a| && a[i * n + j] == v
  }

  /** The flat matrix the boss reads describes the generated graph. */
  lemma PrintedGraph(m: seq<seq<int>>)
    requires forall i :: 0 <= i < |m| ==> |m[i]| == |m|
    ensures |Printed(m, |m|)| == |m| * |m| && FromMatrix(|m|, Printed(m, |m|)) == RowsGraph(m)
  {
    var n, a := |m|, Printed(m, |m|);
    PrintedEntries(m, n, n);
    forall i: nat, j: nat | i < n && j < n
      ensures Entry(n, a, i, j) == m[i][j]
    {
      assert EntryAt(a, n, i, j, m[i][j]);
    }
  }

  /** Every run of the boss and the workers on the matrix printed by the generator that can go
      no further has woken the boss, with every node in T once and no later node of T having an
      edge to an earlier one. */
  lemma GeneratedSucceeds(m: seq<seq<int>>, perm: seq<nat>, coin: (nat, nat) -> bool, a: seq<int>, run: seq<State>)
    requires Shuffle.Permutation(perm, |m|) && forall i :: 0 <= i < |m| ==> |m[i]| == |m|
    requires Assigned(m, perm, coin, |m|)
    requires a == Printed(m, |m|) && |a| == |m| * |m|
    requires IsRun(FromMatrix(|m|, a), run) && Quiescent(FromMatrix(|m|, a), run[|run| - 1])
    ensures var t := run[|run| - 1].t;
      && run[|run| - 1].awake && TopologicalOrder(FromMatrix(|m|, a), t)
      && (forall p, q :: 0 <= p < q < |t| ==> t[p] < |m| && t[q] < |m| && m[t[q]][t[p]] != 1)
  {
    PrintedGraph(m);
    GeneratedOrdered(m, perm, coin);
    BossWakesIffAcyclic(RowsGraph(m), run);
    var t := run[|run| - 1].t;
    forall p, q | 0 <= p < q < |t|
      ensures m[t[q]][t[p]] != 1
    {
      assert !Edge(RowsGraph(m), t[q], t[p]);
    }
  }
}
