/** The boss and the workers over shared arrays: the boss's set-up loops, one method per
    atomic step, and the boss's final check. */
module TopoSystem {
  import opened Graphs
  import opened TopoSort

  /** Entries equal to 1 in the first k rows of column j. */
  function OnesInColumn(n: nat, a: seq<int>, j: nat, k: nat): nat
    requires |a| == n * n && j < n && k <= n
  {
    if k == 0 then 0
    else
      IndexInRange(n, k - 1, j);
      OnesInColumn(n, a, j, k - 1) + (if a[(k - 1) * n + j] == 1 then 1 else 0)
  }

  lemma {:induction false} InDegreeIsColumn(n: nat, a: seq<int>, j: nat, k: nat)
    requires |a| == n * n && j < n && k <= n
    ensures InDegree(FromMatrix(n, a), j, k) == OnesInColumn(n, a, j, k)
  {
    if k > 0 {
      InDegreeIsColumn(n, a, j, k - 1);
      EdgeIsEntry(n, a, k - 1, j);
    }
  }

  /** What worker i adds to semaphore j: the entry of row i and column j. */
  function Signal(n: nat, a: seq<int>, i: nat, j: nat): nat
    requires |a| == n * n && i < n && j < n
  {
    IndexInRange(n, i, j);
    if a[i * n + j] == 1 then 1 else 0
  }

  class Shared {
    const n: nat
    const a: array<int>
    const sync: array<int>
    const t: array<nat>
    const pcs: array<Pc>
    var mtx: int
    var idx: nat
    var ntfy: int
    var awake: bool

    ghost function View(): State
      reads this, sync, t, pcs
    {
      State(sync[..], mtx, idx, t[..], ntfy, pcs[..], awake)
    }

    /** The graph being sorted. */
    ghost function G(): Graph
      reads this, a
      requires a.Length == n * n
    {
      FromMatrix(n, a[..])
    }

    ghost predicate Valid()
      reads this, a, sync, t, pcs
    {
      a.Length == n * n && Inv(G(), View())
    }

    /** The boss reads the matrix and sets every semaphore to n minus the indegree. */
    constructor (n: nat, matrix: seq<int>)
      requires |matrix| == n * n
      ensures this.n == n && a.Length == n * n && a[..] == matrix
      ensures Init(FromMatrix(n, matrix), View()) && Valid()
      ensures fresh(a) && fresh(sync) && fresh(t) && fresh(pcs)
    {
      this.n := n;
      a := new int[n * n](i requires 0 <= i < n * n => matrix[i]);
      sync := new int[n](_ => n);
      t := new nat[n](_ => 0);
      pcs := new Pc[n](_ => Waiting);
      mtx, idx, ntfy, awake := 1, 0, 0, false;
      new;
      assert a[..] == matrix;
      SubtractInDegrees();
      InitInv(FromMatrix(n, matrix), View());
    }

    method SubtractInDegrees()
      requires a.Length == n * n && sync.Length == n && a != sync && forall j :: 0 <= j < n ==> sync[j] == n
      modifies sync
      ensures forall j :: 0 <= j < n ==> sync[j] == n - InDegree(G(), j, n)
      ensures forall j :: 0 <= j < n ==> sync[j] == n - OnesInColumn(n, a[..], j, n)
    {
      ghost var g := G();
      for i := 0 to n
        invariant a[..] == old(a[..])
        invariant forall j :: 0 <= j < n ==> sync[j] == n - InDegree(g, j, i)
      {
        for j := 0 to n
          invariant a[..] == old(a[..])
          invariant forall k :: 0 <= k < n ==> sync[k] == n - InDegree(g, k, if k < j then i + 1 else i)
        {
          IndexInRange(n, i, j);
          assert Entry(n, a[..], i, j) == a[i * n + j];
          if a[i * n + j] == 1 {
            sync[j] := sync[j] - 1;
          }
        }
      }
      forall j | 0 <= j < n
        ensures InDegree(G(), j, n) == OnesInColumn(n, a[..], j, n)
      {
        InDegreeIsColumn(n, a[..], j, n);
      }
    }

    /** One atomic step of worker i. */
    method WorkerStep(i: nat)
      requires a.Length == n * n && a != sync
      requires Shape(G(), View()) && Enabled(G(), View(), Worker(i))
      modifies this, sync, t, pcs
      ensures a[..] == old(a[..]) && View() == Apply(G(), old(View()), Worker(i))
      ensures forall j: nat :: old(pcs[i]) == Signalling(j) && j < n ==>
        sync[..] == old(sync[..])[j := old(sync[..])[j] + Signal(n, a[..], i, j)]
    {
      ghost var g, before := G(), View();
      match pcs[i] {
        case Waiting =>
          sync[i] := sync[i] - n;
          pcs[i] := Locking;
        case Locking =>
          mtx := mtx - 1;
          pcs[i] := Writing;
        case Writing =>
          t[idx] := i;
          pcs[i] := Advancing;
        case Advancing =>
          idx := idx + 1;
          pcs[i] := Unlocking;
        case Unlocking =>
          mtx := mtx + 1;
          pcs[i] := Signalling(0);
        case Signalling(j) =>
          IndexInRange(n, i, j);
          assert Entry(n, a[..], i, j) == a[i * n + j];
          if a[i * n + j] == 1 {
            sync[j] := sync[j] + 1;
          }
          pcs[i] := if j + 1 < n then Signalling(j + 1) else Notifying;
        case Notifying =>
          ntfy := ntfy + 1;
          pcs[i] := Done;
        case Done =>
      }
      assert a[..] == old(a[..]);
      assert View() == Apply(g, before, Worker(i));
    }

    /** The same step, as a step of a reachable system. */
    method Step(i: nat)
      requires Valid() && a != sync && Enabled(G(), View(), Worker(i))
      modifies this, sync, t, pcs
      ensures Valid() && G() == old(G()) && View() == Apply(G(), old(View()), Worker(i))
    {
      StepInv(G(), View(), Worker(i));
      WorkerStep(i);
    }

    /** The boss's check: true exactly when no later node has an edge to an earlier one. */
    method CheckOrder() returns (ok: bool)
      requires a.Length == n * n && t.Length == n && forall i :: 0 <= i < n ==> t[i] < n
      ensures ok <==> NoBackEntry(n, a[..], t[..])
    {
      ok := true;
      for i := 0 to n
        invariant ok <==> forall p, q :: 0 <= p < q < n && p < i ==> !Edge(G(), t[..][q], t[..][p])
      {
        for j := i + 1 to n
          invariant ok <==> forall p, q :: 0 <= p < q < n && (p < i || (p == i && q < j)) ==> !Edge(G(), t[..][q], t[..][p])
        {
          EdgeIsEntry(n, a[..], t[j], t[i]);
          assert Edge(G(), t[..][j], t[..][i]) <==> a[t[j] * n + t[i]] == 1;
          if a[t[j] * n + t[i]] == 1 {
            ok := false;
          }
        }
      }
      BackEntries(n, a[..], t[..]);
    }

    method BossStep()
      requires Valid() && Enabled(G(), View(), Boss)
      modifies this
      ensures Valid() && View() == Apply(G(), old(View()), Boss)
    {
      StepInv(G(), View(), Boss);
      ntfy := ntfy - n;
      awake := true;
    }

    /** The boss's wait for n notifications and its check, which always passes. */
    method Finish() returns (ok: bool)
      requires Valid() && Enabled(G(), View(), Boss)
      modifies this
      ensures Valid() && View() == Apply(G(), old(View()), Boss)
      ensures ok && TopologicalOrder(G(), t[..]) && NoBackEntry(n, a[..], t[..])
    {
      BossStep();
      AwakeOrdered(G(), View());
      OrderOnEntries(n, a[..], t[..]);
      ok := CheckOrder();
    }
  }
}
