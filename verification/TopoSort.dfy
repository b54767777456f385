/** Topological sorting by one worker per node. Each worker waits until its semaphore has
    reached n, appends its node to T under a mutex and signals its successors; the boss
    waits for n notifications. A state machine with one step per semaphore operation or
    shared-memory access. */
module TopoSort {
  import opened Counting
  import opened Graphs

  datatype Pc = Waiting | Locking | Writing | Advancing | Unlocking | Signalling(next: nat) | Notifying | Done

  datatype State = State(sync: seq<int>, mtx: int, idx: nat, t: seq<nat>, ntfy: int, pcs: seq<Pc>, awake: bool)

  datatype Step = Worker(i: nat) | Boss

  /** Number of edges into j from nodes below k. */
  function InDegree(g: Graph, j: nat, k: nat): nat {
    if k == 0 then 0 else InDegree(g, j, k - 1) + (if Edge(g, k - 1, j) then 1 else 0)
  }

  /** The state in which the boss announces the end of the set-up. */
  ghost predicate Init(g: Graph, s: State) {
    && |s.sync| == g.n && (forall j :: 0 <= j < g.n ==> s.sync[j] == g.n - InDegree(g, j, g.n))
    && s.mtx == 1 && s.idx == 0 && |s.t| == g.n && s.ntfy == 0
    && |s.pcs| == g.n && (forall i :: 0 <= i < g.n ==> s.pcs[i] == Waiting)
    && !s.awake
  }

  predicate Enabled(g: Graph, s: State, step: Step) {
    match step
    case Worker(i) =>
      && i < g.n && i < |s.pcs| && i < |s.sync|
      && (match s.pcs[i]
          case Waiting => s.sync[i] >= g.n
          case Locking => s.mtx >= 1
          case Writing => s.idx < |s.t|
          case Signalling(next) => next < |s.sync|
          case Done => false
          case _ => true)
    case Boss => !s.awake && if g.n == 0 then s.ntfy == 0 else s.ntfy >= g.n
  }

  function Apply(g: Graph, s: State, step: Step): State
    requires Enabled(g, s, step)
  {
    match step
    case Boss => s.(ntfy := s.ntfy - g.n, awake := true)
    case Worker(i) =>
      match s.pcs[i]
      case Waiting => s.(sync := s.sync[i := s.sync[i] - g.n], pcs := s.pcs[i := Locking])
      case Locking => s.(mtx := s.mtx - 1, pcs := s.pcs[i := Writing])
      case Writing => s.(t := s.t[s.idx := i], pcs := s.pcs[i := Advancing])
      case Advancing => s.(idx := s.idx + 1, pcs := s.pcs[i := Unlocking])
      case Unlocking => s.(mtx := s.mtx + 1, pcs := s.pcs[i := Signalling(0)])
      case Signalling(j) =>
        s.(sync := if Edge(g, i, j) then s.sync[j := s.sync[j] + 1] else s.sync,
           pcs := s.pcs[i := if j + 1 < g.n then Signalling(j + 1) else Notifying])
      case Notifying => s.(ntfy := s.ntfy + 1, pcs := s.pcs[i := Done])
  }

  ghost predicate Next(g: Graph, s: State, s': State) {
    exists step :: Enabled(g, s, step) && s' == Apply(g, s, step)
  }

  ghost predicate IsRun(g: Graph, run: seq<State>) {
    |run| > 0 && Init(g, run[0]) && forall k :: 0 <= k < |run| - 1 ==> Next(g, run[k], run[k + 1])
  }

  ghost predicate Quiescent(g: Graph, s: State) {
    forall step :: !Enabled(g, s, step)
  }

  // ---------------------------------------------------------------- invariant

  predicate Listed(pc: Pc) {
    pc == Unlocking || pc.Signalling? || pc == Notifying || pc == Done
  }

  predicate InSection(pc: Pc) {
    pc == Writing || pc == Advancing || pc == Unlocking
  }

  /** The worker at pc has dealt with successor j. */
  predicate HasSignalled(pc: Pc, j: nat) {
    pc == Notifying || pc == Done || (pc.Signalling? && pc.next > j)
  }

  ghost function MissingWeight(g: Graph, s: State, j: nat): nat -> int {
    i => if 0 <= i < |s.pcs| && Edge(g, i, j) && !HasSignalled(s.pcs[i], j) then 1 else 0
  }

  /** In-edges of j that have not been signalled yet. */
  ghost function Missing(g: Graph, s: State, j: nat): int {
    Sum(g.n, MissingWeight(g, s, j))
  }

  ghost function DoneWeight(s: State): nat -> int {
    i => if 0 <= i < |s.pcs| && s.pcs[i] == Done then 1 else 0
  }

  ghost predicate Shape(g: Graph, s: State) {
    && |s.sync| == |s.pcs| == |s.t| == g.n && s.idx <= g.n
    && forall i :: 0 <= i < g.n && s.pcs[i].Signalling? ==> s.pcs[i].next < g.n
  }

  /** sync[j] = n - unsignalled in-edges, minus n once j has passed; j passes only with none left. */
  ghost predicate SyncOk(g: Graph, s: State)
    requires Shape(g, s)
  {
    forall j :: 0 <= j < g.n ==>
      && s.sync[j] == g.n - Missing(g, s, j) - (if s.pcs[j] == Waiting then 0 else g.n)
      && (s.pcs[j] != Waiting ==> Missing(g, s, j) == 0)
  }

  ghost predicate MutexOk(g: Graph, s: State)
    requires Shape(g, s)
  {
    && (s.mtx == 0 || s.mtx == 1)
    && (s.mtx == 1 ==> forall i :: 0 <= i < g.n ==> !InSection(s.pcs[i]))
    && (s.mtx == 0 ==> exists i :: 0 <= i < g.n && InSection(s.pcs[i]))
    && (forall i, j :: 0 <= i < g.n && 0 <= j < g.n && InSection(s.pcs[i]) && InSection(s.pcs[j]) ==> i == j)
  }

  ghost predicate Before(list: seq<nat>, u: nat, q: nat) {
    exists p :: 0 <= p < q && p < |list| && list[p] == u
  }

  ghost predicate PredecessorsFirst(g: Graph, list: seq<nat>) {
    forall q, u :: 0 <= q < |list| && Edge(g, u, list[q]) ==> Before(list, u, q)
  }

  ghost predicate Distinct(list: seq<nat>) {
    forall p, q :: 0 <= p < q < |list| ==> list[p] != list[q]
  }

  /** The list holds exactly the nodes whose worker is past the append. */
  ghost predicate ListsExactly(pcs: seq<Pc>, list: seq<nat>) {
    && (forall p :: 0 <= p < |list| ==> list[p] < |pcs| && Listed(pcs[list[p]]))
    && (forall v :: 0 <= v < |pcs| && Listed(pcs[v]) ==> Before(list, v, |list|))
  }

  /** A worker between its write and the increment has written at idx. */
  ghost predicate WrittenOk(s: State) {
    forall i :: 0 <= i < |s.pcs| && s.pcs[i] == Advancing ==> s.idx < |s.t| && s.t[s.idx] == i
  }

  /** T[0..idx) lists exactly the nodes past the append, once each, predecessors first. */
  ghost predicate ListOk(g: Graph, s: State)
    requires Shape(g, s)
  {
    var list := s.t[..s.idx];
    Distinct(list) && ListsExactly(s.pcs, list) && PredecessorsFirst(g, list) && WrittenOk(s)
  }

  ghost predicate NotifyOk(g: Graph, s: State) {
    && s.ntfy == Sum(g.n, DoneWeight(s)) - (if s.awake then g.n else 0)
    && (s.awake ==> forall i :: 0 <= i < |s.pcs| ==> s.pcs[i] == Done)
  }

  ghost predicate Inv(g: Graph, s: State) {
    Shape(g, s) && SyncOk(g, s) && MutexOk(g, s) && ListOk(g, s) && NotifyOk(g, s)
  }

  lemma {:induction false} InDegreeIsSum(g: Graph, s: State, j: nat, k: nat)
    requires k <= g.n == |s.pcs| && forall i :: 0 <= i < g.n ==> s.pcs[i] == Waiting
    ensures InDegree(g, j, k) == Sum(k, MissingWeight(g, s, j))
  {
    if k > 0 { InDegreeIsSum(g, s, j, k - 1); }
  }

  lemma InitInv(g: Graph, s: State)
    requires Init(g, s)
    ensures Inv(g, s)
  {
    forall j | 0 <= j < g.n
      ensures InDegree(g, j, g.n) == Missing(g, s, j)
    {
      InDegreeIsSum(g, s, j, g.n);
    }
    SumZero(g.n, DoneWeight(s));
  }

  // Steps of one worker change one pc; the lemmas below carry each part of the invariant over.

  lemma MissingSame(g: Graph, s: State, s': State, j: nat)
    requires |s.pcs| == |s'.pcs| == g.n
    requires forall i :: 0 <= i < g.n ==> (HasSignalled(s'.pcs[i], j) <==> HasSignalled(s.pcs[i], j))
    ensures Missing(g, s', j) == Missing(g, s, j)
  {
    SumSame(g.n, MissingWeight(g, s, j), MissingWeight(g, s', j));
  }

  lemma SyncSame(g: Graph, s: State, s': State)
    requires Shape(g, s) && Shape(g, s') && SyncOk(g, s) && s'.sync == s.sync
    requires forall i :: 0 <= i < g.n ==> (s'.pcs[i] == Waiting <==> s.pcs[i] == Waiting)
    requires forall i, j :: 0 <= i < g.n && 0 <= j < g.n ==> (HasSignalled(s'.pcs[i], j) <==> HasSignalled(s.pcs[i], j))
    ensures SyncOk(g, s')
  {
    forall j | 0 <= j < g.n
      ensures Missing(g, s', j) == Missing(g, s, j)
    {
      MissingSame(g, s, s', j);
    }
  }

  lemma NotifySame(g: Graph, s: State, s': State)
    requires Shape(g, s) && Shape(g, s') && NotifyOk(g, s) && s'.ntfy == s.ntfy && s'.awake == s.awake
    requires forall i :: 0 <= i < g.n ==> (s'.pcs[i] == Done <==> s.pcs[i] == Done)
    ensures NotifyOk(g, s')
  {
    SumSame(g.n, DoneWeight(s), DoneWeight(s'));
  }

  lemma MutexSame(g: Graph, s: State, s': State)
    requires Shape(g, s) && Shape(g, s') && MutexOk(g, s) && s'.mtx == s.mtx
    requires forall i :: 0 <= i < g.n ==> (InSection(s'.pcs[i]) <==> InSection(s.pcs[i]))
    ensures MutexOk(g, s')
  {
  }

  lemma ListSame(g: Graph, s: State, s': State)
    requires Shape(g, s) && Shape(g, s') && ListOk(g, s) && s'.idx == s.idx && s'.t[..s.idx] == s.t[..s.idx]
    requires forall i :: 0 <= i < g.n ==> (Listed(s'.pcs[i]) <==> Listed(s.pcs[i]))
    requires WrittenOk(s')
    ensures ListOk(g, s')
  {
  }

  lemma PassInv(g: Graph, s: State, i: nat)
    requires Inv(g, s) && Enabled(g, s, Worker(i)) && s.pcs[i] == Waiting
    ensures Inv(g, Apply(g, s, Worker(i)))
  {
    var s' := Apply(g, s, Worker(i));
    PassSync(g, s, i);
    NotifySame(g, s, s');
    MutexSame(g, s, s');
    ListSame(g, s, s');
  }

  lemma PassSync(g: Graph, s: State, i: nat)
    requires Shape(g, s) && SyncOk(g, s) && Enabled(g, s, Worker(i)) && s.pcs[i] == Waiting
    ensures SyncOk(g, Apply(g, s, Worker(i)))
  {
    forall j | 0 <= j < g.n
      ensures Missing(g, Apply(g, s, Worker(i)), j) == Missing(g, s, j) >= 0
    {
      MissingSame(g, s, Apply(g, s, Worker(i)), j);
      SumNonneg(g.n, MissingWeight(g, s, j));
    }
  }

  lemma LockInv(g: Graph, s: State, i: nat)
    requires Inv(g, s) && Enabled(g, s, Worker(i)) && s.pcs[i] == Locking
    ensures Inv(g, Apply(g, s, Worker(i)))
  {
    var s' := Apply(g, s, Worker(i));
    SyncSame(g, s, s');
    NotifySame(g, s, s');
    ListSame(g, s, s');
    assert InSection(s'.pcs[i]);
  }

  lemma WriteInv(g: Graph, s: State, i: nat)
    requires Inv(g, s) && Enabled(g, s, Worker(i)) && s.pcs[i] == Writing
    ensures Inv(g, Apply(g, s, Worker(i)))
  {
    var s' := Apply(g, s, Worker(i));
    SyncSame(g, s, s');
    NotifySame(g, s, s');
    MutexSame(g, s, s');
    assert InSection(s.pcs[i]);
    ListSame(g, s, s');
  }

  lemma AdvanceInv(g: Graph, s: State, i: nat)
    requires Inv(g, s) && Enabled(g, s, Worker(i)) && s.pcs[i] == Advancing
    ensures Inv(g, Apply(g, s, Worker(i)))
  {
    var s', list := Apply(g, s, Worker(i)), s.t[..s.idx];
    assert s'.t[..s.idx + 1] == list + [i];
    forall u | Edge(g, u, i)
      ensures Before(list, u, |list|)
    {
      PredecessorListed(g, s, u, i);
    }
    AppendOk(g, s.pcs, list, i, Unlocking);
    assert InSection(s.pcs[i]);
    SyncSame(g, s, s');
    NotifySame(g, s, s');
    MutexSame(g, s, s');
  }

  lemma AppendOk(g: Graph, pcs: seq<Pc>, list: seq<nat>, i: nat, pc: Pc)
    requires Distinct(list) && ListsExactly(pcs, list) && PredecessorsFirst(g, list)
    requires i < |pcs| && !Listed(pcs[i]) && Listed(pc)
    requires forall u :: Edge(g, u, i) ==> Before(list, u, |list|)
    ensures Distinct(list + [i]) && ListsExactly(pcs[i := pc], list + [i]) && PredecessorsFirst(g, list + [i])
  {
    var list' := list + [i];
    forall u, q: nat | Before(list, u, q)
      ensures Before(list', u, q)
    {
      var p :| 0 <= p < q && p < |list| && list[p] == u;
      assert list'[p] == u;
    }
    forall v | 0 <= v < |pcs| && Listed(pcs[i := pc][v])
      ensures Before(list', v, |list'|)
    {
      if v == i {
        assert list'[|list|] == i;
      } else {
        var p :| 0 <= p < |list| && list[p] == v;
        assert list'[p] == v;
      }
    }
  }

  /** All predecessors of a node that has passed are in the list. */
  lemma PredecessorListed(g: Graph, s: State, u: nat, v: nat)
    requires Shape(g, s) && SyncOk(g, s) && ListOk(g, s) && v < g.n && s.pcs[v] != Waiting && Edge(g, u, v)
    ensures Listed(s.pcs[u]) && Before(s.t[..s.idx], u, s.idx)
  {
    SumAtLeast(g.n, MissingWeight(g, s, v), u);
  }

  lemma UnlockInv(g: Graph, s: State, i: nat)
    requires Inv(g, s) && Enabled(g, s, Worker(i)) && s.pcs[i] == Unlocking
    ensures Inv(g, Apply(g, s, Worker(i)))
  {
    var s' := Apply(g, s, Worker(i));
    assert InSection(s.pcs[i]);
    SyncSame(g, s, s');
    NotifySame(g, s, s');
    ListSame(g, s, s');
  }

  lemma SignalInv(g: Graph, s: State, i: nat)
    requires Inv(g, s) && Enabled(g, s, Worker(i)) && s.pcs[i].Signalling?
    ensures Inv(g, Apply(g, s, Worker(i)))
  {
    var s' := Apply(g, s, Worker(i));
    SignalSync(g, s, i);
    NotifySame(g, s, s');
    MutexSame(g, s, s');
    ListSame(g, s, s');
  }

  lemma SignalSync(g: Graph, s: State, i: nat)
    requires Shape(g, s) && SyncOk(g, s) && Enabled(g, s, Worker(i)) && s.pcs[i].Signalling?
    ensures SyncOk(g, Apply(g, s, Worker(i)))
  {
    var s', k := Apply(g, s, Worker(i)), s.pcs[i].next;
    forall j | 0 <= j < g.n
      ensures Missing(g, s', j) == Missing(g, s, j) - (if j == k && Edge(g, i, k) then 1 else 0)
    {
      if j == k {
        SumChange(g.n, MissingWeight(g, s, j), MissingWeight(g, s', j), i);
      } else {
        MissingSame(g, s, s', j);
      }
    }
    if s.pcs[k] != Waiting && Edge(g, i, k) {
      SumAtLeast(g.n, MissingWeight(g, s, k), i);
    }
  }

  lemma NotifyInv(g: Graph, s: State, i: nat)
    requires Inv(g, s) && Enabled(g, s, Worker(i)) && s.pcs[i] == Notifying
    ensures Inv(g, Apply(g, s, Worker(i)))
  {
    var s' := Apply(g, s, Worker(i));
    NotifyCount(g, s, i);
    SyncSame(g, s, s');
    MutexSame(g, s, s');
    ListSame(g, s, s');
  }

  lemma NotifyCount(g: Graph, s: State, i: nat)
    requires Shape(g, s) && NotifyOk(g, s) && Enabled(g, s, Worker(i)) && s.pcs[i] == Notifying
    ensures NotifyOk(g, Apply(g, s, Worker(i)))
  {
    SumChange(g.n, DoneWeight(s), DoneWeight(Apply(g, s, Worker(i))), i);
  }

  lemma BossInv(g: Graph, s: State)
    requires Inv(g, s) && Enabled(g, s, Boss)
    ensures Inv(g, Apply(g, s, Boss))
  {
    var s' := Apply(g, s, Boss);
    AllDone(g, s);
    SumSame(g.n, DoneWeight(s), DoneWeight(s'));
    SyncSame(g, s, s');
    MutexSame(g, s, s');
    ListSame(g, s, s');
  }

  lemma AllDone(g: Graph, s: State)
    requires Shape(g, s) && NotifyOk(g, s) && s.ntfy >= g.n
    ensures forall i :: 0 <= i < g.n ==> s.pcs[i] == Done
  {
    SumBounded(g.n, DoneWeight(s));
    forall i | 0 <= i < g.n
      ensures s.pcs[i] == Done
    {
      assert DoneWeight(s)(i) == 1 || s.awake;
    }
  }

  lemma StepInv(g: Graph, s: State, step: Step)
    requires Inv(g, s) && Enabled(g, s, step)
    ensures Inv(g, Apply(g, s, step))
  {
    match step
    case Boss => BossInv(g, s);
    case Worker(i) =>
      match s.pcs[i]
      case Waiting => PassInv(g, s, i);
      case Locking => LockInv(g, s, i);
      case Writing => WriteInv(g, s, i);
      case Advancing => AdvanceInv(g, s, i);
      case Unlocking => UnlockInv(g, s, i);
      case Signalling(_) => SignalInv(g, s, i);
      case Notifying => NotifyInv(g, s, i);
  }

  lemma {:induction false} RunInv(g: Graph, run: seq<State>)
    requires IsRun(g, run)
    ensures Inv(g, run[|run| - 1])
  {
    if |run| == 1 {
      InitInv(g, run[0]);
    } else {
      var init := run[..|run| - 1];
      RunInv(g, init);
      var s := run[|run| - 2];
      assert Next(g, s, run[|run| - 2 + 1]);
      var step :| Enabled(g, s, step) && run[|run| - 1] == Apply(g, s, step);
      StepInv(g, s, step);
    }
  }

  // ---------------------------------------------------------------- safety

  /** In every reachable state T[0..idx) holds distinct nodes, each after its predecessors. */
  lemma PrefixOrdered(g: Graph, run: seq<State>)
    requires IsRun(g, run)
    ensures var s := run[|run| - 1];
      && s.idx <= |s.t|
      && (forall p, q :: 0 <= p < q < s.idx ==> s.t[p] != s.t[q])
      && (forall q, u :: 0 <= q < s.idx && Edge(g, u, s.t[q]) ==> exists p :: 0 <= p < q && s.t[p] == u)
  {
    RunInv(g, run);
    var s := run[|run| - 1];
    var list := s.t[..s.idx];
    assert forall p :: 0 <= p < s.idx ==> list[p] == s.t[p];
    forall q, u | 0 <= q < s.idx && Edge(g, u, s.t[q])
      ensures exists p :: 0 <= p < q && s.t[p] == u
    {
      assert Before(list, u, q);
    }
  }

  /** When the boss is awake T is a topological order of the graph. */
  lemma AwakeOrdered(g: Graph, s: State)
    requires Inv(g, s) && s.awake
    ensures TopologicalOrder(g, s.t)
  {
    var list := s.t[..s.idx];
    forall v | 0 <= v < g.n
      ensures v in list
    {
      assert Before(list, v, |list|);
    }
    CoversAll(list, g.n);
    assert list == s.t;
    OrderFromList(g, list);
  }

  lemma OrderFromList(g: Graph, list: seq<nat>)
    requires |list| == g.n && Distinct(list) && PredecessorsFirst(g, list) && forall p :: 0 <= p < |list| ==> list[p] < g.n
    requires forall v :: 0 <= v < g.n ==> v in list
    ensures TopologicalOrder(g, list)
  {
    forall p, q | 0 <= p < |list| && 0 <= q < |list| && Edge(g, list[p], list[q])
      ensures p < q
    {
      var r :| 0 <= r < q && list[r] == list[p];
    }
  }

  lemma CoversAll(list: seq<nat>, n: nat)
    requires forall v :: 0 <= v < n ==> v in list
    ensures |list| >= n
  {
    SubsetSize(Below(n), Elements(list));
    ElementsSize(list);
  }

  lemma {:induction false} ElementsSize(list: seq<nat>)
    ensures |Elements(list)| <= |list|
  {
    if list != [] {
      var init, last := list[..|list| - 1], list[|list| - 1];
      ElementsSize(init);
      assert list == init + [last];
      assert Elements(list) == Elements(init) + {last};
    }
  }

  // ---------------------------------------------------------------- liveness

  /** On an acyclic graph nothing is stuck until every worker is done and the boss is awake. */
  lemma AcyclicNotStuck(g: Graph, s: State)
    requires Inv(g, s) && Acyclic(g) && !s.awake
    ensures exists step :: Enabled(g, s, step)
  {
    if i: nat :| i < g.n && s.pcs[i] !in {Waiting, Done, Locking} {
      if s.pcs[i] == Writing { RoomToWrite(g, s, i); }
      assert Enabled(g, s, Worker(i));
    } else if i: nat :| i < g.n && s.pcs[i] == Locking {
      assert s.mtx == 1;
      assert Enabled(g, s, Worker(i));
    } else if forall i :: 0 <= i < g.n ==> s.pcs[i] == Done {
      SumOnes(g.n, DoneWeight(s));
      assert Enabled(g, s, Boss);
    } else {
      var v := FreeNode(g, s.pcs);
      NoMissing(g, s, v);
      assert Enabled(g, s, Worker(v));
    }
  }

  lemma NoMissing(g: Graph, s: State, v: nat)
    requires Shape(g, s) && forall u: nat :: Edge(g, u, v) ==> s.pcs[u] == Done
    ensures Missing(g, s, v) == 0
  {
    SumZero(g.n, MissingWeight(g, s, v));
  }

  /** Among waiting nodes one has all its predecessors done. */
  lemma FreeNode(g: Graph, pcs: seq<Pc>) returns (v: nat)
    requires |pcs| == g.n && Acyclic(g)
    requires forall i :: 0 <= i < g.n ==> pcs[i] == Waiting || pcs[i] == Done
    requires exists i :: 0 <= i < g.n && pcs[i] == Waiting
    ensures v < g.n && pcs[v] == Waiting && forall u: nat :: Edge(g, u, v) ==> pcs[u] == Done
  {
    var waiting := set v: nat | v in Below(g.n) && pcs[v] == Waiting;
    var i: nat :| i < g.n && pcs[i] == Waiting;
    assert i in waiting;
    v := SourceExists(g, waiting);
    forall u: nat | Edge(g, u, v)
      ensures pcs[u] == Done
    {
      assert u in Below(g.n);
    }
  }

  /** A worker about to append finds room in T. */
  lemma RoomToWrite(g: Graph, s: State, i: nat)
    requires Inv(g, s) && i < g.n && s.pcs[i] == Writing
    ensures s.idx < |s.t|
  {
    var list := s.t[..s.idx];
    DistinctBelow(list, g.n);
    assert i !in list;
  }

  /** A node on a cycle never passes its semaphore. */
  lemma CyclicWaits(g: Graph, s: State, w: seq<nat>)
    requires Inv(g, s) && Cycle(g, w)
    ensures w[0] < g.n && s.pcs[w[0]] == Waiting
  {
    assert Edge(g, w[0], w[0 + 1]);
    if s.pcs[w[0]] != Waiting {
      var last, list := |w| - 1, s.t[..s.idx];
      assert Edge(g, w[last - 1], w[last - 1 + 1]);
      PredecessorListed(g, s, w[last - 1], w[last]);
      var q: nat :| q < |list| && list[q] == w[last - 1];
      var p := BackwardPosition(g, list, w, last - 1, q);
    }
  }

  /** Walking an edge backwards moves towards the front of the list. */
  lemma {:induction false} BackwardPosition(g: Graph, list: seq<nat>, w: seq<nat>, k: nat, q: nat) returns (p: nat)
    requires PredecessorsFirst(g, list) && Walk(g, w) && k < |w| && q < |list| && list[q] == w[k]
    ensures p <= q && list[p] == w[0]
  {
    if k == 0 {
      p := q;
    } else {
      assert Edge(g, w[k - 1], w[k - 1 + 1]);
      var r: nat :| r < q && list[r] == w[k - 1];
      p := BackwardPosition(g, list, w, k - 1, r);
    }
  }

  // ---------------------------------------------------------------- termination

  function Remaining(g: Graph, pc: Pc): int {
    match pc
    case Waiting => g.n + 7
    case Locking => g.n + 6
    case Writing => g.n + 5
    case Advancing => g.n + 4
    case Unlocking => g.n + 3
    case Signalling(next) => if next <= g.n then g.n - next + 2 else 2
    case Notifying => 1
    case Done => 0
  }

  ghost function RemainingWeight(g: Graph, s: State): nat -> int {
    i => if 0 <= i < |s.pcs| then Remaining(g, s.pcs[i]) else 0
  }

  /** Steps that can still be taken, at most. */
  ghost function Budget(g: Graph, s: State): int {
    Sum(g.n, RemainingWeight(g, s)) + (if s.awake then 0 else 1)
  }

  lemma StepBudget(g: Graph, s: State, step: Step)
    requires Shape(g, s) && Enabled(g, s, step)
    ensures 0 <= Budget(g, Apply(g, s, step)) < Budget(g, s)
  {
    var s' := Apply(g, s, step);
    SumNonneg(g.n, RemainingWeight(g, s'));
    match step
    case Boss => SumSame(g.n, RemainingWeight(g, s), RemainingWeight(g, s'));
    case Worker(i) => SumChange(g.n, RemainingWeight(g, s), RemainingWeight(g, s'), i);
  }

  lemma {:induction false} RunBudget(g: Graph, run: seq<State>)
    requires IsRun(g, run)
    ensures Budget(g, run[|run| - 1]) >= 0
    ensures Budget(g, run[|run| - 1]) + |run| - 1 <= g.n * (g.n + 7) + 1
  {
    if |run| == 1 {
      SumConstant(g.n, RemainingWeight(g, run[0]), g.n + 7);
      SumNonneg(g.n, RemainingWeight(g, run[0]));
    } else {
      var init := run[..|run| - 1];
      RunBudget(g, init);
      RunInv(g, init);
      var s := run[|run| - 2];
      assert Next(g, s, run[|run| - 2 + 1]);
      var step :| Enabled(g, s, step) && run[|run| - 1] == Apply(g, s, step);
      StepBudget(g, s, step);
    }
  }

  /** Every run is finite; one that can go no further has woken the boss exactly when the
      graph is acyclic; and whenever the boss is awake T is a topological order. */
  lemma BossWakesIffAcyclic(g: Graph, run: seq<State>)
    requires IsRun(g, run)
    ensures |run| <= g.n * (g.n + 7) + 2
    ensures run[|run| - 1].awake ==> Acyclic(g) && TopologicalOrder(g, run[|run| - 1].t)
    ensures Quiescent(g, run[|run| - 1]) ==> (run[|run| - 1].awake <==> Acyclic(g))
  {
    var s := run[|run| - 1];
    RunBudget(g, run);
    RunInv(g, run);
    if s.awake {
      AwakeOrdered(g, s);
      OrderedIsAcyclic(g, s.t);
    } else if Acyclic(g) {
      AcyclicNotStuck(g, s);
    }
  }

  /** With a cycle the notifications never reach n, in any run. */
  lemma CyclicNeverNotifies(g: Graph, run: seq<State>)
    requires IsRun(g, run) && !Acyclic(g)
    ensures run[|run| - 1].ntfy < g.n && !run[|run| - 1].awake
  {
    var s := run[|run| - 1];
    RunInv(g, run);
    var w :| Cycle(g, w);
    CyclicWaits(g, s, w);
    SumBounded(g.n, DoneWeight(s));
    assert DoneWeight(s)(w[0]) == 0;
  }
}
