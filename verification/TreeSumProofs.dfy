/** The tree sum over all runs: conservation of values, no deadlock, termination, and the sum
    of the leaf inputs printed at the root. */
module TreeSumProofs {
  import opened Counting
  import B = Barrier
  import opened TreeSum

  // ---------------------------------------------------------------- values, step by step

  /** A step that changes neither values nor who has read or handed over. */
  lemma ValuesSame(c: Config, s: State, s': State, t: nat)
    requires Shape(c, s) && Shape(c, s') && ValuesOk(c, s) && t < c.N()
    requires s'.at == s.at[t := s'.at[t]] && s'.value == s.value && s'.printed == s.printed
    requires (Dead(c, s'.at[t], t) <==> Dead(c, s.at[t], t)) && (HasRead(s'.at[t]) <==> HasRead(s.at[t]))
    requires s'.at[t] != Finished && s.at[t] != Finished
    ensures ValuesOk(c, s')
  {
    SumSame(c.N(), AliveWeight(c, s), AliveWeight(c, s'));
    SumSame(c.N(), LeafWeight(c, s), LeafWeight(c, s'));
  }

  /** A leaf reads its input; an inner node reads nothing. */
  lemma ReadValues(c: Config, s: State, t: nat)
    requires Inv(c, s) && Enabled(c, s, t) && s.at[t] == Input(Acting)
    ensures ValuesOk(c, SectionStep(c, s, t))
  {
    var s' := SectionStep(c, s, t);
    SumChange(c.N(), AliveWeight(c, s), AliveWeight(c, s'), t);
    SumChange(c.N(), LeafWeight(c, s), LeafWeight(c, s'), t);
  }

  /** A parent has not handed over while a child has not. */
  lemma ParentAlive(c: Config, s: State, t: nat)
    requires Inv(c, s) && t < c.N() && c.parent[t] != -1 && Stage(s.at[t]) <= 3
    ensures var p := c.parent[t]; 0 <= p < c.N() && p != t && !Dead(c, s.at[p], p) && Stage(s.at[p]) <= 2
  {
    var p := c.parent[t];
    if Stage(s.at[p]) > 2 { ChildrenFirst(c, s, p, t); }
  }

  /** Handing a value over to the parent conserves the sum of what is held. */
  lemma HandOver(c: Config, s: State, s': State, t: nat, p: nat)
    requires Shape(c, s) && Shape(c, s') && t < c.N() && p < c.N() && c.parent[t] == p != t
    requires s'.at == s.at[t := s'.at[t]] && s'.value == s.value[p := s.value[p] + s.value[t]]
    requires !Dead(c, s.at[t], t) && Dead(c, s'.at[t], t) && !Dead(c, s.at[p], p)
    ensures Sum(c.N(), AliveWeight(c, s')) == Sum(c.N(), AliveWeight(c, s))
  {
    var mid := (u: nat) => if u == t then 0 else AliveWeight(c, s)(u);
    SumChange(c.N(), AliveWeight(c, s), mid, t);
    SumChange(c.N(), mid, AliveWeight(c, s'), p);
  }

  lemma AddValues(c: Config, s: State, t: nat)
    requires Inv(c, s) && Enabled(c, s, t) && s.at[t] == Add(Acting)
    ensures ValuesOk(c, SectionStep(c, s, t))
  {
    var s' := SectionStep(c, s, t);
    SumSame(c.N(), LeafWeight(c, s), LeafWeight(c, s'));
    if c.parent[t] == -1 {
      SumSame(c.N(), AliveWeight(c, s), AliveWeight(c, s'));
    } else {
      ParentAlive(c, s, t);
      HandOver(c, s, s', t, c.parent[t]);
      assert !IsLeaf(c, c.parent[t]);
    }
  }

  lemma SectionValues(c: Config, s: State, t: nat)
    requires Inv(c, s) && Enabled(c, s, t) && (s.at[t].Input? || s.at[t].Add?)
    requires Shape(c, SectionStep(c, s, t))
    ensures ValuesOk(c, SectionStep(c, s, t))
  {
    if s.at[t] == Input(Acting) {
      ReadValues(c, s, t);
    } else if s.at[t] == Add(Acting) {
      AddValues(c, s, t);
    } else {
      ValuesSame(c, s, SectionStep(c, s, t), t);
    }
  }

  /** When the root is about to print it holds the sum of all leaf inputs. */
  lemma RootHasAll(c: Config, s: State)
    requires Inv(c, s) && s.at[c.root] == Printing
    ensures s.value[c.root] == Sum(c.N(), InputWeight(c))
  {
    forall u | 0 <= u < c.N()
      ensures Stage(s.at[u]) >= 5
    {
      PassedMeansArrived(c, s, c.RootId(), c.root, u);
    }
    SumSame(c.N(), LeafWeight(c, s), InputWeight(c));
    var only := (u: nat) => if u == c.root then s.value[c.root] else 0;
    SumSame(c.N(), AliveWeight(c, s), only);
    SumOnly(c.N(), only, c.root);
  }

  lemma {:induction false} SumOnly(n: nat, f: nat -> int, k: nat)
    requires k < n && forall i :: 0 <= i < n && i != k ==> f(i) == 0
    ensures Sum(n, f) == f(k)
  {
    if k == n - 1 { SumZero(n - 1, f); } else { SumOnly(n - 1, f, k); }
  }

  lemma PrintValues(c: Config, s: State, t: nat)
    requires Inv(c, s) && Enabled(c, s, t) && s.at[t] == Printing
    ensures Shape(c, Apply(c, s, t)) && ValuesOk(c, Apply(c, s, t))
  {
    var s' := Apply(c, s, t);
    SumSame(c.N(), AliveWeight(c, s), AliveWeight(c, s'));
    SumSame(c.N(), LeafWeight(c, s), LeafWeight(c, s'));
    if t == c.root { RootHasAll(c, s); }
  }

  lemma SectionInv(c: Config, s: State, t: nat)
    requires Inv(c, s) && Enabled(c, s, t) && (s.at[t].Input? || s.at[t].Add?)
    ensures Inv(c, SectionStep(c, s, t))
  {
    SectionStepMutex(c, s, t);
    BarsUnnoticed(c, s, SectionStep(c, s, t), t);
    SectionValues(c, s, t);
  }

  lemma PrintInv(c: Config, s: State, t: nat)
    requires Inv(c, s) && Enabled(c, s, t) && s.at[t] == Printing
    ensures Inv(c, Apply(c, s, t))
  {
    PrintValues(c, s, t);
    BarsUnnoticed(c, s, Apply(c, s, t), t);
    MutexUntouched(c, s, Apply(c, s, t), t);
  }

  lemma BarrierInv(c: Config, s: State, t: nat)
    requires Inv(c, s) && Enabled(c, s, t)
    requires s.at[t].Start? || s.at[t].Own? || s.at[t].Parent? || s.at[t].Root?
    ensures Inv(c, BarrierStep(c, s, t))
  {
    BarrierStepBars(c, s, t);
    MutexUntouched(c, s, BarrierStep(c, s, t), t);
    ValuesSame(c, s, BarrierStep(c, s, t), t);
  }

  /** Every step keeps the invariant. */
  lemma StepInv(c: Config, s: State, t: nat)
    requires Inv(c, s) && Enabled(c, s, t)
    ensures Inv(c, Apply(c, s, t))
  {
    match s.at[t]
    case Input(_) => SectionInv(c, s, t);
    case Add(_) => SectionInv(c, s, t);
    case Printing => PrintInv(c, s, t);
    case _ => BarrierInv(c, s, t);
  }

  lemma NextInv(c: Config, s: State, s': State)
    requires Inv(c, s) && Next(c, s, s')
    ensures Inv(c, s')
  {
    var t: nat :| Enabled(c, s, t) && s' == Apply(c, s, t);
    StepInv(c, s, t);
  }

  // ---------------------------------------------------------------- initially

  /** A node's barrier is for its children and itself; the other two are for everybody. */
  lemma BarrierSizes(c: Config, b: nat)
    requires c.Valid() && b < c.N() + 2
    ensures Users(c, b) == if b < c.N() then Children(c, b) + 1 else c.N()
  {
    if b < c.N() {
      assert c.parent[b] != b;
      SumChange(c.N(), ChildWeight(c, b), UserWeight(c, b), b);
    } else {
      SumOnes(c.N(), UserWeight(c, b));
    }
  }

  lemma InitInv(c: Config, s: State)
    requires Init(c, s)
    ensures Inv(c, s)
  {
    forall b | 0 <= b < |s.bars|
      ensures BarOk(c, s.at, s.bars[b], b)
    {
      BarrierSizes(c, b);
      B.FreshInv(s.bars[b].max, Pcs(c, s.at, b));
      SumZero(c.N(), ArrivedWeight(c, s.at, b));
      SumZero(c.N(), PassedWeight(c, s.at, b));
    }
    SumZero(c.N(), AliveWeight(c, s));
    SumZero(c.N(), LeafWeight(c, s));
  }

  lemma {:induction false} RunInv(c: Config, run: seq<State>)
    requires IsRun(c, run)
    ensures Inv(c, run[|run| - 1])
  {
    if |run| == 1 {
      InitInv(c, run[0]);
    } else {
      RunInv(c, run[..|run| - 1]);
      assert Next(c, run[|run| - 2], run[|run| - 2 + 1]);
      NextInv(c, run[|run| - 2], run[|run| - 1]);
    }
  }

  // ---------------------------------------------------------------- no deadlock

  ghost predicate Stuck(c: Config, s: State) {
    forall t: nat :: !Enabled(c, s, t)
  }

  lemma BarrierFree(c: Config, s: State, b: nat)
    requires Inv(c, s) && Stuck(c, s) && b < |s.bars|
    ensures s.bars[b].mtx == 1
    ensures forall t :: 0 <= t < c.N() && BarrierOf(c, t, s.at[t]) == b ==> s.at[t].b == B.Blocked && s.bars[b].wait == 0
  {
    var d, pcs := s.bars[b], Pcs(c, s.at, b);
    assert BarOk(c, s.at, d, b);
    forall t | 0 <= t < c.N()
      ensures !B.Inside(pcs[t])
    {
      if B.Inside(pcs[t]) {
        B.InsideCanStep(d, pcs, t);
        assert Enabled(c, s, t);
      }
    }
    SumZero(c.N(), B.InsideWeight(pcs));
    forall t | 0 <= t < c.N() && BarrierOf(c, t, s.at[t]) == b
      ensures s.at[t].b == B.Blocked && s.bars[b].wait == 0
    {
      assert pcs[t] == s.at[t].b && !Enabled(c, s, t);
    }
  }

  /** In a stuck state the tree mutex is free, so nobody is at a section or at printing. */
  lemma StuckAtBarrier(c: Config, s: State, t: nat)
    requires Inv(c, s) && Stuck(c, s) && t < c.N() && s.at[t] != Finished
    ensures s.at[t].Start? || s.at[t].Own? || s.at[t].Parent? || s.at[t].Root?
  {
    assert !Enabled(c, s, t);
    if s.sem == 0 {
      var u :| 0 <= u < c.N() && InSection(s.at[u]);
      assert Enabled(c, s, u);
    }
  }

  lemma {:induction false} SumGap(n: nat, f: nat -> int, g: nat -> int) returns (k: nat)
    requires Sum(n, f) < Sum(n, g)
    ensures k < n && f(k) < g(k)
  {
    if f(n - 1) < g(n - 1) { k := n - 1; } else { k := SumGap(n - 1, f, g); }
  }

  /** A free barrier without tokens on which a thread is blocked has fewer arrivals than max. */
  lemma NotComplete(d: B.Data, pcs: seq<B.Pc>, t: nat)
    requires B.Inv(d, pcs) && d.mtx == 1 && d.wait == 0 && t < |pcs| && pcs[t] == B.Blocked
    requires d.max > 0 && d.arrivals <= d.max
    ensures d.arrivals < d.max
  {
    B.TokensForBlocked(d, pcs);
    B.TokenCount(d, pcs);
    SumAtLeast(|pcs|, B.BlockedWeight(pcs), t);
  }

  /** A barrier on which somebody is stuck misses one of its users. */
  lemma MissingUser(c: Config, s: State, b: nat, t: nat) returns (u: nat)
    requires Inv(c, s) && Stuck(c, s) && b < |s.bars| && t < c.N() && BarrierOf(c, t, s.at[t]) == b
    ensures u < c.N() && UseStage(c, u, b) != -1 && !HasArrived(c, s.at[u], u, b)
  {
    BarrierFree(c, s, b);
    assert BarOk(c, s.at, s.bars[b], b);
    ArrivedAreUsers(c, s, b);
    u := ArrivalGap(c, s.at, s.bars[b], b, t);
  }

  lemma ArrivalGap(c: Config, at: seq<At>, d: B.Data, b: nat, t: nat) returns (u: nat)
    requires |at| == |c.parent| && BarOk(c, at, d, b) && d.mtx == 1 && d.wait == 0
    requires t < c.N() && BarrierOf(c, t, at[t]) == b && at[t].b == B.Blocked
    requires forall v :: 0 <= v < c.N() ==> ArrivedWeight(c, at, b)(v) <= UserWeight(c, b)(v)
    ensures u < c.N() && UseStage(c, u, b) != -1 && !HasArrived(c, at[u], u, b)
  {
    SumLess(c.N(), ArrivedWeight(c, at, b), UserWeight(c, b));
    assert ArrivedWeight(c, at, b)(t) == 1;
    SumAtLeast(c.N(), ArrivedWeight(c, at, b), t);
    NotComplete(d, Pcs(c, at, b), t);
    u := SumGap(c.N(), ArrivedWeight(c, at, b), UserWeight(c, b));
  }

  /** A stuck thread has arrived where it is stuck. */
  lemma BlockedHasArrived(c: Config, s: State, u: nat)
    requires Inv(c, s) && Stuck(c, s) && u < c.N() && s.at[u] != Finished
    ensures var b := BarrierOf(c, u, s.at[u]); 0 <= b < |s.bars| && HasArrived(c, s.at[u], u, b) && UseStage(c, u, b) == Stage(s.at[u])
  {
    StuckAtBarrier(c, s, u);
    UseStageRight(c, u, s.at[u]);
    BarrierFree(c, s, BarrierOf(c, u, s.at[u]));
  }

  lemma NobodyAtStart(c: Config, s: State, t: nat)
    requires Inv(c, s) && Stuck(c, s) && t < c.N()
    ensures Stage(s.at[t]) >= 2
  {
    if Stage(s.at[t]) < 2 {
      StuckAtBarrier(c, s, t);
      var u := MissingUser(c, s, c.StartId(), t);
      BlockedHasArrived(c, s, u);
      StuckAtBarrier(c, s, u);
    }
  }

  /** Deepest first: nobody is stuck on the barrier of any node. */
  lemma {:induction false} NobodyAtOwn(c: Config, s: State, i: nat, bound: nat)
    requires Inv(c, s) && Stuck(c, s) && i < c.N()
    requires forall t :: 0 <= t < c.N() ==> c.depth[t] <= bound
    ensures forall t :: 0 <= t < c.N() ==> BarrierOf(c, t, s.at[t]) != i
    decreases bound - c.depth[i]
  {
    if t: nat :| t < c.N() && BarrierOf(c, t, s.at[t]) == i {
      var u := MissingUser(c, s, i, t);
      NobodyAtStart(c, s, u);
      BlockedHasArrived(c, s, u);
      StuckAtBarrier(c, s, u);
      assert u != i && c.parent[u] == i && BarrierOf(c, u, s.at[u]) == u;
      NobodyAtOwn(c, s, u, bound);
    }
  }

  lemma {:induction false} MaxDepth(d: seq<nat>) returns (bound: nat)
    ensures forall i :: 0 <= i < |d| ==> d[i] <= bound
  {
    if d == [] {
      bound := 0;
    } else {
      bound := MaxDepth(d[1..]);
      assert forall i :: 1 <= i < |d| ==> d[i] == d[1..][i - 1];
      if bound < d[0] { bound := d[0]; }
    }
  }

  /** A state in which nobody can move is one in which everybody has finished. */
  lemma NoDeadlock(c: Config, s: State, t: nat)
    requires Inv(c, s) && Stuck(c, s) && t < c.N()
    ensures s.at[t] == Finished
  {
    if s.at[t] != Finished {
      var bound := MaxDepth(c.depth);
      AtRoot(c, s, t, bound);
      var u := MissingUser(c, s, c.RootId(), t);
      BlockedHasArrived(c, s, u);
      AtRoot(c, s, u, bound);
    }
  }

  lemma AtRoot(c: Config, s: State, t: nat, bound: nat)
    requires Inv(c, s) && Stuck(c, s) && t < c.N() && s.at[t] != Finished
    requires forall u :: 0 <= u < c.N() ==> c.depth[u] <= bound
    ensures s.at[t].Root?
  {
    NobodyAtStart(c, s, t);
    StuckAtBarrier(c, s, t);
    NobodyAtOwn(c, s, t, bound);
    if c.parent[t] != -1 { NobodyAtOwn(c, s, c.parent[t], bound); }
  }

  // ---------------------------------------------------------------- termination and result

  function SectionSub(k: Section): nat {
    match k case Locking => 0 case Claiming => 1 case Acting => 2 case Disclaiming => 3 case Unlocking => 4
  }

  function BarrierSub(pc: B.Pc): nat {
    match pc
    case Idle => 0 case Entering => 1 case Comparing => 2 case Loading => 3
    case Resetting => 4 case Leaving => 5 case Unlocking => 3 case Blocked => 4
  }

  /** Steps a thread can still take, at most. */
  function Remaining(at: At): nat {
    8 * (7 - Stage(at)) - (match at
      case Input(k) => SectionSub(k)
      case Add(k) => SectionSub(k)
      case Start(pc) => BarrierSub(pc)
      case Own(pc) => BarrierSub(pc)
      case Parent(pc) => BarrierSub(pc)
      case Root(pc) => BarrierSub(pc)
      case Printing => 0
      case Finished => 0)
  }

  ghost function RemainingWeight(s: State): nat -> int {
    t => if 0 <= t < |s.at| then Remaining(s.at[t]) else 0
  }

  lemma StepShortens(c: Config, s: State, t: nat)
    requires Shape(c, s) && Enabled(c, s, t) && Shape(c, Apply(c, s, t))
    ensures Apply(c, s, t).at == s.at[t := Apply(c, s, t).at[t]]
    ensures Remaining(Apply(c, s, t).at[t]) < Remaining(s.at[t])
  {
  }

  lemma NextShortens(c: Config, s: State, s': State)
    requires Inv(c, s) && Next(c, s, s')
    ensures Sum(c.N(), RemainingWeight(s')) < Sum(c.N(), RemainingWeight(s))
  {
    NextInv(c, s, s');
    var t: nat :| Enabled(c, s, t) && s' == Apply(c, s, t);
    StepShortens(c, s, t);
    SumChange(c.N(), RemainingWeight(s), RemainingWeight(s'), t);
  }

  lemma {:induction false} RunLength(c: Config, run: seq<State>)
    requires IsRun(c, run)
    ensures Sum(c.N(), RemainingWeight(run[|run| - 1])) + |run| - 1 <= 56 * c.N()
    ensures Sum(c.N(), RemainingWeight(run[|run| - 1])) >= 0
  {
    var last := run[|run| - 1];
    SumNonneg(c.N(), RemainingWeight(last));
    if |run| == 1 {
      SumConstant(c.N(), RemainingWeight(last), 56);
    } else {
      var init := run[..|run| - 1];
      RunLength(c, init);
      RunInv(c, init);
      assert Next(c, run[|run| - 2], run[|run| - 2 + 1]);
      NextShortens(c, run[|run| - 2], last);
    }
  }

  predicate AllFinished(s: State) {
    forall t :: 0 <= t < |s.at| ==> s.at[t] == Finished
  }

  /** For every rooted tree and every interleaving: runs are finite, a run that can go no
      further has every thread finished, and what the root prints, once, is the sum of the
      leaf inputs. */
  lemma TreeSumCorrect(c: Config, run: seq<State>)
    requires IsRun(c, run)
    ensures |run| <= 56 * c.N() + 1
    ensures var s := run[|run| - 1]; s.printed == [] || s.printed == [Sum(c.N(), InputWeight(c))]
    ensures Stuck(c, run[|run| - 1]) ==>
      AllFinished(run[|run| - 1]) && run[|run| - 1].printed == [Sum(c.N(), InputWeight(c))]
  {
    RunLength(c, run);
    RunInv(c, run);
    var s := run[|run| - 1];
    if Stuck(c, s) {
      forall t | 0 <= t < |s.at|
        ensures s.at[t] == Finished
      {
        NoDeadlock(c, s, t);
      }
    }
  }

  /** In every reachable state a node past its own barrier has every child's value in its own:
      each child has added, after adding up its own children. */
  lemma RunChildrenFirst(c: Config, run: seq<State>, t: nat, child: nat)
    requires IsRun(c, run) && t < c.N() && child < c.N() && c.parent[child] == t
    ensures |run[|run| - 1].at| == c.N()
    ensures Stage(run[|run| - 1].at[t]) > 2 ==> Dead(c, run[|run| - 1].at[child], child)
  {
    RunInv(c, run);
    if Stage(run[|run| - 1].at[t]) > 2 { ChildrenFirst(c, run[|run| - 1], t, child); }
  }
}
