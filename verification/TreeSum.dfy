/** The tree sum: one thread per node, one barrier per node (for the node and its children),
    a start barrier and a root barrier for all. Leaves read a value, every node adds its
    value to its parent's under a mutex once its own children have added theirs, and the
    root prints. One step is one semaphore operation or one access to shared memory. */
module TreeSum {
  import opened Counting
  import B = Barrier

  /** parent[t] is -1 for the root; depth witnesses that every node hangs below the root. */
  datatype Config = Config(parent: seq<int>, depth: seq<nat>, root: nat, input: seq<int>) {
    ghost predicate Valid() {
      && |parent| == |depth| == |input| && root < |parent| && parent[root] == -1
      && (forall t :: 0 <= t < |parent| && t != root ==>
            0 <= parent[t] < |parent| && depth[parent[t]] < depth[t])
    }

    function N(): nat { |parent| }

    function StartId(): nat { N() }

    function RootId(): nat { N() + 1 }
  }

  /** A section under the tree mutex: lock, note the owner, act, check and clear the owner, unlock. */
  datatype Section = Locking | Claiming | Acting | Disclaiming | Unlocking

  datatype At =
    | Input(c: Section)
    | Start(b: B.Pc)
    | Own(b: B.Pc)
    | Add(c: Section)
    | Parent(b: B.Pc)
    | Root(b: B.Pc)
    | Printing
    | Finished

  datatype State = State(at: seq<At>, value: seq<int>, sem: int, owner: int, bars: seq<B.Data>, printed: seq<int>)

  ghost function ChildWeight(c: Config, i: int): nat -> int {
    t => if 0 <= t < |c.parent| && c.parent[t] == i then 1 else 0
  }

  ghost function Children(c: Config, i: int): int {
    Sum(c.N(), ChildWeight(c, i))
  }

  predicate IsLeaf(c: Config, i: nat) {
    forall t :: 0 <= t < |c.parent| ==> c.parent[t] != i
  }

  ghost predicate Init(c: Config, s: State) {
    && c.Valid()
    && |s.at| == |s.value| == c.N() && |s.bars| == c.N() + 2
    && (forall t :: 0 <= t < c.N() ==> s.at[t] == Input(Locking) && s.value[t] == 0)
    && s.sem == 1 && s.owner == -1 && s.printed == []
    && (forall i :: 0 <= i < c.N() ==> s.bars[i].max == Children(c, i) + 1)
    && s.bars[c.StartId()].max == c.N() && s.bars[c.RootId()].max == c.N()
    && (forall b :: 0 <= b < |s.bars| ==> s.bars[b] == B.Fresh(s.bars[b].max))
  }

  /** The barrier a thread is working on, or -1. */
  function BarrierOf(c: Config, t: nat, at: At): int
    requires t < |c.parent|
  {
    match at
    case Start(_) => c.StartId()
    case Own(_) => t
    case Parent(_) => c.parent[t]
    case Root(_) => c.RootId()
    case _ => -1
  }

  predicate InSection(at: At) {
    (at.Input? || at.Add?) && at.c != Locking
  }

  predicate Enabled(c: Config, s: State, t: nat) {
    && t < |c.parent| && t < |s.at| && t < |s.value| && t < |c.input|
    && match s.at[t]
       case Finished => false
       case Printing => true
       case Input(k) => if k == Locking then s.sem >= 1 else k == Disclaiming ==> s.owner == t
       case Add(k) =>
         if k == Locking then s.sem >= 1
         else (k == Disclaiming ==> s.owner == t) && (k == Acting ==> c.parent[t] == -1 || 0 <= c.parent[t] < |s.value|)
       case _ =>
         var b := BarrierOf(c, t, s.at[t]);
         0 <= b < |s.bars| && B.CanStep(s.bars[b], s.at[t].b)
  }

  /** The next place in t_main once a section or barrier is behind the thread. */
  function After(c: Config, t: nat, at: At): At
    requires t < |c.parent|
  {
    match at
    case Input(_) => Start(B.Idle)
    case Start(_) => Own(B.Idle)
    case Own(_) => Add(Locking)
    case Add(_) => if c.parent[t] != -1 then Parent(B.Idle) else Root(B.Idle)
    case Parent(_) => Root(B.Idle)
    case Root(_) => Printing
    case Printing => Finished
    case Finished => Finished
  }

  function WithPc(at: At, b: B.Pc): At
    requires at.Start? || at.Own? || at.Parent? || at.Root?
  {
    match at
    case Start(_) => Start(b)
    case Own(_) => Own(b)
    case Parent(_) => Parent(b)
    case Root(_) => Root(b)
  }

  function WithSection(at: At, k: Section): At
    requires at.Input? || at.Add?
  {
    if at.Input? then Input(k) else Add(k)
  }

  /** What a thread does to the values when it holds the tree mutex. */
  function Acted(c: Config, s: State, t: nat): seq<int>
    requires Enabled(c, s, t) && InSection(s.at[t]) && s.at[t].c == Acting
  {
    if s.at[t].Input? then
      (if IsLeaf(c, t) then s.value[t := c.input[t]] else s.value)
    else if c.parent[t] != -1 then
      s.value[c.parent[t] := s.value[c.parent[t]] + s.value[t]]
    else s.value
  }

  function SectionStep(c: Config, s: State, t: nat): State
    requires Enabled(c, s, t) && (s.at[t].Input? || s.at[t].Add?)
  {
    var at := s.at[t];
    match at.c
    case Locking => s.(sem := s.sem - 1, at := s.at[t := WithSection(at, Claiming)])
    case Claiming => s.(owner := t, at := s.at[t := WithSection(at, Acting)])
    case Acting => s.(value := Acted(c, s, t), at := s.at[t := WithSection(at, Disclaiming)])
    case Disclaiming => s.(owner := -1, at := s.at[t := WithSection(at, Unlocking)])
    case Unlocking => s.(sem := s.sem + 1, at := s.at[t := After(c, t, at)])
  }

  function BarrierStep(c: Config, s: State, t: nat): State
    requires Enabled(c, s, t) && (s.at[t].Start? || s.at[t].Own? || s.at[t].Parent? || s.at[t].Root?)
  {
    var at := s.at[t];
    var b := BarrierOf(c, t, at);
    var d := s.bars[b];
    var pc := B.StepPc(d, at.b);
    s.(bars := s.bars[b := B.StepData(d, at.b)],
       at := s.at[t := if pc == B.Idle then After(c, t, at) else WithPc(at, pc)])
  }

  function Apply(c: Config, s: State, t: nat): State
    requires Enabled(c, s, t)
  {
    match s.at[t]
    case Input(_) => SectionStep(c, s, t)
    case Add(_) => SectionStep(c, s, t)
    case Printing =>
      s.(printed := if c.parent[t] == -1 then s.printed + [s.value[t]] else s.printed, at := s.at[t := Finished])
    case _ => BarrierStep(c, s, t)
  }

  ghost predicate Next(c: Config, s: State, s': State) {
    exists t: nat :: Enabled(c, s, t) && s' == Apply(c, s, t)
  }

  ghost predicate IsRun(c: Config, run: seq<State>) {
    |run| > 0 && Init(c, run[0]) && forall k :: 0 <= k < |run| - 1 ==> Next(c, run[k], run[k + 1])
  }

  // ---------------------------------------------------------------- where threads stand

  /** Position of a place in t_main. */
  function Stage(at: At): nat {
    match at
    case Input(_) => 0
    case Start(_) => 1
    case Own(_) => 2
    case Add(_) => 3
    case Parent(_) => 4
    case Root(_) => 5
    case Printing => 6
    case Finished => 7
  }

  /** The stage at which thread t uses barrier b, or -1. */
  function UseStage(c: Config, t: nat, b: nat): int {
    if t >= |c.parent| then -1
    else if b == c.StartId() then 1
    else if b == c.RootId() then 5
    else if t == b then 2
    else if c.parent[t] == b then 4
    else -1
  }

  /** The thread's pc as barrier b sees it. */
  function PcAt(c: Config, at: At, t: nat, b: nat): B.Pc
    requires t < |c.parent|
  {
    if BarrierOf(c, t, at) == b then at.b else B.Idle
  }

  function Pcs(c: Config, at: seq<At>, b: nat): (pcs: seq<B.Pc>)
    requires |at| == |c.parent|
    ensures |pcs| == |at|
  {
    seq(|at|, t requires 0 <= t < |at| => PcAt(c, at[t], t, b))
  }

  predicate HasPassed(c: Config, at: At, t: nat, b: nat) {
    UseStage(c, t, b) != -1 && Stage(at) > UseStage(c, t, b)
  }

  predicate HasArrived(c: Config, at: At, t: nat, b: nat)
    requires t < |c.parent|
  {
    HasPassed(c, at, t, b) || B.Counted(PcAt(c, at, t, b))
  }

  ghost function ArrivedWeight(c: Config, at: seq<At>, b: nat): nat -> int {
    t => if 0 <= t < |at| && t < |c.parent| && HasArrived(c, at[t], t, b) then 1 else 0
  }

  ghost function PassedWeight(c: Config, at: seq<At>, b: nat): nat -> int {
    t => if 0 <= t < |at| && HasPassed(c, at[t], t, b) then 1 else 0
  }

  ghost function UserWeight(c: Config, b: nat): nat -> int {
    t => if 0 <= t < |c.parent| && UseStage(c, t, b) != -1 then 1 else 0
  }

  /** Threads that use barrier b. */
  ghost function Users(c: Config, b: nat): int {
    Sum(c.N(), UserWeight(c, b))
  }

  // ---------------------------------------------------------------- invariant

  ghost predicate Shape(c: Config, s: State) {
    && c.Valid()
    && |s.at| == |s.value| == c.N() && |s.bars| == c.N() + 2
    && forall t :: 0 <= t < c.N() && s.at[t].Parent? ==> c.parent[t] != -1
  }

  /** Barrier b: the counting invariant, and its history in terms of the threads. */
  ghost predicate BarOk(c: Config, at: seq<At>, d: B.Data, b: nat)
    requires |at| == |c.parent|
  {
    && B.Inv(d, Pcs(c, at, b))
    && d.max == Users(c, b)
    && d.arrivals == Sum(c.N(), ArrivedWeight(c, at, b))
    && d.passes + d.finals == Sum(c.N(), PassedWeight(c, at, b))
  }

  ghost predicate BarsOk(c: Config, s: State)
    requires Shape(c, s)
  {
    forall b :: 0 <= b < |s.bars| ==> BarOk(c, s.at, s.bars[b], b)
  }

  ghost predicate MutexOk(c: Config, s: State)
    requires Shape(c, s)
  {
    && (s.sem == 0 || s.sem == 1)
    && (s.sem == 1 ==> forall t :: 0 <= t < c.N() ==> !InSection(s.at[t]))
    && (s.sem == 0 ==> exists t :: 0 <= t < c.N() && InSection(s.at[t]))
    && (forall t, u :: 0 <= t < c.N() && 0 <= u < c.N() && InSection(s.at[t]) && InSection(s.at[u]) ==> t == u)
    && (forall t :: 0 <= t < c.N() && InSection(s.at[t]) && s.at[t].c in {Acting, Disclaiming} ==> s.owner == t)
  }

  // ---- one thread moves

  lemma PcsMove(c: Config, at: seq<At>, t: nat, at': At, b: nat)
    requires |at| == |c.parent| && t < |at|
    ensures Pcs(c, at[t := at'], b) == Pcs(c, at, b)[t := PcAt(c, at', t, b)]
  {
  }

  lemma ArrivedMove(c: Config, at: seq<At>, t: nat, at': At, b: nat)
    requires |at| == |c.parent| && t < |at|
    ensures Sum(c.N(), ArrivedWeight(c, at[t := at'], b)) == Sum(c.N(), ArrivedWeight(c, at, b))
              - B.Bit(HasArrived(c, at[t], t, b)) + B.Bit(HasArrived(c, at', t, b))
    ensures Sum(c.N(), PassedWeight(c, at[t := at'], b)) == Sum(c.N(), PassedWeight(c, at, b))
              - B.Bit(HasPassed(c, at[t], t, b)) + B.Bit(HasPassed(c, at', t, b))
  {
    SumChange(c.N(), ArrivedWeight(c, at, b), ArrivedWeight(c, at[t := at'], b), t);
    SumChange(c.N(), PassedWeight(c, at, b), PassedWeight(c, at[t := at'], b), t);
  }

  /** A move that barrier b does not notice. */
  lemma BarUnnoticed(c: Config, at: seq<At>, d: B.Data, b: nat, t: nat, at': At)
    requires |at| == |c.parent| && t < |at| && BarOk(c, at, d, b)
    requires PcAt(c, at', t, b) == PcAt(c, at[t], t, b)
    requires HasPassed(c, at', t, b) <==> HasPassed(c, at[t], t, b)
    ensures BarOk(c, at[t := at'], d, b)
  {
    PcsMove(c, at, t, at', b);
    ArrivedMove(c, at, t, at', b);
    assert Pcs(c, at[t := at'], b) == Pcs(c, at, b);
  }

  /** A step of thread t on its barrier. */
  lemma BarStepped(c: Config, at: seq<At>, d: B.Data, b: nat, t: nat, at': At)
    requires c.Valid() && |at| == |c.parent| && t < |at| && BarOk(c, at, d, b)
    requires BarrierOf(c, t, at[t]) == b && B.CanStep(d, at[t].b)
    requires Stage(at[t]) == UseStage(c, t, b)
    requires var pc := B.StepPc(d, at[t].b);
      at' == if pc == B.Idle then After(c, t, at[t]) else WithPc(at[t], pc)
    ensures BarOk(c, at[t := at'], B.StepData(d, at[t].b), b)
  {
    PcsMove(c, at, t, at', b);
    ArrivedMove(c, at, t, at', b);
    B.StepInv(d, Pcs(c, at, b), t);
  }

  lemma UseStageRight(c: Config, t: nat, at: At)
    requires c.Valid() && t < |c.parent| && (at.Start? || at.Own? || at.Parent? || at.Root?)
    requires at.Parent? ==> c.parent[t] != -1
    ensures BarrierOf(c, t, at) >= 0 && UseStage(c, t, BarrierOf(c, t, at)) == Stage(at)
    ensures BarrierOf(c, t, at) < c.N() + 2
  {
  }

  /** A thread that stays in its stage or goes on to the next is unnoticed by other barriers. */
  lemma OtherBarrier(c: Config, t: nat, at: At, at': At, b: nat)
    requires c.Valid() && t < |c.parent| && (at.Parent? ==> c.parent[t] != -1)
    requires BarrierOf(c, t, at) != b
    requires at' == After(c, t, at) || Stage(at') == Stage(at)
    ensures PcAt(c, at', t, b) == PcAt(c, at, t, b)
    ensures HasPassed(c, at', t, b) <==> HasPassed(c, at, t, b)
  {
  }

  ghost predicate Moves(c: Config, s: State, s': State, t: nat)
    requires Shape(c, s) && t < c.N() && Shape(c, s')
  {
    s'.at == s.at[t := s'.at[t]] && (s'.at[t] == After(c, t, s.at[t]) || Stage(s'.at[t]) == Stage(s.at[t]))
  }

  lemma BarsUnnoticed(c: Config, s: State, s': State, t: nat)
    requires Shape(c, s) && Shape(c, s') && BarsOk(c, s) && t < c.N() && Moves(c, s, s', t)
    requires BarrierOf(c, t, s.at[t]) == -1 && s'.bars == s.bars
    ensures BarsOk(c, s')
  {
    forall b | 0 <= b < |s.bars|
      ensures BarOk(c, s'.at, s'.bars[b], b)
    {
      OtherBarrier(c, t, s.at[t], s'.at[t], b);
      BarUnnoticed(c, s.at, s.bars[b], b, t, s'.at[t]);
    }
  }

  lemma BarrierStepBars(c: Config, s: State, t: nat)
    requires Shape(c, s) && BarsOk(c, s) && Enabled(c, s, t)
    requires s.at[t].Start? || s.at[t].Own? || s.at[t].Parent? || s.at[t].Root?
    ensures Shape(c, BarrierStep(c, s, t)) && BarsOk(c, BarrierStep(c, s, t))
  {
    var s', mine := BarrierStep(c, s, t), BarrierOf(c, t, s.at[t]);
    UseStageRight(c, t, s.at[t]);
    BarStepped(c, s.at, s.bars[mine], mine, t, s'.at[t]);
    forall b | 0 <= b < |s.bars| && b != mine
      ensures BarOk(c, s'.at, s'.bars[b], b)
    {
      OtherBarrier(c, t, s.at[t], s'.at[t], b);
      BarUnnoticed(c, s.at, s.bars[b], b, t, s'.at[t]);
    }
  }

  lemma MutexUntouched(c: Config, s: State, s': State, t: nat)
    requires Shape(c, s) && Shape(c, s') && MutexOk(c, s) && t < c.N()
    requires s'.at == s.at[t := s'.at[t]] && s'.sem == s.sem && s'.owner == s.owner
    requires !InSection(s.at[t]) && !InSection(s'.at[t])
    ensures MutexOk(c, s')
  {
    forall u | 0 <= u < c.N() && InSection(s.at[u])
      ensures InSection(s'.at[u])
    {
    }
  }

  lemma SectionStepMutex(c: Config, s: State, t: nat)
    requires Shape(c, s) && MutexOk(c, s) && Enabled(c, s, t) && (s.at[t].Input? || s.at[t].Add?)
    ensures Shape(c, SectionStep(c, s, t)) && MutexOk(c, SectionStep(c, s, t))
  {
    var s' := SectionStep(c, s, t);
    if s.at[t].c == Locking {
      assert InSection(s'.at[t]);
    } else {
      assert InSection(s.at[t]) && s.sem == 0;
      assert forall u :: 0 <= u < c.N() && u != t ==> !InSection(s'.at[u]);
      assert s.at[t].c != Unlocking ==> InSection(s'.at[t]);
    }
  }

  // ---- values

  /** The thread has added its value to its parent's. */
  predicate Dead(c: Config, at: At, t: nat)
    requires t < |c.parent|
  {
    c.parent[t] != -1 && (Stage(at) > 3 || (at.Add? && at.c in {Disclaiming, Unlocking}))
  }

  /** The thread is past its input. */
  predicate HasRead(at: At) {
    Stage(at) > 0 || (at.Input? && at.c in {Disclaiming, Unlocking})
  }

  ghost function AliveWeight(c: Config, s: State): nat -> int {
    t => if 0 <= t < |s.at| && t < |c.parent| && t < |s.value| && !Dead(c, s.at[t], t) then s.value[t] else 0
  }

  ghost function LeafWeight(c: Config, s: State): nat -> int {
    t => if 0 <= t < |s.at| && t < |c.input| && IsLeaf(c, t) && HasRead(s.at[t]) then c.input[t] else 0
  }

  ghost function InputWeight(c: Config): nat -> int {
    t => if 0 <= t < |c.input| && IsLeaf(c, t) then c.input[t] else 0
  }

  /** Conservation: what the threads that have not handed over hold is what was read so far. */
  ghost predicate ValuesOk(c: Config, s: State)
    requires Shape(c, s)
  {
    && Sum(c.N(), AliveWeight(c, s)) == Sum(c.N(), LeafWeight(c, s))
    && (forall t :: 0 <= t < c.N() && IsLeaf(c, t) && !HasRead(s.at[t]) ==> s.value[t] == 0)
    && s.printed == if s.at[c.root] == Finished then [Sum(c.N(), InputWeight(c))] else []
  }

  ghost predicate Inv(c: Config, s: State) {
    Shape(c, s) && BarsOk(c, s) && MutexOk(c, s) && ValuesOk(c, s)
  }

  // ---------------------------------------------------------------- barriers hold threads back

  lemma {:induction false} SumDominated(n: nat, f: nat -> int, g: nat -> int, k: nat)
    requires forall i :: 0 <= i < n ==> f(i) <= g(i)
    requires k < n && Sum(n, f) >= Sum(n, g)
    ensures f(k) == g(k)
  {
    SumLess(n, f, g);
    var g' := (i: nat) => if i == k then f(k) else g(i);
    SumChange(n, g, g', k);
    SumLess(n, f, g');
  }

  lemma {:induction false} SumLess(n: nat, f: nat -> int, g: nat -> int)
    requires forall i :: 0 <= i < n ==> f(i) <= g(i)
    ensures Sum(n, f) <= Sum(n, g)
  {
    if n > 0 { SumLess(n - 1, f, g); }
  }

  /** When one user has passed a barrier, every user has arrived there. */
  lemma PassedMeansArrived(c: Config, s: State, b: nat, t: nat, u: nat)
    requires Shape(c, s) && BarsOk(c, s) && b < |s.bars| && t < c.N() && u < c.N()
    requires HasPassed(c, s.at[t], t, b) && UseStage(c, u, b) != -1
    ensures HasArrived(c, s.at[u], u, b)
  {
    var d := s.bars[b];
    assert BarOk(c, s.at, d, b);
    SumAtLeast(c.N(), PassedWeight(c, s.at, b), t);
    B.TokenCount(d, Pcs(c, s.at, b));
    assert d.releases > 0;
    ArrivedAreUsers(c, s, b);
    SumDominated(c.N(), ArrivedWeight(c, s.at, b), UserWeight(c, b), u);
  }

  lemma ArrivedAreUsers(c: Config, s: State, b: nat)
    requires Shape(c, s)
    ensures forall t :: 0 <= t < c.N() ==> ArrivedWeight(c, s.at, b)(t) <= UserWeight(c, b)(t)
  {
    forall t | 0 <= t < c.N()
      ensures ArrivedWeight(c, s.at, b)(t) <= UserWeight(c, b)(t)
    {
      if BarrierOf(c, t, s.at[t]) == b { UseStageRight(c, t, s.at[t]); }
    }
  }

  /** No node adds to its parent before all of its own children have added to it. */
  lemma ChildrenFirst(c: Config, s: State, t: nat, child: nat)
    requires Inv(c, s) && t < c.N() && child < c.N() && c.parent[child] == t && Stage(s.at[t]) > 2
    ensures Dead(c, s.at[child], child) && Stage(s.at[child]) >= 4
  {
    PassedMeansArrived(c, s, t, t, child);
  }
}
