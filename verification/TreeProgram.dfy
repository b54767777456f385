/** The tree program over arrays: reading the tree file, sizing the barriers, and one method
    per kind of atomic step; and a single barrier of the thread library on its own. */
module TreeProgram {
  import opened Counting
  import B = Barrier
  import opened TreeSum
  import G = TreeGen

  // ---------------------------------------------------------------- the thread library

  class FooBarrier {
    const maxCount: nat
    var waitingCount: nat
    var waitSem: int
    var mtxSem: int
    ghost var arrivals: nat
    ghost var releases: nat
    ghost var passes: nat
    ghost var finals: nat

    ghost function View(): B.Data
      reads this
    {
      B.Data(maxCount, waitingCount, waitSem, mtxSem, arrivals, releases, passes, finals)
    }

    constructor (count: nat)
      ensures maxCount == count && View() == B.Fresh(count)
    {
      maxCount := count;
      waitingCount, waitSem, mtxSem := 0, 0, 1;
      arrivals, releases, passes, finals := 0, 0, 0, 0;
    }

    /** The next operation of a thread inside the wait function; Idle means it has returned. */
    method WaitStep(pc: B.Pc) returns (pc': B.Pc)
      requires B.CanStep(View(), pc)
      modifies this
      ensures View() == B.StepData(old(View()), pc) && pc' == B.StepPc(old(View()), pc)
    {
      match pc {
        case Idle =>
          mtxSem := mtxSem - 1;
          pc' := B.Entering;
        case Entering =>
          waitingCount := waitingCount + 1;
          arrivals := arrivals + 1;
          pc' := B.Comparing;
        case Comparing =>
          pc' := if waitingCount == maxCount then B.Loading else B.Unlocking;
        case Loading =>
          waitSem := waitSem + (maxCount - 1);
          releases := releases + 1;
          pc' := B.Resetting;
        case Resetting =>
          waitingCount := 0;
          pc' := B.Leaving;
        case Leaving =>
          mtxSem := mtxSem + 1;
          finals := finals + 1;
          pc' := B.Idle;
        case Unlocking =>
          mtxSem := mtxSem + 1;
          pc' := B.Blocked;
        case Blocked =>
          waitSem := waitSem - 1;
          passes := passes + 1;
          pc' := B.Idle;
      }
    }
  }

  datatype UnlockResult = Unlocked | NotLocked | NotOwner

  class FooMutex {
    var sem: int
    var owner: int

    constructor ()
      ensures sem == 1 && owner == -1
    {
      sem, owner := 1, -1;
    }

    /** Passes the semaphore, then notes the owner. */
    method Lock(tid: nat)
      requires sem >= 1
      modifies this
      ensures sem == old(sem) - 1 && owner == tid
    {
      sem := sem - 1;
      owner := tid;
    }

    /** Refuses to unlock a free mutex or somebody else's. */
    method Unlock(tid: nat) returns (r: UnlockResult)
      modifies this
      ensures r == (if old(owner) == -1 then NotLocked else if old(owner) != tid then NotOwner else Unlocked)
      ensures r == Unlocked ==> sem == old(sem) + 1 && owner == -1
      ensures r != Unlocked ==> sem == old(sem) && owner == old(owner)
    {
      if owner == -1 { return NotLocked; }
      if owner != tid { return NotOwner; }
      owner := -1;
      sem := sem + 1;
      r := Unlocked;
    }
  }

  // ---------------------------------------------------------------- reading the tree

  /** Each node is described by one line: itself and its parent, the root being its own. */
  ghost predicate TreeFile(lines: seq<(nat, nat)>) {
    && (forall i :: 0 <= i < |lines| ==> lines[i].0 < |lines| && lines[i].1 < |lines|)
    && (forall i, j :: 0 <= i < j < |lines| ==> lines[i].0 != lines[j].0)
  }

  function LineParent(line: (nat, nat)): int {
    if line.0 == line.1 then -1 else line.1
  }

  /** The children read from the first k lines, in file order. */
  function Kids(lines: seq<(nat, nat)>, k: nat, p: nat): seq<nat>
    requires k <= |lines|
  {
    if k == 0 then []
    else Kids(lines, k - 1, p) + (if LineParent(lines[k - 1]) == p then [lines[k - 1].0] else [])
  }

  method ReadTree(lines: seq<(nat, nat)>) returns (parent: array<int>, children: array<seq<nat>>)
    requires TreeFile(lines)
    ensures fresh(parent) && fresh(children) && parent.Length == children.Length == |lines|
    ensures forall i :: 0 <= i < |lines| ==> parent[lines[i].0] == LineParent(lines[i])
    ensures forall p :: 0 <= p < |lines| ==> children[p] == Kids(lines, |lines|, p)
  {
    var n := |lines|;
    parent := new int[n](_ => 0);
    children := new seq<nat>[n](_ => []);
    for i := 0 to n
      invariant forall k :: 0 <= k < i ==> parent[lines[k].0] == LineParent(lines[k])
      invariant forall p :: 0 <= p < n ==> children[p] == Kids(lines, i, p)
    {
      var (cur, par) := lines[i];
      if cur != par {
        parent[cur] := par;
        children[par] := children[par] + [cur];
      } else {
        parent[cur] := -1;
      }
    }
  }

  /** The number of children read for a node is the number of threads below it. */
  lemma {:induction false} KidsAreChildren(lines: seq<(nat, nat)>, parent: seq<int>, k: nat, p: nat)
    requires TreeFile(lines) && |parent| == |lines| && k <= |lines|
    requires forall i :: 0 <= i < |lines| ==> parent[lines[i].0] == LineParent(lines[i])
    ensures |Kids(lines, k, p)| == Sum(|lines|, KidWeight(lines, k, p))
  {
    if k == 0 {
      SumZero(|lines|, KidWeight(lines, 0, p));
    } else {
      KidsAreChildren(lines, parent, k - 1, p);
      SumChange(|lines|, KidWeight(lines, k - 1, p), KidWeight(lines, k, p), lines[k - 1].0);
    }
  }

  /** t is described, within the first k lines, as a child of p. */
  ghost function KidWeight(lines: seq<(nat, nat)>, k: nat, p: nat): nat -> int {
    t => if exists i :: 0 <= i < k && i < |lines| && lines[i].0 == t && LineParent(lines[i]) == p then 1 else 0
  }

  lemma KidsCount(c: Config, lines: seq<(nat, nat)>, p: nat)
    requires TreeFile(lines) && |c.parent| == |lines|
    requires forall i :: 0 <= i < |lines| ==> c.parent[lines[i].0] == LineParent(lines[i])
    ensures |Kids(lines, |lines|, p)| == Children(c, p)
  {
    KidsAreChildren(lines, c.parent, |lines|, p);
    var names := seq(|lines|, i requires 0 <= i < |lines| => lines[i].0);
    DistinctBelow(names, |lines|);
    forall t | 0 <= t < |lines|
      ensures KidWeight(lines, |lines|, p)(t) == ChildWeight(c, p)(t)
    {
      assert t in names;
      var i :| 0 <= i < |names| && names[i] == t;
      assert c.parent[t] == LineParent(lines[i]);
    }
    SumSame(|lines|, KidWeight(lines, |lines|, p), ChildWeight(c, p));
  }

  lemma ReadValid(lines: seq<(nat, nat)>, c: Config)
    requires TreeFile(lines) && |c.parent| == |c.input| == |c.depth| == |lines| && c.root < |lines|
    requires forall i :: 0 <= i < |lines| ==> c.parent[lines[i].0] == LineParent(lines[i])
    requires forall i :: 0 <= i < |lines| ==> LineOk(lines[i], c.root, c.depth)
    ensures c.Valid()
  {
    var names := seq(|lines|, i requires 0 <= i < |lines| => lines[i].0);
    DistinctBelow(names, |lines|);
    forall t | 0 <= t < |lines|
      ensures if t == c.root then c.parent[t] == -1 else 0 <= c.parent[t] < |c.parent| && c.depth[c.parent[t]] < c.depth[t]
    {
      assert t in names;
      var i :| 0 <= i < |names| && names[i] == t;
      assert LineOk(lines[i], c.root, c.depth) && c.parent[t] == LineParent(lines[i]);
    }
  }

  /** The line of the root names itself; every other line names a shallower node. */
  ghost predicate LineOk(line: (nat, nat), root: nat, depth: seq<nat>) {
    && line.0 < |depth| && line.1 < |depth|
    && if line.0 == root then line.1 == root else line.1 != line.0 && depth[line.1] < depth[line.0]
  }

  /** The generator's file, one line per node: what it describes is a tree rooted at perm[0]. */
  lemma GeneratedFile(p: seq<nat>, perm: seq<nat>, lines: seq<(nat, nat)>)
    requires G.Generated(p, perm) && |lines| == |p| && forall i :: 0 <= i < |p| ==> lines[i] == (i, p[i])
    ensures TreeFile(lines) && |G.Depths(perm)| == |lines|
    ensures forall i :: 0 <= i < |lines| ==> LineOk(lines[i], perm[0], G.Depths(perm))
  {
    var c := G.TreeConfig(p, perm, seq(|p|, _ => 0));
    G.GeneratedValid(p, perm, c.input);
    forall i | 0 <= i < |lines|
      ensures lines[i].0 < |lines| && lines[i].1 < |lines| && LineOk(lines[i], perm[0], G.Depths(perm))
    {
      if i != perm[0] {
        assert 0 <= c.parent[i] < |p| && c.depth[c.parent[i]] < c.depth[i];
      }
    }
  }

  lemma NoChildren(c: Config, p: nat)
    ensures Children(c, p) == 0 <==> IsLeaf(c, p)
  {
    if IsLeaf(c, p) {
      SumZero(c.N(), ChildWeight(c, p));
    } else {
      var t :| 0 <= t < |c.parent| && c.parent[t] == p;
      SumAtLeast(c.N(), ChildWeight(c, p), t);
    }
  }

  /** The barrier sizes: a node's children and itself, and everybody for the start and the root. */
  function Sizes(children: seq<seq<nat>>): (r: seq<nat>)
    ensures |r| == |children| + 2
  {
    seq(|children| + 2, b requires 0 <= b < |children| + 2 => if b < |children| then |children[b]| + 1 else |children|)
  }

  lemma SizedRight(lines: seq<(nat, nat)>, c: Config, children: seq<seq<nat>>)
    requires TreeFile(lines) && |c.parent| == |c.input| == |c.depth| == |children| == |lines| && c.root < |lines|
    requires forall i :: 0 <= i < |lines| ==> c.parent[lines[i].0] == LineParent(lines[i])
    requires forall i :: 0 <= i < |lines| ==> LineOk(lines[i], c.root, c.depth)
    requires forall p :: 0 <= p < |lines| ==> children[p] == Kids(lines, |lines|, p)
    ensures c.Valid()
    ensures forall p :: 0 <= p < c.N() ==>
      Sizes(children)[p] == Children(c, p) + 1 && (children[p] == [] <==> IsLeaf(c, p))
  {
    ReadValid(lines, c);
    forall p | 0 <= p < |lines|
      ensures Sizes(children)[p] == Children(c, p) + 1 && (children[p] == [] <==> IsLeaf(c, p))
    {
      KidsCount(c, lines, p);
      NoChildren(c, p);
    }
  }

  // ---------------------------------------------------------------- the program

  class Program {
    const config: Config
    const parent: array<int>
    const children: array<seq<nat>>
    const input: seq<int>
    const n: nat
    const at: array<At>
    const value: array<int>
    const bars: array<B.Data>
    var sem: int
    var owner: int
    var printed: seq<int>

    ghost function View(): State
      reads this, at, value, bars
    {
      State(at[..], value[..], sem, owner, bars[..], printed)
    }

    /** The arrays agree with the configuration they were read from. */
    ghost predicate Reads()
      reads this, parent, children
    {
      && n == config.N() && parent.Length == children.Length == n && parent[..] == config.parent && input == config.input
      && forall p :: 0 <= p < n ==> (children[p] == [] <==> IsLeaf(config, p))
    }

    /** Reads the tree, sizes each node's barrier to its children and itself, and the start and
        root barriers to everybody. */
    constructor (lines: seq<(nat, nat)>, input: seq<int>, depth: seq<nat>, root: nat)
      requires TreeFile(lines) && |input| == |depth| == |lines| && root < |lines|
      requires forall i :: 0 <= i < |lines| ==> LineOk(lines[i], root, depth)
      ensures Reads() && config.root == root && config.input == input && |config.parent| == |lines|
      ensures forall i :: 0 <= i < |lines| ==> config.parent[lines[i].0] == LineParent(lines[i])
      ensures Init(config, View())
      ensures fresh(parent) && fresh(children) && fresh(at) && fresh(value) && fresh(bars)
    {
      var par, kids := ReadTree(lines);
      var c := Config(par[..], depth, root, input);
      SizedRight(lines, c, kids[..]);
      var sizes := Sizes(kids[..]);
      config := c;
      parent, children, this.input, n := par, kids, input, |lines|;
      at := new At[|lines|](_ => Input(Locking));
      value := new int[|lines|](_ => 0);
      bars := new B.Data[|lines| + 2](b requires 0 <= b < |sizes| => B.Fresh(sizes[b]));
      sem, owner, printed := 1, -1, [];
    }

    /** One step of thread t: under the tree mutex, at a barrier, or printing. */
    method Step(t: nat)
      requires Reads() && value != parent && Shape(config, View()) && Enabled(config, View(), t)
      modifies this, at, value, bars
      ensures parent[..] == old(parent[..]) && children[..] == old(children[..])
      ensures Reads() && View() == Apply(config, old(View()), t)
    {
      match at[t] {
        case Input(_) => StepSection(t);
        case Add(_) => StepSection(t);
        case Printing =>
          if parent[t] == -1 { printed := printed + [value[t]]; }
          at[t] := Finished;
        case Finished =>
        case _ => StepBarrier(t);
      }
    }

    method StepSection(t: nat)
      requires Reads() && Shape(config, View()) && Enabled(config, View(), t) && (at[t].Input? || at[t].Add?)
      requires value != parent
      modifies this, at, value
      ensures parent[..] == old(parent[..]) && children[..] == old(children[..])
      ensures View() == SectionStep(config, old(View()), t)
    {
      var here := at[t];
      match here.c {
        case Locking =>
          sem := sem - 1;
          at[t] := WithSection(here, Claiming);
        case Claiming =>
          owner := t;
          at[t] := WithSection(here, Acting);
        case Acting =>
          if here.Input? {
            if children[t] == [] { value[t] := input[t]; }
          } else if parent[t] != -1 {
            value[parent[t]] := value[parent[t]] + value[t];
          }
          at[t] := WithSection(here, Disclaiming);
        case Disclaiming =>
          owner := -1;
          at[t] := WithSection(here, Unlocking);
        case Unlocking =>
          sem := sem + 1;
          at[t] := After(config, t, here);
      }
    }

    method StepBarrier(t: nat)
      requires Reads() && Shape(config, View()) && Enabled(config, View(), t)
      requires at[t].Start? || at[t].Own? || at[t].Parent? || at[t].Root?
      modifies at, bars
      ensures parent[..] == old(parent[..]) && children[..] == old(children[..])
      ensures View() == BarrierStep(config, old(View()), t)
    {
      var here := at[t];
      var b := BarrierOf(config, t, here);
      var d := bars[b];
      var pc := B.StepPc(d, here.b);
      bars[b] := B.StepData(d, here.b);
      at[t] := if pc == B.Idle then After(config, t, here) else WithPc(here, pc);
    }
  }
}
