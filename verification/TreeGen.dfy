/** The random tree generator, and how the tree program reads its output. */
module TreeGen {
  import opened Counting
  import opened TreeSum
  import opened TreeSumProofs
  import B = Barrier
  import Shuffle

  /** p[v] is the parent of v, the root being its own parent; everybody but perm[0] hangs below
      somebody earlier in the permutation. */
  ghost predicate Generated(p: seq<nat>, perm: seq<nat>) {
    && |p| > 0 && Shuffle.Permutation(perm, |p|)
    && p[perm[0]] == perm[0]
    && forall k :: 0 < k < |p| ==> exists j :: 0 <= j < k && p[perm[k]] == perm[j]
  }

  /** The generator's draw of the number of children of the next parent. */
  function Draw(remaining: nat, mustDraw: bool, r: nat): (t: nat)
    requires remaining > 0
    ensures t <= remaining && (mustDraw ==> t > 0) && t <= 5
  {
    if remaining > 5
    then (if mustDraw then 1 + r % 5 else r % 5)
    else (if mustDraw then 1 + r % remaining else r % remaining)
  }

  /** Everything from 0, or 1 if somebody must be drawn, can be drawn: up to 5 or the last of the
      remaining if somebody must, one less if not. */
  lemma DrawRange(remaining: nat, mustDraw: bool, t: nat)
    requires remaining > 0
    ensures (exists r: nat :: Draw(remaining, mustDraw, r) == t) <==>
      var most := if remaining > 5 then 5 else remaining;
      if mustDraw then 1 <= t <= most else t < most
  {
    var most := if remaining > 5 then 5 else remaining;
    if mustDraw && 1 <= t <= most {
      assert Draw(remaining, mustDraw, t - 1) == t;
    } else if !mustDraw && t < most {
      assert Draw(remaining, mustDraw, t) == t;
    }
  }

  /** The number of children drawn by the first r parents. */
  function Drawn(n: nat, draws: nat -> nat, r: nat): nat
    requires n >= 1
  {
    if r == 0 then 0
    else
      var before := Drawn(n, draws, r - 1);
      if before >= n - 1 then before else before + Draw(n - 1 - before, before == r - 1, draws(r - 1))
  }

  /** Position k is among the children drawn by the parent at position j. */
  ghost predicate DrawnBy(n: nat, draws: nat -> nat, j: nat, k: nat)
    requires n >= 1
  {
    Drawn(n, draws, j) < k <= Drawn(n, draws, j + 1)
  }

  method Generate(n: nat, rnd: nat -> nat, draws: nat -> nat) returns (p: array<nat>, perm: array<nat>)
    requires n >= 1
    ensures p.Length == perm.Length == n && Generated(p[..], perm[..])
    ensures perm[..] == Shuffle.Shuffled(n, rnd, n)
    ensures Grown(p[..], perm[..], draws, n - 1)
  {
    perm := Shuffle.Run(n, rnd);
    p := Assign(perm, draws);
    HangingIsGenerated(p[..], perm[..], draws);
  }

  /** The parent-assignment loop. */
  method Assign(perm: array<nat>, draws: nat -> nat) returns (p: array<nat>)
    requires perm.Length >= 1 && Shuffle.Permutation(perm[..], perm.Length)
    ensures fresh(p) && p.Length == perm.Length && Grown(p[..], perm[..], draws, perm.Length - 1)
  {
    var n := perm.Length;
    p := new nat[n](_ => 0);
    p[perm[0]] := perm[0];
    var nextchild, nextparent, remaining := 0, 0, n - 1;
    while remaining > 0
      invariant 0 <= nextparent <= nextchild && nextchild + remaining == n - 1
      invariant nextchild == Drawn(n, draws, nextparent)
      invariant perm[..] == old(perm[..]) && Grown(p[..], perm[..], draws, nextchild)
      decreases remaining, nextchild - nextparent
    {
      var t := Draw(remaining, nextchild == nextparent, draws(nextparent));
      remaining := remaining - t;
      assert Drawn(n, draws, nextparent + 1) == nextchild + t;
      nextchild := Attach(p, perm, draws, nextchild, nextparent, t);
      nextparent := nextparent + 1;
    }
  }

  lemma HangingIsGenerated(p: seq<nat>, perm: seq<nat>, draws: nat -> nat)
    requires |p| > 0 && Shuffle.Permutation(perm, |p|) && Grown(p, perm, draws, |p| - 1)
    ensures Generated(p, perm)
  {
    forall k | 0 < k < |p|
      ensures exists j :: 0 <= j < k && p[perm[k]] == perm[j]
    {
      assert Hangs(p, perm, draws, k);
    }
  }

  /** The next t positions become children of the parent that drew them. */
  method Attach(p: array<nat>, perm: array<nat>, ghost draws: nat -> nat, child: nat, par: nat, t: nat) returns (nextchild: nat)
    requires p != perm && Shuffle.Permutation(perm[..], p.Length) && p.Length > 0 && par <= child && child + t < p.Length
    requires Drawn(p.Length, draws, par) == child && Drawn(p.Length, draws, par + 1) == child + t
    requires Grown(p[..], perm[..], draws, child)
    modifies p
    ensures nextchild == child + t && perm[..] == old(perm[..]) && Grown(p[..], perm[..], draws, nextchild)
  {
    ghost var pm := perm[..];
    nextchild := child;
    var i := 0;
    while i < t
      invariant 0 <= i <= t && nextchild == child + i
      invariant perm[..] == pm && Grown(p[..], pm, draws, nextchild)
    {
      nextchild := nextchild + 1;
      ghost var before := p[..];
      p[perm[nextchild]] := perm[par];
      assert p[..] == before[pm[nextchild] := pm[par]];
      Grows(before, p[..], pm, draws, nextchild, par);
      i := i + 1;
    }
  }

  /** Position k hangs below the earlier position that drew it. */
  ghost predicate Hangs(p: seq<nat>, perm: seq<nat>, draws: nat -> nat, k: nat) {
    && k < |perm| && perm[k] < |p|
    && exists j: nat :: j < k && p[perm[k]] == perm[j] && DrawnBy(|perm|, draws, j, k)
  }

  /** The tree over the positions up to child. */
  ghost predicate Grown(p: seq<nat>, perm: seq<nat>, draws: nat -> nat, child: nat) {
    && |perm| == |p| > 0 && perm[0] < |p| && p[perm[0]] == perm[0]
    && forall k :: 0 < k <= child ==> Hangs(p, perm, draws, k)
  }

  lemma Grows(p: seq<nat>, p': seq<nat>, perm: seq<nat>, draws: nat -> nat, child: nat, par: nat)
    requires Shuffle.Permutation(perm, |p|) && par < child < |p| && p' == p[perm[child] := perm[par]]
    requires DrawnBy(|perm|, draws, par, child) && Grown(p, perm, draws, child - 1)
    ensures Grown(p', perm, draws, child)
  {
    forall k | 0 < k <= child
      ensures Hangs(p', perm, draws, k)
    {
      if k < child {
        assert Hangs(p, perm, draws, k);
        var j: nat :| j < k && p[perm[k]] == perm[j] && DrawnBy(|perm|, draws, j, k);
        assert p'[perm[k]] == perm[j];
      } else {
        assert p'[perm[k]] == perm[par];
      }
    }
  }

  // ---------------------------------------------------------------- the generated tree as a program input

  function PositionOf(perm: seq<nat>, v: nat): nat {
    if perm == [] || perm[0] == v then 0 else 1 + PositionOf(perm[1..], v)
  }

  lemma {:induction false} PositionRight(perm: seq<nat>, k: nat)
    requires k < |perm| && forall i, j :: 0 <= i < j < |perm| ==> perm[i] != perm[j]
    ensures PositionOf(perm, perm[k]) == k
  {
    if k > 0 {
      assert perm[1..][k - 1] == perm[k];
      PositionRight(perm[1..], k - 1);
    }
  }

  /** The program's view of a parent array: -1 for the root. */
  function ParentsOf(p: seq<nat>): seq<int> {
    seq(|p|, v requires 0 <= v < |p| => if p[v] == v then -1 else p[v] as int)
  }

  function Depths(perm: seq<nat>): seq<nat> {
    seq(|perm|, (v: nat) => PositionOf(perm, v))
  }

  function TreeConfig(p: seq<nat>, perm: seq<nat>, input: seq<int>): Config
    requires |p| > 0 && |perm| == |p|
  {
    Config(ParentsOf(p), Depths(perm), perm[0], input)
  }

  /** A generated tree is one rooted tree: the position in the permutation is a depth. */
  lemma GeneratedValid(p: seq<nat>, perm: seq<nat>, input: seq<int>)
    requires Generated(p, perm) && |input| == |p|
    ensures TreeConfig(p, perm, input).Valid()
  {
    var c := TreeConfig(p, perm, input);
    forall k | 0 <= k < |p|
      ensures PositionOf(perm, perm[k]) == k
    {
      PositionRight(perm, k);
    }
    DistinctBelow(perm, |p|);
    forall v | 0 <= v < |p| && v != c.root
      ensures 0 <= c.parent[v] < |c.parent| && c.depth[c.parent[v]] < c.depth[v]
    {
      assert v in perm;
      var k :| 0 <= k < |perm| && perm[k] == v;
      var j :| 0 <= j < k && p[perm[k]] == perm[j];
    }
  }

  /** Every run of the tree program on a generated tree that can go no further has printed the
      sum of the leaf inputs. */
  lemma GeneratedSums(p: seq<nat>, perm: seq<nat>, input: seq<int>, run: seq<State>)
    requires Generated(p, perm) && |input| == |p|
    requires IsRun(TreeConfig(p, perm, input), run) && Stuck(TreeConfig(p, perm, input), run[|run| - 1])
    ensures run[|run| - 1].printed == [Sum(|p|, InputWeight(TreeConfig(p, perm, input)))]
  {
    GeneratedValid(p, perm, input);
    TreeSumCorrect(TreeConfig(p, perm, input), run);
  }
}
