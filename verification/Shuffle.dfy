/** The random shuffle both generators start with; the random numbers are a parameter. */
module Shuffle {
  import opened Counting

  predicate Permutation(p: seq<nat>, n: nat) {
    && |p| == n && (forall i :: 0 <= i < n ==> p[i] < n)
    && (forall i, j :: 0 <= i < j < n ==> p[i] != p[j])
  }

  function Swapped(p: seq<nat>, i: nat, j: nat): (r: seq<nat>)
    requires i < |p| && j < |p|
    ensures |r| == |p|
  {
    p[i := p[j]][j := p[i]]
  }

  /** The position drawn in round i: any from i on. */
  function Pick(n: nat, i: nat, r: nat): (j: nat)
    requires i < n
    ensures i <= j < n && (r < n - i ==> j == i + r)
  {
    i + r % (n - i)
  }

  /** The list after k rounds: round i exchanges position i with the one drawn. */
  function Shuffled(n: nat, rnd: nat -> nat, k: nat): (p: seq<nat>)
    requires k <= n
    ensures |p| == n
  {
    if k == 0 then seq(n, i => i)
    else Swapped(Shuffled(n, rnd, k - 1), k - 1, Pick(n, k - 1, rnd(k - 1)))
  }

  /** Whatever is drawn, the list stays a permutation. */
  lemma {:induction false} ShuffledPermutes(n: nat, rnd: nat -> nat, k: nat)
    requires k <= n
    ensures Permutation(Shuffled(n, rnd, k), n)
  {
    if k > 0 { ShuffledPermutes(n, rnd, k - 1); }
  }

  lemma {:induction false} ShuffledSame(n: nat, r: nat -> nat, r': nat -> nat, k: nat)
    requires k <= n && forall i: nat :: i < k ==> r(i) == r'(i)
    ensures Shuffled(n, r, k) == Shuffled(n, r', k)
  {
    if k > 0 { ShuffledSame(n, r, r', k - 1); }
  }

  /** The draw of round k does not touch the rounds before it. */
  lemma Redraw(n: nat, before: nat -> nat, k: nat, r: nat) returns (rnd: nat -> nat)
    requires k <= n
    ensures Shuffled(n, rnd, k) == Shuffled(n, before, k) && rnd(k) == r
  {
    rnd := (i: nat) => if i == k then r else before(i);
    ShuffledSame(n, before, rnd, k);
  }

  /** Every permutation can come out. */
  lemma {:induction false} EveryPermutation(p: seq<nat>, n: nat, k: nat) returns (rnd: nat -> nat)
    requires Permutation(p, n) && k <= n
    ensures Shuffled(n, rnd, k)[..k] == p[..k]
  {
    if k == 0 {
      rnd := (i: nat) => 0;
    } else {
      var before := EveryPermutation(p, n, k - 1);
      var list := Shuffled(n, before, k - 1);
      ShuffledPermutes(n, before, k - 1);
      var j := PlaceOf(list, n, p[k - 1]);
      NotYetPlaced(list, p, n, k - 1, j);
      rnd := Redraw(n, before, k - 1, j - (k - 1));
      PlaceNext(list, p, k - 1, j);
    }
  }

  lemma NotYetPlaced(list: seq<nat>, p: seq<nat>, n: nat, k: nat, j: nat)
    requires Permutation(p, n) && |list| == n && k < n && j < n && list[..k] == p[..k] && list[j] == p[k]
    ensures k <= j
  {
    assert forall i :: 0 <= i < k ==> list[i] == list[..k][i] == p[..k][i] == p[i];
  }

  lemma PlaceNext(list: seq<nat>, p: seq<nat>, k: nat, j: nat)
    requires |list| == |p| && k <= j < |list| && list[..k] == p[..k] && list[j] == p[k]
    ensures Swapped(list, k, j)[..k + 1] == p[..k + 1]
  {
    assert Swapped(list, k, j)[..k] == list[..k];
    assert Swapped(list, k, j)[..k + 1] == list[..k] + [p[k]];
  }

  /** A permutation has every number somewhere. */
  lemma PlaceOf(p: seq<nat>, n: nat, v: nat) returns (j: nat)
    requires Permutation(p, n) && v < n
    ensures j < n && p[j] == v
  {
    DistinctBelow(p, n);
    assert v in p;
    j :| j < n && p[j] == v;
  }

  method Run(n: nat, rnd: nat -> nat) returns (perm: array<nat>)
    ensures fresh(perm) && perm[..] == Shuffled(n, rnd, n) && Permutation(perm[..], n)
  {
    perm := new nat[n](i => i);
    for i := 0 to n
      invariant perm[..] == Shuffled(n, rnd, i)
    {
      var j := i + rnd(i) % (n - i);
      ghost var before := perm[..];
      perm[i], perm[j] := perm[j], perm[i];
      assert perm[..] == Swapped(before, i, j);
    }
    ShuffledPermutes(n, rnd, n);
  }
}
