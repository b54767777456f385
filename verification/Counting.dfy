/** Finite sums and counting facts shared by the protocol models. */
module Counting {

  /** f(0) + ... + f(n-1) */
  ghost function Sum(n: nat, f: nat -> int): int {
    if n == 0 then 0 else Sum(n - 1, f) + f(n - 1)
  }

  lemma {:induction false} SumSame(n: nat, f: nat -> int, g: nat -> int)
    requires forall i :: 0 <= i < n ==> f(i) == g(i)
    ensures Sum(n, f) == Sum(n, g)
  {
    if n > 0 { SumSame(n - 1, f, g); }
  }

  /** Two sums whose summands differ at one place only. */
  lemma {:induction false} SumChange(n: nat, f: nat -> int, g: nat -> int, k: nat)
    requires k < n && forall i :: 0 <= i < n && i != k ==> f(i) == g(i)
    ensures Sum(n, g) == Sum(n, f) - f(k) + g(k)
  {
    if k == n - 1 {
      SumSame(n - 1, f, g);
    } else {
      SumChange(n - 1, f, g, k);
    }
  }

  lemma {:induction false} SumNonneg(n: nat, f: nat -> int)
    requires forall i :: 0 <= i < n ==> 0 <= f(i)
    ensures 0 <= Sum(n, f)
  {
    if n > 0 { SumNonneg(n - 1, f); }
  }

  /** A sum of naturals is at least each summand. */
  lemma {:induction false} SumAtLeast(n: nat, f: nat -> int, k: nat)
    requires k < n && forall i :: 0 <= i < n ==> 0 <= f(i)
    ensures f(k) <= Sum(n, f)
  {
    if k == n - 1 {
      SumNonneg(n - 1, f);
    } else {
      SumAtLeast(n - 1, f, k);
    }
  }

  /** 0/1 summands adding up to n are all 1. */
  lemma {:induction false} SumBounded(n: nat, f: nat -> int)
    requires forall i :: 0 <= i < n ==> f(i) <= 1
    ensures Sum(n, f) <= n
    ensures Sum(n, f) == n ==> forall i :: 0 <= i < n ==> f(i) == 1
  {
    if n > 0 { SumBounded(n - 1, f); }
  }

  lemma {:induction false} SumConstant(n: nat, f: nat -> int, v: int)
    requires forall i :: 0 <= i < n ==> f(i) == v
    ensures Sum(n, f) == n * v
  {
    if n > 0 { SumConstant(n - 1, f, v); }
  }

  lemma SumZero(n: nat, f: nat -> int)
    requires forall i :: 0 <= i < n ==> f(i) == 0
    ensures Sum(n, f) == 0
  {
    SumConstant(n, f, 0);
  }

  lemma SumOnes(n: nat, f: nat -> int)
    requires forall i :: 0 <= i < n ==> f(i) == 1
    ensures Sum(n, f) == n
  {
    SumConstant(n, f, 1);
  }

  lemma MulMono(a: nat, b: nat, c: nat)
    requires a <= b
    ensures a * c <= b * c
  {
  }

  /** The set {0, ..., n-1}. */
  function Below(n: nat): (s: set<nat>)
    ensures forall i :: i in s <==> 0 <= i < n
    ensures |s| == n
  {
    if n == 0 then {} else Below(n - 1) + {n - 1}
  }

  lemma {:induction false} SubsetSize<T>(a: set<T>, b: set<T>)
    requires a <= b
    ensures |a| <= |b|
    ensures |a| == |b| ==> a == b
  {
    if a != {} {
      var x :| x in a;
      SubsetSize(a - {x}, b - {x});
    }
  }

  /** A sequence of distinct numbers below n has at most n elements, and lists all of them
      when it has n. */
  lemma DistinctBelow(s: seq<nat>, n: nat)
    requires forall i :: 0 <= i < |s| ==> s[i] < n
    requires forall i, j :: 0 <= i < j < |s| ==> s[i] != s[j]
    ensures |s| <= n
    ensures |s| == n ==> forall v :: 0 <= v < n ==> v in s
  {
    var elems := Elements(s);
    DistinctSize(s);
    SubsetSize(elems, Below(n));
    if |s| == n {
      forall v | 0 <= v < n
        ensures v in s
      {
        assert v in elems;
      }
    }
  }

  function Elements(s: seq<nat>): set<nat> {
    set x | x in s
  }

  lemma {:induction false} DistinctSize(s: seq<nat>)
    requires forall i, j :: 0 <= i < j < |s| ==> s[i] != s[j]
    ensures |Elements(s)| == |s|
  {
    if s != [] {
      var init, last := s[..|s| - 1], s[|s| - 1];
      DistinctSize(init);
      assert s == init + [last];
      assert Elements(s) == Elements(init) + {last};
      assert last !in init;
    }
  }

  /** More numbers than values: two of them coincide. */
  lemma Pigeonhole(s: seq<nat>, n: nat) returns (i: nat, j: nat)
    requires |s| > n && forall k :: 0 <= k < |s| ==> s[k] < n
    ensures i < j < |s| && s[i] == s[j]
  {
    if forall a, b :: 0 <= a < b < |s| ==> s[a] != s[b] {
      DistinctBelow(s, n);
      assert false;
    }
    i, j :| 0 <= i < j < |s| && s[i] == s[j];
  }

  /** A positive sum has a positive summand. */
  lemma {:induction false} SumPositive(n: nat, f: nat -> int) returns (i: nat)
    requires Sum(n, f) > 0
    ensures i < n && f(i) > 0
  {
    if f(n - 1) > 0 {
      i := n - 1;
    } else {
      i := SumPositive(n - 1, f);
    }
  }
}
