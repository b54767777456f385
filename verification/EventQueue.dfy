/** The arrival queue of the doctor's session: an array-based binary heap of events
    ordered by (time, kind), where a reporter goes before a patient and a patient
    before a sales representative.

    The sequence functions (SiftDown, SiftUp, Heapify, Insert, DeleteMin) say what the
    loops of the class compute; everything promised about the heap is proved of them. */
module EventQueue {

  datatype Event = Event(kind: char, time: int, duration: int)

  /** Priority of an event kind at equal times: reporter, patient, sales rep, anything else. */
  function Rank(kind: char): nat {
    if kind == 'R' then 0 else if kind == 'P' then 1 else if kind == 'S' then 2 else 3
  }

  /** The order the session wants: earlier first, ties by kind. */
  predicate AtMost(a: Event, b: Event) {
    a.time < b.time || (a.time == b.time && Rank(a.kind) <= Rank(b.kind))
  }

  /** The comparison is negative on equal keys, so it is not antisymmetric; it still decides
      AtMost in one direction each way, which is all the loops below need. */
  function EventCmp(e1: Event, e2: Event): (c: int)
    ensures c < 0 <==> AtMost(e1, e2) && (AtMost(e2, e1) ==> Rank(e1.kind) < 3)
    ensures c == 0 <==> e1.time == e2.time && Rank(e1.kind) == Rank(e2.kind) == 3
    ensures c >= 0 ==> AtMost(e2, e1)
  {
    if e1.time < e2.time then -1
    else if e1.time > e2.time then 1
    else if e1.kind == 'R' then -1
    else if e2.kind == 'R' then 1
    else if e1.kind == 'P' then -1
    else if e2.kind == 'P' then 1
    else if e1.kind == 'S' then -1
    else if e2.kind == 'S' then 1
    else 0
  }

  // ---------------------------------------------------------------- heap order

  function Parent(c: nat): nat
    requires c > 0
  {
    (c - 1) / 2
  }

  predicate Edge(q: seq<Event>, c: nat)
    requires 0 < c < |q|
  {
    AtMost(q[Parent(c)], q[c])
  }

  /** Heap order for all edges whose parent is at lo or later. */
  predicate HeapFrom(q: seq<Event>, lo: nat) {
    forall c :: 0 < c < |q| && lo <= Parent(c) ==> Edge(q, c)
  }

  predicate Heap(q: seq<Event>) {
    HeapFrom(q, 0)
  }

  lemma {:induction false} HeapMinAt(q: seq<Event>, i: nat)
    requires Heap(q) && i < |q|
    ensures AtMost(q[0], q[i])
  {
    if i > 0 {
      HeapMinAt(q, Parent(i));
      assert Edge(q, i);
    }
  }

  /** A heap's first element is a minimum. */
  lemma HeapMin(q: seq<Event>)
    requires Heap(q) && q != []
    ensures forall e :: e in q ==> AtMost(q[0], e)
  {
    forall i | 0 <= i < |q|
      ensures AtMost(q[0], q[i])
    {
      HeapMinAt(q, i);
    }
  }

  // ---------------------------------------------------------------- sift down

  function Swap(q: seq<Event>, i: nat, j: nat): (r: seq<Event>)
    requires i < |q| && j < |q|
    ensures |r| == |q|
  {
    q[i := q[j]][j := q[i]]
  }

  function SmallerChild(q: seq<Event>, i: nat): (m: nat)
    requires 2 * i + 1 < |q|
    ensures i < m < |q| && Parent(m) == i
    ensures forall c :: 0 < c < |q| && Parent(c) == i ==> AtMost(q[m], q[c])
  {
    var l, r := 2 * i + 1, 2 * i + 2;
    if r == |q| || EventCmp(q[l], q[r]) < 0 then l else r
  }

  function SiftDown(q: seq<Event>, i: nat): (r: seq<Event>)
    ensures |r| == |q|
    decreases |q| - i
  {
    if 2 * i + 1 >= |q| then q
    else
      var m := SmallerChild(q, i);
      if EventCmp(q[i], q[m]) < 0 then q else SiftDown(Swap(q, i, m), m)
  }

  /** Sifting only rearranges. */
  lemma {:induction false} SiftDownPermutes(q: seq<Event>, i: nat)
    ensures multiset(SiftDown(q, i)) == multiset(q)
    decreases |q| - i
  {
    if 2 * i + 1 < |q| && EventCmp(q[i], q[SmallerChild(q, i)]) >= 0 {
      SiftDownPermutes(Swap(q, i, SmallerChild(q, i)), SmallerChild(q, i));
    }
  }

  /** Heap order below lo, except possibly between hole and its children. */
  predicate HeapBelow(q: seq<Event>, lo: nat, hole: nat) {
    && (forall c :: 0 < c < |q| && lo <= Parent(c) && Parent(c) != hole ==> Edge(q, c))
    && (forall c :: 0 < c < |q| && Parent(c) == hole && 0 < hole && lo <= Parent(hole) ==>
          AtMost(q[Parent(hole)], q[c]))
  }

  lemma {:induction false} SiftDownRestores(q: seq<Event>, lo: nat, i: nat)
    requires HeapBelow(q, lo, i) && lo <= i
    ensures HeapFrom(SiftDown(q, i), lo)
    decreases |q| - i
  {
    if 2 * i + 1 < |q| {
      var m := SmallerChild(q, i);
      if EventCmp(q[i], q[m]) >= 0 {
        var q' := Swap(q, i, m);
        forall c | 0 < c < |q'| && lo <= Parent(c) && Parent(c) != m
          ensures Edge(q', c)
        {
          if c != i && Parent(c) != i {
            assert Edge(q, c);
          } else if c == i {
            assert AtMost(q[Parent(i)], q[m]);
          }
        }
        forall c | 0 < c < |q'| && Parent(c) == m
          ensures AtMost(q'[Parent(m)], q'[c])
        {
          assert Edge(q, c);
        }
        SiftDownRestores(q', lo, m);
      }
    }
  }

  // ---------------------------------------------------------------- sift up

  function SiftUp(q: seq<Event>, i: nat): (r: seq<Event>)
    requires i < |q|
    ensures |r| == |q|
    decreases i
  {
    if i == 0 || EventCmp(q[Parent(i)], q[i]) < 0 then q
    else SiftUp(Swap(q, i, Parent(i)), Parent(i))
  }

  lemma {:induction false} SiftUpPermutes(q: seq<Event>, i: nat)
    requires i < |q|
    ensures multiset(SiftUp(q, i)) == multiset(q)
    decreases i
  {
    if i > 0 && EventCmp(q[Parent(i)], q[i]) >= 0 {
      SiftUpPermutes(Swap(q, i, Parent(i)), Parent(i));
    }
  }

  /** Heap order except possibly on the edge into i. */
  predicate HeapExceptInto(q: seq<Event>, i: nat) {
    && (forall c :: 0 < c < |q| && c != i ==> Edge(q, c))
    && (forall c :: 0 < c < |q| && 0 < i && Parent(c) == i ==> AtMost(q[Parent(i)], q[c]))
  }

  lemma {:induction false} SiftUpRestores(q: seq<Event>, i: nat)
    requires i < |q| && HeapExceptInto(q, i)
    ensures Heap(SiftUp(q, i))
    decreases i
  {
    if i > 0 && EventCmp(q[Parent(i)], q[i]) >= 0 {
      var p := Parent(i);
      var q' := Swap(q, i, p);
      forall c | 0 < c < |q'| && c != p
        ensures Edge(q', c)
      {
        if c != i && Parent(c) != p && Parent(c) != i {
          assert Edge(q, c);
        } else if Parent(c) == p && c != i {
          assert Edge(q, c);
        }
      }
      forall c | 0 < c < |q'| && 0 < p && Parent(c) == p
        ensures AtMost(q'[Parent(p)], q'[c])
      {
        assert Edge(q, p);
        if c != i {
          assert Edge(q, c);
        }
      }
      SiftUpRestores(q', p);
    }
  }

  // ---------------------------------------------------------------- the queue operations

  /** Heapify positions j-1 down to 0. */
  function HeapifyFrom(q: seq<Event>, j: nat): (r: seq<Event>)
    ensures |r| == |q|
    decreases j
  {
    if j == 0 then q else HeapifyFrom(SiftDown(q, j - 1), j - 1)
  }

  function Heapify(q: seq<Event>): (r: seq<Event>)
    ensures |r| == |q|
  {
    HeapifyFrom(q, |q| / 2)
  }

  function Insert(q: seq<Event>, e: Event): (r: seq<Event>)
    ensures |r| == |q| + 1
  {
    SiftUp(q + [e], |q|)
  }

  /** The last event replaces the first. */
  function LastToFront(q: seq<Event>): (r: seq<Event>)
    requires q != []
    ensures |r| == |q| - 1
  {
    q[0 := q[|q| - 1]][..|q| - 1]
  }

  function DeleteMin(q: seq<Event>): (r: seq<Event>)
    ensures |r| == if q == [] then 0 else |q| - 1
  {
    if q == [] then [] else SiftDown(LastToFront(q), 0)
  }

  lemma {:induction false} HeapifyFromCorrect(q: seq<Event>, j: nat)
    requires HeapFrom(q, j)
    ensures Heap(HeapifyFrom(q, j)) && multiset(HeapifyFrom(q, j)) == multiset(q)
    decreases j
  {
    if j > 0 {
      SiftDownRestores(q, j - 1, j - 1);
      SiftDownPermutes(q, j - 1);
      HeapifyFromCorrect(SiftDown(q, j - 1), j - 1);
    }
  }

  /** Building the queue yields a heap of exactly the input events. */
  lemma HeapifyCorrect(q: seq<Event>)
    ensures Heap(Heapify(q)) && multiset(Heapify(q)) == multiset(q)
  {
    HeapifyFromCorrect(q, |q| / 2);
  }

  /** Inserting keeps the heap and adds exactly one event. */
  lemma InsertCorrect(q: seq<Event>, e: Event)
    requires Heap(q)
    ensures Heap(Insert(q, e)) && multiset(Insert(q, e)) == multiset(q) + multiset{e}
  {
    var q' := q + [e];
    forall c | 0 < c < |q'| && c != |q|
      ensures Edge(q', c)
    {
      assert Edge(q, c);
    }
    SiftUpRestores(q', |q|);
    SiftUpPermutes(q', |q|);
  }

  lemma LastToFrontPermutes(q: seq<Event>)
    requires q != []
    ensures multiset(q) == multiset(LastToFront(q)) + multiset{q[0]}
  {
    if |q| > 1 {
      var mid, last := q[1..|q| - 1], q[|q| - 1];
      assert q == [q[0]] + (mid + [last]);
      assert LastToFront(q) == [last] + mid;
    } else {
      assert q == [q[0]];
    }
  }

  lemma DeleteMinPermutes(q: seq<Event>)
    requires q != []
    ensures multiset(q) == multiset(DeleteMin(q)) + multiset{q[0]}
  {
    SiftDownPermutes(LastToFront(q), 0);
    LastToFrontPermutes(q);
  }

  /** Deleting keeps the heap and removes exactly one minimum. */
  lemma DeleteMinCorrect(q: seq<Event>)
    requires Heap(q) && q != []
    ensures Heap(DeleteMin(q))
    ensures multiset(q) == multiset(DeleteMin(q)) + multiset{q[0]}
    ensures forall e :: e in DeleteMin(q) ==> e in q && AtMost(q[0], e)
  {
    var q' := LastToFront(q);
    forall c | 0 < c < |q'| && Parent(c) != 0
      ensures Edge(q', c)
    {
      assert Edge(q, c);
    }
    SiftDownRestores(q', 0, 0);
    DeleteMinPermutes(q);
    HeapMin(q);
    forall e | e in DeleteMin(q)
      ensures e in q
    {
      assert e in multiset(DeleteMin(q));
      assert e in multiset(q);
    }
  }

  // ---------------------------------------------------------------- draining

  /** What a caller sees by repeatedly taking the next event and deleting it. */
  function Drain(q: seq<Event>): seq<Event>
    decreases |q|
  {
    if q == [] then [] else [q[0]] + Drain(DeleteMin(q))
  }

  ghost predicate Sorted(s: seq<Event>) {
    forall i, j :: 0 <= i < j < |s| ==> AtMost(s[i], s[j])
  }

  lemma {:induction false} DrainPermutes(q: seq<Event>)
    ensures multiset(Drain(q)) == multiset(q)
    decreases |q|
  {
    if q != [] {
      DrainPermutes(DeleteMin(q));
      DeleteMinPermutes(q);
    }
  }

  lemma {:induction false} DrainSorts(q: seq<Event>)
    requires Heap(q)
    ensures Sorted(Drain(q))
    decreases |q|
  {
    if q != [] {
      DeleteMinCorrect(q);
      DrainSorts(DeleteMin(q));
      DrainPermutes(DeleteMin(q));
      SortedCons(q[0], Drain(DeleteMin(q)), DeleteMin(q));
    }
  }

  lemma SortedCons(e: Event, s: seq<Event>, q: seq<Event>)
    requires Sorted(s) && multiset(s) == multiset(q) && forall d :: d in q ==> AtMost(e, d)
    ensures Sorted([e] + s)
  {
    forall j | 0 <= j < |s|
      ensures AtMost(e, s[j])
    {
      assert s[j] in multiset(q);
    }
  }

  /** The order in which events leave the queue is a sorted permutation of the file. */
  lemma DrainHeapify(q: seq<Event>)
    ensures Sorted(Drain(Heapify(q))) && multiset(Drain(Heapify(q))) == multiset(q)
  {
    HeapifyCorrect(q);
    DrainSorts(Heapify(q));
    DrainPermutes(Heapify(q));
  }

  // ---------------------------------------------------------------- the array implementation

  const CAPACITY := 128

  /** The event file: records up to the first one of kind 'E'. */
  function Records(file: seq<Event>): (r: seq<Event>)
    ensures r <= file && (forall e :: e in r ==> e.kind != 'E')
    ensures |r| < |file| ==> file[|r|].kind == 'E'
  {
    if file == [] || file[0].kind == 'E' then [] else [file[0]] + Records(file[1..])
  }

  class EventQ {
    var n: nat
    const Q: array<Event>

    ghost predicate Valid()
      reads this
    {
      n <= Q.Length
    }

    ghost function Contents(): seq<Event>
      reads this, Q
      requires Valid()
    {
      Q[..n]
    }

    /** Reads the records before the end mark and heapifies them in place. */
    constructor (file: seq<Event>)
      requires exists i :: 0 <= i < |file| && file[i].kind == 'E'
      requires |Records(file)| <= CAPACITY
      ensures Valid() && fresh(Q) && Q.Length == CAPACITY
      ensures Contents() == Heapify(Records(file))
    {
      n := 0;
      Q := new Event[CAPACITY](_ => Event('E', 0, 0));
      new;
      Load(file);
      HeapifyInPlace();
    }

    /** Appends the records before the end mark, in file order. */
    method Load(file: seq<Event>)
      requires n == 0 && exists i :: 0 <= i < |file| && file[i].kind == 'E'
      requires |Records(file)| <= Q.Length
      modifies this, Q
      ensures Valid() && Contents() == Records(file)
    {
      ghost var records := Records(file);
      assert |records| < |file|;
      while file[n].kind != 'E'
        invariant n <= |records| && Q[..n] == records[..n]
        decreases |records| - n
      {
        assert n < |records|;
        Q[n] := file[n];
        n := n + 1;
        assert Q[..n] == Q[..n - 1] + [records[n - 1]];
      }
      assert n == |records|;
    }

    /** Sifts the inner nodes down, last one first. */
    method HeapifyInPlace()
      requires Valid()
      modifies Q
      ensures Contents() == Heapify(old(Contents()))
    {
      ghost var q0 := Contents();
      var j := n / 2;
      while j > 0
        invariant 0 <= j <= n / 2
        invariant HeapifyFrom(Contents(), j) == Heapify(q0)
      {
        j := j - 1;
        SiftDownInPlace(j);
      }
    }

    method SwapInPlace(i: nat, j: nat)
      requires i < Q.Length && j < Q.Length
      modifies Q
      ensures forall k :: i < k <= Q.Length && j < k ==> Q[..k] == Swap(old(Q[..k]), i, j)
    {
      Q[i], Q[j] := Q[j], Q[i];
    }

    /** The loop shared by building and deleting. */
    method SiftDownInPlace(start: nat)
      requires Valid()
      modifies Q
      ensures Contents() == SiftDown(old(Contents()), start)
    {
      var i := start;
      while true
        invariant SiftDown(Q[..n], i) == SiftDown(old(Q[..n]), start)
        decreases n - i
      {
        var l, r := 2 * i + 1, 2 * i + 2;
        if l >= n { break; }
        var m := if r == n || EventCmp(Q[l], Q[r]) < 0 then l else r;
        if EventCmp(Q[i], Q[m]) < 0 { break; }
        ghost var before := Q[..n];
        assert m == SmallerChild(before, i);
        SwapInPlace(i, m);
        i := m;
      }
    }

    predicate Empty()
      reads this
    {
      n == 0
    }

    /** The next event, or an end mark when there is none. */
    function Next(): (e: Event)
      reads this, Q
      requires Valid()
      ensures n == 0 ==> e.kind == 'E'
      ensures n > 0 ==> e == Contents()[0]
    {
      if n == 0 then Event('E', 0, 0) else Q[0]
    }

    method Add(e: Event)
      requires Valid() && n < Q.Length
      modifies this, Q
      ensures Valid() && Contents() == Insert(old(Contents()), e)
    {
      Q[n] := e;
      ghost var grown := old(Q[..n]) + [e];
      assert Q[..n + 1] == grown;
      var i := n;
      while i != 0
        invariant 0 <= i <= n < Q.Length
        invariant |Q[..n + 1]| == |grown| == n + 1
        invariant SiftUp(Q[..n + 1], i) == SiftUp(grown, n)
      {
        var p := (i - 1) / 2;
        if EventCmp(Q[p], Q[i]) < 0 { break; }
        SwapInPlace(i, p);
        i := p;
      }
      n := n + 1;
    }

    method Delete()
      requires Valid()
      modifies this, Q
      ensures Valid() && Contents() == DeleteMin(old(Contents()))
    {
      if n > 0 {
        ghost var before := Q[..n];
        Q[0] := Q[n - 1];
        n := n - 1;
        assert Q[..n] == LastToFront(before);
        SiftDownInPlace(0);
      }
    }
  }
}
