/** The master's set-up of the paging system: page tables, free-frame list and the
    proportional split of f frames over the processes. */
module Master {
  import opened Counting
  import opened Mmu

  /** Pages of the first i processes. */
  function PagesBelow(sizes: seq<nat>, i: nat): nat
    requires i <= |sizes|
  {
    if i == 0 then 0 else PagesBelow(sizes, i - 1) + sizes[i - 1]
  }

  function TotalPages(sizes: seq<nat>): nat {
    PagesBelow(sizes, |sizes|)
  }

  /** At least one page each, and no more frames than pages. */
  predicate ValidSplit(sizes: seq<nat>, f: nat) {
    (forall s :: s in sizes ==> s >= 1) && 1 <= f <= TotalPages(sizes)
  }

  lemma {:induction false} PagesGrow(sizes: seq<nat>, i: nat, j: nat)
    requires i <= j <= |sizes|
    ensures PagesBelow(sizes, i) <= PagesBelow(sizes, j)
  {
    if i < j { PagesGrow(sizes, i, j - 1); }
  }

  /** Frames given to process i. */
  function Share(sizes: seq<nat>, f: nat, i: nat): nat
    requires ValidSplit(sizes, f) && i < |sizes|
  {
    f * sizes[i] / TotalPages(sizes)
  }

  /** Frames given to the first i processes. */
  function SharesBelow(sizes: seq<nat>, f: nat, i: nat): nat
    requires ValidSplit(sizes, f) && i <= |sizes|
  {
    if i == 0 then 0 else SharesBelow(sizes, f, i - 1) + Share(sizes, f, i - 1)
  }

  function InitialTable(sizes: seq<nat>, f: nat, i: nat): Table
    requires ValidSplit(sizes, f) && i < |sizes|
  {
    Table(PartTable(sizes[i], SharesBelow(sizes, f, i), Share(sizes, f, i)), 0, 0)
  }

  /** A table of `size` pages whose first `share` pages sit in consecutive frames from base. */
  function PartTable(size: nat, base: nat, share: nat): seq<Entry> {
    seq(size, j requires 0 <= j => if j < share then Entry(j, base + j, true, 0) else Entry(j, -1, false, 0))
  }

  function FreeList(f: nat, used: nat): seq<int> {
    seq(f + 1, x => if x == f then -1 else if x < used then 1 else 0)
  }

  function InitialMemory(sizes: seq<nat>, f: nat): Memory
    requires ValidSplit(sizes, f)
  {
    Memory(seq(|sizes|, i requires 0 <= i < |sizes| => InitialTable(sizes, f, i)),
           FreeList(f, SharesBelow(sizes, f, |sizes|)), 0)
  }

  // ---------------------------------------------------------------- the split fits

  lemma DivBounds(a: nat, b: nat)
    requires b > 0
    ensures a / b * b <= a < a / b * b + b
  {
  }

  lemma MulCancel(a: nat, b: nat, c: nat)
    requires a * c <= b * c && c > 0
    ensures a <= b
  {
    if b + 1 <= a { MulMono(b + 1, a, c); }
  }

  lemma AddParts(c: nat, a: nat, b: nat)
    ensures c * (a + b) == c * a + c * b && (a + b) * c == a * c + b * c
  {
  }

  /** No process gets more frames than it has pages. */
  lemma ShareFits(sizes: seq<nat>, f: nat, i: nat)
    requires ValidSplit(sizes, f) && i < |sizes|
    ensures Share(sizes, f, i) <= sizes[i]
  {
    var t := TotalPages(sizes);
    DivBounds(f * sizes[i], t);
    MulMono(f, t, sizes[i]);
    MulCancel(Share(sizes, f, i), sizes[i], t);
  }

  /** The share is the proportional part, rounded down. */
  lemma ShareExact(sizes: seq<nat>, f: nat, i: nat)
    requires ValidSplit(sizes, f) && i < |sizes|
    ensures Share(sizes, f, i) * TotalPages(sizes) <= f * sizes[i] < (Share(sizes, f, i) + 1) * TotalPages(sizes)
  {
    DivBounds(f * sizes[i], TotalPages(sizes));
  }

  lemma {:induction false} SharesProportional(sizes: seq<nat>, f: nat, i: nat)
    requires ValidSplit(sizes, f) && i <= |sizes|
    ensures SharesBelow(sizes, f, i) * TotalPages(sizes) <= f * PagesBelow(sizes, i)
  {
    if i > 0 {
      SharesProportional(sizes, f, i - 1);
      ShareExact(sizes, f, i - 1);
      AddParts(f, PagesBelow(sizes, i - 1), sizes[i - 1]);
      AddParts(TotalPages(sizes), SharesBelow(sizes, f, i - 1), Share(sizes, f, i - 1));
    }
  }

  /** The shares never add up to more than f. */
  lemma SharesFit(sizes: seq<nat>, f: nat, i: nat)
    requires ValidSplit(sizes, f) && i <= |sizes|
    ensures SharesBelow(sizes, f, i) <= f
  {
    var t := TotalPages(sizes);
    SharesProportional(sizes, f, i);
    PagesGrow(sizes, i, |sizes|);
    MulMono(PagesBelow(sizes, i), t, f);
    MulCancel(SharesBelow(sizes, f, i), f, t);
  }

  /** Who has at least as many pages never gets fewer frames. */
  lemma ShareMonotone(sizes: seq<nat>, f: nat, i: nat, j: nat)
    requires ValidSplit(sizes, f) && i < |sizes| && j < |sizes| && sizes[i] <= sizes[j]
    ensures Share(sizes, f, i) <= Share(sizes, f, j)
  {
    ShareExact(sizes, f, i);
    ShareExact(sizes, f, j);
    MulMono(sizes[i], sizes[j], f);
    if Share(sizes, f, i) > Share(sizes, f, j) {
      MulMono(Share(sizes, f, j) + 1, Share(sizes, f, i), TotalPages(sizes));
    }
  }

  lemma {:induction false} SharesNearlyProportional(sizes: seq<nat>, f: nat, i: nat)
    requires ValidSplit(sizes, f) && 0 < i <= |sizes|
    ensures f * PagesBelow(sizes, i) < (SharesBelow(sizes, f, i) + i) * TotalPages(sizes)
  {
    ShareExact(sizes, f, i - 1);
    if i > 1 { SharesNearlyProportional(sizes, f, i - 1); }
    AddParts(f, PagesBelow(sizes, i - 1), sizes[i - 1]);
    AddParts(TotalPages(sizes), SharesBelow(sizes, f, i - 1) + i - 1, Share(sizes, f, i - 1) + 1);
  }

  /** Fewer frames stay free than there are processes. */
  lemma FewLeftOver(sizes: seq<nat>, f: nat)
    requires ValidSplit(sizes, f)
    ensures 0 <= f - SharesBelow(sizes, f, |sizes|) < |sizes|
  {
    SharesFit(sizes, f, |sizes|);
    assert |sizes| > 0;
    SharesNearlyProportional(sizes, f, |sizes|);
    if f >= SharesBelow(sizes, f, |sizes|) + |sizes| {
      MulMono(SharesBelow(sizes, f, |sizes|) + |sizes|, f, TotalPages(sizes));
    }
  }

  lemma {:induction false} SharesGrow(sizes: seq<nat>, f: nat, i: nat, j: nat)
    requires ValidSplit(sizes, f) && i <= j <= |sizes|
    ensures SharesBelow(sizes, f, i) <= SharesBelow(sizes, f, j)
  {
    if i < j { SharesGrow(sizes, f, i, j - 1); }
  }

  /** The process a used frame was given to. */
  lemma {:induction false} ShareOwner(sizes: seq<nat>, f: nat, n: nat, x: nat) returns (p: nat)
    requires ValidSplit(sizes, f) && n <= |sizes| && x < SharesBelow(sizes, f, n)
    ensures p < n && SharesBelow(sizes, f, p) <= x < SharesBelow(sizes, f, p) + Share(sizes, f, p)
  {
    if x >= SharesBelow(sizes, f, n - 1) {
      p := n - 1;
    } else {
      p := ShareOwner(sizes, f, n - 1, x);
    }
  }

  /** The initial memory owns its frames properly. */
  lemma InitialOwned(sizes: seq<nat>, f: nat)
    requires ValidSplit(sizes, f)
    ensures Owned(InitialMemory(sizes, f))
  {
    var m, n := InitialMemory(sizes, f), |sizes|;
    SharesFit(sizes, f, n);
    forall p, g, x | Holds(m, p, g, x)
      ensures g < Share(sizes, f, p) && x == SharesBelow(sizes, f, p) + g < SharesBelow(sizes, f, p + 1) <= SharesBelow(sizes, f, n)
    {
      SharesGrow(sizes, f, p + 1, n);
    }
    forall p, g | 0 <= p < |m.tables| && 0 <= g < |m.tables[p].entries|
      ensures EntryOk(m, m.tables[p].entries[g])
    {
      assert Holds(m, p, g, m.tables[p].entries[g].frame) || !m.tables[p].entries[g].valid;
    }
    forall p, g, p', g', x | Holds(m, p, g, x) && Holds(m, p', g', x)
      ensures p == p' && g == g'
    {
      if p < p' { SharesGrow(sizes, f, p + 1, p'); }
      if p' < p { SharesGrow(sizes, f, p' + 1, p); }
    }
    forall x | 0 <= x < |m.free| && m.free[x] == 1
      ensures exists p, g :: Holds(m, p, g, x)
    {
      var p := ShareOwner(sizes, f, n, x);
      ShareFits(sizes, f, p);
      assert Holds(m, p, x - SharesBelow(sizes, f, p), x);
    }
  }

  /** The first c pages are resident, in consecutive frames from base; nothing has been used. */
  ghost predicate Preloaded(entries: seq<Entry>, base: nat, c: nat) {
    && c <= |entries| && ResidentPages(entries) == Below(c)
    && (forall q :: 0 <= q < |entries| ==> entries[q].page == q && entries[q].lru == 0)
    && (forall q :: 0 <= q < c ==> entries[q].valid && entries[q].frame == base + q)
  }

  lemma PartPreloaded(size: nat, base: nat, share: nat)
    requires share <= size
    ensures Preloaded(PartTable(size, base, share), base, share)
  {
  }

  /** Every process starts with its first pages resident, as many as its share, in consecutive
      frames after those of the processes before it. */
  lemma InitialResidents(sizes: seq<nat>, f: nat, i: nat)
    requires ValidSplit(sizes, f) && i < |sizes|
    ensures var t := InitialMemory(sizes, f).tables[i];
      && |t.entries| == sizes[i] && t.faults == t.invalid == 0
      && Preloaded(t.entries, SharesBelow(sizes, f, i), Share(sizes, f, i))
  {
    ShareFits(sizes, f, i);
    PartPreloaded(sizes[i], SharesBelow(sizes, f, i), Share(sizes, f, i));
  }

  /** The number of resident pages is f * pages / total, rounded down. */
  ghost predicate Proportional(entries: seq<Entry>, f: nat, pages: nat, total: nat) {
    |ResidentPages(entries)| * total <= f * pages < (|ResidentPages(entries)| + 1) * total
  }

  lemma InitialProportional(sizes: seq<nat>, f: nat, i: nat)
    requires ValidSplit(sizes, f) && i < |sizes|
    ensures Proportional(InitialMemory(sizes, f).tables[i].entries, f, sizes[i], TotalPages(sizes))
  {
    InitialResidents(sizes, f, i);
    ProportionalFrom(InitialMemory(sizes, f).tables[i].entries, sizes, f, i);
  }

  lemma ProportionalFrom(entries: seq<Entry>, sizes: seq<nat>, f: nat, i: nat)
    requires ValidSplit(sizes, f) && i < |sizes| && |ResidentPages(entries)| == Share(sizes, f, i)
    ensures Proportional(entries, f, sizes[i], TotalPages(sizes))
  {
    ShareExact(sizes, f, i);
  }

  // ---------------------------------------------------------------- the loops of the master

  /** The table of process p once the first i processes have been given their frames. */
  function TableAfter(sizes: seq<nat>, f: nat, i: nat, p: nat): Table
    requires ValidSplit(sizes, f) && p < |sizes|
  {
    if p < i then InitialTable(sizes, f, p) else Table(PartTable(sizes[p], 0, 0), 0, 0)
  }

  method SetUp(sizes: seq<nat>, f: nat) returns (tables: array<Table>, free: array<int>)
    requires ValidSplit(sizes, f)
    ensures fresh(tables) && fresh(free)
    ensures Memory(tables[..], free[..], 0) == InitialMemory(sizes, f)
    ensures tables.Length == |sizes|
    ensures forall i :: 0 <= i < |sizes| ==> Proportional(tables[i].entries, f, sizes[i], TotalPages(sizes))
  {
    var k := |sizes|;
    tables := new Table[k](i requires 0 <= i < k => Table(PartTable(sizes[i], 0, 0), 0, 0));
    free := new int[f + 1](x => if x == f then -1 else 0);
    var total := 0;
    for i := 0 to k
      invariant total == PagesBelow(sizes, i)
    {
      total := total + sizes[i];
    }
    var next := 0;
    for i := 0 to k
      invariant next == SharesBelow(sizes, f, i)
      invariant forall p :: 0 <= p < k ==> tables[p] == TableAfter(sizes, f, i, p)
      invariant free[..] == FreeList(f, next)
    {
      var frames := f * sizes[i] / total;
      assert frames == Share(sizes, f, i);
      ShareFits(sizes, f, i);
      SharesFit(sizes, f, i + 1);
      assert free.Length == |free[..]|;
      next := Grant(tables, free, i, frames, next, f);
    }
    assert tables[..] == InitialMemory(sizes, f).tables;
    forall i | 0 <= i < |sizes|
      ensures Proportional(tables[i].entries, f, sizes[i], total)
    {
      InitialProportional(sizes, f, i);
    }
  }

  /** Gives process i its frames, from next on. */
  method Grant(tables: array<Table>, free: array<int>, i: nat, frames: nat, next: nat, f: nat) returns (end: nat)
    requires i < tables.Length && free.Length == f + 1 && next + frames <= f
    requires frames <= |tables[i].entries| && tables[i] == Table(PartTable(|tables[i].entries|, 0, 0), 0, 0)
    requires free[..] == FreeList(f, next)
    modifies tables, free
    ensures end == next + frames && free[..] == FreeList(f, end)
    ensures tables[i] == Table(PartTable(|old(tables[i]).entries|, next, frames), 0, 0)
    ensures forall p :: 0 <= p < tables.Length && p != i ==> tables[p] == old(tables[p])
  {
    var size: nat := |tables[i].entries|;
    end := next;
    assert tables[i].entries == PartTable(size, next, 0);
    for j := 0 to frames
      invariant end == next + j
      invariant forall p :: 0 <= p < tables.Length && p != i ==> tables[p] == old(tables[p])
      invariant tables[i] == Table(PartTable(size, next, j), 0, 0)
      invariant free[..] == FreeList(f, end)
    {
      var t := tables[i];
      tables[i] := t.(entries := t.entries[j := t.entries[j].(frame := end, valid := true)]);
      assert tables[i].entries == PartTable(size, next, j + 1);
      free[end] := 1;
      end := end + 1;
      assert free[..] == FreeList(f, end);
    }
  }
}
