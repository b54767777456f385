/** The memory management unit: per-process page tables with LRU counters and one shared
    list of free frames that ends in the mark -1.

    Handle is the effect of one request; class Unit does the same in place, with the loops
    of the program. Owned is the frame-ownership invariant. Recency ties the LRU counters
    of one process to the references it has completed. */
module Mmu {
  import opened Counting

  const END := -9    // the page number a process sends when it is done

  datatype Entry = Entry(page: nat, frame: int, valid: bool, lru: int)

  datatype Table = Table(entries: seq<Entry>, faults: nat, invalid: nat)

  datatype Memory = Memory(tables: seq<Table>, free: seq<int>, time: nat)

  /** What the requester is told: a frame, -1 (page fault), -2 (illegal page), or nothing. */
  datatype Reply = Hit(frame: int) | Fault | Illegal | NoReply

  // ---------------------------------------------------------------- one request

  function Cleared(e: Entry): Entry {
    if e.valid then e.(valid := false, frame := -1) else e
  }

  predicate HeldBelow(entries: seq<Entry>, k: nat, x: int)
    requires k <= |entries|
  {
    exists i :: 0 <= i < k && entries[i].valid && entries[i].frame == x
  }

  function ClearedBelow(entries: seq<Entry>, k: nat): seq<Entry>
    requires k <= |entries|
  {
    seq(|entries|, i requires 0 <= i < |entries| => if i < k then Cleared(entries[i]) else entries[i])
  }

  function FreedBelow(free: seq<int>, entries: seq<Entry>, k: nat): seq<int>
    requires k <= |entries|
  {
    seq(|free|, x requires 0 <= x < |free| => if HeldBelow(entries, k, x) then 0 else free[x])
  }

  /** Frees every frame of a process. */
  function Release(m: Memory, pid: nat): Memory
    requires pid < |m.tables|
  {
    var t := m.tables[pid];
    m.(tables := m.tables[pid := t.(entries := ClearedBelow(t.entries, |t.entries|))],
       free := FreedBelow(m.free, t.entries, |t.entries|))
  }

  function Aged(e: Entry): Entry {
    if e.valid then e.(lru := e.lru + 1) else e
  }

  /** A hit ages every resident page and makes the referenced one new. */
  function Touch(entries: seq<Entry>, page: nat): seq<Entry>
    requires page < |entries|
  {
    seq(|entries|, i requires 0 <= i < |entries| =>
      if i == page then entries[i].(lru := 0) else Aged(entries[i]))
  }

  function Placed(e: Entry, x: int): Entry {
    e.(frame := x, valid := true, lru := 0)
  }

  predicate Terminated(free: seq<int>) {
    |free| > 0 && free[|free| - 1] == -1
  }

  /** The first position at or after x that is not marked occupied. */
  function FirstUnoccupied(free: seq<int>, x: nat): (r: nat)
    requires Terminated(free) && x < |free|
    ensures x <= r < |free| && free[r] != 1
    ensures forall y :: x <= y < r ==> free[y] == 1
    decreases |free| - x
  {
    if free[x] == 1 then FirstUnoccupied(free, x + 1) else x
  }

  /** The resident page with the largest counter among the first k, lowest index first; -1 if none. */
  function Victim(entries: seq<Entry>, k: nat): (v: int)
    requires k <= |entries|
    ensures v == -1 <==> (forall i :: 0 <= i < k ==> !(entries[i].valid && entries[i].lru > -1))
    ensures v != -1 ==> 0 <= v < k && entries[v].valid && entries[v].lru > -1
    ensures v != -1 ==> forall i :: 0 <= i < k && entries[i].valid ==>
              entries[i].lru < entries[v].lru || (entries[i].lru == entries[v].lru && v <= i)
  {
    if k == 0 then -1
    else
      var v := Victim(entries, k - 1);
      if entries[k - 1].valid && entries[k - 1].lru > (if v == -1 then -1 else entries[v].lru) then k - 1 else v
  }

  predicate Request(m: Memory, pid: nat, page: int) {
    pid < |m.tables| && (page == END || 0 <= page) && Terminated(m.free)
  }

  function WithEntries(m: Memory, pid: nat, entries: seq<Entry>): Memory
    requires pid < |m.tables|
  {
    m.(tables := m.tables[pid := m.tables[pid].(entries := entries)])
  }

  /** Accounting of a fault, whatever becomes of it. */
  function Charged(m: Memory, pid: nat): Memory
    requires pid < |m.tables|
  {
    m.(tables := m.tables[pid := m.tables[pid].(faults := m.tables[pid].faults + 1)], time := m.time + 1)
  }

  function Handle(m: Memory, pid: nat, page: int): (Memory, Reply)
    requires Request(m, pid, page)
  {
    var t := m.tables[pid];
    if page == END then (Release(m, pid), NoReply)
    else if page >= |t.entries| then
      (Release(m.(tables := m.tables[pid := t.(invalid := t.invalid + 1)], time := m.time + 1), pid), Illegal)
    else if t.entries[page].valid then
      (WithEntries(m, pid, Touch(t.entries, page)).(time := m.time + 1), Hit(t.entries[page].frame))
    else
      (WithEntries(Charged(m, pid), pid, FaultEntries(m.free, t.entries, page)).(free := FaultFree(m.free)), Fault)
  }

  /** The page goes to the first free frame, else to the victim's; with neither, nowhere. */
  function FaultEntries(free: seq<int>, entries: seq<Entry>, page: nat): seq<Entry>
    requires Terminated(free) && page < |entries|
  {
    var x, v := FirstUnoccupied(free, 0), Victim(entries, |entries|);
    if free[x] == 0 then entries[page := Placed(entries[page], x)]
    else if v == -1 then entries
    else Replaced(entries, v, page)
  }

  function FaultFree(free: seq<int>): seq<int>
    requires Terminated(free)
  {
    var x := FirstUnoccupied(free, 0);
    if free[x] == 0 then free[x := 1] else free
  }

  /** The page takes over the victim's frame. */
  function Replaced(entries: seq<Entry>, v: nat, page: nat): seq<Entry>
    requires v < |entries| && page < |entries|
  {
    entries[v := entries[v].(frame := -1, valid := false)][page := Placed(entries[page], entries[v].frame)]
  }

  // ---------------------------------------------------------------- frame ownership

  ghost predicate Holds(m: Memory, p: int, g: int, x: int) {
    0 <= p < |m.tables| && 0 <= g < |m.tables[p].entries| && m.tables[p].entries[g].valid && m.tables[p].entries[g].frame == x
  }

  ghost predicate Resident(m: Memory, p: int, g: int) {
    0 <= p < |m.tables| && 0 <= g < |m.tables[p].entries| && m.tables[p].entries[g].valid
  }

  ghost predicate Marks(free: seq<int>) {
    Terminated(free) && forall x :: 0 <= x < |free| - 1 ==> free[x] == 0 || free[x] == 1
  }

  ghost predicate EntriesOk(m: Memory) {
    forall p, g :: 0 <= p < |m.tables| && 0 <= g < |m.tables[p].entries| ==> EntryOk(m, m.tables[p].entries[g])
  }

  ghost predicate EntryOk(m: Memory, e: Entry) {
    if e.valid then 0 <= e.frame < |m.free| - 1 && m.free[e.frame] == 1 && e.lru >= 0 else e.frame == -1
  }

  ghost predicate Exclusive(m: Memory) {
    forall p, g, p', g', x :: Holds(m, p, g, x) && Holds(m, p', g', x) ==> p == p' && g == g'
  }

  ghost predicate Accounted(m: Memory) {
    forall x :: 0 <= x < |m.free| && m.free[x] == 1 ==> exists p, g :: Holds(m, p, g, x)
  }

  /** A frame is marked occupied exactly when one page-table entry holds it. */
  ghost predicate Owned(m: Memory) {
    Marks(m.free) && EntriesOk(m) && Exclusive(m) && Accounted(m)
  }

  /** Two memories with the same residency. */
  ghost predicate SameFrames(m: Memory, m': Memory) {
    && m'.free == m.free
    && |m'.tables| == |m.tables|
    && (forall p :: 0 <= p < |m.tables| ==> |m'.tables[p].entries| == |m.tables[p].entries|)
    && (forall p, g :: 0 <= p < |m.tables| && 0 <= g < |m.tables[p].entries| ==>
          && m'.tables[p].entries[g].valid == m.tables[p].entries[g].valid
          && m'.tables[p].entries[g].frame == m.tables[p].entries[g].frame)
  }

  ghost predicate CountersOk(m: Memory) {
    forall p, g :: Resident(m, p, g) ==> m.tables[p].entries[g].lru >= 0
  }

  lemma SameFramesOwned(m: Memory, m': Memory)
    requires Owned(m) && SameFrames(m, m') && CountersOk(m')
    ensures Owned(m')
  {
    forall p, g | 0 <= p < |m'.tables| && 0 <= g < |m'.tables[p].entries|
      ensures EntryOk(m', m'.tables[p].entries[g])
    {
      assert EntryOk(m, m.tables[p].entries[g]);
      assert m'.tables[p].entries[g].valid ==> Resident(m', p, g);
    }
    assert forall p, g, x :: Holds(m', p, g, x) <==> Holds(m, p, g, x);
  }

  lemma ReleaseOwned(m: Memory, pid: nat)
    requires Owned(m) && pid < |m.tables|
    ensures Owned(Release(m, pid))
    ensures forall g :: !Resident(Release(m, pid), pid, g)
  {
    var m' := Release(m, pid);
    var es := m.tables[pid].entries;
    forall x | 0 <= x < |m.free| - 1 || x == -1
      ensures HeldBelow(es, |es|, x) <==> exists g :: Holds(m, pid, g, x)
    {
      if g :| Holds(m, pid, g, x) {
        assert es[g].valid && es[g].frame == x;
      }
      if HeldBelow(es, |es|, x) {
        var g :| 0 <= g < |es| && es[g].valid && es[g].frame == x;
        assert Holds(m, pid, g, x);
      }
    }
    assert forall p, g, x :: Holds(m', p, g, x) <==> Holds(m, p, g, x) && p != pid;
    forall g | 0 <= g < |es|
      ensures EntryOk(m, es[g])
    {
    }
    assert !HeldBelow(es, |es|, |m.free| - 1);
    forall p, g | 0 <= p < |m'.tables| && 0 <= g < |m'.tables[p].entries|
      ensures EntryOk(m', m'.tables[p].entries[g])
    {
      var e := m.tables[p].entries[g];
      assert EntryOk(m, e);
      if p != pid && e.valid {
        assert Holds(m, p, g, e.frame);
        assert forall g' :: !Holds(m, pid, g', e.frame);
      }
    }
    forall x | 0 <= x < |m'.free| && m'.free[x] == 1
      ensures exists p, g :: Holds(m', p, g, x)
    {
      var p, g :| Holds(m, p, g, x);
      assert Holds(m', p, g, x);
    }
  }

  lemma LoadOwned(m: Memory, pid: nat, page: nat, x: nat, m': Memory)
    requires Owned(m) && pid < |m.tables| && page < |m.tables[pid].entries| && !Resident(m, pid, page)
    requires x < |m.free| && m.free[x] == 0
    requires m'.free == m.free[x := 1]
    requires m'.tables == WithEntries(m, pid, m.tables[pid].entries[page := Placed(m.tables[pid].entries[page], x)]).tables
    ensures Owned(m')
  {
    forall p, g | 0 <= p < |m'.tables| && 0 <= g < |m'.tables[p].entries|
      ensures EntryOk(m', m'.tables[p].entries[g])
    {
      assert EntryOk(m, m.tables[p].entries[g]);
    }
    assert forall p, g, y :: Holds(m', p, g, y) <==> Holds(m, p, g, y) || (p == pid && g == page && y == x);
    forall p, g | Resident(m, p, g)
      ensures !Holds(m, p, g, x)
    {
      assert EntryOk(m, m.tables[p].entries[g]);
    }
    forall y | 0 <= y < |m'.free| && m'.free[y] == 1
      ensures exists p, g :: Holds(m', p, g, y)
    {
      if y == x {
        assert Holds(m', pid, page, x);
      } else {
        var p, g :| Holds(m, p, g, y);
        assert Holds(m', p, g, y);
      }
    }
  }

  lemma ReplaceOwned(m: Memory, pid: nat, page: nat, v: nat, m': Memory)
    requires Owned(m) && pid < |m.tables| && page < |m.tables[pid].entries| && !Resident(m, pid, page)
    requires Resident(m, pid, v)
    requires m'.free == m.free
    requires m'.tables == WithEntries(m, pid, Replaced(m.tables[pid].entries, v, page)).tables
    ensures Owned(m')
  {
    var x := m.tables[pid].entries[v].frame;
    assert EntryOk(m, m.tables[pid].entries[v]);
    forall p, g | 0 <= p < |m'.tables| && 0 <= g < |m'.tables[p].entries|
      ensures EntryOk(m', m'.tables[p].entries[g])
    {
      assert EntryOk(m, m.tables[p].entries[g]);
    }
    assert Holds(m, pid, v, x);
    assert forall p, g, y :: Holds(m', p, g, y) <==>
      (Holds(m, p, g, y) && !(p == pid && g == v)) || (p == pid && g == page && y == x);
    forall y | 0 <= y < |m'.free| && m'.free[y] == 1
      ensures exists p, g :: Holds(m', p, g, y)
    {
      var p, g :| Holds(m, p, g, y);
      if p == pid && g == v {
        assert Holds(m', pid, page, y);
      } else {
        assert Holds(m', p, g, y);
      }
    }
  }

  lemma TouchOwned(m: Memory, pid: nat, page: nat, m': Memory)
    requires Owned(m) && pid < |m.tables| && page < |m.tables[pid].entries|
    requires m'.free == m.free && m'.tables == WithEntries(m, pid, Touch(m.tables[pid].entries, page)).tables
    ensures SameFrames(m, m') && Owned(m')
  {
    forall p, g | Resident(m', p, g)
      ensures m'.tables[p].entries[g].lru >= 0
    {
      assert EntryOk(m, m.tables[p].entries[g]);
    }
    SameFramesOwned(m, m');
  }

  lemma AccountingOwned(m: Memory, m': Memory)
    requires Owned(m) && SameFrames(m, m')
    requires forall p :: 0 <= p < |m.tables| ==> m'.tables[p].entries == m.tables[p].entries
    ensures Owned(m')
  {
    forall p, g | Resident(m', p, g)
      ensures m'.tables[p].entries[g].lru >= 0
    {
      assert EntryOk(m, m.tables[p].entries[g]);
    }
    SameFramesOwned(m, m');
  }

  lemma IllegalOwned(m: Memory, pid: nat)
    requires Owned(m) && pid < |m.tables|
    ensures var t := m.tables[pid];
      var m' := Release(m.(tables := m.tables[pid := t.(invalid := t.invalid + 1)], time := m.time + 1), pid);
      Owned(m') && forall g :: !Resident(m', pid, g)
  {
    var t := m.tables[pid];
    var c := m.(tables := m.tables[pid := t.(invalid := t.invalid + 1)], time := m.time + 1);
    AccountingOwned(m, c);
    ReleaseOwned(c, pid);
  }

  lemma FaultOwned(m: Memory, pid: nat, page: nat)
    requires Owned(m) && pid < |m.tables| && page < |m.tables[pid].entries| && !m.tables[pid].entries[page].valid
    ensures var es := FaultEntries(m.free, m.tables[pid].entries, page);
      Owned(WithEntries(Charged(m, pid), pid, es).(free := FaultFree(m.free)))
  {
    var es := m.tables[pid].entries;
    var m' := WithEntries(Charged(m, pid), pid, FaultEntries(m.free, es, page)).(free := FaultFree(m.free));
    var c := Charged(m, pid);
    AccountingOwned(m, c);
    var x, v := FirstUnoccupied(m.free, 0), Victim(es, |es|);
    if m.free[x] == 0 {
      LoadOwned(c, pid, page, x, m');
    } else if v != -1 {
      ReplaceOwned(c, pid, page, v, m');
    } else {
      AccountingOwned(m, m');
    }
  }

  /** Every request keeps frame ownership; the free-frame scan never leaves the list. */
  lemma HandleOwned(m: Memory, pid: nat, page: int)
    requires Owned(m) && pid < |m.tables| && (page == END || 0 <= page)
    ensures Owned(Handle(m, pid, page).0)
    ensures Handle(m, pid, page).1 in {NoReply, Illegal} ==> forall g :: !Resident(Handle(m, pid, page).0, pid, g)
  {
    if page == END {
      ReleaseOwned(m, pid);
    } else if page >= |m.tables[pid].entries| {
      IllegalOwned(m, pid);
    } else if m.tables[pid].entries[page].valid {
      TouchOwned(m, pid, page, Handle(m, pid, page).0);
    } else {
      FaultOwned(m, pid, page);
    }
  }

  /** What the requester is told: a hit exactly when the page is resident, with the occupied
      frame that holds it. */
  lemma HandleAnswers(m: Memory, pid: nat, page: int)
    requires Owned(m) && Request(m, pid, page)
    ensures var (m', reply) := Handle(m, pid, page);
      && (reply.NoReply? <==> page == END)
      && (reply.Illegal? <==> page >= |m.tables[pid].entries|)
      && (reply.Hit? <==> Resident(m, pid, page))
      && (reply.Hit? ==> Holds(m, pid, page, reply.frame) && Holds(m', pid, page, reply.frame))
      && (reply.Hit? ==> 0 <= reply.frame < |m'.free| - 1 && m'.free[reply.frame] == 1)
  {
    if Resident(m, pid, page) {
      assert EntryOk(m, m.tables[pid].entries[page]);
    }
  }

  /** The books: every reference is counted once, faults and illegal references by process;
      no entry is renumbered. */
  lemma HandleCounts(m: Memory, pid: nat, page: int)
    requires Request(m, pid, page)
    ensures var (m', reply) := Handle(m, pid, page); var t, t' := m.tables[pid], m'.tables[pid];
      && m'.time == m.time + (if page == END then 0 else 1)
      && t'.faults == t.faults + (if 0 <= page < |t.entries| && !t.entries[page].valid then 1 else 0)
      && t'.invalid == t.invalid + (if page >= |t.entries| then 1 else 0)
      && |t'.entries| == |t.entries|
      && forall g :: 0 <= g < |t.entries| ==> t'.entries[g].page == t.entries[g].page
  {
  }

  // ---------------------------------------------------------------- recency

  /** The last position of q in the completed references, or -1. */
  ghost function Last(hist: seq<nat>, q: nat): (r: int)
    ensures -1 <= r < |hist|
    ensures r >= 0 ==> hist[r] == q
    ensures forall i :: r < i < |hist| ==> hist[i] != q
  {
    if hist == [] then -1
    else if hist[|hist| - 1] == q then |hist| - 1
    else Last(hist[..|hist| - 1], q)
  }

  lemma LastExtend(hist: seq<nat>, p: nat, q: nat)
    ensures Last(hist + [p], q) == if p == q then |hist| else Last(hist, q)
  {
    assert (hist + [p])[..|hist|] == hist;
  }

  lemma LastInjective(hist: seq<nat>, q: nat, r: nat)
    requires Last(hist, q) == Last(hist, r) >= 0
    ensures q == r
  {
  }

  /** pending is the page loaded by the last fault and not yet referenced again, or -1. */
  ghost predicate Recency(entries: seq<Entry>, hist: seq<nat>, pending: int) {
    && (forall i :: 0 <= i < |hist| ==> hist[i] < |entries|)
    && (pending != -1 ==> 0 <= pending < |entries| && entries[pending].valid && entries[pending].lru == 0)
    && (forall q :: 0 <= q < |entries| && entries[q].valid && q != pending ==>
          entries[q].lru == |hist| - 1 - Last(hist, q))
    && (forall q, r ::
          (0 <= q < |entries| && 0 <= r < |entries| && entries[q].valid && q != pending && Last(hist, r) > Last(hist, q))
          ==> entries[r].valid)
  }

  lemma InitialRecency(entries: seq<Entry>)
    requires forall q :: 0 <= q < |entries| ==> entries[q].lru == 0
    ensures Recency(entries, [], -1)
  {
  }

  /** A completed reference: the page was resident, either all along or through the retry. */
  lemma HitRecency(entries: seq<Entry>, hist: seq<nat>, pending: int, page: nat)
    requires Recency(entries, hist, pending) && page < |entries| && entries[page].valid
    requires pending == -1 || pending == page
    ensures Recency(Touch(entries, page), hist + [page], -1)
  {
    var es := Touch(entries, page);
    forall q | 0 <= q < |es|
      ensures Last(hist + [page], q) == if page == q then |hist| else Last(hist, q)
    {
      LastExtend(hist, page, q);
    }
  }

  lemma LoadRecency(entries: seq<Entry>, hist: seq<nat>, page: nat, x: int)
    requires Recency(entries, hist, -1) && page < |entries| && !entries[page].valid
    ensures Recency(entries[page := Placed(entries[page], x)], hist, page)
  {
  }

  lemma ReplaceRecency(entries: seq<Entry>, hist: seq<nat>, page: nat, v: nat)
    requires Recency(entries, hist, -1) && page < |entries| && !entries[page].valid
    requires Victim(entries, |entries|) == v
    ensures Recency(Replaced(entries, v, page), hist, page)
  {
    var es := Replaced(entries, v, page);
    forall q, r | 0 <= q < |es| && 0 <= r < |es| && es[q].valid && q != page && Last(hist, r) > Last(hist, q)
      ensures es[r].valid
    {
      assert entries[r].valid;
      assert Last(hist, v) <= Last(hist, q);
    }
  }

  /** The victim is the least recently used resident page; a preloaded page that was never
      referenced goes first, lowest page number first. */
  lemma VictimIsLeastRecent(entries: seq<Entry>, hist: seq<nat>)
    requires Recency(entries, hist, -1)
    ensures var v := Victim(entries, |entries|);
      if v == -1 then forall q :: 0 <= q < |entries| ==> !entries[q].valid
      else
        && entries[v].valid
        && forall q :: 0 <= q < |entries| && entries[q].valid && q != v ==>
             if v in hist then Last(hist, v) < Last(hist, q) else q in hist || v < q
  {
    forall q | 0 <= q < |entries| && entries[q].valid
      ensures entries[q].lru >= 0
    {
      assert Last(hist, q) < |hist|;
    }
    var v := Victim(entries, |entries|);
    if v != -1 {
      forall q | 0 <= q < |entries| && entries[q].valid && q != v
        ensures if v in hist then Last(hist, v) < Last(hist, q) else q in hist || v < q
      {
        assert Last(hist, v) <= Last(hist, q);
        if v in hist && Last(hist, v) == Last(hist, q) {
          LastInjective(hist, v, q);
        }
      }
    }
  }

  /** One request of a process that retries after a fault: a hit completes a reference, a
      fault leaves the page pending if it could be loaded, and no other table changes. */
  lemma HandleRecency(m: Memory, pid: nat, page: nat, hist: seq<nat>, pending: int)
    requires Request(m, pid, page) && Recency(m.tables[pid].entries, hist, pending)
    requires pending == -1 || pending == page
    ensures var (m', reply) := Handle(m, pid, page); var es := m'.tables[pid].entries;
      && |es| == |m.tables[pid].entries|
      && (reply.Hit? ==> page < |es| && Recency(es, hist + [page], -1))
      && (reply.Fault? ==> page < |es| && Recency(es, hist, if es[page].valid then page else -1))
      && (reply.Illegal? <==> page >= |es|)
      && !reply.NoReply?
  {
    var entries := m.tables[pid].entries;
    if page >= |entries| {
    } else if entries[page].valid {
      HitRecency(entries, hist, pending, page);
    } else {
      var x := FirstUnoccupied(m.free, 0);
      if m.free[x] == 0 {
        LoadRecency(entries, hist, page, x);
      } else if Victim(entries, |entries|) != -1 {
        ReplaceRecency(entries, hist, page, Victim(entries, |entries|));
      }
    }
  }

  lemma HandleOthers(m: Memory, pid: nat, page: int)
    requires Request(m, pid, page)
    ensures var m' := Handle(m, pid, page).0;
      && |m'.tables| == |m.tables|
      && |m'.tables[pid].entries| == |m.tables[pid].entries|
      && forall p :: 0 <= p < |m.tables| && p != pid ==> m'.tables[p] == m.tables[p]
  {
  }

  // ---------------------------------------------------------------- LRU as a reference definition

  ghost function Pages(hist: seq<nat>): set<nat> {
    set q | q in hist
  }

  /** The pages referenced after the last reference to q. */
  ghost function Newer(hist: seq<nat>, q: nat): set<nat> {
    set r | r in hist && Last(hist, r) > Last(hist, q)
  }

  /** The c most recently referenced distinct pages. */
  ghost function MostRecent(hist: seq<nat>, c: nat): set<nat> {
    set q | q in hist && |Newer(hist, q)| < c
  }

  ghost function ResidentPages(entries: seq<Entry>): set<nat> {
    set q: nat | q < |entries| && entries[q].valid
  }

  /** LRU refinement: between references, the resident pages that were ever referenced are
      exactly the c most recent ones, where c is the number of frames held. */
  lemma ResidentAreMostRecent(entries: seq<Entry>, hist: seq<nat>)
    requires Recency(entries, hist, -1)
    ensures ResidentPages(entries) * Pages(hist) == MostRecent(hist, |ResidentPages(entries)|)
  {
    var res := ResidentPages(entries);
    forall q | q in res && q in hist
      ensures |Newer(hist, q)| < |res|
    {
      assert Newer(hist, q) <= res - {q};
      SubsetSize(Newer(hist, q), res - {q});
    }
    forall q | q in hist && q !in res
      ensures |Newer(hist, q)| >= |res|
    {
      forall r | r in res
        ensures r in Newer(hist, q)
      {
        assert Last(hist, q) >= 0;
        if Last(hist, r) == Last(hist, q) {
          LastInjective(hist, q, r);
        }
        assert Last(hist, r) > Last(hist, q);
      }
      SubsetSize(res, Newer(hist, q));
    }
  }

  /** ... and there are min(c, d) of them, for d distinct pages referenced so far. */
  lemma ResidentCount(entries: seq<Entry>, hist: seq<nat>)
    requires Recency(entries, hist, -1)
    ensures var c, d := |ResidentPages(entries)|, |Pages(hist)|;
      |ResidentPages(entries) * Pages(hist)| == if c < d then c else d
  {
    var res, pages := ResidentPages(entries), Pages(hist);
    SubsetSize(res * pages, res);
    SubsetSize(res * pages, pages);
    if q :| q in res && q !in pages {
      assert Last(hist, q) == -1;
      forall r | r in pages
        ensures r in res
      {
        assert Last(hist, r) > Last(hist, q);
      }
      assert res * pages == pages;
    } else {
      assert res * pages == res;
    }
  }

  /** How the resident set of a process changes when it references a page: a hit changes
      nothing; a fault takes a free frame if there is one, else the least recently used
      resident page gives way (never-referenced preloaded pages first, in index order), else
      nothing is loaded. */
  ghost predicate Outcome(free: seq<int>, before: set<nat>, after: set<nat>, page: nat, hist: seq<nat>) {
    if page in before then after == before
    else if exists x :: 0 <= x < |free| && free[x] == 0 then after == before + {page}
    else if before == {} then after == before
    else exists v :: LeastRecent(before, v, hist) && after == before - {v} + {page}
  }

  ghost predicate LeastRecent(before: set<nat>, v: nat, hist: seq<nat>) {
    && v in before
    && forall q :: q in before && q != v ==> if v in hist then Last(hist, v) < Last(hist, q) else q in hist || v < q
  }

  lemma TouchResidents(es: seq<Entry>, page: nat)
    requires page < |es|
    ensures ResidentPages(Touch(es, page)) == ResidentPages(es)
  {
  }

  lemma LoadResidents(es: seq<Entry>, page: nat, x: int)
    requires page < |es| && !es[page].valid
    ensures ResidentPages(es[page := Placed(es[page], x)]) == ResidentPages(es) + {page}
    ensures |ResidentPages(es) + {page}| == |ResidentPages(es)| + 1
  {
  }

  lemma ReplaceResidents(es: seq<Entry>, page: nat, v: nat)
    requires page < |es| && !es[page].valid && v < |es| && es[v].valid
    ensures ResidentPages(Replaced(es, v, page)) == ResidentPages(es) - {v} + {page}
    ensures |ResidentPages(es) - {v} + {page}| == |ResidentPages(es)|
  {
    var rest := ResidentPages(es) - {v};
    assert page !in rest;
    assert |ResidentPages(es)| == |rest + {v}| == |rest| + 1;
  }

  /** The victim search agrees with recency. */
  ghost predicate VictimFits(es: seq<Entry>, hist: seq<nat>) {
    var v := Victim(es, |es|);
    if v == -1 then ResidentPages(es) == {} else LeastRecent(ResidentPages(es), v, hist)
  }

  lemma RecencyVictim(es: seq<Entry>, hist: seq<nat>)
    requires Recency(es, hist, -1)
    ensures VictimFits(es, hist)
  {
    VictimIsLeastRecent(es, hist);
  }

  lemma LoadOutcome(free: seq<int>, es: seq<Entry>, page: nat, x: nat, hist: seq<nat>)
    requires x < |free| && free[x] == 0 && page < |es| && !es[page].valid
    ensures var before, after := ResidentPages(es), ResidentPages(es[page := Placed(es[page], x)]);
      Outcome(free, before, after, page, hist) && |before| <= |after|
  {
    LoadResidents(es, page, x);
  }

  lemma ReplaceOutcome(free: seq<int>, es: seq<Entry>, page: nat, v: nat, hist: seq<nat>)
    requires (forall x :: 0 <= x < |free| ==> free[x] != 0) && page < |es| && !es[page].valid
    requires v < |es| && LeastRecent(ResidentPages(es), v, hist)
    ensures var before, after := ResidentPages(es), ResidentPages(Replaced(es, v, page));
      Outcome(free, before, after, page, hist) && |before| <= |after|
  {
    ReplaceResidents(es, page, v);
  }

  lemma FaultOutcome(free: seq<int>, es: seq<Entry>, page: nat, hist: seq<nat>)
    requires Marks(free) && VictimFits(es, hist) && page < |es| && !es[page].valid
    ensures var before, after := ResidentPages(es), ResidentPages(FaultEntries(free, es, page));
      Outcome(free, before, after, page, hist) && |before| <= |after|
  {
    var x, v := FirstUnoccupied(free, 0), Victim(es, |es|);
    if free[x] == 0 {
      LoadOutcome(free, es, page, x, hist);
    } else {
      assert x == |free| - 1;
      if v != -1 { ReplaceOutcome(free, es, page, v, hist); }
    }
  }

  lemma HandleOutcome(m: Memory, pid: nat, page: nat, hist: seq<nat>, pending: int)
    requires Request(m, pid, page) && Recency(m.tables[pid].entries, hist, pending)
    requires pending == -1 || pending == page
    requires page < |m.tables[pid].entries| && Marks(m.free)
    ensures var (m', reply) := Handle(m, pid, page);
      var before, after := ResidentPages(m.tables[pid].entries), ResidentPages(m'.tables[pid].entries);
      && Outcome(m.free, before, after, page, hist)
      && |before| <= |after|
      && (reply.Hit? <==> page in before)
  {
    var es := m.tables[pid].entries;
    if es[page].valid {
      TouchResidents(es, page);
    } else {
      RecencyVictim(es, hist);
      FaultOutcome(m.free, es, page, hist);
    }
  }

  // ---------------------------------------------------------------- the request loop's body, in place

  class Unit {
    const tables: array<Table>
    const free: array<int>
    var time: nat

    ghost function View(): Memory
      reads this, tables, free
    {
      Memory(tables[..], free[..], time)
    }

    /** The shared memory as the master set it up. */
    constructor (initial: Memory)
      ensures fresh(tables) && fresh(free) && View() == initial
    {
      tables := new Table[|initial.tables|](i requires 0 <= i < |initial.tables| => initial.tables[i]);
      free := new int[|initial.free|](i requires 0 <= i < |initial.free| => initial.free[i]);
      time := initial.time;
      new;
      assert tables[..] == initial.tables && free[..] == initial.free;
    }

    method SetEntry(pid: nat, i: nat, e: Entry)
      requires pid < tables.Length && i < |tables[pid].entries|
      modifies tables
      ensures tables[..] == old(tables[..])[pid := old(tables[pid]).(entries := old(tables[pid].entries)[i := e])]
    {
      tables[pid] := tables[pid].(entries := tables[pid].entries[i := e]);
    }

    /** Frees the process's frames one entry at a time. */
    method ReleaseFrames(pid: nat)
      requires pid < tables.Length
      requires forall e :: e in tables[pid].entries && e.valid ==> 0 <= e.frame < free.Length
      modifies tables, free
      ensures View() == Release(old(View()), pid)
    {
      ghost var t, before := tables[pid], free[..];
      var i := 0;
      assert ClearedBelow(t.entries, 0) == t.entries;
      while i < |tables[pid].entries|
        invariant i <= |t.entries|
        invariant tables[..] == old(tables[..])[pid := t.(entries := ClearedBelow(t.entries, i))]
        invariant free[..] == FreedBelow(before, t.entries, i)
      {
        ghost var cur := free[..];
        var e := tables[pid].entries[i];
        assert e == t.entries[i];
        if e.valid {
          free[e.frame] := 0;
          SetEntry(pid, i, e.(valid := false, frame := -1));
        }
        i := i + 1;
        assert forall x :: HeldBelow(t.entries, i, x) <==> HeldBelow(t.entries, i - 1, x) || (e.valid && e.frame == x);
        assert free[..] == FreedBelow(before, t.entries, i);
        assert tables[pid].entries == ClearedBelow(t.entries, i);
      }
    }

    /** Ages every resident page, then renews the referenced one. */
    method TouchPage(pid: nat, page: nat)
      requires pid < tables.Length && page < |tables[pid].entries|
      modifies tables
      ensures tables[..] == WithEntries(old(View()), pid, Touch(old(tables[pid].entries), page)).tables
    {
      ghost var t := tables[pid];
      var i := 0;
      while i < |tables[pid].entries|
        invariant i <= |t.entries|
        invariant tables[..] == old(tables[..])[pid := t.(entries := tables[pid].entries)]
        invariant |tables[pid].entries| == |t.entries|
        invariant forall j :: 0 <= j < |t.entries| ==> tables[pid].entries[j] == if j < i then Aged(t.entries[j]) else t.entries[j]
      {
        var e := tables[pid].entries[i];
        if e.valid {
          SetEntry(pid, i, e.(lru := e.lru + 1));
        }
        i := i + 1;
      }
      SetEntry(pid, page, tables[pid].entries[page].(lru := 0));
      assert tables[pid].entries == Touch(t.entries, page);
    }

    method FindFree() returns (cur: nat)
      requires Terminated(free[..])
      ensures cur == FirstUnoccupied(free[..], 0)
    {
      cur := 0;
      while free[cur] == 1
        invariant cur < free.Length && FirstUnoccupied(free[..], cur) == FirstUnoccupied(free[..], 0)
        decreases free.Length - cur
      {
        cur := cur + 1;
      }
    }

    method FindVictim(pid: nat) returns (page: int)
      requires pid < tables.Length
      ensures page == Victim(tables[pid].entries, |tables[pid].entries|)
    {
      var max := -1;
      page := -1;
      var i := 0;
      while i < |tables[pid].entries|
        invariant i <= |tables[pid].entries| && page == Victim(tables[pid].entries, i)
        invariant max == if page == -1 then -1 else tables[pid].entries[page].lru
      {
        var e := tables[pid].entries[i];
        if e.valid && e.lru > max {
          max := e.lru;
          page := i;
        }
        i := i + 1;
      }
    }

    /** A page fault: a free frame, else the victim's, else nothing. */
    method LoadPage(pid: nat, page: nat)
      requires pid < tables.Length && page < |tables[pid].entries| && Terminated(free[..])
      modifies tables, free
      ensures free[..] == FaultFree(old(free[..]))
      ensures tables[..] == old(tables[..])[pid := Table(FaultEntries(old(free[..]), old(tables[pid].entries), page),
                                                         old(tables[pid].faults) + 1, old(tables[pid].invalid))]
    {
      ghost var es := tables[pid].entries;
      tables[pid] := tables[pid].(faults := tables[pid].faults + 1);
      var cur := FindFree();
      if free[cur] == 0 {
        SetEntry(pid, page, tables[pid].entries[page].(frame := cur, valid := true, lru := 0));
        free[cur] := 1;
      } else {
        var victim := FindVictim(pid);
        if victim != -1 {
          var frame := tables[pid].entries[victim].frame;
          SetEntry(pid, victim, tables[pid].entries[victim].(frame := -1, valid := false));
          SetEntry(pid, page, tables[pid].entries[page].(frame := frame, valid := true, lru := 0));
          assert tables[pid].entries == Replaced(es, victim, page);
        }
      }
    }

    /** One turn of the request loop. */
    method Serve(pid: nat, page: int) returns (reply: Reply)
      requires Request(View(), pid, page) && Owned(View())
      modifies this, tables, free
      ensures (View(), reply) == Handle(old(View()), pid, page)
      ensures reply.Hit? ==> Holds(View(), pid, page, reply.frame) && Holds(old(View()), pid, page, reply.frame)
    {
      HandleAnswers(View(), pid, page);
      ghost var m := View();
      ghost var t := tables[pid];
      forall i | 0 <= i < |t.entries|
        ensures t.entries[i].valid ==> 0 <= t.entries[i].frame < free.Length
      {
        assert EntryOk(m, m.tables[pid].entries[i]);
      }
      if page == END {
        ReleaseFrames(pid);
        reply := NoReply;
      } else if page >= |tables[pid].entries| {
        tables[pid] := tables[pid].(invalid := tables[pid].invalid + 1);
        time := time + 1;
        ReleaseFrames(pid);
        reply := Illegal;
      } else if tables[pid].entries[page].valid {
        TouchPage(pid, page);
        reply := Hit(tables[pid].entries[page].frame);
        time := time + 1;
      } else {
        LoadPage(pid, page);
        reply := Fault;
        time := time + 1;
        assert View().tables == Handle(m, pid, page).0.tables;
      }
    }
  }
}
