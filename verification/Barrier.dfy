/** The counting barrier of the thread library: an inner mutex semaphore, a count, and a wait
    semaphore that the last arrival loads with max - 1 tokens. One step is one semaphore
    operation or one access to the count. Any number of threads, any number of uses.

    arrivals, releases, passes and finals are history: threads counted in, times the wait
    semaphore was loaded, returns of threads that took a token, and returns of last arrivals. */
module Barrier {
  import opened Counting

  datatype Data = Data(max: nat, waiting: nat, wait: int, mtx: int,
                       arrivals: nat, releases: nat, passes: nat, finals: nat)

  /** Where a thread stands with respect to the barrier. */
  datatype Pc =
    | Idle        // about to lock the mutex, or elsewhere
    | Entering    // about to count itself in
    | Comparing   // about to compare the count with max
    | Loading     // last arrival: about to load the wait semaphore
    | Resetting   // last arrival: about to reset the count
    | Leaving     // last arrival: about to unlock and return
    | Unlocking   // not last: about to unlock
    | Blocked     // waiting for a token, then returning

  function Fresh(max: nat): Data {
    Data(max, 0, 0, 1, 0, 0, 0, 0)
  }

  /** semop with a negative amount waits for enough, with amount 0 for the value 0, and a
      positive amount never waits (semop(), System Interfaces volume of POSIX.1-2017). */
  predicate CanStep(d: Data, pc: Pc) {
    match pc
    case Idle => d.mtx >= 1
    case Loading => d.max == 1 ==> d.wait == 0
    case Blocked => d.wait >= 1
    case _ => true
  }

  function StepData(d: Data, pc: Pc): Data {
    match pc
    case Idle => d.(mtx := d.mtx - 1)
    case Entering => d.(waiting := d.waiting + 1, arrivals := d.arrivals + 1)
    case Comparing => d
    case Loading => d.(wait := d.wait + (d.max - 1), releases := d.releases + 1)
    case Resetting => d.(waiting := 0)
    case Leaving => d.(mtx := d.mtx + 1, finals := d.finals + 1)
    case Unlocking => d.(mtx := d.mtx + 1)
    case Blocked => d.(wait := d.wait - 1, passes := d.passes + 1)
  }

  function StepPc(d: Data, pc: Pc): Pc {
    match pc
    case Idle => Entering
    case Entering => Comparing
    case Comparing => if d.waiting == d.max then Loading else Unlocking
    case Loading => Resetting
    case Resetting => Leaving
    case Leaving => Idle
    case Unlocking => Blocked
    case Blocked => Idle
  }

  // ---------------------------------------------------------------- invariant

  predicate Inside(pc: Pc) {
    pc != Idle && pc != Blocked
  }

  /** Counted in and not yet returned. */
  predicate Counted(pc: Pc) {
    pc != Idle && pc != Entering
  }

  /** Past the loading of the tokens. */
  predicate Closing(pc: Pc) {
    pc == Resetting || pc == Leaving
  }

  ghost function InsideWeight(pcs: seq<Pc>): nat -> int {
    t => if 0 <= t < |pcs| && Inside(pcs[t]) then 1 else 0
  }

  ghost function CountedWeight(pcs: seq<Pc>): nat -> int {
    t => if 0 <= t < |pcs| && Counted(pcs[t]) then 1 else 0
  }

  ghost function ClosingWeight(pcs: seq<Pc>): nat -> int {
    t => if 0 <= t < |pcs| && Closing(pcs[t]) then 1 else 0
  }

  ghost function BlockedWeight(pcs: seq<Pc>): nat -> int {
    t => if 0 <= t < |pcs| && pcs[t] == Blocked then 1 else 0
  }

  /** max * releases, added up. */
  function Due(max: nat, releases: nat): nat {
    if releases == 0 then 0 else Due(max, releases - 1) + max
  }

  lemma {:induction false} DueIsProduct(max: nat, releases: nat)
    ensures Due(max, releases) == max * releases
  {
    if releases > 0 { DueIsProduct(max, releases - 1); }
  }

  /** Arrivals that no release has consumed yet. */
  function Pending(d: Data, resetting: bool): int {
    if resetting then 0 else d.waiting
  }

  ghost predicate SomeAt(pcs: seq<Pc>, pc: Pc) {
    exists t :: 0 <= t < |pcs| && pcs[t] == pc
  }

  /** The numbers of a barrier, given how many threads are inside the mutex, counted in and not
      returned, and past the loading, and whether one is comparing, loading or resetting. */
  ghost predicate Tally(d: Data, inside: int, counted: int, closing: int, comparing: bool, loading: bool, resetting: bool) {
    && d.mtx == 1 - inside && 0 <= d.mtx
    && d.arrivals == Due(d.max, d.releases) + Pending(d, resetting)
    && d.arrivals == d.passes + d.finals + counted
    && d.releases == d.finals + closing
    && d.wait == Due(d.max, d.releases) - d.releases - d.passes && 0 <= d.wait
    && (loading || resetting ==> d.waiting == d.max)
    && (loading || resetting || comparing ==> d.waiting > 0)
    && (d.max > 0 ==> d.waiting <= d.max)
    && (d.max > 0 && d.waiting == d.max ==> comparing || loading || resetting)
  }

  ghost predicate Inv(d: Data, pcs: seq<Pc>) {
    Tally(d, Sum(|pcs|, InsideWeight(pcs)), Sum(|pcs|, CountedWeight(pcs)), Sum(|pcs|, ClosingWeight(pcs)),
          SomeAt(pcs, Comparing), SomeAt(pcs, Loading), SomeAt(pcs, Resetting))
  }

  lemma FreshInv(max: nat, pcs: seq<Pc>)
    requires forall t :: 0 <= t < |pcs| ==> pcs[t] == Idle
    ensures Inv(Fresh(max), pcs)
  {
    SumZero(|pcs|, InsideWeight(pcs));
    SumZero(|pcs|, CountedWeight(pcs));
    SumZero(|pcs|, ClosingWeight(pcs));
  }

  /** All sums move with the one thread that steps. */
  lemma SumsMove(pcs: seq<Pc>, t: nat, pc: Pc)
    requires t < |pcs|
    ensures var pcs' := pcs[t := pc];
      && Sum(|pcs|, InsideWeight(pcs')) == Sum(|pcs|, InsideWeight(pcs)) - InsideWeight(pcs)(t) + InsideWeight(pcs')(t)
      && Sum(|pcs|, CountedWeight(pcs')) == Sum(|pcs|, CountedWeight(pcs)) - CountedWeight(pcs)(t) + CountedWeight(pcs')(t)
      && Sum(|pcs|, ClosingWeight(pcs')) == Sum(|pcs|, ClosingWeight(pcs)) - ClosingWeight(pcs)(t) + ClosingWeight(pcs')(t)
  {
    var pcs' := pcs[t := pc];
    SumChange(|pcs|, InsideWeight(pcs), InsideWeight(pcs'), t);
    SumChange(|pcs|, CountedWeight(pcs), CountedWeight(pcs'), t);
    SumChange(|pcs|, ClosingWeight(pcs), ClosingWeight(pcs'), t);
  }

  /** At most one thread holds the mutex. */
  lemma OneInside(d: Data, pcs: seq<Pc>, t: nat, u: nat)
    requires Inv(d, pcs) && t < |pcs| && u < |pcs| && Inside(pcs[t]) && Inside(pcs[u])
    ensures t == u
  {
    if t != u {
      var rest := (i: nat) => if i == t then 0 else InsideWeight(pcs)(i);
      SumChange(|pcs|, rest, InsideWeight(pcs), t);
      SumAtLeast(|pcs|, rest, u);
    }
  }

  /** While t is inside, the only inside pc anywhere is that of t, before and after its step. */
  lemma OnlyAt(d: Data, pcs: seq<Pc>, t: nat, pc': Pc, pc: Pc)
    requires Inv(d, pcs) && t < |pcs| && Inside(pcs[t]) && Inside(pc)
    ensures SomeAt(pcs, pc) <==> pcs[t] == pc
    ensures SomeAt(pcs[t := pc'], pc) <==> pc' == pc
  {
    forall u | 0 <= u < |pcs| && Inside(pcs[u])
      ensures u == t
    {
      OneInside(d, pcs, t, u);
    }
    if pc' == pc { assert pcs[t := pc'][t] == pc; }
  }

  function Bit(b: bool): int {
    if b then 1 else 0
  }

  ghost predicate TallyAfter(d: Data, pc: Pc, inside: int, counted: int, closing: int)
    requires Inside(pc)
  {
    var d', pc' := StepData(d, pc), StepPc(d, pc);
    Tally(d', inside - 1 + Bit(Inside(pc')), counted - Bit(Counted(pc)) + Bit(Counted(pc')),
          closing - Bit(Closing(pc)) + Bit(Closing(pc')), pc' == Comparing, pc' == Loading, pc' == Resetting)
  }

  /** The arithmetic of one step of the thread inside the mutex. */
  lemma InsideTally(d: Data, pc: Pc, inside: int, counted: int, closing: int)
    requires Inside(pc) && CanStep(d, pc)
    requires Tally(d, inside, counted, closing, pc == Comparing, pc == Loading, pc == Resetting)
    ensures TallyAfter(d, pc, inside, counted, closing)
  {
  }

  lemma InsideSteps(d: Data, pcs: seq<Pc>, t: nat)
    requires Inv(d, pcs) && t < |pcs| && CanStep(d, pcs[t]) && Inside(pcs[t])
    ensures Inv(StepData(d, pcs[t]), pcs[t := StepPc(d, pcs[t])])
  {
    var pc' := StepPc(d, pcs[t]);
    SumsMove(pcs, t, pc');
    OnlyAt(d, pcs, t, pc', Comparing);
    OnlyAt(d, pcs, t, pc', Loading);
    OnlyAt(d, pcs, t, pc', Resetting);
    InsideTally(d, pcs[t], Sum(|pcs|, InsideWeight(pcs)), Sum(|pcs|, CountedWeight(pcs)), Sum(|pcs|, ClosingWeight(pcs)));
  }

  lemma OutsideSteps(d: Data, pcs: seq<Pc>, t: nat)
    requires Inv(d, pcs) && t < |pcs| && CanStep(d, pcs[t]) && !Inside(pcs[t])
    ensures Inv(StepData(d, pcs[t]), pcs[t := StepPc(d, pcs[t])])
  {
    var pcs' := pcs[t := StepPc(d, pcs[t])];
    SumsMove(pcs, t, StepPc(d, pcs[t]));
    forall pc | pc == Comparing || pc == Loading || pc == Resetting
      ensures SomeAt(pcs', pc) <==> SomeAt(pcs, pc)
    {
      if SomeAt(pcs, pc) {
        var u :| 0 <= u < |pcs| && pcs[u] == pc;
        assert pcs'[u] == pc;
      }
    }
  }

  /** Every step of any thread keeps the invariant. */
  lemma StepInv(d: Data, pcs: seq<Pc>, t: nat)
    requires Inv(d, pcs) && t < |pcs| && CanStep(d, pcs[t])
    ensures Inv(StepData(d, pcs[t]), pcs[t := StepPc(d, pcs[t])])
  {
    if Inside(pcs[t]) { InsideSteps(d, pcs, t); } else { OutsideSteps(d, pcs, t); }
  }

  // ---------------------------------------------------------------- what the barrier promises

  /** Total returns never exceed max * releases, which never exceeds arrivals; and when the
      mutex is free arrivals are exactly max * releases plus the count. */
  lemma TokenCount(d: Data, pcs: seq<Pc>)
    requires Inv(d, pcs)
    ensures d.passes + d.finals <= Due(d.max, d.releases) <= d.arrivals
    ensures d.mtx == 1 ==> d.arrivals == Due(d.max, d.releases) + d.waiting
    ensures d.mtx == 1 && d.max > 0 ==> d.waiting < d.max
  {
    SumNonneg(|pcs|, ClosingWeight(pcs));
    if d.mtx == 1 {
      forall t | 0 <= t < |pcs|
        ensures !Inside(pcs[t])
      {
        SumAtLeast(|pcs|, InsideWeight(pcs), t);
      }
    }
  }

  /** With the mutex free there is one token or one uncompleted arrival per blocked thread:
      once a round is complete nobody is left behind. */
  lemma TokensForBlocked(d: Data, pcs: seq<Pc>)
    requires Inv(d, pcs) && d.mtx == 1
    ensures Sum(|pcs|, BlockedWeight(pcs)) == d.wait + d.waiting
  {
    TokenCount(d, pcs);
    forall t | 0 <= t < |pcs|
      ensures !Inside(pcs[t])
    {
      SumAtLeast(|pcs|, InsideWeight(pcs), t);
    }
    SumZero(|pcs|, ClosingWeight(pcs));
    SumSame(|pcs|, CountedWeight(pcs), BlockedWeight(pcs));
  }

  /** A thread inside the mutex is never stopped, not even by the zero-token release of a
      barrier for one. */
  lemma InsideCanStep(d: Data, pcs: seq<Pc>, t: nat)
    requires Inv(d, pcs) && t < |pcs| && Inside(pcs[t])
    ensures CanStep(d, pcs[t])
  {
    DueIsProduct(d.max, d.releases);
  }
}
