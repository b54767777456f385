/** Whole runs of n threads over one barrier, from a fresh one on. */
module BarrierRuns {
  import opened Barrier

  datatype State = State(d: Data, pcs: seq<Pc>)

  ghost predicate Next(s: State, s': State) {
    exists t :: 0 <= t < |s.pcs| && CanStep(s.d, s.pcs[t])
      && s' == State(StepData(s.d, s.pcs[t]), s.pcs[t := StepPc(s.d, s.pcs[t])])
  }

  ghost predicate IsRun(n: nat, max: nat, run: seq<State>) {
    && |run| > 0
    && run[0].d == Fresh(max) && |run[0].pcs| == n && (forall t :: 0 <= t < n ==> run[0].pcs[t] == Idle)
    && forall k :: 0 <= k < |run| - 1 ==> Next(run[k], run[k + 1])
  }

  lemma {:induction false} RunInv(n: nat, max: nat, run: seq<State>)
    requires IsRun(n, max, run)
    ensures Inv(run[|run| - 1].d, run[|run| - 1].pcs) && |run[|run| - 1].pcs| == n && run[|run| - 1].d.max == max
  {
    if |run| == 1 {
      FreshInv(max, run[0].pcs);
    } else {
      RunInv(n, max, run[..|run| - 1]);
      var s := run[|run| - 2];
      assert Next(s, run[|run| - 2 + 1]);
      var t :| 0 <= t < |s.pcs| && CanStep(s.d, s.pcs[t])
        && run[|run| - 1] == State(StepData(s.d, s.pcs[t]), s.pcs[t := StepPc(s.d, s.pcs[t])]);
      StepInv(s.d, s.pcs, t);
    }
  }

  /** In every run, for any number of threads and uses, returns never exceed max * releases,
      which never exceed arrivals; so nobody returns before max threads have arrived. */
  lemma RunTokens(n: nat, max: nat, run: seq<State>)
    requires IsRun(n, max, run)
    ensures var d := run[|run| - 1].d;
      && d.passes + d.finals <= max * d.releases <= d.arrivals
      && (d.mtx == 1 ==> d.arrivals == max * d.releases + d.waiting)
      && (d.passes + d.finals > 0 ==> d.arrivals >= max)
  {
    RunInv(n, max, run);
    var d := run[|run| - 1].d;
    TokenCount(d, run[|run| - 1].pcs);
    DueIsProduct(max, d.releases);
    assert d.releases > 0 ==> Due(max, d.releases) >= max;
  }
}
