/** Who is admitted when there is not room for all: whoever comes first. */
module SessionOrder {
  import opened EventQueue
  import opened Session

  ghost predicate AllAtMost(a: seq<Event>, e: Event) {
    forall i :: 0 <= i < |a| ==> AtMost(a[i], e)
  }

  /** Everybody taken off the queue so far goes before e. */
  ghost predicate TakenBefore(r: Register, e: Event) {
    AllAtMost(r.rep.args, e) && AllAtMost(r.pat.args, e) && AllAtMost(r.sal.args, e) && AllAtMost(r.away, e)
  }

  /** Those turned away for the quota of a kind come after all admitted of that kind. */
  ghost predicate FirstComeFirst(l: Intake, k: Kind, away: seq<Event>) {
    forall j :: 0 <= j < |away| && KindOf(away[j]) == k ==> AllAtMost(l.args, away[j])
  }

  ghost predicate InOrder(r: Register) {
    && Sorted(r.rep.args) && Sorted(r.pat.args) && Sorted(r.sal.args) && Sorted(r.away) && Sorted(r.late)
    && FirstComeFirst(r.pat, Patient, r.away) && FirstComeFirst(r.sal, Sales, r.away)
    && (forall e :: e in r.queue ==> TakenBefore(r, e))
  }

  lemma SortedSnoc(s: seq<Event>, e: Event)
    requires Sorted(s) && AllAtMost(s, e)
    ensures Sorted(s + [e])
  {
  }

  /** While there is room nobody of the kind has been turned away. */
  lemma {:induction false} NobodyCounted(q: seq<Event>, k: Kind)
    requires CountKind(q, k) == 0
    ensures forall i :: 0 <= i < |q| ==> KindOf(q[i]) != k
  {
    if q != [] { NobodyCounted(q[..|q| - 1], k); }
  }

  lemma ArriveFirst(k: Kind, l: Intake, e: Event, away: seq<Event>, away': seq<Event>)
    requires FirstComeFirst(l, k, away) && AllAtMost(l.args, e) && (!Full(k, l.total) ==> CountKind(away, k) == 0)
    requires away' == if Full(k, l.total) then away + [e] else away
    ensures FirstComeFirst(Arrive(k, l, e), k, away')
  {
    if !Full(k, l.total) { NobodyCounted(away, k); }
  }

  lemma MovedBefore(r: Register, e: Event, rest: seq<Event>, d: Event)
    requires TakenBefore(r, d) && AtMost(e, d)
    ensures TakenBefore(Moved(r, e, rest), d)
  {
  }

  lemma MovedSorted(r: Register, e: Event, rest: seq<Event>)
    requires Sorted(r.rep.args) && Sorted(r.pat.args) && Sorted(r.sal.args) && Sorted(r.away) && TakenBefore(r, e)
    ensures var r' := Moved(r, e, rest);
      Sorted(r'.rep.args) && Sorted(r'.pat.args) && Sorted(r'.sal.args) && Sorted(r'.away)
  {
    SortedSnoc(r.rep.args, e);
    SortedSnoc(r.pat.args, e);
    SortedSnoc(r.sal.args, e);
    SortedSnoc(r.away, e);
  }

  lemma MovedFirst(file: seq<Event>, r: Register, e: Event, rest: seq<Event>)
    requires KindsCounted(file, r) && TakenBefore(r, e)
    requires FirstComeFirst(r.pat, Patient, r.away) && FirstComeFirst(r.sal, Sales, r.away)
    ensures var r' := Moved(r, e, rest); FirstComeFirst(r'.pat, Patient, r'.away) && FirstComeFirst(r'.sal, Sales, r'.away)
  {
    match KindOf(e)
    case Reporter =>
    case Patient => ArriveFirst(Patient, r.pat, e, r.away, Moved(r, e, rest).away);
    case Sales => ArriveFirst(Sales, r.sal, e, r.away, Moved(r, e, rest).away);
  }

  lemma MovedInOrder(file: seq<Event>, r: Register, e: Event, rest: seq<Event>)
    requires KindsCounted(file, r) && InOrder(r) && e in r.queue && forall d :: d in rest ==> d in r.queue && AtMost(e, d)
    ensures InOrder(Moved(r, e, rest))
  {
    MovedSorted(r, e, rest);
    MovedFirst(file, r, e, rest);
    forall d | d in rest
      ensures TakenBefore(Moved(r, e, rest), d)
    {
      MovedBefore(r, e, rest, d);
    }
  }

  lemma DismissedInOrder(r: Register, rest: seq<Event>)
    requires InOrder(r) && r.late == [] && Sorted(rest)
    ensures InOrder(Dismissed(r, rest))
  {
    assert [] + rest == rest;
  }

  lemma StepInOrder(file: seq<Event>, s: State, step: Step)
    requires Inv(file, s) && InOrder(s.reg) && Enabled(s, step)
    ensures InOrder(Apply(s, step).reg)
  {
    if step == Assist {
      if Arrives(s) {
        DeleteMinCorrect(s.reg.queue);
        assert s.reg.queue[0] in s.reg.queue;
        MovedInOrder(file, s.reg, s.reg.queue[0], DeleteMin(s.reg.queue));
      } else if s.phase == Over {
        DrainSorts(s.reg.queue);
        DismissedInOrder(s.reg, Drain(s.reg.queue));
      }
    } else {
      assert Apply(s, step).reg == s.reg;
    }
  }

  /** In every reachable state the visitors of each kind were admitted in the order of the heap,
      those turned away were so in that order, and nobody was turned away for a quota who goes
      before somebody admitted under it. */
  lemma {:induction false} RunInOrder(file: seq<Event>, run: seq<State>)
    requires IsRun(file, run)
    ensures InOrder(run[|run| - 1].reg)
  {
    if |run| > 1 {
      var init := run[..|run| - 1];
      RunInOrder(file, init);
      RunInv(file, init);
      assert Next(run[|init| - 1], run[|init| - 1 + 1]);
      var step :| Enabled(run[|init| - 1], step) && run[|init|] == Apply(run[|init| - 1], step);
      StepInOrder(file, run[|init| - 1], step);
    }
  }
}
