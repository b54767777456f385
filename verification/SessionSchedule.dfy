/** When the consultations of a session take place: one after the other, never before the
    visitor has come, and in the order of urgency among those who have. */
module SessionSchedule {
  import opened EventQueue
  import opened Session

  /** Nobody takes a negative time. */
  ghost predicate Forward(q: seq<Event>) {
    forall i :: 0 <= i < |q| ==> q[i].duration >= 0
  }

  ghost predicate CameBy(l: Intake, now: int) {
    forall i :: 0 <= i < |l.args| ==> l.args[i].time <= now
  }

  /** A visit lasts as long as its event says, after nine, after its arrival, and before now. */
  ghost predicate VisitOk(r: Register, v: Visit, now: int) {
    && v.id < |IntakeOf(r, v.kind).args|
    && IntakeOf(r, v.kind).args[v.id].time <= v.start <= v.end <= now && 0 <= v.start
    && v.end == v.start + IntakeOf(r, v.kind).args[v.id].duration
  }

  /** When visit i started, everybody more urgent who had come by then had been in. */
  ghost predicate Fair(r: Register, log: seq<Visit>, i: nat)
    requires i < |log|
  {
    forall k: Kind, id: nat ::
      (MoreUrgent(k, log[i].kind) && id < |IntakeOf(r, k).args| && IntakeOf(r, k).args[id].time <= log[i].start) ==>
        HasVisit(log[..i], k, id)
  }

  ghost predicate Timely(r: Register, log: seq<Visit>, now: int) {
    && Forward(r.queue) && Forward(r.rep.args) && Forward(r.pat.args) && Forward(r.sal.args)
    && CameBy(r.rep, now) && CameBy(r.pat, now) && CameBy(r.sal, now)
    && (forall i :: 0 <= i < |log| ==> VisitOk(r, log[i], now))
    && (forall i, j :: 0 <= i < j < |log| ==> log[i].end <= log[j].start)
    && (forall i, j :: 0 <= i < |log| && 0 <= j < |r.queue| ==> log[i].start < r.queue[j].time)
    && (forall i :: 0 <= i < |log| ==> Fair(r, log, i))
  }

  ghost predicate OnTime(s: State) {
    Timely(s.reg, s.log, s.now) && 0 <= s.now && (s.phase == NotStarted ==> s.now == 0)
  }

  lemma ForwardPart(q: seq<Event>, rest: seq<Event>)
    requires Forward(q) && multiset(rest) <= multiset(q)
    ensures Forward(rest)
  {
    forall i | 0 <= i < |rest|
      ensures rest[i].duration >= 0
    {
      assert rest[i] in multiset(q);
    }
  }

  lemma InitialOnTime(file: seq<Event>)
    requires Forward(file)
    ensures OnTime(InitialState(file))
  {
    HeapifyCorrect(file);
    ForwardPart(file, Heapify(file));
  }

  lemma IntakeGrows(r: Register, e: Event, rest: seq<Event>, k: Kind)
    ensures IntakeOf(r, k).args <= IntakeOf(Moved(r, e, rest), k).args
    ensures IntakeOf(Moved(r, e, rest), k).args == IntakeOf(r, k).args || IntakeOf(Moved(r, e, rest), k).args == IntakeOf(r, k).args + [e]
  {
  }

  lemma MovedTimely(r: Register, log: seq<Visit>, now: int, e: Event, rest: seq<Event>)
    requires Timely(r, log, now) && e in r.queue && e.time <= now && forall d :: d in rest ==> d in r.queue
    ensures Timely(Moved(r, e, rest), log, now)
  {
    var r' := Moved(r, e, rest);
    IntakeGrows(r, e, rest, Reporter);
    IntakeGrows(r, e, rest, Patient);
    IntakeGrows(r, e, rest, Sales);
    assert forall j :: 0 <= j < |rest| ==> rest[j] in r.queue;
    forall i | 0 <= i < |log|
      ensures VisitOk(r', log[i], now) && Fair(r', log, i)
    {
      assert VisitOk(r, log[i], now) && Fair(r, log, i);
      IntakeGrows(r, e, rest, log[i].kind);
      MovedFair(r, log, i, e, rest);
    }
  }

  lemma MovedFair(r: Register, log: seq<Visit>, i: nat, e: Event, rest: seq<Event>)
    requires i < |log| && Fair(r, log, i) && log[i].start < e.time
    ensures Fair(Moved(r, e, rest), log, i)
  {
    forall k: Kind, id: nat | MoreUrgent(k, log[i].kind) && id < |IntakeOf(Moved(r, e, rest), k).args|
      && IntakeOf(Moved(r, e, rest), k).args[id].time <= log[i].start
      ensures HasVisit(log[..i], k, id)
    {
      IntakeGrows(r, e, rest, k);
      assert id < |IntakeOf(r, k).args|;
    }
  }

  lemma LaterTimely(r: Register, log: seq<Visit>, now: int, later: int)
    requires Timely(r, log, now) && now <= later
    ensures Timely(r, log, later)
  {
    forall i | 0 <= i < |log|
      ensures VisitOk(r, log[i], later)
    {
      assert VisitOk(r, log[i], now);
    }
  }

  lemma DismissedTimely(r: Register, log: seq<Visit>, now: int, rest: seq<Event>)
    requires Timely(r, log, now)
    ensures Timely(Dismissed(r, rest), log, now)
  {
    var r' := Dismissed(r, rest);
    assert forall k :: IntakeOf(r', k).args == IntakeOf(r, k).args;
    forall i | 0 <= i < |log|
      ensures VisitOk(r', log[i], now) && Fair(r', log, i)
    {
      assert VisitOk(r, log[i], now) && Fair(r, log, i);
    }
  }

  lemma AssistOnTime(file: seq<Event>, s: State)
    requires Inv(file, s) && OnTime(s) && Enabled(s, Assist)
    ensures OnTime(AssistStep(s))
  {
    if Arrives(s) {
      DeleteMinCorrect(s.reg.queue);
      MovedTimely(s.reg, s.log, s.now, s.reg.queue[0], DeleteMin(s.reg.queue));
    } else if s.phase == Over {
      DismissedTimely(s.reg, s.log, s.now, Drain(s.reg.queue));
    } else {
      LaterTimely(s.reg, s.log, s.now, AssistStep(s).now);
    }
  }

  /** The moment a visitor goes in, everybody who has come by now has left the heap and
      everybody more urgent has been in. */
  lemma Moment(file: seq<Event>, s: State, k: Kind, id: nat)
    requires Inv(file, s) && Enabled(s, Enter(k, id))
    ensures forall j :: 0 <= j < |s.reg.queue| ==> s.now < s.reg.queue[j].time
    ensures forall k', id' :: MoreUrgent(k', k) && 0 <= id' < |IntakeOf(s.reg, k').args| ==> HasVisit(s.log, k', id')
  {
    forall j | 0 <= j < |s.reg.queue|
      ensures s.now < s.reg.queue[j].time
    {
      HeapMin(s.reg.queue);
      assert s.reg.queue[j] in s.reg.queue;
    }
    forall k', id' | MoreUrgent(k', k) && 0 <= id' < |IntakeOf(s.reg, k').args|
      ensures HasVisit(s.log, k', id')
    {
      AllServed(DoorOf(s, k'), |IntakeOf(s.reg, k').args|);
    }
  }

  lemma EntersTimely(r: Register, log: seq<Visit>, now: int, v: Visit)
    requires Timely(r, log, now) && v.start == now && VisitOk(r, v, v.end)
    requires forall j :: 0 <= j < |r.queue| ==> now < r.queue[j].time
    requires forall k: Kind, id: nat :: MoreUrgent(k, v.kind) && id < |IntakeOf(r, k).args| ==> HasVisit(log, k, id)
    ensures Timely(r, log + [v], v.end)
  {
    LaterTimely(r, log, now, v.end);
    var log' := log + [v];
    assert log'[..|log|] == log;
    forall i | 0 <= i < |log'|
      ensures VisitOk(r, log'[i], v.end) && Fair(r, log', i)
    {
      if i < |log| {
        assert log'[..i] == log[..i];
        assert VisitOk(r, log[i], v.end) && Fair(r, log, i);
      }
    }
    forall i, j | 0 <= i < j < |log'|
      ensures log'[i].end <= log'[j].start
    {
      assert VisitOk(r, log[i], now);
    }
  }

  /** A visitor who can go in has come, so the visit starts at once. */
  lemma EnterNow(s: State, k: Kind, id: nat)
    requires OnTime(s) && Enabled(s, Enter(k, id))
    ensures var e, s' := IntakeOf(s.reg, k).args[id], EnterStep(s, k, id);
      && e.time <= s.now && e.duration >= 0 && s'.log == s.log + [Visit(k, id, s.now, s.now + e.duration)]
      && s'.now == s.now + e.duration && s'.reg == s.reg && s'.phase == s.phase
      && VisitOk(s.reg, Visit(k, id, s.now, s.now + e.duration), s.now + e.duration)
  {
    assert Forward(IntakeOf(s.reg, k).args) && CameBy(IntakeOf(s.reg, k), s.now);
  }

  lemma EnterOnTime(file: seq<Event>, s: State, k: Kind, id: nat)
    requires Inv(file, s) && OnTime(s) && Enabled(s, Enter(k, id))
    ensures OnTime(EnterStep(s, k, id))
  {
    Moment(file, s, k, id);
    EnterNow(s, k, id);
    ControlOpen(s, k, id);
    var v := Visit(k, id, s.now, s.now + IntakeOf(s.reg, k).args[id].duration);
    EntersTimely(s.reg, s.log, s.now, v);
    TimelyState(s.reg, s.log + [v], v.end, EnterStep(s, k, id));
  }

  lemma TimelyState(r: Register, log: seq<Visit>, now: int, s: State)
    requires Timely(r, log, now) && s.reg == r && s.log == log && s.now == now && 0 <= now && s.phase != NotStarted
    ensures OnTime(s)
  {
  }

  lemma ControlOpen(s: State, k: Kind, id: nat)
    requires ControlOk(s) && Enabled(s, Enter(k, id))
    ensures s.phase == Open
  {
  }

  lemma StepOnTime(file: seq<Event>, s: State, step: Step)
    requires Inv(file, s) && OnTime(s) && Enabled(s, step)
    ensures OnTime(Apply(s, step))
  {
    match step
    case Assist => AssistOnTime(file, s);
    case Enter(k, id) => EnterOnTime(file, s, k, id);
    case _ =>
  }

  lemma {:induction false} RunOnTime(file: seq<Event>, run: seq<State>)
    requires IsRun(file, run) && Forward(file)
    ensures Inv(file, run[|run| - 1]) && OnTime(run[|run| - 1])
  {
    RunInv(file, run);
    if |run| == 1 {
      InitialOnTime(file);
    } else {
      var init := run[..|run| - 1];
      RunOnTime(file, init);
      assert Next(run[|init| - 1], run[|init| - 1 + 1]);
      var step :| Enabled(run[|init| - 1], step) && run[|init|] == Apply(run[|init| - 1], step);
      StepOnTime(file, run[|init| - 1], step);
    }
  }

  // ---------------------------------------------------------------- what a run guarantees

  /** In every run the consultations are one after the other, none starts before its visitor
      has come, each lasts as long as the file says, and at the start of each everybody more
      urgent who had come by then has been in. */
  lemma RunSchedule(file: seq<Event>, run: seq<State>)
    requires IsRun(file, run) && Forward(file)
    ensures var s := run[|run| - 1];
      && (forall i, j :: 0 <= i < j < |s.log| ==> s.log[i].end <= s.log[j].start)
      && (forall i :: 0 <= i < |s.log| ==> VisitOk(s.reg, s.log[i], s.now))
      && (forall i :: 0 <= i < |s.log| ==> Fair(s.reg, s.log, i))
  {
    RunOnTime(file, run);
  }

  /** In every reachable state a visitor who can go in starts at once, when no event that
      has come is left in the heap, no reporter is unserved if it is not a reporter, and no
      patient is if it is a sales representative. */
  lemma RunMoment(file: seq<Event>, run: seq<State>, k: Kind, id: nat)
    requires IsRun(file, run) && Forward(file) && Enabled(run[|run| - 1], Enter(k, id))
    ensures var s := run[|run| - 1]; var s' := Apply(s, Enter(k, id));
      && |s'.log| == |s.log| + 1 && s'.log[|s.log|].start == s.now
      && (forall e :: e in s.reg.queue ==> s.now < e.time)
      && (k != Reporter ==> forall r: nat :: r < |s.reg.rep.args| ==> r in s.rep.served)
      && (k == Sales ==> forall p: nat :: p < |s.reg.pat.args| ==> p in s.pat.served)
  {
    RunOnTime(file, run);
    var s := run[|run| - 1];
    Moment(file, s, k, id);
    EnterNow(s, k, id);
    if k != Reporter {
      forall r: nat | r < |s.reg.rep.args|
        ensures r in s.rep.served
      {
        assert HasVisit(s.log, Reporter, r);
      }
    }
    if k == Sales {
      forall p: nat | p < |s.reg.pat.args|
        ensures p in s.pat.served
      {
        assert HasVisit(s.log, Patient, p);
      }
    }
  }

  // ---------------------------------------------------------------- who is turned away

  /** Those turned away for a quota have come by now; once the doctor has left, those still to
      come and those turned away after the session come later than that. */
  ghost predicate TurnedAwayOk(s: State) {
    && (forall i :: 0 <= i < |s.reg.away| ==> s.reg.away[i].time <= s.now)
    && (s.doctor == Left ==> (forall e :: e in s.reg.queue ==> s.now < e.time) && (forall e :: e in s.reg.late ==> s.now < e.time))
  }

  lemma TakeInTurnsAway(s: State, e: Event, rest: seq<Event>)
    requires TurnedAwayOk(s) && e.time <= s.now && s.doctor != Left
    ensures TurnedAwayOk(TakeIn(s, e, rest))
  {
    MovedAway(s.reg, e, rest);
  }

  lemma MovedAway(r: Register, e: Event, rest: seq<Event>)
    ensures var r' := Moved(r, e, rest); r'.late == r.late && (r'.away == r.away || r'.away == r.away + [e])
  {
  }

  lemma DismissTurnsAway(s: State, rest: seq<Event>)
    requires TurnedAwayOk(s) && s.doctor == Left && multiset(rest) == multiset(s.reg.queue)
    ensures TurnedAwayOk(s.(reg := Dismissed(s.reg, rest), assistant := Exited))
  {
    forall e | e in rest
      ensures e in s.reg.queue
    {
      assert e in multiset(rest);
    }
  }

  lemma AssistTurnsAway(file: seq<Event>, s: State)
    requires Inv(file, s) && OnTime(s) && TurnedAwayOk(s) && Enabled(s, Assist)
    ensures TurnedAwayOk(AssistStep(s))
  {
    var t := s.(assistSleep := true);
    if Arrives(s) {
      TakeInTurnsAway(t, s.reg.queue[0], DeleteMin(s.reg.queue));
    } else if s.phase == Over {
      DrainPermutes(s.reg.queue);
      DismissTurnsAway(t, Drain(s.reg.queue));
    }
  }

  lemma StepTurnsAway(file: seq<Event>, s: State, step: Step)
    requires Inv(file, s) && OnTime(s) && TurnedAwayOk(s) && Enabled(s, step)
    ensures TurnedAwayOk(Apply(s, step))
  {
    match step
    case Assist => AssistTurnsAway(file, s);
    case Enter(k, id) => EnterNow(s, k, id);
    case Check => if s.reg.queue != [] { HeapMin(s.reg.queue); }
    case _ =>
  }

  lemma {:induction false} RunTurnsAway(file: seq<Event>, run: seq<State>)
    requires IsRun(file, run) && Forward(file)
    ensures TurnedAwayOk(run[|run| - 1])
  {
    if |run| > 1 {
      var init := run[..|run| - 1];
      RunTurnsAway(file, init);
      RunOnTime(file, init);
      assert Next(run[|init| - 1], run[|init| - 1 + 1]);
      var step :| Enabled(run[|init| - 1], step) && run[|init|] == Apply(run[|init| - 1], step);
      StepTurnsAway(file, run[|init| - 1], step);
    }
  }

  /** When the assistant has exited, whoever was turned away as late came after the doctor left,
      and everybody admitted or turned away for a quota had come by then. */
  lemma LateCameLater(file: seq<Event>, run: seq<State>)
    requires IsRun(file, run) && Forward(file) && run[|run| - 1].assistant == Exited
    ensures var s := run[|run| - 1];
      && (forall e :: e in s.reg.late ==> s.now < e.time)
      && (forall e :: e in s.reg.away ==> e.time <= s.now)
      && (forall k: Kind, e: Event :: e in IntakeOf(s.reg, k).args ==> e.time <= s.now)
  {
    RunTurnsAway(file, run);
    RunOnTime(file, run);
  }

  // ---------------------------------------------------------------- when the session opens

  /** The session opens at nine, when everybody who came earlier has been taken in. */
  lemma OpensAtNine(file: seq<Event>, s: State)
    requires Inv(file, s) && OnTime(s) && Enabled(s, Assist) && s.phase == NotStarted
    ensures var s' := AssistStep(s);
      && s'.now == 0
      && (s'.phase == Open <==> forall e :: e in s.reg.queue ==> 0 <= e.time)
      && (s'.phase == NotStarted <==> exists e :: e in s.reg.queue && e.time < 0)
  {
    if s.reg.queue != [] {
      HeapMin(s.reg.queue);
      assert s.reg.queue[0] in s.reg.queue;
    }
  }

  // ---------------------------------------------------------------- when the clock moves

  /** Everybody admitted has been in, a quota is still open, and t is the earliest of the
      arrivals to come. */
  ghost predicate JumpsTo(s: State, t: int) {
    && (forall k: Kind, id: nat :: id < |IntakeOf(s.reg, k).args| ==> id in DoorOf(s, k).served)
    && (s.reg.pat.total < 25 || s.reg.sal.total < 3)
    && s.reg.queue != [] && t == s.reg.queue[0].time && s.now < t
    && (forall e :: e in s.reg.queue ==> t <= e.time)
  }

  lemma ClockJumps(file: seq<Event>, s: State)
    requires Inv(file, s) && OnTime(s) && Enabled(s, Assist) && AssistStep(s).now != s.now
    ensures JumpsTo(s, AssistStep(s).now)
  {
    AllServed(s.rep, |s.reg.rep.args|);
    AllServed(s.pat, |s.reg.pat.args|);
    AllServed(s.sal, |s.reg.sal.args|);
    HeapMin(s.reg.queue);
  }

  /** The clock moves only with a visit, by its duration, or, when nobody admitted waits, to
      the next arrival. */
  lemma ClockMoves(file: seq<Event>, s: State, step: Step)
    requires Inv(file, s) && OnTime(s) && Enabled(s, step) && Apply(s, step).now != s.now
    ensures if step.Enter? then Apply(s, step).now == s.now + IntakeOf(s.reg, step.k).args[step.id].duration
            else JumpsTo(s, Apply(s, step).now)
  {
    match step
    case Enter(k, id) => EnterNow(s, k, id);
    case Assist => ClockJumps(file, s);
    case _ =>
  }
}
