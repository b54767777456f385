/** Every run of the session ends, and it ends well exactly when the file has enough
    patients and sales representatives. */
module SessionProgress {
  import opened Counting
  import opened EventQueue
  import opened Session

  ghost function Unserved(s: State): int {
    |s.reg.rep.args| - |s.rep.served| + |s.reg.pat.args| - |s.pat.served| + |s.reg.sal.args| - |s.sal.served|
  }

  /** 1 if the next arrival is in the future. */
  function Ahead(s: State): int {
    if s.reg.queue != [] && s.now < s.reg.queue[0].time then 1 else 0
  }

  /** How far the doctor and the assistant are from their next decision. */
  function Place(s: State): int {
    if s.assistant == Exited then 0
    else match s.doctor
         case Asleep => if s.assistant == Clearing then 9 else if s.sleeping then 8 else 7
         case Checking => 6
         case Opening => 5
         case Choosing => 4
         case Listening => if s.ongoing then 3 else 10
         case Left => 2
  }

  ghost function Potential(s: State): int {
    11 * (4 * |s.reg.queue| + 2 * Unserved(s) + Ahead(s) + (if s.phase == NotStarted then 2 else 0)) + Place(s)
  }

  lemma PotentialNonneg(s: State)
    requires DoorsOk(s)
    ensures Potential(s) >= 0
  {
  }

  lemma TakeInUnserved(s: State, e: Event, rest: seq<Event>)
    ensures Unserved(TakeIn(s, e, rest)) <= Unserved(s) + 1
    ensures TakeIn(s, e, rest).reg.queue == rest && TakeIn(s, e, rest).phase == s.phase && TakeIn(s, e, rest).now == s.now
    ensures TakeIn(s, e, rest).assistant == Clearing && TakeIn(s, e, rest).doctor == s.doctor
  {
    MovedIntake(s.reg, e, rest, Reporter);
    MovedIntake(s.reg, e, rest, Patient);
    MovedIntake(s.reg, e, rest, Sales);
  }

  lemma ArrivalShrinks(s: State, e: Event, rest: seq<Event>)
    requires |rest| == |s.reg.queue| - 1 && s.assistant == AtTop && s.doctor == Asleep
    ensures Potential(TakeIn(s, e, rest)) < Potential(s)
  {
    TakeInUnserved(s, e, rest);
  }

  lemma IdleShrinks(s: State)
    requires ControlOk(s.(assistSleep := false)) && Enabled(s.(assistSleep := false), Assist) && !Arrives(s)
    ensures Potential(Idles(s)) < Potential(s)
  {
  }

  lemma AssistShrinks(file: seq<Event>, s: State)
    requires Inv(file, s) && Enabled(s, Assist)
    ensures Potential(AssistStep(s)) < Potential(s)
  {
    var t := s.(assistSleep := true);
    assert Potential(t) == Potential(s) && s == t.(assistSleep := false);
    if Arrives(s) {
      ArrivalShrinks(t, s.reg.queue[0], DeleteMin(s.reg.queue));
    } else {
      IdleShrinks(t);
    }
  }

  lemma EnterUnserved(s: State, k: Kind, id: nat)
    requires Enabled(s, Enter(k, id))
    ensures Unserved(EnterStep(s, k, id)) == Unserved(s) - 1
  {
    assert |DoorOf(s, k).served + {id}| == |DoorOf(s, k).served| + 1;
  }

  lemma EnterPlaces(s: State, k: Kind, id: nat)
    requires ControlOk(s) && Enabled(s, Enter(k, id))
    ensures var s' := EnterStep(s, k, id);
      s'.reg == s.reg && s'.phase == s.phase && Place(s') <= Place(s) + 7
  {
  }

  lemma EnterShrinks(file: seq<Event>, s: State, k: Kind, id: nat)
    requires Inv(file, s) && Enabled(s, Enter(k, id))
    ensures Potential(EnterStep(s, k, id)) < Potential(s)
  {
    EnterUnserved(s, k, id);
    EnterPlaces(s, k, id);
    Shorter(s, EnterStep(s, k, id));
  }

  lemma Shorter(s: State, s': State)
    requires s'.reg.queue == s.reg.queue && s'.phase == s.phase && Place(s') <= Place(s) + 7 && Unserved(s') == Unserved(s) - 1
    ensures Potential(s') < Potential(s)
  {
  }

  /** Every step brings the end of the session nearer. */
  lemma StepShrinks(file: seq<Event>, s: State, step: Step)
    requires Inv(file, s) && Enabled(s, step)
    ensures Potential(Apply(s, step)) < Potential(s)
  {
    match step
    case Assist => AssistShrinks(file, s);
    case Enter(k, id) => EnterShrinks(file, s, k, id);
    case _ =>
  }

  lemma {:induction false} RunShrinks(file: seq<Event>, run: seq<State>)
    requires IsRun(file, run)
    ensures |run| - 1 + Potential(run[|run| - 1]) <= Potential(run[0])
  {
    if |run| > 1 {
      var init := run[..|run| - 1];
      RunShrinks(file, init);
      RunInv(file, init);
      assert Next(run[|init| - 1], run[|init| - 1 + 1]);
      var step :| Enabled(run[|init| - 1], step) && run[|init|] == Apply(run[|init| - 1], step);
      StepShrinks(file, run[|init| - 1], step);
    }
  }

  /** No run is longer than a bound fixed by the number of events. */
  lemma RunBounded(file: seq<Event>, run: seq<State>)
    requires IsRun(file, run)
    ensures |run| <= 44 * |file| + 42
  {
    RunShrinks(file, run);
    RunInv(file, run);
    PotentialNonneg(run[|run| - 1]);
  }

  // ---------------------------------------------------------------- how a run can end

  ghost predicate Stuck(s: State) {
    forall step :: !Enabled(s, step)
  }

  /** The doctor was woken for nobody and waits for a visit that never takes place. */
  predicate Deserted(s: State) {
    s.doctor == Listening && s.ongoing && AllAsleep(s)
  }

  lemma AwakeCanEnter(s: State, k: Kind)
    requires DoorsOk(s) && !DoorOf(s, k).asleep
    ensures !Stuck(s)
  {
    var id := SomebodyUnserved(DoorOf(s, k), |IntakeOf(s.reg, k).args|);
    assert Enabled(s, Enter(k, id));
  }

  lemma HowItEnds(file: seq<Event>, s: State)
    requires Inv(file, s)
    ensures Stuck(s) <==> s.assistant == Exited || Deserted(s)
  {
    if !(s.assistant == Exited || Deserted(s)) {
      match s.doctor
      case Asleep =>
        if !s.sleeping { assert Enabled(s, WakeUp); }
        else if s.assistant == Clearing { assert Enabled(s, Clear); }
        else { assert Enabled(s, Assist); }
      case Checking => assert Enabled(s, Check);
      case Opening => assert Enabled(s, CallNext);
      case Choosing => assert Enabled(s, Choose);
      case Listening =>
        if !s.ongoing { assert Enabled(s, Close); }
        else if !s.rep.asleep { AwakeCanEnter(s, Reporter); }
        else if !s.pat.asleep { AwakeCanEnter(s, Patient); }
        else { AwakeCanEnter(s, Sales); }
      case Left => assert Enabled(s, Assist);
    } else {
      forall step
        ensures !Enabled(s, step)
      {
      }
    }
  }

  /** A run that can go no further has ended with the doctor leaving and the assistant
      exiting if and only if the file holds enough patients and sales representatives;
      otherwise the doctor waits forever for somebody nobody woke. */
  lemma CompletesIff(file: seq<Event>, run: seq<State>)
    requires IsRun(file, run) && Stuck(run[|run| - 1])
    ensures run[|run| - 1].assistant == Exited <==> CountLetter(file, 'P') >= 25 && CountLetter(file, 'S') >= 3
    ensures run[|run| - 1].assistant == Exited || Deserted(run[|run| - 1])
  {
    RunInv(file, run);
    HowItEnds(file, run[|run| - 1]);
    CountByLetter(file);
  }

  /** The session of an empty file, state by state. */
  function EmptyDay(i: nat): State {
    var closed := State(Register([], NOBODY, NOBODY, NOBODY, [], []), Open, 0, true, false, true,
                        CLOSED, CLOSED, CLOSED, Asleep, AtTop, []);
    match i
    case 0 => closed.(phase := NotStarted, assistSleep := false)
    case 1 => closed.(assistant := Clearing)
    case 2 => closed.(assistSleep := false)
    case 3 => closed.(sleeping := false)
    case 4 => closed.(doctor := Checking)
    case 5 => closed.(doctor := Opening)
    case 6 => closed.(doctor := Choosing, ongoing := true)
    case _ => closed.(doctor := Listening, ongoing := true)
  }

  lemma EmptyDayStep(i: nat)
    requires i < 7
    ensures Next(EmptyDay(i), EmptyDay(i + 1))
  {
    var step := match i
      case 0 => Assist
      case 1 => Clear
      case 2 => Assist
      case 3 => WakeUp
      case 4 => Check
      case 5 => CallNext
      case _ => Choose;
    assert Enabled(EmptyDay(i), step) && EmptyDay(i + 1) == Apply(EmptyDay(i), step);
  }

  lemma EmptyDayStarts()
    ensures InitialState([]) == EmptyDay(0)
  {
    assert Heapify([]) == [];
  }

  lemma EmptyDayEnds()
    ensures Stuck(EmptyDay(7)) && Deserted(EmptyDay(7))
  {
    forall step
      ensures !Enabled(EmptyDay(7), step)
    {
    }
  }

  /** With nobody in the file the doctor is woken at nine and waits forever. */
  lemma NobodyComes() returns (run: seq<State>)
    ensures IsRun([], run) && Stuck(run[|run| - 1]) && Deserted(run[|run| - 1])
  {
    run := seq(8, (i: nat) => EmptyDay(i));
    EmptyDayStarts();
    forall i | 0 <= i < 7
      ensures Next(run[i], run[i + 1])
    {
      EmptyDayStep(i);
    }
    EmptyDayEnds();
  }

  /** When the assistant has exited, exactly 25 patients and 3 sales representatives and
      every reporter that was not late were in, each exactly once. */
  lemma Completion(file: seq<Event>, run: seq<State>)
    requires IsRun(file, run) && run[|run| - 1].assistant == Exited
    ensures var s := run[|run| - 1];
      && s.doctor == Left
      && |s.reg.pat.args| == 25 && (forall e :: e in s.reg.pat.args ==> e.kind == 'P') && s.pat.served == Below(25)
      && |s.reg.sal.args| == 3 && (forall e :: e in s.reg.sal.args ==> e.kind == 'S') && s.sal.served == Below(3)
      && s.rep.served == Below(|s.reg.rep.args|)
      && |s.reg.rep.args| + CountOthers(s.reg.late) == CountOthers(file)
      && |s.log| == 25 + 3 + |s.reg.rep.args|
      && LogOk(s)
  {
    RunLetters(file, run);
    RunInv(file, run);
    var s := run[|run| - 1];
    assert |s.reg.pat.args| == 25 && |s.reg.sal.args| == 3;
    AllIn(s.rep, |s.reg.rep.args|);
    AllIn(s.pat, 25);
    AllIn(s.sal, 3);
    CountByLetter(file);
    CountByLetter(s.reg.late);
  }

  /** In every reachable state the patients' threads have records 'P', the sales
      representatives' 'S', the reporters' neither; only 'P' and 'S' are turned away for the
      quota. */
  lemma RunLetters(file: seq<Event>, run: seq<State>)
    requires IsRun(file, run)
    ensures var r := run[|run| - 1].reg;
      && (forall e :: e in r.pat.args ==> e.kind == 'P')
      && (forall e :: e in r.sal.args ==> e.kind == 'S')
      && (forall e :: e in r.rep.args ==> e.kind != 'P' && e.kind != 'S')
      && (forall e :: e in r.away ==> e.kind == 'P' || e.kind == 'S')
  {
    RunInv(file, run);
    var r := run[|run| - 1].reg;
    forall e | e in r.away
      ensures KindOf(e) != Reporter
    {
      if KindOf(e) == Reporter { CountedIfPresent(r.away, e); }
    }
  }

  lemma {:induction false} CountedIfPresent(q: seq<Event>, e: Event)
    requires e in q
    ensures CountKind(q, KindOf(e)) > 0
  {
    if q[|q| - 1] != e { CountedIfPresent(q[..|q| - 1], e); }
  }

  lemma AllIn(d: Door, admitted: nat)
    requires DoorOk(d, admitted) && d.asleep && d.cur == 0
    ensures d.served == Below(admitted) && |d.served| == admitted
  {
    AllServed(d, admitted);
  }

  /** Then every event of the file was admitted, turned away for the quota, or turned away
      after the session; reporters never for the quota. */
  lemma CompletionPlaces(file: seq<Event>, run: seq<State>)
    requires IsRun(file, run) && run[|run| - 1].assistant == Exited
    ensures var r := run[|run| - 1].reg;
      multiset(file) == Admitted(r) + multiset(r.away) + multiset(r.late) && CountKind(r.away, Reporter) == 0
  {
    RunInv(file, run);
    assert run[|run| - 1].reg.queue == [];
  }

  /** The waiting count is the admitted less those called in; everybody counted was admitted or
      turned away; the counted and those to come are the file's. */
  ghost predicate Balanced(file: seq<Event>, s: State, k: Kind) {
    var d, l := DoorOf(s, k), IntakeOf(s.reg, k);
    && d.cur == |l.args| - |d.served| - (if d.asleep then 0 else 1)
    && l.total == |l.args| + CountKind(s.reg.away, k) + CountKind(s.reg.late, k)
    && l.total + CountKind(s.reg.queue, k) == CountKind(file, k)
  }

  lemma InvBalanced(file: seq<Event>, s: State, k: Kind)
    requires DoorsOk(s) && KindsCounted(file, s.reg)
    ensures Balanced(file, s, k)
  {
    match k
    case Reporter =>
    case Patient =>
    case Sales =>
  }

  /** In every reachable state the books of each kind are balanced, the file is the queue, the
      admitted and those turned away, and the quotas are kept. */
  lemma RunConserves(file: seq<Event>, run: seq<State>, k: Kind)
    requires IsRun(file, run)
    ensures Balanced(file, run[|run| - 1], k)
    ensures Conserved(file, run[|run| - 1].reg)
    ensures |run[|run| - 1].reg.pat.args| <= 25 && |run[|run| - 1].reg.sal.args| <= 3
  {
    RunInv(file, run);
    InvBalanced(file, run[|run| - 1], k);
  }
}
