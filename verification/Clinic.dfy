/** The running session: flags, counters, argument arrays and the event heap updated in
    place, one method per critical section of the assistant, the doctor and the visitors. */
module Clinic {
  import opened EventQueue
  import opened Session

  const REPORTERS := 20

  /** The shared variables of one kind of visitor. */
  class Line {
    const args: array<Event>
    var total: nat
    var cur: int
    var asleep: bool
    var served: set<nat>     // the threads that have gone
    ghost var admitted: nat  // the threads created

    ghost predicate Ok()
      reads this
    {
      admitted <= args.Length
    }

    ghost function ToIntake(): Intake
      reads this, args
      requires Ok()
    {
      Intake(args[..admitted], total)
    }

    ghost function ToDoor(): Door
      reads this
    {
      Door(cur, asleep, served)
    }

    constructor (capacity: nat)
      ensures Ok() && fresh(args) && args.Length == capacity
      ensures ToIntake() == NOBODY && ToDoor() == CLOSED && admitted == 0
    {
      args := new Event[capacity](_ => Event('E', 0, 0));
      total, cur, asleep, served, admitted := 0, 0, true, {}, 0;
    }

    /** Copies the arguments for a new thread and counts it. */
    method Admit(e: Event)
      requires Ok() && total == admitted < args.Length
      modifies this, args
      ensures Ok() && admitted == old(admitted) + 1
      ensures ToIntake() == Intake(old(ToIntake()).args + [e], old(total) + 1)
      ensures ToDoor() == old(ToDoor()).(cur := old(cur) + 1)
    {
      args[total] := e;
      total, cur, admitted := total + 1, cur + 1, admitted + 1;
      assert args[..admitted] == old(args[..admitted]) + [e];
    }

    method CountOnly()
      requires Ok()
      modifies `total
      ensures Ok() && ToIntake() == old(ToIntake()).(total := old(total) + 1) && ToDoor() == old(ToDoor())
    {
      total := total + 1;
    }

    method Call()
      requires Ok()
      modifies `asleep, `cur
      ensures Ok() && ToIntake() == old(ToIntake()) && ToDoor() == old(ToDoor()).(asleep := false, cur := old(cur) - 1)
    {
      asleep, cur := false, cur - 1;
    }

    /** Thread id goes in; the others stay asleep. */
    method GoIn(id: nat) returns (e: Event)
      requires Ok() && id < admitted
      modifies `asleep, `served
      ensures Ok() && e == ToIntake().args[id] && ToIntake() == old(ToIntake())
      ensures ToDoor() == old(ToDoor()).(asleep := true, served := old(served) + {id})
    {
      asleep, served := true, served + {id};
      e := args[id];
    }
  }

  class Office {
    const queue: EventQ
    const rep: Line
    const pat: Line
    const sal: Line
    var phase: Phase
    var now: int
    var sleeping: bool
    var ongoing: bool
    var assistSleep: bool
    // the places of the doctor and the assistant, and the lines printed
    var doctor: Doctor
    var assistant: Assistant
    var log: seq<Visit>
    var away: seq<Event>
    var late: seq<Event>

    ghost predicate Shaped()
      reads this, queue, rep, pat, sal
    {
      && queue.Valid() && rep.Ok() && pat.Ok() && sal.Ok() && rep != pat && rep != sal && pat != sal
      && rep.args.Length == REPORTERS && pat.args.Length == PATIENT_QUOTA && sal.args.Length == SALES_QUOTA
      && rep.args != pat.args && rep.args != sal.args && pat.args != sal.args
      && queue.Q != rep.args && queue.Q != pat.args && queue.Q != sal.args
    }

    ghost function Book(): Register
      reads this, queue, queue.Q, rep, rep.args, pat, pat.args, sal, sal.args
      requires Shaped()
    {
      Register(queue.Contents(), rep.ToIntake(), pat.ToIntake(), sal.ToIntake(), away, late)
    }

    ghost function View(): State
      reads this, queue, queue.Q, rep, rep.args, pat, pat.args, sal, sal.args
      requires Shaped()
    {
      State(Book(), phase, now, sleeping, ongoing, assistSleep, rep.ToDoor(), pat.ToDoor(), sal.ToDoor(), doctor, assistant, log)
    }

    constructor (input: seq<Event>)
      requires exists i :: 0 <= i < |input| && input[i].kind == 'E'
      requires |Records(input)| <= CAPACITY
      ensures Shaped() && View() == InitialState(Records(input))
      ensures fresh(queue) && fresh(queue.Q) && fresh(rep) && fresh(pat) && fresh(sal)
      ensures fresh(rep.args) && fresh(pat.args) && fresh(sal.args)
    {
      queue := new EventQ(input);
      rep := new Line(REPORTERS);
      pat := new Line(PATIENT_QUOTA);
      sal := new Line(SALES_QUOTA);
      phase, now, sleeping, ongoing, assistSleep := NotStarted, 0, true, false, false;
      doctor, assistant, log, away, late := Asleep, AtTop, [], [], [];
    }

    // ---------------------------------------------------------------- the assistant

    method TakePatient(e: Event)
      requires Shaped() && KindOf(e) == Patient && (pat.total < PATIENT_QUOTA ==> pat.total == pat.admitted)
      modifies `away, `assistant, pat, pat.args
      ensures pat.total == old(pat.total) + 1
      ensures Shaped() && queue.Contents() == old(queue.Contents())
      ensures View() == TakeIn(old(View()), e, queue.Contents())
    {
      if pat.total < PATIENT_QUOTA {
        pat.Admit(e);
      } else {
        pat.CountOnly();
        away := away + [e];
      }
      assistant := Clearing;
    }

    method TakeSales(e: Event)
      requires Shaped() && KindOf(e) == Sales && (sal.total < SALES_QUOTA ==> sal.total == sal.admitted)
      modifies `away, `assistant, sal, sal.args
      ensures sal.total == old(sal.total) + 1
      ensures Shaped() && queue.Contents() == old(queue.Contents())
      ensures View() == TakeIn(old(View()), e, queue.Contents())
    {
      if sal.total < SALES_QUOTA {
        sal.Admit(e);
      } else {
        sal.CountOnly();
        away := away + [e];
      }
      assistant := Clearing;
    }

    method TakeReporter(e: Event)
      requires Shaped() && KindOf(e) == Reporter && rep.total == rep.admitted < REPORTERS
      modifies `assistant, rep, rep.args
      ensures rep.total == old(rep.total) + 1
      ensures Shaped() && queue.Contents() == old(queue.Contents())
      ensures View() == TakeIn(old(View()), e, queue.Contents())
    {
      rep.Admit(e);
      assistant := Clearing;
    }

    /** The next arrival gets a thread and its arguments, or is turned away. */
    method TakeNext()
      requires Shaped() && queue.n > 0
      requires rep.total == rep.admitted && (KindOf(queue.Contents()[0]) == Reporter ==> rep.total < REPORTERS)
      requires pat.total < PATIENT_QUOTA ==> pat.total == pat.admitted
      requires sal.total < SALES_QUOTA ==> sal.total == sal.admitted
      modifies `away, `assistant, queue, queue.Q, rep, rep.args, pat, pat.args, sal, sal.args
      ensures Shaped()
      ensures View() == TakeIn(old(View()), old(queue.Contents()[0]), DeleteMin(old(queue.Contents())))
      ensures pat.total == old(pat.total) + (if old(queue.Contents()[0]).kind == 'P' then 1 else 0)
      ensures sal.total == old(sal.total) + (if old(queue.Contents()[0]).kind == 'S' then 1 else 0)
      ensures rep.total == old(rep.total) + (if old(queue.Contents()[0]).kind in {'P', 'S'} then 0 else 1)
    {
      ghost var s := View();
      var e := queue.Next();
      queue.Delete();
      TakeInQueue(s, e, DeleteMin(s.reg.queue));
      assert View() == s.(reg := s.reg.(queue := DeleteMin(s.reg.queue)));
      if e.kind == 'P' {
        TakePatient(e);
      } else if e.kind == 'S' {
        TakeSales(e);
      } else {
        TakeReporter(e);
      }
    }

    /** The queue will give all[i..]; the first i have been counted on top of the totals t. */
    ghost predicate TurnedAway(all: seq<Event>, i: nat, late0: seq<Event>, t: (nat, nat, nat))
      reads this, queue, queue.Q, rep, pat, sal
      requires queue.Valid()
    {
      && i <= |all| && Drain(queue.Contents()) == all[i..] && late == late0 + all[..i]
      && rep.total == t.0 + CountKind(all[..i], Reporter)
      && pat.total == t.1 + CountKind(all[..i], Patient)
      && sal.total == t.2 + CountKind(all[..i], Sales)
    }

    /** One arrival after the session. */
    method TurnAway(ghost all: seq<Event>, ghost i: nat, ghost late0: seq<Event>, ghost t: (nat, nat, nat))
      requires Shaped() && queue.n > 0 && TurnedAway(all, i, late0, t)
      modifies `late, queue, queue.Q, rep`total, pat`total, sal`total
      ensures Shaped() && TurnedAway(all, i + 1, late0, t) && queue.n == old(queue.n) - 1
    {
      DrainOnce(queue.Contents());
      CountNext(all, i);
      var e := queue.Next();
      queue.Delete();
      if e.kind == 'P' { pat.total := pat.total + 1; }
      else if e.kind == 'S' { sal.total := sal.total + 1; }
      else { rep.total := rep.total + 1; }
      late := late + [e];
    }

    method TurnAwayAll(ghost all: seq<Event>)
      requires Shaped() && all == Drain(queue.Contents())
      modifies `late, queue, queue.Q, rep`total, pat`total, sal`total
      ensures Shaped() && queue.n == 0 && late == old(late) + all
      ensures rep.total == old(rep.total) + CountKind(all, Reporter)
      ensures pat.total == old(pat.total) + CountKind(all, Patient)
      ensures sal.total == old(sal.total) + CountKind(all, Sales)
    {
      ghost var i, t := 0, (rep.total, pat.total, sal.total);
      while !queue.Empty()
        invariant Shaped() && TurnedAway(all, i, old(late), t)
        decreases queue.n
      {
        TurnAway(all, i, old(late), t);
        i := i + 1;
      }
      assert all[..i] == all;
    }

    /** After the session the rest of the file is read out and turned away. */
    method Dismiss()
      requires Shaped()
      modifies `late, `assistant, queue, queue.Q, rep`total, pat`total, sal`total
      ensures Shaped()
      ensures View() == old(View()).(reg := Dismissed(old(Book()), Drain(old(queue.Contents()))), assistant := Exited)
    {
      TurnAwayAll(Drain(queue.Contents()));
      assistant := Exited;
    }

    ghost predicate Room()
      reads this, queue, queue.Q, rep, pat, sal
      requires Shaped()
    {
      && rep.total == rep.admitted && (queue.n > 0 && KindOf(queue.Contents()[0]) == Reporter ==> rep.total < REPORTERS)
      && (pat.total < PATIENT_QUOTA ==> pat.total == pat.admitted) && (sal.total < SALES_QUOTA ==> sal.total == sal.admitted)
    }

    /** Before the session: early arrivals are let in, anything else opens it. */
    method BeforeSession()
      requires Shaped() && phase == NotStarted && (Arrives(View()) ==> Room())
      modifies `phase, `now, `away, `assistant, queue, queue.Q, rep, rep.args, pat, pat.args, sal, sal.args
      ensures Shaped()
      ensures View() == if old(Arrives(View())) then TakeIn(old(View()), old(queue.Contents()[0]), DeleteMin(old(queue.Contents())))
                        else Idles(old(View()))
    {
      if queue.Empty() {
        phase, assistant := Open, Clearing;
      } else {
        var e := queue.Next();
        if e.time < 0 {
          TakeNext();
        } else {
          phase, now, assistant := Open, 0, Clearing;
        }
      }
    }

    /** During the session: arrivals are let in, the doctor is woken when nobody has arrived
        but somebody waits or nobody is to come, and otherwise the clock moves on. */
    method DuringSession()
      requires Shaped() && phase == Open && (Arrives(View()) ==> Room())
      modifies `now, `sleeping, `away, `assistant, queue, queue.Q, rep, rep.args, pat, pat.args, sal, sal.args
      ensures Shaped()
      ensures View() == if old(Arrives(View())) then TakeIn(old(View()), old(queue.Contents()[0]), DeleteMin(old(queue.Contents())))
                        else Idles(old(View()))
    {
      if queue.Empty() {
        sleeping := false;
        return;
      }
      var e := queue.Next();
      if e.time <= now {
        TakeNext();
      } else if (pat.cur != 0 || rep.cur != 0 || sal.cur != 0) || (pat.total >= PATIENT_QUOTA && sal.total >= SALES_QUOTA) {
        sleeping := false;
      } else {
        now, assistant := e.time, Clearing;
      }
    }

    method RunAssistant()
      requires Shaped() && Enabled(View(), Assist) && (Arrives(View()) ==> Room())
      modifies this, queue, queue.Q, rep, rep.args, pat, pat.args, sal, sal.args
      ensures Shaped() && View() == AssistStep(old(View()))
    {
      assistSleep := true;
      if phase == NotStarted {
        BeforeSession();
      } else if phase == Over {
        Dismiss();
      } else {
        DuringSession();
      }
    }

    method ClearFlag()
      requires Shaped() && Enabled(View(), Clear)
      modifies `assistSleep, `assistant
      ensures Shaped() && View() == Apply(old(View()), Clear)
    {
      assistSleep, assistant := false, AtTop;
    }

    // ---------------------------------------------------------------- the doctor

    method WakeDoctor()
      requires Shaped() && Enabled(View(), WakeUp)
      modifies `sleeping, `doctor
      ensures Shaped() && View() == Apply(old(View()), WakeUp)
    {
      sleeping, doctor := true, Checking;
    }

    method CheckQuotas()
      requires Shaped() && Enabled(View(), Check)
      modifies `phase, `assistSleep, `doctor
      ensures Shaped() && View() == CheckStep(old(View()))
    {
      if pat.total >= PATIENT_QUOTA && sal.total >= SALES_QUOTA && pat.cur == 0 && sal.cur == 0 && rep.cur == 0 {
        phase, assistSleep, doctor := Over, false, Left;
      } else {
        doctor := Opening;
      }
    }

    method CallVisitor()
      requires Shaped() && Enabled(View(), CallNext)
      modifies `ongoing, `doctor
      ensures Shaped() && View() == Apply(old(View()), CallNext)
    {
      ongoing, doctor := true, Choosing;
    }

    method ChooseLine()
      requires Shaped() && Enabled(View(), Choose)
      modifies `doctor, rep`asleep, rep`cur, pat`asleep, pat`cur, sal`asleep, sal`cur
      ensures Shaped() && View() == ChooseStep(old(View()))
    {
      if rep.cur > 0 {
        rep.Call();
      } else if pat.cur > 0 {
        pat.Call();
      } else if sal.cur > 0 {
        sal.Call();
      }
      doctor := Listening;
    }

    method CloseVisit()
      requires Shaped() && Enabled(View(), Close)
      modifies `assistSleep, `doctor
      ensures Shaped() && View() == Apply(old(View()), Close)
    {
      assistSleep, doctor := false, Asleep;
    }

    // ---------------------------------------------------------------- the visitors

    /** The visit itself: the clock moves on and the doctor is told. */
    method SeeDoctor(k: Kind, id: nat, e: Event)
      requires Shaped()
      modifies `now, `log, `ongoing
      ensures Shaped() && now == After(old(now), e) && !ongoing
      ensures log == old(log) + [Visit(k, id, now - e.duration, now)]
    {
      now := now + e.duration;
      if now < e.time + e.duration {
        now := e.time + e.duration;
      }
      log := log + [Visit(k, id, now - e.duration, now)];
      ongoing := false;
    }

    /** A thread, awake and holding the mutex of its kind. */
    method PatientEnters(id: nat)
      requires Shaped() && Enabled(View(), Enter(Patient, id))
      modifies `now, `log, `ongoing, pat`asleep, pat`served
      ensures Shaped() && View() == EnterStep(old(View()), Patient, id)
    {
      var e := pat.GoIn(id);
      SeeDoctor(Patient, id, e);
    }

    method SalesEnters(id: nat)
      requires Shaped() && Enabled(View(), Enter(Sales, id))
      modifies `now, `log, `ongoing, sal`asleep, sal`served
      ensures Shaped() && View() == EnterStep(old(View()), Sales, id)
    {
      var e := sal.GoIn(id);
      SeeDoctor(Sales, id, e);
    }

    method ReporterEnters(id: nat)
      requires Shaped() && Enabled(View(), Enter(Reporter, id))
      modifies `now, `log, `ongoing, rep`asleep, rep`served
      ensures Shaped() && View() == EnterStep(old(View()), Reporter, id)
    {
      var e := rep.GoIn(id);
      SeeDoctor(Reporter, id, e);
    }
  }

  lemma DrainOnce(q: seq<Event>)
    requires q != []
    ensures Drain(q) == [q[0]] + Drain(DeleteMin(q))
  {
  }

  lemma CountNext(all: seq<Event>, i: nat)
    requires i < |all|
    ensures all[i..][1..] == all[i + 1..] && all[..i] + [all[i]] == all[..i + 1]
    ensures CountKind(all[..i + 1], Reporter) == CountKind(all[..i], Reporter) + (if KindOf(all[i]) == Reporter then 1 else 0)
    ensures CountKind(all[..i + 1], Patient) == CountKind(all[..i], Patient) + (if KindOf(all[i]) == Patient then 1 else 0)
    ensures CountKind(all[..i + 1], Sales) == CountKind(all[..i], Sales) + (if KindOf(all[i]) == Sales then 1 else 0)
  {
    assert all[..i + 1][..i] == all[..i];
  }

  lemma TakeInQueue(s: State, e: Event, rest: seq<Event>)
    ensures TakeIn(s.(reg := s.reg.(queue := rest)), e, rest) == TakeIn(s, e, rest)
  {
  }

  /** In every reachable state the assistant's section finds room: the counts agree with the
      threads created, and there is room for a reporter when the file has at most 20. */
  lemma RoomForAll(file: seq<Event>, run: seq<State>)
    requires IsRun(file, run) && CountKind(file, Reporter) <= REPORTERS
    ensures var s := run[|run| - 1]; Enabled(s, Assist) && Arrives(s) ==>
      && s.reg.rep.total == |s.reg.rep.args| && (KindOf(s.reg.queue[0]) == Reporter ==> s.reg.rep.total < REPORTERS)
      && (s.reg.pat.total < PATIENT_QUOTA ==> s.reg.pat.total == |s.reg.pat.args|)
      && (s.reg.sal.total < SALES_QUOTA ==> s.reg.sal.total == |s.reg.sal.args|)
  {
    RunInv(file, run);
    var r := run[|run| - 1].reg;
    if r.queue != [] {
      DeleteMinPermutes(r.queue);
      CountDeleted(r.queue, r.queue[0], DeleteMin(r.queue), Reporter);
    }
  }
}
