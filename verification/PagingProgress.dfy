/** Every fair run of the paging system ends: the scheduler counts off all processes, even
    when some of them start without a single frame. Fairness only says that a process does
    not sit forever before joining the ready queue. */
module PagingProgress {
  import opened Counting
  import opened Mmu
  import opened Paging

  // ---------------------------------------------------------------- remaining work

  /** Two units per reference left, one more while the next page is absent, two for ending. */
  ghost function Work(c: Config, s: State, i: int): int {
    if !(0 <= i < |s.procs| && i < |c.refs|) then 0
    else if s.procs[i].pc == Gone then
      (if IsQuitting(s, i) then 1 else 0)
    else
      2 * (|c.refs[i]| - s.procs[i].idx) + 2 + (if NextAbsent(c, s, i) then 1 else 0)
  }

  ghost predicate NextAbsent(c: Config, s: State, i: nat)
    requires i < |c.refs| && i < |s.procs|
  {
    s.procs[i].idx < |c.refs[i]| && !HasPage(s.mem, i, c.refs[i][s.procs[i].idx])
  }

  ghost function WorkOf(c: Config, s: State): nat -> int {
    i => Work(c, s, i)
  }

  ghost function TotalWork(c: Config, s: State): int {
    Sum(|s.procs|, WorkOf(c, s)) + s.k
  }

  lemma TotalWorkNonneg(c: Config, s: State)
    requires Inv(c, s)
    ensures TotalWork(c, s) >= 0
  {
    forall i | 0 <= i < |s.procs|
      ensures Work(c, s, i) >= 0
    {
      assert ProcOk(c, s, i);
    }
    SumNonneg(|s.procs|, WorkOf(c, s));
  }

  /** Nothing that matters for residency or for the reference strings has happened. */
  ghost predicate Calm(s: State, s': State) {
    && SameFrames(s.mem, s'.mem)
    && |s'.procs| == |s.procs|
    && forall i :: 0 <= i < |s.procs| ==>
         s'.procs[i].idx == s.procs[i].idx && (s'.procs[i].pc == Gone <==> s.procs[i].pc == Gone)
  }

  lemma CalmReflexive(s: State)
    ensures Calm(s, s)
  {
  }

  lemma CalmTransitive(a: State, b: State, d: State)
    requires Calm(a, b) && Calm(b, d)
    ensures Calm(a, d)
  {
  }

  /** All processes except possibly p keep their work. */
  lemma WorkChange(c: Config, s: State, s': State, p: nat)
    requires |s'.procs| == |s.procs| && p < |s.procs|
    requires forall i :: 0 <= i < |s.procs| && i != p ==> Work(c, s', i) == Work(c, s, i)
    ensures TotalWork(c, s') == TotalWork(c, s) - Work(c, s, p) + Work(c, s', p) - s.k + s'.k
  {
    SumChange(|s.procs|, WorkOf(c, s), WorkOf(c, s'), p);
  }

  /** A step that moves messages and program counters only. */
  lemma QuietWork(c: Config, s: State, s': State)
    requires |s'.procs| == |s.procs| && s'.mem == s.mem
    requires forall i :: 0 <= i < |s.procs| ==>
      && s'.procs[i].idx == s.procs[i].idx
      && (s'.procs[i].pc == Gone <==> s.procs[i].pc == Gone)
      && (s.procs[i].pc == Gone ==> (IsQuitting(s', i) <==> IsQuitting(s, i)))
    ensures TotalWork(c, s') == TotalWork(c, s) - s.k + s'.k && Calm(s, s')
  {
    forall i | 0 <= i < |s.procs|
      ensures Work(c, s', i) == Work(c, s, i)
    {
    }
    SumSame(|s.procs|, WorkOf(c, s), WorkOf(c, s'));
  }

  /** What serving does to the work, as far as it depends on the reply. */
  lemma ReplyWork(c: Config, s: State, i: nat, page: nat, m: Memory, reply: Reply)
    requires Inv(c, s) && s.sched == Expecting(i) && s.mq3 == [Ask(i, page)] && s.procs[i].idx < |c.refs[i]|
    requires page == c.refs[i][s.procs[i].idx] && s.procs[i].pc == Asking
    requires |m.tables| == |s.mem.tables| && forall p :: 0 <= p < |m.tables| && p != i ==> m.tables[p] == s.mem.tables[p]
    requires reply.Hit? || reply.Illegal? || reply.Fault?
    requires reply.Hit? ==> HasPage(s.mem, i, page)
    requires reply.Fault? ==> !HasPage(s.mem, i, page)
    requires reply.Fault? ==> HasPage(m, i, page) || (SameFrames(s.mem, m) && Frameless(c, s, i))
    ensures var s' := Replied(s.(mem := m, mq3 := []), i, page, reply);
      && TotalWork(c, s') <= TotalWork(c, s)
      && (TotalWork(c, s') == TotalWork(c, s) ==> Calm(s, s') && Frameless(c, s, i))
  {
    var s' := Replied(s.(mem := m, mq3 := []), i, page, reply);
    forall j | 0 <= j < |s.procs| && j != i
      ensures Work(c, s', j) == Work(c, s, j)
    {
      assert s'.procs[j] == s.procs[j] && s'.mem.tables[j] == s.mem.tables[j];
    }
    WorkChange(c, s, s', i);
  }

  lemma ServeEndWork(c: Config, s: State)
    requires Inv(c, s) && Enabled(c, s, Serve) && s.mq3[0].page == END
    ensures TotalWork(c, Apply(c, s, Serve)) < TotalWork(c, s)
  {
    var s', i := Apply(c, s, Serve), s.mq3[0].pid;
    assert s.sched == Expecting(i);
    HandleOthers(s.mem, i, END);
    forall j | 0 <= j < |s.procs| && j != i
      ensures Work(c, s', j) == Work(c, s, j)
    {
      assert s'.procs[j] == s.procs[j] && s'.mem.tables[j] == s.mem.tables[j];
    }
    WorkChange(c, s, s', i);
  }

  /** Serving an end mark, or a request of a process that can make progress, reduces the work. */
  lemma ServeWork(c: Config, s: State)
    requires Inv(c, s) && Enabled(c, s, Serve)
    ensures var s', i, page := Apply(c, s, Serve), s.mq3[0].pid, s.mq3[0].page;
      && TotalWork(c, s') <= TotalWork(c, s)
      && (TotalWork(c, s') == TotalWork(c, s) ==> Calm(s, s') && Frameless(c, s, i) && page != END)
  {
    var i, page := s.mq3[0].pid, s.mq3[0].page;
    assert s.sched == Expecting(i) && ProcOk(c, s, i);
    if page == END {
      ServeEndWork(c, s);
    } else {
      var (m, reply) := Handle(s.mem, i, page);
      HandleOthers(s.mem, i, page);
      HandleRecency(s.mem, i, page, Completed(c, s, i), PendingPage(c, s, i));
      HitMeansResident(s.mem, i, page);
      if reply == Fault { FaultWork(c, s, i, page); }
      assert s.mq3[1..] == [];
      ReplyWork(c, s, i, page, m, reply);
    }
  }

  lemma HitMeansResident(m: Memory, i: nat, page: nat)
    requires Request(m, i, page)
    ensures Handle(m, i, page).1.Hit? <==> HasPage(m, i, page)
  {
  }

  /** No frame of its own, none free, and references still to make. */
  ghost predicate Frameless(c: Config, s: State, i: nat) {
    && i < |s.procs| && i < |c.refs| && i < |s.mem.tables|
    && (forall g :: !Resident(s.mem, i, g))
    && (forall x :: 0 <= x < c.f && x < |s.mem.free| ==> s.mem.free[x] != 0)
    && s.procs[i].idx < |c.refs[i]|
    && c.refs[i][s.procs[i].idx] < |s.mem.tables[i].entries|
  }

  /** A fault either brings the page in or finds a frameless process and changes no frame. */
  lemma FaultWork(c: Config, s: State, i: nat, page: nat)
    requires Inv(c, s) && Enabled(c, s, Serve) && s.mq3[0] == Ask(i, page)
    requires Handle(s.mem, i, page).1 == Fault
    ensures !HasPage(s.mem, i, page)
    ensures var m := Handle(s.mem, i, page).0; HasPage(m, i, page) || (SameFrames(s.mem, m) && Frameless(c, s, i))
  {
    assert s.sched == Expecting(i) && ProcOk(c, s, i);
    var es := s.mem.tables[i].entries;
    var x, v := FirstUnoccupied(s.mem.free, 0), Victim(es, |es|);
    if s.mem.free[x] != 0 && v == -1 {
      VictimIsLeastRecent(es, Completed(c, s, i));
    }
  }

  lemma SendWork(c: Config, s: State, i: nat)
    requires Inv(c, s) && Enabled(c, s, Send(i))
    ensures TotalWork(c, Apply(c, s, Send(i))) <= TotalWork(c, s)
    ensures TotalWork(c, Apply(c, s, Send(i))) == TotalWork(c, s) ==> Calm(s, Apply(c, s, Send(i)))
  {
    assert s.sched == Expecting(i) && ProcOk(c, s, i);
    WorkChange(c, s, Apply(c, s, Send(i)), i);
  }

  lemma ReceiveWork(c: Config, s: State)
    requires Shape(c, s) && Control(c, s) && Enabled(c, s, Receive)
    ensures Calm(s, Apply(c, s, Receive))
    ensures TotalWork(c, Apply(c, s, Receive)) == TotalWork(c, s) - (if s.mq2[0].ended then 1 else 0)
  {
    QuietWork(c, s, Apply(c, s, Receive));
  }

  /** Work never grows; while it stays the same, memory and progress stay the same. */
  lemma StepWork(c: Config, s: State, step: Step)
    requires Inv(c, s) && Enabled(c, s, step)
    ensures TotalWork(c, Apply(c, s, step)) <= TotalWork(c, s)
    ensures TotalWork(c, Apply(c, s, step)) == TotalWork(c, s) ==> Calm(s, Apply(c, s, step))
  {
    var s' := Apply(c, s, step);
    match step
    case Serve => ServeWork(c, s);
    case Send(i) => SendWork(c, s, i);
    case Start(i) => QuietWork(c, s, s');
    case Enqueue(i) => QuietWork(c, s, s');
    case Wake(i) =>
      WakeControl(c, s, i);
      QuietWork(c, s, s');
    case Dispatch => QuietWork(c, s, s');
    case Receive => ReceiveWork(c, s);
  }

  // ---------------------------------------------------------------- who can make progress

  /** The current turn is one of a process that has ended. */
  ghost predicate EndingTurn(s: State) {
    s.sched.Expecting? && StageOf(s, s.sched.pid) in {Quitting, Ended}
  }

  /** When next served, this process will reduce the work. */
  ghost predicate Productive(c: Config, s: State, h: nat) {
    && h < |s.procs| && h < |c.refs| && h < |s.mem.tables|
    && s.procs[h].pc != Gone
    && !Frameless(c, s, h)
  }

  /** As long as the system is not finished somebody can make progress: if all frames are
      taken, a holder can. */
  lemma ProductiveExists(c: Config, s: State) returns (h: nat)
    requires Inv(c, s) && s.sched != Finished && !EndingTurn(s)
    ensures Productive(c, s, h)
  {
    SumNonneg(|s.procs|, LiveWeight(s));
    h := SumPositive(|s.procs|, LiveWeight(s));
    assert s.procs[h].pc != Gone;
    if Frameless(c, s, h) {
      assert s.mem.free[0] == 1;
      var p, g :| Holds(s.mem, p, g, 0);
      assert Resident(s.mem, p, g) && ProcOk(c, s, p);
      h := p;
    }
  }

  lemma CalmProductive(c: Config, s: State, s': State, h: nat)
    requires Calm(s, s') && Productive(c, s, h)
    ensures Productive(c, s', h)
  {
    if Frameless(c, s', h) {
      forall g
        ensures !Resident(s.mem, h, g)
      {
        assert !Resident(s'.mem, h, g);
      }
    }
  }

  /** The process is in the ready queue or has the turn. */
  ghost predicate InLine(s: State, h: nat) {
    h in s.mq1 || (s.sched == Expecting(h) && StageOf(s, h) in {Signalled, Computing, Requesting})
  }

  ghost predicate Promising(c: Config, s: State, h: nat) {
    EndingTurn(s) || (Productive(c, s, h) && InLine(s, h))
  }

  // ---------------------------------------------------------------- a rank that falls until work is done

  ghost function IndexIn(q: seq<nat>, h: nat): (j: nat)
    ensures h in q ==> j < |q| && q[j] == h
  {
    if q == [] || q[0] == h then 0 else 1 + IndexIn(q[1..], h)
  }

  lemma {:induction false} IndexInAppend(q: seq<nat>, h: nat, i: nat)
    requires h in q
    ensures IndexIn(q + [i], h) == IndexIn(q, h)
  {
    if q[0] != h {
      assert (q + [i])[1..] == q[1..] + [i];
      IndexInAppend(q[1..], h, i);
    }
  }

  ghost function Position(s: State, h: nat): nat {
    if !EndingTurn(s) && h in s.mq1 then IndexIn(s.mq1, h) + 1 else 0
  }

  ghost function Phase(s: State): nat {
    if !s.sched.Expecting? then 0
    else match StageOf(s, s.sched.pid)
      case Signalled => 5
      case Computing => 4
      case Requesting => 3
      case Quitting => 2
      case Faulted => 1
      case Ended => 1
  }

  ghost function LateWeight(s: State): nat -> int {
    i => if !(0 <= i < |s.procs|) then 0
      else if s.procs[i].pc == NotStarted then 2
      else if s.procs[i].pc == Enqueuing then 1
      else 0
  }

  ghost function Late(s: State): int {
    Sum(|s.procs|, LateWeight(s))
  }

  ghost predicate RankFalls(s: State, s': State, h: nat) {
    || Position(s', h) < Position(s, h)
    || (Position(s', h) == Position(s, h) && Phase(s') < Phase(s))
    || (Position(s', h) == Position(s, h) && Phase(s') == Phase(s) && Late(s') < Late(s))
  }

  lemma LateStep(c: Config, s: State, i: nat, step: Step)
    requires Enabled(c, s, step) && (step == Start(i) || step == Enqueue(i))
    ensures Late(Apply(c, s, step)) < Late(s)
  {
    SumChange(|s.procs|, LateWeight(s), LateWeight(Apply(c, s, step)), i);
  }

  /** What a step without work must do: keep the process in line and lower the rank. */
  ghost predicate KeepsPromise(s: State, s': State, h: nat) {
    RankFalls(s, s', h) && (EndingTurn(s') || InLine(s', h)) && (EndingTurn(s) ==> EndingTurn(s'))
  }

  /** From a promising state every step reduces the work or keeps the promise and the rank falls. */
  lemma LineStep(c: Config, s: State, step: Step, h: nat)
    requires Inv(c, s) && Enabled(c, s, step) && Promising(c, s, h)
    ensures var s' := Apply(c, s, step);
      TotalWork(c, s') < TotalWork(c, s) || (Promising(c, s', h) && RankFalls(s, s', h))
  {
    var s' := Apply(c, s, step);
    StepWork(c, s, step);
    if TotalWork(c, s') == TotalWork(c, s) {
      match step {
        case Start(i) => StartKeepsPromise(c, s, i, h);
        case Enqueue(i) => EnqueueKeepsPromise(c, s, i, h);
        case Dispatch => DispatchKeepsPromise(c, s, h);
        case Wake(i) => WakeKeepsPromise(c, s, i, h);
        case Send(i) => SendKeepsPromise(c, s, i, h);
        case Serve => ServeKeepsPromise(c, s, h);
        case Receive => ReceiveKeepsPromise(c, s, h);
      }
      assert KeepsPromise(s, s', h);
      if Productive(c, s, h) { CalmProductive(c, s, s', h); }
    }
  }

  lemma StartKeepsPromise(c: Config, s: State, i: nat, h: nat)
    requires Shape(c, s) && Control(c, s) && Enabled(c, s, Start(i)) && Promising(c, s, h)
    ensures KeepsPromise(s, Apply(c, s, Start(i)), h)
  {
    LateStep(c, s, i, Start(i));
  }

  lemma WakeKeepsPromise(c: Config, s: State, i: nat, h: nat)
    requires Shape(c, s) && Control(c, s) && Enabled(c, s, Wake(i)) && Promising(c, s, h)
    ensures KeepsPromise(s, Apply(c, s, Wake(i)), h)
  {
    WakeControl(c, s, i);
  }

  lemma EnqueueKeepsPromise(c: Config, s: State, i: nat, h: nat)
    requires Shape(c, s) && Control(c, s) && Enabled(c, s, Enqueue(i)) && Promising(c, s, h)
    ensures KeepsPromise(s, Apply(c, s, Enqueue(i)), h)
  {
    LateStep(c, s, i, Enqueue(i));
    if h in s.mq1 { IndexInAppend(s.mq1, h, i); }
  }

  lemma DispatchKeepsPromise(c: Config, s: State, h: nat)
    requires Shape(c, s) && Control(c, s) && Enabled(c, s, Dispatch) && Promising(c, s, h)
    ensures KeepsPromise(s, Apply(c, s, Dispatch), h)
  {
    assert s.mq1 == [s.mq1[0]] + Apply(c, s, Dispatch).mq1;
  }

  lemma SendKeepsPromise(c: Config, s: State, i: nat, h: nat)
    requires Inv(c, s) && Enabled(c, s, Send(i)) && Promising(c, s, h)
    requires TotalWork(c, Apply(c, s, Send(i))) == TotalWork(c, s)
    ensures KeepsPromise(s, Apply(c, s, Send(i)), h)
  {
    SendWork(c, s, i);
    assert s.procs[i].idx < |c.refs[i]|;
    AskKeepsPromise(c, s, i, h);
  }

  lemma AskKeepsPromise(c: Config, s: State, i: nat, h: nat)
    requires Shape(c, s) && Control(c, s) && Enabled(c, s, Send(i)) && Promising(c, s, h)
    requires s.procs[i].idx < |c.refs[i]|
    ensures KeepsPromise(s, Apply(c, s, Send(i)), h)
  {
    SendControl(c, s, i);
  }

  lemma FaultKeepsPromise(c: Config, s: State, i: nat, page: nat, m: Memory, h: nat)
    requires Shape(c, s) && Control(c, s) && s.sched == Expecting(i) && s.mq3 == [Ask(i, page)] && s.procs[i].pc == Asking
    requires h in s.mq1
    ensures KeepsPromise(s, Replied(s.(mem := m, mq3 := []), i, page, Fault), h)
  {
  }

  lemma ServeKeepsPromise(c: Config, s: State, h: nat)
    requires Inv(c, s) && Enabled(c, s, Serve) && Promising(c, s, h)
    requires TotalWork(c, Apply(c, s, Serve)) == TotalWork(c, s)
    ensures KeepsPromise(s, Apply(c, s, Serve), h)
  {
    var i, page := s.mq3[0].pid, s.mq3[0].page;
    ServeWork(c, s);
    Requester(c, s);
    assert h in s.mq1;
    var (m, reply) := Handle(s.mem, i, page);
    OnlyFaultIsCalm(c, s, i, page, m, reply);
    assert s.mq3[1..] == [];
    FaultKeepsPromise(c, s, i, page, m, h);
  }

  lemma OnlyFaultIsCalm(c: Config, s: State, i: nat, page: nat, m: Memory, reply: Reply)
    requires i < |s.procs| && s.procs[i].pc == Asking && s.mq3 != []
    requires Calm(s, Replied(s.(mem := m, mq3 := s.mq3[1..]), i, page, reply)) && !reply.NoReply?
    ensures reply == Fault
  {
  }

  lemma ReceiveKeepsPromise(c: Config, s: State, h: nat)
    requires Shape(c, s) && Control(c, s) && Enabled(c, s, Receive) && Promising(c, s, h)
    requires TotalWork(c, Apply(c, s, Receive)) == TotalWork(c, s)
    ensures KeepsPromise(s, Apply(c, s, Receive), h)
  {
    ReceiveWork(c, s);
  }

  // ---------------------------------------------------------------- fair infinite runs

  /** One step of an infinite run; a finished system stays as it is. */
  ghost predicate Advance(c: Config, s: State, s': State) {
    Next(c, s, s') || (s.sched == Finished && s' == s)
  }

  /** Process i is not on its way to the ready queue. */
  ghost predicate Arrived(s: State, i: nat) {
    i < |s.procs| ==> s.procs[i].pc !in {NotStarted, Enqueuing}
  }

  /** Every process is eventually started and, after each fault, eventually queued again. */
  ghost predicate FairRun(c: Config, r: nat -> State)
    requires c.Valid()
  {
    && r(0) == InitialState(c)
    && (forall n: nat :: StepsAt(c, r, n))
    && (forall n: nat, i: nat :: ArrivesAfter(r, n, i))
  }

  ghost predicate StepsAt(c: Config, r: nat -> State, n: nat) {
    Advance(c, r(n), r(n + 1))
  }

  ghost predicate ArrivesAfter(r: nat -> State, n: nat, i: nat) {
    exists m: nat :: n <= m && Arrived(r(m), i)
  }

  lemma {:induction false} FairRunInv(c: Config, r: nat -> State, n: nat)
    requires c.Valid() && FairRun(c, r)
    ensures Inv(c, r(n))
  {
    if n == 0 {
      InitialInv(c);
    } else {
      FairRunInv(c, r, n - 1);
      assert StepsAt(c, r, n - 1);
      if r(n) != r(n - 1) || r(n - 1).sched != Finished {
        var step :| Enabled(c, r(n - 1), step) && r(n) == Apply(c, r(n - 1), step);
        StepInv(c, r(n - 1), step);
      }
    }
  }

  lemma AdvanceWork(c: Config, s: State, s': State)
    requires Inv(c, s) && Advance(c, s, s')
    ensures TotalWork(c, s') <= TotalWork(c, s)
    ensures TotalWork(c, s') == TotalWork(c, s) ==> Calm(s, s')
  {
    if s' == s {
      CalmReflexive(s);
    } else {
      var step :| Enabled(c, s, step) && s' == Apply(c, s, step);
      StepWork(c, s, step);
    }
  }

  /** Along a run the work never grows, and memory is unchanged while it stays the same. */
  lemma {:induction false} WalkWork(c: Config, r: nat -> State, n: nat, m: nat)
    requires c.Valid() && FairRun(c, r) && n <= m
    ensures TotalWork(c, r(m)) <= TotalWork(c, r(n))
    ensures TotalWork(c, r(m)) == TotalWork(c, r(n)) ==> Calm(r(n), r(m))
    decreases m
  {
    if n < m {
      WalkWork(c, r, n, m - 1);
      FairRunInv(c, r, m - 1);
      assert StepsAt(c, r, m - 1);
      AdvanceWork(c, r(m - 1), r(m));
      if Calm(r(n), r(m - 1)) && Calm(r(m - 1), r(m)) { CalmTransitive(r(n), r(m - 1), r(m)); }
    } else {
      CalmReflexive(r(n));
    }
  }

  /** From a promising state of a run, work is eventually done. */
  lemma {:induction false} LineProgress(c: Config, r: nat -> State, n: nat, h: nat) returns (m: nat)
    requires c.Valid() && FairRun(c, r) && Promising(c, r(n), h)
    ensures r(m).sched == Finished || TotalWork(c, r(m)) < TotalWork(c, r(n))
    decreases Position(r(n), h), Phase(r(n)), Late(r(n))
  {
    FairRunInv(c, r, n);
    FairRunInv(c, r, n + 1);
    LateNonneg(r(n));
    LateNonneg(r(n + 1));
    assert StepsAt(c, r, n);
    if r(n).sched == Finished {
      m := n;
    } else {
      var step :| Enabled(c, r(n), step) && r(n + 1) == Apply(c, r(n), step);
      StepWork(c, r(n), step);
      LineStep(c, r(n), step, h);
      if TotalWork(c, r(n + 1)) < TotalWork(c, r(n)) {
        m := n + 1;
      } else {
        m := LineProgress(c, r, n + 1, h);
      }
    }
  }

  lemma ArrivedInLine(c: Config, s: State, h: nat)
    requires Inv(c, s) && h < |s.procs| && s.procs[h].pc != Gone && Arrived(s, h)
    ensures InLine(s, h)
  {
    if s.procs[h].pc != Waiting {
      assert s.sched == Expecting(h);
    }
  }

  lemma LateNonneg(s: State)
    ensures Late(s) >= 0
  {
    SumNonneg(|s.procs|, LateWeight(s));
  }

  /** From every state of a fair run that is not finished, work is eventually done. */
  lemma Progress(c: Config, r: nat -> State, n: nat) returns (m: nat)
    requires c.Valid() && FairRun(c, r)
    ensures r(m).sched == Finished || TotalWork(c, r(m)) < TotalWork(c, r(n))
  {
    FairRunInv(c, r, n);
    if r(n).sched == Finished {
      m := n;
    } else if EndingTurn(r(n)) {
      m := LineProgress(c, r, n, 0);
    } else {
      var h := ProductiveExists(c, r(n));
      assert ArrivesAfter(r, n, h);
      var a: nat :| n <= a && Arrived(r(a), h);
      WalkWork(c, r, n, a);
      FairRunInv(c, r, a);
      if TotalWork(c, r(a)) < TotalWork(c, r(n)) || r(a).sched == Finished {
        m := a;
      } else {
        CalmProductive(c, r(n), r(a), h);
        ArrivedInLine(c, r(a), h);
        m := LineProgress(c, r, a, h);
      }
    }
  }

  /** Every fair run finishes, with every process gone and every frame free. */
  lemma {:induction false} FairRunFinishes(c: Config, r: nat -> State, n: nat) returns (m: nat)
    requires c.Valid() && FairRun(c, r)
    ensures r(m).sched == Finished && r(m).k == 0
    ensures forall i :: 0 <= i < |r(m).procs| ==> r(m).procs[i].pc == Gone
    ensures forall x :: 0 <= x < |r(m).mem.free| - 1 ==> r(m).mem.free[x] == 0
    decreases TotalWork(c, r(n))
  {
    FairRunInv(c, r, n);
    TotalWorkNonneg(c, r(n));
    m := Progress(c, r, n);
    FairRunInv(c, r, m);
    TotalWorkNonneg(c, r(m));
    if r(m).sched == Finished {
      FinishedClean(c, r(m));
    } else {
      m := FairRunFinishes(c, r, m);
    }
  }
}
