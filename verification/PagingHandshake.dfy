/** The history of dispatches and notifications along a run of the paging system. */
module PagingHandshake {
  import opened Counting
  import opened Mmu
  import opened Paging

  /** The dispatch made by one step, if any. */
  function NewDispatch(s: State, s': State): seq<nat> {
    if s.sched == Ready && s'.sched.Expecting? then [s'.sched.pid] else []
  }

  /** The notification sent by one step, if any. */
  function NewNote(s: State, s': State): seq<Note> {
    if |s'.mq2| > |s.mq2| then [s'.mq2[|s'.mq2| - 1]] else []
  }

  /** The processes dispatched so far, in order. */
  function Dispatched(run: seq<State>): seq<nat> {
    if |run| <= 1 then []
    else Dispatched(run[..|run| - 1]) + NewDispatch(run[|run| - 2], run[|run| - 1])
  }

  /** The notifications the memory unit has sent so far, in order. */
  function Sent(run: seq<State>): seq<Note> {
    if |run| <= 1 then []
    else Sent(run[..|run| - 1]) + NewNote(run[|run| - 2], run[|run| - 1])
  }

  /** The memory unit has seen the end of process i. */
  ghost predicate EndSeen(s: State, i: nat) {
    i < |s.procs| && s.procs[i].pc == Gone && !(s.sched == Expecting(i) && StageOf(s, i) == Quitting)
  }

  ghost predicate History(s: State, d: seq<nat>, n: seq<Note>) {
    && |d| == |n| + (if s.sched.Expecting? && s.mq2 == [] then 1 else 0)
    && (forall j :: 0 <= j < |n| ==> n[j].pid == d[j])
    && (s.sched.Expecting? ==> d != [] && d[|d| - 1] == s.sched.pid)
    && (forall i :: 0 <= i < |s.procs| ==> multiset(n)[Note(true, i)] == if EndSeen(s, i) then 1 else 0)
  }

  ghost predicate HistoryAfter(s: State, s': State, d: seq<nat>, n: seq<Note>) {
    History(s', d + NewDispatch(s, s'), n + NewNote(s, s'))
  }

  lemma ReplyHistory(c: Config, s: State, m: Memory, reply: Reply, d: seq<nat>, n: seq<Note>)
    requires Shape(c, s) && Control(c, s) && s.mq3 != [] && History(s, d, n)
    requires reply.NoReply? <==> s.mq3[0].page == END
    requires s.mq3[0].pid < |s.procs|
    ensures HistoryAfter(s, Replied(s.(mem := m, mq3 := s.mq3[1..]), s.mq3[0].pid, s.mq3[0].page, reply), d, n)
  {
    Requester(c, s);
  }

  lemma ServeHistory(c: Config, s: State, d: seq<nat>, n: seq<Note>)
    requires Inv(c, s) && Enabled(c, s, Serve) && History(s, d, n)
    ensures HistoryAfter(s, Apply(c, s, Serve), d, n)
  {
    var i, page := s.mq3[0].pid, s.mq3[0].page;
    assert s.sched == Expecting(i) && ProcOk(c, s, i);
    if page != END { HandleRecency(s.mem, i, page, Completed(c, s, i), PendingPage(c, s, i)); }
    ReplyHistory(c, s, Handle(s.mem, i, page).0, Handle(s.mem, i, page).1, d, n);
  }

  lemma StepHistory(c: Config, s: State, step: Step, d: seq<nat>, n: seq<Note>)
    requires Inv(c, s) && Enabled(c, s, step) && History(s, d, n)
    ensures HistoryAfter(s, Apply(c, s, step), d, n)
  {
    match step
    case Serve => ServeHistory(c, s, d, n);
    case Receive => ReceiveHistory(c, s, d, n);
    case Dispatch => DispatchHistory(c, s, d, n);
    case _ => QuietHistory(c, s, step, d, n);
  }

  lemma QuietHistory(c: Config, s: State, step: Step, d: seq<nat>, n: seq<Note>)
    requires Shape(c, s) && Control(c, s) && Enabled(c, s, step) && History(s, d, n)
    requires step.Start? || step.Enqueue? || step.Wake? || step.Send?
    ensures HistoryAfter(s, Apply(c, s, step), d, n)
  {
    if step.Wake? { WakeControl(c, s, step.i); }
    if step.Send? { SendControl(c, s, step.i); }
    SameHistory(s, Apply(c, s, step), d, n);
  }

  lemma ReceiveHistory(c: Config, s: State, d: seq<nat>, n: seq<Note>)
    requires Shape(c, s) && Control(c, s) && Enabled(c, s, Receive) && History(s, d, n)
    ensures HistoryAfter(s, Apply(c, s, Receive), d, n)
  {
    assert n + [] == n && d + [] == d;
  }

  lemma DispatchHistory(c: Config, s: State, d: seq<nat>, n: seq<Note>)
    requires Shape(c, s) && Control(c, s) && Enabled(c, s, Dispatch) && History(s, d, n)
    ensures HistoryAfter(s, Apply(c, s, Dispatch), d, n)
  {
    assert n + [] == n;
  }

  /** A step that neither dispatches nor notifies nor ends a process for the memory unit. */
  lemma SameHistory(s: State, s': State, d: seq<nat>, n: seq<Note>)
    requires History(s, d, n) && s'.sched == s.sched && s'.mq2 == s.mq2
    requires |s'.procs| == |s.procs| && forall i :: 0 <= i < |s.procs| ==> (EndSeen(s', i) <==> EndSeen(s, i))
    ensures HistoryAfter(s, s', d, n)
  {
    assert n + [] == n && d + [] == d;
  }

  /** In every run each dispatch is answered by exactly one notification, about the process
      that was dispatched, before the next dispatch; every process causes exactly one
      end notification, when the memory unit sees its end. */
  lemma {:induction false} RunHistory(c: Config, run: seq<State>)
    requires c.Valid() && IsRun(c, run)
    ensures History(run[|run| - 1], Dispatched(run), Sent(run))
  {
    if |run| > 1 {
      var init := run[..|run| - 1];
      RunHistory(c, init);
      RunInv(c, init);
      LastStep(c, run, Dispatched(init), Sent(init));
    }
  }

  lemma LastStep(c: Config, run: seq<State>, d: seq<nat>, n: seq<Note>)
    requires c.Valid() && IsRun(c, run) && |run| > 1
    requires Inv(c, run[|run| - 2]) && History(run[|run| - 2], d, n)
    ensures HistoryAfter(run[|run| - 2], run[|run| - 1], d, n)
  {
    var s := run[|run| - 2];
    assert Next(c, s, run[|run| - 2 + 1]);
    var step :| Enabled(c, s, step) && run[|run| - 1] == Apply(c, s, step);
    StepHistory(c, s, step, d, n);
  }

  /** Between a dispatch and its notification only the dispatched process sends requests, one at
      a time; at any other time nobody does. */
  lemma RunSender(c: Config, run: seq<State>, i: nat)
    requires c.Valid() && IsRun(c, run) && Enabled(c, run[|run| - 1], Send(i))
    ensures var s := run[|run| - 1]; s.sched == Expecting(i) && s.mq2 == [] && s.mq3 == []
  {
    RunInv(c, run);
    SendControl(c, run[|run| - 1], i);
  }

  /** The scheduler's count is the number of processes minus the end notifications it has
      consumed. */
  lemma RunCount(c: Config, run: seq<State>)
    requires c.Valid() && IsRun(c, run)
    ensures var s := run[|run| - 1];
      s.k == |c.refs| - Sum(|c.refs|, EndNotes(Sent(run)))
             + (if s.mq2 != [] && s.mq2[0].ended then 1 else 0)
  {
    RunInv(c, run);
    RunHistory(c, run);
    CountMatches(c, run[|run| - 1], Dispatched(run), Sent(run));
  }

  ghost function EndNotes(n: seq<Note>): nat -> int {
    i => if i >= 0 then multiset(n)[Note(true, i)] else 0
  }

  lemma CountMatches(c: Config, s: State, d: seq<nat>, n: seq<Note>)
    requires Inv(c, s) && History(s, d, n)
    ensures s.k == |c.refs| - Sum(|c.refs|, EndNotes(n)) + (if s.mq2 != [] && s.mq2[0].ended then 1 else 0)
  {
    var k, ends, live := |c.refs|, EndNotes(n), LiveWeight(s);
    if s.mq2 != [] && s.mq2[0].ended {
      var p := s.sched.pid;
      var others := (i: nat) => if i == p then 0 else ends(i);
      SumComplement(k, live, others);
      SumChange(k, others, ends, p);
    } else {
      SumComplement(k, live, ends);
    }
  }

  lemma {:induction false} SumComplement(n: nat, f: nat -> int, g: nat -> int)
    requires forall i :: 0 <= i < n ==> f(i) + g(i) == 1
    ensures Sum(n, f) == n - Sum(n, g)
  {
    if n > 0 { SumComplement(n - 1, f, g); }
  }
}
