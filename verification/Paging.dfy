/** The demand-paging system as a state machine: k processes, a FIFO scheduler and the
    memory management unit, talking over three message queues and one semaphore per
    process. One step is one message or semaphore operation; the reply to a request is
    picked up by its requester in the step that serves the request. */
module Paging {
  import opened Counting
  import opened Mmu
  import opened Master

  /** Page counts, number of frames and reference strings of the processes. */
  datatype Config = Config(sizes: seq<nat>, f: nat, refs: seq<seq<nat>>) {
    predicate Valid() {
      ValidSplit(sizes, f) && |refs| == |sizes|
    }
  }

  datatype Pc = NotStarted | Enqueuing | Waiting | Running | Asking | Gone

  /** loaded: the last request faulted and its page was brought in; not yet retried. */
  datatype Proc = Proc(pc: Pc, idx: nat, loaded: bool)

  /** To the scheduler: type 1 (fault handled) or type 2 (process ended). */
  datatype Note = Note(ended: bool, pid: nat)

  datatype Ask = Ask(pid: nat, page: int)

  datatype Sched = Ready | Expecting(pid: nat) | Finished

  datatype State = State(mem: Memory, procs: seq<Proc>, sem: seq<nat>,
                         mq1: seq<nat>, mq2: seq<Note>, mq3: seq<Ask>, sched: Sched, k: nat)

  datatype Step =
    | Start(i: nat)        // the process is forked
    | Enqueue(i: nat)      // it joins the ready queue
    | Dispatch             // the scheduler takes the head of the queue and signals it
    | Wake(i: nat)         // the process passes its semaphore
    | Send(i: nat)         // it sends its next request, or its end mark
    | Serve                // the memory unit serves a request
    | Receive              // the scheduler takes the unit's notification

  function InitialState(c: Config): State
    requires c.Valid()
  {
    State(InitialMemory(c.sizes, c.f), seq(|c.refs|, _ => Proc(NotStarted, 0, false)),
          seq(|c.refs|, _ => 0), [], [], [], Ready, |c.refs|)
  }

  predicate Enabled(c: Config, s: State, step: Step) {
    match step
    case Start(i) => i < |s.procs| && s.procs[i].pc == NotStarted
    case Enqueue(i) => i < |s.procs| && s.procs[i].pc == Enqueuing
    case Dispatch => s.sched == Ready && s.mq1 != [] && s.mq1[0] < |s.sem|
    case Wake(i) => i < |s.procs| && i < |s.sem| && s.procs[i].pc == Waiting && s.sem[i] > 0
    case Send(i) => i < |s.procs| && i < |c.refs| && s.procs[i].pc == Running
    case Serve => s.mq3 != [] && s.mq3[0].pid < |s.procs| && Request(s.mem, s.mq3[0].pid, s.mq3[0].page)
    case Receive => s.sched.Expecting? && s.mq2 != [] && s.k > 0
  }

  function SetProc(s: State, i: nat, p: Proc): State
    requires i < |s.procs|
  {
    s.(procs := s.procs[i := p])
  }

  predicate HasPage(m: Memory, i: nat, page: int) {
    i < |m.tables| && 0 <= page < |m.tables[i].entries| && m.tables[i].entries[page].valid
  }

  /** The requester reacts to the reply; the scheduler is notified unless the turn goes on. */
  function Replied(s: State, i: nat, page: int, reply: Reply): State
    requires i < |s.procs|
  {
    var p := s.procs[i];
    match reply
    case NoReply => s.(mq2 := s.mq2 + [Note(true, i)])
    case Illegal => SetProc(s, i, Proc(Gone, p.idx, false)).(mq2 := s.mq2 + [Note(true, i)])
    case Hit(_) => SetProc(s, i, Proc(Running, p.idx + 1, false))
    case Fault => SetProc(s, i, Proc(Enqueuing, p.idx, HasPage(s.mem, i, page))).(mq2 := s.mq2 + [Note(false, i)])
  }

  function Apply(c: Config, s: State, step: Step): State
    requires Enabled(c, s, step)
  {
    match step
    case Start(i) => SetProc(s, i, s.procs[i].(pc := Enqueuing))
    case Enqueue(i) => SetProc(s, i, s.procs[i].(pc := Waiting)).(mq1 := s.mq1 + [i])
    case Dispatch =>
      var p := s.mq1[0];
      s.(mq1 := s.mq1[1..], sem := s.sem[p := s.sem[p] + 1], sched := Expecting(p))
    case Wake(i) => SetProc(s, i, s.procs[i].(pc := Running)).(sem := s.sem[i := s.sem[i] - 1])
    case Send(i) =>
      var p := s.procs[i];
      if p.idx < |c.refs[i]|
      then SetProc(s, i, p.(pc := Asking)).(mq3 := s.mq3 + [Ask(i, c.refs[i][p.idx])])
      else SetProc(s, i, p.(pc := Gone)).(mq3 := s.mq3 + [Ask(i, END)])
    case Serve =>
      var (m, reply) := Handle(s.mem, s.mq3[0].pid, s.mq3[0].page);
      Replied(s.(mem := m, mq3 := s.mq3[1..]), s.mq3[0].pid, s.mq3[0].page, reply)
    case Receive =>
      var k := if s.mq2[0].ended then s.k - 1 else s.k;
      s.(mq2 := s.mq2[1..], k := k, sched := if k > 0 then Ready else Finished)
  }

  ghost predicate Next(c: Config, s: State, s': State) {
    exists step :: Enabled(c, s, step) && s' == Apply(c, s, step)
  }

  /** A finite run from the initial state. */
  ghost predicate IsRun(c: Config, run: seq<State>)
    requires c.Valid()
  {
    |run| > 0 && run[0] == InitialState(c) && forall i :: 0 <= i < |run| - 1 ==> Next(c, run[i], run[i + 1])
  }

  // ---------------------------------------------------------------- the invariant

  /** Where the current turn stands. */
  datatype Stage = Signalled | Computing | Requesting | Quitting | Faulted | Ended

  function StageOf(s: State, p: nat): Stage {
    if s.mq2 != [] then (if s.mq2[0].ended then Ended else Faulted)
    else if s.mq3 != [] then (if s.mq3[0].page == END then Quitting else Requesting)
    else if p < |s.sem| && s.sem[p] > 0 then Signalled
    else Computing
  }

  ghost predicate Shape(c: Config, s: State) {
    && c.Valid()
    && |s.procs| == |s.sem| == |s.mem.tables| == |c.refs|
    && |s.mem.free| == c.f + 1
    && (forall i :: 0 <= i < |c.refs| ==> |s.mem.tables[i].entries| == c.sizes[i])
  }

  ghost predicate Idle(s: State, i: nat)
    requires i < |s.procs| && i < |s.sem|
  {
    s.sem[i] == 0 && s.procs[i].pc !in {Running, Asking}
  }

  /** Process p has the turn: exactly one token of it is in flight. */
  ghost predicate Turn(c: Config, s: State, p: nat)
    requires Shape(c, s)
  {
    && p < |s.procs|
    && (StageOf(s, p) != Signalled ==> s.sem[p] == 0)
    && match StageOf(s, p)
       case Signalled => s.sem[p] == 1 && s.procs[p].pc == Waiting && p !in s.mq1 && s.mq2 == [] && s.mq3 == []
       case Computing => s.procs[p].pc == Running && s.mq2 == [] && s.mq3 == []
       case Requesting => s.procs[p].pc == Asking && s.procs[p].idx < |c.refs[p]|
                          && s.mq2 == [] && s.mq3 == [Ask(p, c.refs[p][s.procs[p].idx])]
       case Quitting => s.procs[p].pc == Gone && s.mq2 == [] && s.mq3 == [Ask(p, END)]
       case Faulted => s.procs[p].pc in {Enqueuing, Waiting} && s.mq2 == [Note(false, p)] && s.mq3 == []
       case Ended => s.procs[p].pc == Gone && s.mq2 == [Note(true, p)] && s.mq3 == []
  }

  /** Only the dispatched process runs, asks or is answered. */
  ghost predicate Handshake(c: Config, s: State)
    requires Shape(c, s)
  {
    && (forall i :: 0 <= i < |s.procs| && s.sched != Expecting(i) ==> Idle(s, i))
    && (if s.sched.Expecting? then Turn(c, s, s.sched.pid) else s.mq2 == [] && s.mq3 == [])
  }

  /** The ready queue holds each waiting process once. */
  ghost predicate Queued(s: State) {
    && (forall j :: 0 <= j < |s.mq1| ==> s.mq1[j] < |s.procs| && s.procs[s.mq1[j]].pc == Waiting)
    && (forall j, j' :: 0 <= j < j' < |s.mq1| ==> s.mq1[j] != s.mq1[j'])
    && (forall i :: 0 <= i < |s.procs| && s.procs[i].pc == Waiting && i !in s.mq1 ==>
          s.sched == Expecting(i) && StageOf(s, i) == Signalled)
  }

  /** Not yet counted off by the scheduler. */
  ghost predicate Live(s: State, i: int) {
    && 0 <= i < |s.procs|
    && (s.procs[i].pc == Gone ==> s.sched == Expecting(i) && StageOf(s, i) in {Quitting, Ended})
  }

  ghost function LiveWeight(s: State): nat -> int {
    i => if Live(s, i) then 1 else 0
  }

  ghost predicate Counted(s: State) {
    && s.k == Sum(|s.procs|, LiveWeight(s))
    && (s.sched == Finished <==> s.k == 0)
  }

  function Completed(c: Config, s: State, i: nat): seq<nat>
    requires i < |c.refs| && i < |s.procs| && s.procs[i].idx <= |c.refs[i]|
  {
    c.refs[i][..s.procs[i].idx]
  }

  ghost function PendingPage(c: Config, s: State, i: nat): int
    requires i < |c.refs| && i < |s.procs| && (s.procs[i].loaded ==> s.procs[i].idx < |c.refs[i]|)
  {
    if s.procs[i].loaded then c.refs[i][s.procs[i].idx] else -1
  }

  ghost predicate HoldsNothing(es: seq<Entry>) {
    forall g :: 0 <= g < |es| ==> !es[g].valid
  }

  /** The end mark of process i is on its way to the memory unit. */
  ghost predicate IsQuitting(s: State, i: nat) {
    s.sched == Expecting(i) && StageOf(s, i) == Quitting
  }

  /** The page table of a living process reflects its completed references; an ended one
      holds no frame. */
  ghost predicate ProcOk(c: Config, s: State, i: nat)
    requires Shape(c, s) && i < |s.procs|
  {
    var p := s.procs[i];
    && p.idx <= |c.refs[i]|
    && (p.loaded ==> p.idx < |c.refs[i]| && p.pc != Gone)
    && (p.pc != Gone ==> Recency(s.mem.tables[i].entries, Completed(c, s, i), PendingPage(c, s, i)))
    && (p.pc == Gone ==> IsQuitting(s, i) || HoldsNothing(s.mem.tables[i].entries))
  }

  ghost predicate ProcsOk(c: Config, s: State)
    requires Shape(c, s)
  {
    forall i :: 0 <= i < |s.procs| ==> ProcOk(c, s, i)
  }

  /** Who may do what: the handshake, the ready queue and the scheduler's count. */
  ghost predicate Control(c: Config, s: State)
    requires Shape(c, s)
  {
    Handshake(c, s) && Queued(s) && Counted(s)
  }

  ghost predicate Inv(c: Config, s: State) {
    Shape(c, s) && Control(c, s) && Owned(s.mem) && ProcsOk(c, s)
  }

  lemma InitialInv(c: Config)
    requires c.Valid()
    ensures Inv(c, InitialState(c))
  {
    var s := InitialState(c);
    InitialOwned(c.sizes, c.f);
    SumOnes(|s.procs|, LiveWeight(s));
    forall i | 0 <= i < |s.procs|
      ensures ProcOk(c, s, i)
    {
      InitialRecency(s.mem.tables[i].entries);
    }
    assert c.sizes == [] ==> TotalPages(c.sizes) == 0;
  }

  /** A step that leaves liveness alone. */
  lemma LivenessSame(s: State, s': State)
    requires |s'.procs| == |s.procs| && forall i :: 0 <= i < |s.procs| ==> (Live(s', i) <==> Live(s, i))
    ensures Sum(|s'.procs|, LiveWeight(s')) == Sum(|s.procs|, LiveWeight(s))
  {
    SumSame(|s.procs|, LiveWeight(s), LiveWeight(s'));
  }

  // ---- control, step by step

  lemma StartControl(c: Config, s: State, i: nat)
    requires Shape(c, s) && Control(c, s) && Enabled(c, s, Start(i))
    ensures Control(c, Apply(c, s, Start(i)))
  {
    LivenessSame(s, Apply(c, s, Start(i)));
  }

  lemma EnqueueControl(c: Config, s: State, i: nat)
    requires Shape(c, s) && Control(c, s) && Enabled(c, s, Enqueue(i))
    ensures Control(c, Apply(c, s, Enqueue(i)))
  {
    assert i !in s.mq1;
    LivenessSame(s, Apply(c, s, Enqueue(i)));
  }

  lemma DispatchControl(c: Config, s: State)
    requires Shape(c, s) && Control(c, s) && Enabled(c, s, Dispatch)
    ensures Control(c, Apply(c, s, Dispatch))
  {
    var s' := Apply(c, s, Dispatch);
    LivenessSame(s, s');
    assert s.mq1 == [s.mq1[0]] + s'.mq1;
  }

  lemma WakeControl(c: Config, s: State, i: nat)
    requires Shape(c, s) && Control(c, s) && Enabled(c, s, Wake(i))
    ensures s.sched == Expecting(i) && Control(c, Apply(c, s, Wake(i)))
  {
    LivenessSame(s, Apply(c, s, Wake(i)));
  }

  lemma SendControl(c: Config, s: State, i: nat)
    requires Shape(c, s) && Control(c, s) && Enabled(c, s, Send(i))
    ensures s.sched == Expecting(i) && Control(c, Apply(c, s, Send(i)))
  {
    LivenessSame(s, Apply(c, s, Send(i)));
  }

  lemma ReceiveControl(c: Config, s: State)
    requires Shape(c, s) && Control(c, s) && Enabled(c, s, Receive)
    ensures Control(c, Apply(c, s, Receive))
  {
    var s', p := Apply(c, s, Receive), s.sched.pid;
    if s.mq2[0].ended {
      SumChange(|s.procs|, LiveWeight(s), LiveWeight(s'), p);
    } else {
      LivenessSame(s, s');
    }
  }

  /** The requester and the state of its turn, when a request or an end mark is in the queue. */
  lemma Requester(c: Config, s: State)
    requires Shape(c, s) && Control(c, s) && s.mq3 != []
    ensures var i, page := s.mq3[0].pid, s.mq3[0].page;
      && i < |s.procs| && s.sched == Expecting(i) && s.mq3 == [Ask(i, page)] && s.mq2 == []
      && (page == END ==> s.procs[i].pc == Gone && IsQuitting(s, i))
      && (page != END ==> s.procs[i].pc == Asking && s.procs[i].idx < |c.refs[i]| && page == c.refs[i][s.procs[i].idx])
  {
  }

  lemma ReplyControl(c: Config, s: State, m: Memory, reply: Reply)
    requires Shape(c, s) && Control(c, s) && s.mq3 != [] && Shape(c, s.(mem := m))
    requires reply.NoReply? <==> s.mq3[0].page == END
    requires s.mq3[0].pid < |s.procs|
    ensures var s' := Replied(s.(mem := m, mq3 := s.mq3[1..]), s.mq3[0].pid, s.mq3[0].page, reply);
      Shape(c, s') && Control(c, s')
  {
    Requester(c, s);
    LivenessSame(s, Replied(s.(mem := m, mq3 := s.mq3[1..]), s.mq3[0].pid, s.mq3[0].page, reply));
  }

  // ---- page tables, step by step

  /** A step that touches neither memory nor progress. */
  lemma ProcsSame(c: Config, s: State, s': State)
    requires Shape(c, s) && Shape(c, s') && ProcsOk(c, s) && s'.mem == s.mem
    requires forall i :: 0 <= i < |s.procs| ==>
      && s'.procs[i].idx == s.procs[i].idx && s'.procs[i].loaded == s.procs[i].loaded
      && (s'.procs[i].pc == Gone <==> s.procs[i].pc == Gone)
      && (IsQuitting(s, i) ==> IsQuitting(s', i))
    ensures ProcsOk(c, s')
  {
    forall i | 0 <= i < |s'.procs|
      ensures ProcOk(c, s', i)
    {
      assert ProcOk(c, s, i);
    }
  }

  lemma SendProcs(c: Config, s: State, i: nat)
    requires Shape(c, s) && Control(c, s) && ProcsOk(c, s) && Enabled(c, s, Send(i))
    ensures ProcsOk(c, Apply(c, s, Send(i)))
  {
    SendControl(c, s, i);
    var s' := Apply(c, s, Send(i));
    forall j | 0 <= j < |s'.procs|
      ensures ProcOk(c, s', j)
    {
      assert ProcOk(c, s, j);
    }
  }

  /** What the memory unit's answer does to the table of the requester. */
  ghost predicate Answered(c: Config, s: State, m: Memory, i: nat, page: int, reply: Reply)
    requires Shape(c, s) && i < |s.procs| && i < |m.tables|
  {
    var es := m.tables[i].entries;
    && (reply.Hit? ==> s.procs[i].idx < |c.refs[i]| && Recency(es, c.refs[i][..s.procs[i].idx + 1], -1))
    && (reply.Fault? ==> s.procs[i].idx <= |c.refs[i]| && Recency(es, Completed(c, s, i), if HasPage(m, i, page) then page else -1))
    && (reply.Illegal? || reply.NoReply? ==> HoldsNothing(es))
  }

  lemma ReplyProcs(c: Config, s: State, m: Memory, reply: Reply)
    requires Shape(c, s) && Control(c, s) && ProcsOk(c, s) && s.mq3 != [] && Shape(c, s.(mem := m))
    requires reply.NoReply? <==> s.mq3[0].page == END
    requires s.mq3[0].pid < |s.procs| && Answered(c, s, m, s.mq3[0].pid, s.mq3[0].page, reply)
    requires forall j :: 0 <= j < |m.tables| && j != s.mq3[0].pid ==> m.tables[j] == s.mem.tables[j]
    ensures var s' := Replied(s.(mem := m, mq3 := s.mq3[1..]), s.mq3[0].pid, s.mq3[0].page, reply);
      Shape(c, s') && ProcsOk(c, s')
  {
    Requester(c, s);
    var i := s.mq3[0].pid;
    var s' := Replied(s.(mem := m, mq3 := s.mq3[1..]), i, s.mq3[0].page, reply);
    assert ProcOk(c, s, i);
    assert ProcOk(c, s', i);
    forall j | 0 <= j < |s'.procs| && j != i
      ensures ProcOk(c, s', j)
    {
      assert ProcOk(c, s, j) && s'.procs[j] == s.procs[j] && s'.mem.tables[j] == s.mem.tables[j];
    }
  }

  lemma EndAnswers(c: Config, s: State, i: nat)
    requires Shape(c, s) && Owned(s.mem) && i < |s.procs|
    ensures Answered(c, s, Release(s.mem, i), i, END, NoReply)
  {
    var m := Release(s.mem, i);
    ReleaseOwned(s.mem, i);
    assert forall g :: Resident(m, i, g) <==> 0 <= g < |m.tables[i].entries| && m.tables[i].entries[g].valid;
  }

  lemma PageAnswers(c: Config, s: State, i: nat, page: nat)
    requires Shape(c, s) && Owned(s.mem) && i < |s.procs| && ProcOk(c, s, i) && s.procs[i].pc != Gone
    requires s.procs[i].idx < |c.refs[i]| && page == c.refs[i][s.procs[i].idx]
    ensures var (m, reply) := Handle(s.mem, i, page); i < |m.tables| && Answered(c, s, m, i, page, reply) && !reply.NoReply?
  {
    HandleOwned(s.mem, i, page);
    HandleOthers(s.mem, i, page);
    HandleRecency(s.mem, i, page, Completed(c, s, i), PendingPage(c, s, i));
    assert c.refs[i][..s.procs[i].idx + 1] == Completed(c, s, i) + [page];
    var m := Handle(s.mem, i, page).0;
    assert forall g :: Resident(m, i, g) <==> 0 <= g < |m.tables[i].entries| && m.tables[i].entries[g].valid;
  }

  lemma HandleShape(c: Config, s: State, i: nat, page: int)
    requires Shape(c, s) && Owned(s.mem) && i < |s.procs| && (page == END || 0 <= page)
    ensures Request(s.mem, i, page)
    ensures var m := Handle(s.mem, i, page).0;
      Owned(m) && Shape(c, s.(mem := m)) && forall j :: 0 <= j < |m.tables| && j != i ==> m.tables[j] == s.mem.tables[j]
  {
    HandleOwned(s.mem, i, page);
    HandleOthers(s.mem, i, page);
  }

  lemma ServeInv(c: Config, s: State)
    requires Inv(c, s) && Enabled(c, s, Serve)
    ensures Inv(c, Apply(c, s, Serve))
  {
    Requester(c, s);
    var i, page := s.mq3[0].pid, s.mq3[0].page;
    var (m, reply) := Handle(s.mem, i, page);
    assert ProcOk(c, s, i);
    HandleShape(c, s, i, page);
    if page == END { EndAnswers(c, s, i); } else { PageAnswers(c, s, i, page); }
    ReplyControl(c, s, m, reply);
    ReplyProcs(c, s, m, reply);
  }

  lemma StartInv(c: Config, s: State, i: nat)
    requires Inv(c, s) && Enabled(c, s, Start(i))
    ensures Inv(c, Apply(c, s, Start(i)))
  {
    StartControl(c, s, i);
    ProcsSame(c, s, Apply(c, s, Start(i)));
  }

  lemma EnqueueInv(c: Config, s: State, i: nat)
    requires Inv(c, s) && Enabled(c, s, Enqueue(i))
    ensures Inv(c, Apply(c, s, Enqueue(i)))
  {
    EnqueueControl(c, s, i);
    ProcsSame(c, s, Apply(c, s, Enqueue(i)));
  }

  lemma DispatchInv(c: Config, s: State)
    requires Inv(c, s) && Enabled(c, s, Dispatch)
    ensures Inv(c, Apply(c, s, Dispatch))
  {
    DispatchControl(c, s);
    ProcsSame(c, s, Apply(c, s, Dispatch));
  }

  lemma WakeInv(c: Config, s: State, i: nat)
    requires Inv(c, s) && Enabled(c, s, Wake(i))
    ensures Inv(c, Apply(c, s, Wake(i)))
  {
    WakeControl(c, s, i);
    ProcsSame(c, s, Apply(c, s, Wake(i)));
  }

  lemma ReceiveInv(c: Config, s: State)
    requires Inv(c, s) && Enabled(c, s, Receive)
    ensures Inv(c, Apply(c, s, Receive))
  {
    ReceiveControl(c, s);
    ProcsSame(c, s, Apply(c, s, Receive));
  }

  lemma SendInv(c: Config, s: State, i: nat)
    requires Inv(c, s) && Enabled(c, s, Send(i))
    ensures Inv(c, Apply(c, s, Send(i)))
  {
    SendControl(c, s, i);
    SendProcs(c, s, i);
  }

  /** Every step keeps the invariant. */
  lemma StepInv(c: Config, s: State, step: Step)
    requires Inv(c, s) && Enabled(c, s, step)
    ensures Inv(c, Apply(c, s, step))
  {
    match step
    case Start(i) => StartInv(c, s, i);
    case Enqueue(i) => EnqueueInv(c, s, i);
    case Dispatch => DispatchInv(c, s);
    case Wake(i) => WakeInv(c, s, i);
    case Send(i) => SendInv(c, s, i);
    case Serve => ServeInv(c, s);
    case Receive => ReceiveInv(c, s);
  }

  lemma {:induction false} RunInv(c: Config, run: seq<State>)
    requires c.Valid() && IsRun(c, run)
    ensures Inv(c, run[|run| - 1])
  {
    if |run| == 1 {
      InitialInv(c);
    } else {
      var init := run[..|run| - 1];
      RunInv(c, init);
      assert Next(c, run[|init| - 1], run[|init| - 1 + 1]);
      var step :| Enabled(c, run[|init| - 1], step) && run[|init|] == Apply(c, run[|init| - 1], step);
      StepInv(c, run[|init| - 1], step);
    }
  }

  // ---------------------------------------------------------------- safety over all runs

  /** LRU refinement, in every reachable state: a living process that is not about to retry a
      loaded page holds exactly the min(c, d) most recently referenced of its d referenced pages,
      c being the number of frames it holds; before a retry the loaded page is resident. */
  lemma RunLru(c: Config, run: seq<State>, i: nat)
    requires c.Valid() && IsRun(c, run) && i < |c.refs|
    ensures var s := run[|run| - 1];
      i < |s.procs| && i < |s.mem.tables| && s.procs[i].idx <= |c.refs[i]|
    ensures var s := run[|run| - 1]; var p := s.procs[i];
      var es, hist := s.mem.tables[i].entries, c.refs[i][..p.idx];
      var held, used := |ResidentPages(es)|, |Pages(hist)|;
      p.pc != Gone ==>
        if p.loaded then p.idx < |c.refs[i]| && HasPage(s.mem, i, c.refs[i][p.idx])
        else && ResidentPages(es) * Pages(hist) == MostRecent(hist, held)
             && |ResidentPages(es) * Pages(hist)| == if held < used then held else used
  {
    RunInv(c, run);
    var s := run[|run| - 1];
    assert ProcOk(c, s, i);
    if s.procs[i].pc != Gone && !s.procs[i].loaded {
      ResidentAreMostRecent(s.mem.tables[i].entries, Completed(c, s, i));
      ResidentCount(s.mem.tables[i].entries, Completed(c, s, i));
    }
  }

  /** In every reachable state the request in the queue is the next reference of the
      dispatched process; it is a hit exactly when its page is resident, answered with the
      frame that holds it, and the resident set of the requester changes as Outcome says of its
      completed references; an illegal page ends the process without a frame. */
  lemma RunFault(c: Config, run: seq<State>, i: nat, page: nat)
    requires c.Valid() && IsRun(c, run)
    requires run[|run| - 1].mq3 == [Ask(i, page)]
    ensures i < |c.refs| && NextReference(c, run[|run| - 1], i, page)
    ensures page < c.sizes[i] ==> Served(c, run[|run| - 1], i, page)
    ensures page >= c.sizes[i] ==> Rejected(c, run[|run| - 1], i, page)
    ensures Answer(c, run[|run| - 1], i, page)
  {
    RunInv(c, run);
    var s := run[|run| - 1];
    Requester(c, s);
    assert ProcOk(c, s, i);
    HandleAnswers(s.mem, i, page);
    if page >= c.sizes[i] {
      HandleOwned(s.mem, i, page);
    } else {
      HandleOthers(s.mem, i, page);
      HandleOutcome(s.mem, i, page, Completed(c, s, i), PendingPage(c, s, i));
      HandleRecency(s.mem, i, page, Completed(c, s, i), PendingPage(c, s, i));
    }
  }

  ghost predicate NextReference(c: Config, s: State, i: nat, page: nat)
    requires i < |c.refs|
  {
    && i < |s.procs| && i < |s.mem.tables| && s.procs[i].idx < |c.refs[i]| && page == c.refs[i][s.procs[i].idx]
    && s.mq3 == [Ask(i, page)] && Enabled(c, s, Serve)
  }

  ghost predicate Served(c: Config, s: State, i: nat, page: nat)
    requires i < |c.refs| && NextReference(c, s, i, page)
  {
    var s' := Apply(c, s, Serve);
    && i < |s'.mem.tables|
    && var before, after := ResidentPages(s.mem.tables[i].entries), ResidentPages(s'.mem.tables[i].entries);
    && Outcome(s.mem.free, before, after, page, c.refs[i][..s.procs[i].idx])
    && s'.procs[i].idx == s.procs[i].idx + (if page in before then 1 else 0)
  }

  /** The reply to the request: a hit names the occupied frame that holds the page, before and
      after; anything else is a fault or, for a page outside the table, illegal. */
  ghost predicate Answer(c: Config, s: State, i: nat, page: nat)
    requires i < |c.refs| && NextReference(c, s, i, page)
  {
    var s', reply := Apply(c, s, Serve), Handle(s.mem, i, page).1;
    match reply
    case Hit(x) => Holds(s.mem, i, page, x) && Holds(s'.mem, i, page, x) && 0 <= x < c.f && x < |s'.mem.free| && s'.mem.free[x] == 1
    case Fault => page < |s.mem.tables[i].entries| && !Resident(s.mem, i, page)
    case Illegal => page >= |s.mem.tables[i].entries|
    case NoReply => false
  }

  ghost predicate Rejected(c: Config, s: State, i: nat, page: nat)
    requires i < |c.refs| && NextReference(c, s, i, page)
  {
    var s' := Apply(c, s, Serve);
    && i < |s'.procs| && s'.procs[i].pc == Gone && s'.mq2 == s.mq2 + [Note(true, i)]
    && forall g :: !Resident(s'.mem, i, g)
  }

  /** A process keeps the number of its frames until it ends. */
  lemma FramesKept(c: Config, s: State, step: Step, i: nat)
    requires Inv(c, s) && Enabled(c, s, step) && i < |s.procs|
    requires Apply(c, s, step).procs[i].pc != Gone
    ensures i < |Apply(c, s, step).mem.tables|
    ensures |ResidentPages(Apply(c, s, step).mem.tables[i].entries)| >= |ResidentPages(s.mem.tables[i].entries)|
  {
    if step == Serve {
      HandleOthers(s.mem, s.mq3[0].pid, s.mq3[0].page);
      assert s.sched == Expecting(s.mq3[0].pid);
      if s.mq3[0].pid == i {
        assert ProcOk(c, s, i);
        HandleRecency(s.mem, i, s.mq3[0].page, Completed(c, s, i), PendingPage(c, s, i));
        HandleOutcome(s.mem, i, s.mq3[0].page, Completed(c, s, i), PendingPage(c, s, i));
      }
    }
  }

  /** When the scheduler finishes every process is gone and every frame is free. */
  lemma FinishedClean(c: Config, s: State)
    requires Inv(c, s) && s.sched == Finished
    ensures forall i :: 0 <= i < |s.procs| ==> s.procs[i].pc == Gone
    ensures forall p, g :: !Resident(s.mem, p, g)
    ensures forall x :: 0 <= x < c.f ==> s.mem.free[x] == 0
  {
    forall i | 0 <= i < |s.procs|
      ensures s.procs[i].pc == Gone && forall g :: !Resident(s.mem, i, g)
    {
      SumAtLeast(|s.procs|, LiveWeight(s), i);
      assert ProcOk(c, s, i);
    }
    forall p, g
      ensures !Resident(s.mem, p, g)
    {
      if 0 <= p < |s.procs| { assert ProcOk(c, s, p); }
    }
    forall x | 0 <= x < c.f
      ensures s.mem.free[x] == 0
    {
      assert forall p, g :: Holds(s.mem, p, g, x) ==> Resident(s.mem, p, g);
    }
  }

  /** No reachable state is stuck before the scheduler has finished. */
  lemma NotStuck(c: Config, s: State)
    requires Inv(c, s) && s.sched != Finished
    ensures exists step :: Enabled(c, s, step)
  {
    if s.sched.Expecting? {
      var p := s.sched.pid;
      match StageOf(s, p)
      case Signalled => assert Enabled(c, s, Wake(p));
      case Computing => assert Enabled(c, s, Send(p));
      case Requesting => assert Enabled(c, s, Serve);
      case Quitting => assert Enabled(c, s, Serve);
      case Faulted => assert Enabled(c, s, Receive);
      case Ended => assert Enabled(c, s, Receive);
    } else {
      SumNonneg(|s.procs|, LiveWeight(s));
      var i := SumPositive(|s.procs|, LiveWeight(s));
      assert Idle(s, i) && s.procs[i].pc != Gone;
      match s.procs[i].pc
      case NotStarted => assert Enabled(c, s, Start(i));
      case Enqueuing => assert Enabled(c, s, Enqueue(i));
      case Waiting => assert i in s.mq1; assert Enabled(c, s, Dispatch);
      case Running =>
      case Asking =>
      case Gone =>
    }
  }
}
