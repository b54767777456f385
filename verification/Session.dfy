/** The doctor's session as a state machine: an assistant takes arrivals off the event
    queue, a doctor calls visitors in, and every admitted visitor is a thread of its own.
    One step is one critical section; the assistant's late clearing of its sleep flag,
    which happens outside the mutex, is a step of its own. */
module Session {
  import opened Counting
  import opened EventQueue

  const PATIENT_QUOTA := 25
  const SALES_QUOTA := 3

  datatype Kind = Reporter | Patient | Sales

  /** Whatever is neither a patient nor a sales representative is treated as a reporter. */
  function KindOf(e: Event): Kind {
    if e.kind == 'P' then Patient else if e.kind == 'S' then Sales else Reporter
  }

  predicate Full(k: Kind, total: nat) {
    (k == Patient && total >= PATIENT_QUOTA) || (k == Sales && total >= SALES_QUOTA)
  }

  /** a is called in before b. */
  predicate MoreUrgent(a: Kind, b: Kind) {
    (a == Reporter && b != Reporter) || (a == Patient && b == Sales)
  }

  /** The visitors of one kind: those admitted (one thread each) and everybody counted so far. */
  datatype Intake = Intake(args: seq<Event>, total: nat)

  /** Where the events are. away: turned away because the quota was full; late: turned away
      after the session. */
  datatype Register = Register(queue: seq<Event>, rep: Intake, pat: Intake, sal: Intake, away: seq<Event>, late: seq<Event>)

  /** The door of one kind: how many wait to be called, the flag that keeps the threads
      asleep, and which of them were in. */
  datatype Door = Door(cur: int, asleep: bool, served: set<nat>)

  datatype Phase = NotStarted | Open | Over

  datatype Doctor = Asleep | Checking | Opening | Choosing | Listening | Left

  datatype Assistant = AtTop | Clearing | Exited

  datatype Visit = Visit(kind: Kind, id: nat, start: int, end: int)

  datatype State = State(reg: Register, phase: Phase, now: int, sleeping: bool, ongoing: bool, assistSleep: bool,
                         rep: Door, pat: Door, sal: Door, doctor: Doctor, assistant: Assistant, log: seq<Visit>)

  datatype Step =
    | Assist                      // the assistant's critical section
    | Clear                       // the assistant clears its sleep flag after unlocking
    | WakeUp                      // the doctor takes the mutex and goes back to sleeping mode
    | Check                       // leaves if the quotas are reached and nobody waits
    | CallNext                    // announces a visitor
    | Choose                      // wakes the most urgent lane that has somebody waiting
    | Enter(k: Kind, id: nat)     // a visitor of an awake lane is with the doctor
    | Close                       // the doctor, told that the visit is over, wakes the assistant

  const NOBODY := Intake([], 0)
  const CLOSED := Door(0, true, {})

  function InitialState(file: seq<Event>): State {
    State(Register(Heapify(file), NOBODY, NOBODY, NOBODY, [], []), NotStarted, 0, true, false, false,
          CLOSED, CLOSED, CLOSED, Asleep, AtTop, [])
  }

  function IntakeOf(r: Register, k: Kind): Intake {
    match k
    case Reporter => r.rep
    case Patient => r.pat
    case Sales => r.sal
  }

  function DoorOf(s: State, k: Kind): Door {
    match k
    case Reporter => s.rep
    case Patient => s.pat
    case Sales => s.sal
  }

  function SetDoor(s: State, k: Kind, d: Door): State {
    match k
    case Reporter => s.(rep := d)
    case Patient => s.(pat := d)
    case Sales => s.(sal := d)
  }

  predicate AnyWaiting(s: State) {
    s.pat.cur != 0 || s.rep.cur != 0 || s.sal.cur != 0
  }

  predicate QuotasReached(s: State) {
    s.reg.pat.total >= PATIENT_QUOTA && s.reg.sal.total >= SALES_QUOTA
  }

  predicate Enabled(s: State, step: Step) {
    match step
    case Assist => s.assistant == AtTop && !s.assistSleep && (s.doctor == Asleep || s.doctor == Left)
    case Clear => s.assistant == Clearing
    case WakeUp => s.doctor == Asleep && !s.sleeping
    case Check => s.doctor == Checking
    case CallNext => s.doctor == Opening
    case Choose => s.doctor == Choosing
    case Enter(k, id) => !DoorOf(s, k).asleep && id < |IntakeOf(s.reg, k).args| && id !in DoorOf(s, k).served
    case Close => s.doctor == Listening && !s.ongoing
  }

  // ---------------------------------------------------------------- the steps

  /** An arrival of kind k: admitted, or only counted when the quota is full. */
  function Arrive(k: Kind, l: Intake, e: Event): Intake {
    Intake(if Full(k, l.total) then l.args else l.args + [e], l.total + 1)
  }

  /** The event moves to its intake or is turned away; the queue goes on with rest. */
  function Moved(r: Register, e: Event, rest: seq<Event>): Register {
    var k := KindOf(e);
    var away := if Full(k, IntakeOf(r, k).total) then r.away + [e] else r.away;
    match k
    case Reporter => r.(queue := rest, rep := Arrive(k, r.rep, e), away := away)
    case Patient => r.(queue := rest, pat := Arrive(k, r.pat, e), away := away)
    case Sales => r.(queue := rest, sal := Arrive(k, r.sal, e), away := away)
  }

  /** An admitted visitor gets a thread that waits at its door. */
  function Waits(k: Kind, total: nat, d: Door): Door {
    if Full(k, total) then d else d.(cur := d.cur + 1)
  }

  /** The event e arrives, the queue going on with rest. */
  function TakeIn(s: State, e: Event, rest: seq<Event>): State {
    var k := KindOf(e);
    SetDoor(s.(reg := Moved(s.reg, e, rest), assistant := Clearing), k, Waits(k, IntakeOf(s.reg, k).total, DoorOf(s, k)))
  }

  function CountKind(q: seq<Event>, k: Kind): (n: nat)
    ensures n <= |q|
  {
    if q == [] then 0
    else CountKind(q[..|q| - 1], k) + (if KindOf(q[|q| - 1]) == k then 1 else 0)
  }

  /** After the session everybody still to come is counted and turned away. */
  function Dismissed(r: Register, rest: seq<Event>): Register {
    Register([], r.rep.(total := r.rep.total + CountKind(rest, Reporter)),
             r.pat.(total := r.pat.total + CountKind(rest, Patient)),
             r.sal.(total := r.sal.total + CountKind(rest, Sales)), r.away, r.late + rest)
  }

  /** The assistant's section takes in the head of the queue: before the session whoever
      comes before nine, during the session whoever has arrived. */
  predicate Arrives(s: State) {
    s.reg.queue != [] && match s.phase
                         case NotStarted => s.reg.queue[0].time < 0
                         case Open => s.reg.queue[0].time <= s.now
                         case Over => false
  }

  /** The section when nobody is taken in. */
  function Idles(s: State): State {
    match s.phase
    case NotStarted => s.(phase := Open, now := if s.reg.queue == [] then s.now else 0, assistant := Clearing)
    case Over => s.(reg := Dismissed(s.reg, Drain(s.reg.queue)), assistant := Exited)
    case Open =>
      if s.reg.queue == [] || AnyWaiting(s) || QuotasReached(s) then s.(sleeping := false)
      else s.(now := s.reg.queue[0].time, assistant := Clearing)
  }

  function AssistStep(s: State): State {
    var t := s.(assistSleep := true);
    if Arrives(s) then TakeIn(t, s.reg.queue[0], DeleteMin(s.reg.queue)) else Idles(t)
  }

  function CheckStep(s: State): State {
    if QuotasReached(s) && !AnyWaiting(s)
    then s.(phase := Over, assistSleep := false, doctor := Left)
    else s.(doctor := Opening)
  }

  function CallIn(s: State, k: Kind): State {
    SetDoor(s, k, DoorOf(s, k).(asleep := false, cur := DoorOf(s, k).cur - 1))
  }

  function ChooseStep(s: State): State {
    var t := s.(doctor := Listening);
    if s.rep.cur > 0 then CallIn(t, Reporter)
    else if s.pat.cur > 0 then CallIn(t, Patient)
    else if s.sal.cur > 0 then CallIn(t, Sales)
    else t
  }

  /** The clock after a visit by e. */
  function After(now: int, e: Event): int {
    if now + e.duration < e.time + e.duration then e.time + e.duration else now + e.duration
  }

  function EnterStep(s: State, k: Kind, id: nat): State
    requires Enabled(s, Enter(k, id))
  {
    var e := IntakeOf(s.reg, k).args[id];
    var end := After(s.now, e);
    SetDoor(s, k, DoorOf(s, k).(asleep := true, served := DoorOf(s, k).served + {id}))
    .(now := end, ongoing := false, log := s.log + [Visit(k, id, end - e.duration, end)])
  }

  function Apply(s: State, step: Step): State
    requires Enabled(s, step)
  {
    match step
    case Assist => AssistStep(s)
    case Clear => s.(assistant := AtTop, assistSleep := false)
    case WakeUp => s.(sleeping := true, doctor := Checking)
    case Check => CheckStep(s)
    case CallNext => s.(ongoing := true, doctor := Choosing)
    case Choose => ChooseStep(s)
    case Enter(k, id) => EnterStep(s, k, id)
    case Close => s.(assistSleep := false, doctor := Asleep)
  }

  ghost predicate Next(s: State, s': State) {
    exists step :: Enabled(s, step) && s' == Apply(s, step)
  }

  ghost predicate IsRun(file: seq<Event>, run: seq<State>) {
    |run| > 0 && run[0] == InitialState(file) && forall i :: 0 <= i < |run| - 1 ==> Next(run[i], run[i + 1])
  }

  // ---------------------------------------------------------------- counting by kind

  lemma {:induction false} CountConcat(a: seq<Event>, b: seq<Event>, k: Kind)
    ensures CountKind(a + b, k) == CountKind(a, k) + CountKind(b, k)
  {
    if b == [] {
      assert a + b == a;
    } else {
      CountConcat(a, b[..|b| - 1], k);
      assert (a + b)[..|a + b| - 1] == a + b[..|b| - 1];
    }
  }

  lemma CountOne(e: Event, k: Kind)
    ensures CountKind([e], k) == if KindOf(e) == k then 1 else 0
  {
    assert [e][..0] == [];
  }

  lemma SameRest(init: seq<Event>, e: Event, left: seq<Event>, right: seq<Event>)
    requires multiset(init + [e]) == multiset(left + ([e] + right))
    ensures multiset(init) == multiset(left + right)
  {
    assert multiset([e] + right) == multiset{e} + multiset(right);
    assert multiset(left + ([e] + right)) == multiset(left) + multiset([e] + right);
    assert multiset(left + right) == multiset(left) + multiset(right);
    assert multiset(init + [e]) == multiset(init) + multiset{e};
    assert multiset(init) == multiset(init + [e]) - multiset{e};
    assert multiset(left + right) == multiset(left + ([e] + right)) - multiset{e};
  }

  /** Counting by kind does not depend on the order. */
  lemma {:induction false} CountPermuted(a: seq<Event>, b: seq<Event>, k: Kind)
    requires multiset(a) == multiset(b)
    ensures CountKind(a, k) == CountKind(b, k)
  {
    if a == [] {
      assert |multiset(b)| == 0;
    } else {
      var init, e := a[..|a| - 1], a[|a| - 1];
      assert a == init + [e];
      assert e in multiset(b);
      var i :| 0 <= i < |b| && b[i] == e;
      assert b == b[..i] + ([e] + b[i + 1..]);
      SameRest(init, e, b[..i], b[i + 1..]);
      CountPermuted(init, b[..i] + b[i + 1..], k);
      CountConcat(b[..i], b[i + 1..], k);
      CountConcat(b[..i], [e] + b[i + 1..], k);
      CountConcat([e], b[i + 1..], k);
      CountOne(e, k);
    }
  }

  lemma CountDeleted(q: seq<Event>, e: Event, rest: seq<Event>, k: Kind)
    requires multiset(q) == multiset(rest) + multiset{e}
    ensures CountKind(q, k) == CountKind(rest, k) + (if KindOf(e) == k then 1 else 0)
  {
    CountPermuted(q, rest + [e], k);
    assert (rest + [e])[..|rest|] == rest;
  }

  // ---------------------------------------------------------------- what the letters mean

  function CountLetter(q: seq<Event>, c: char): (n: nat)
    ensures n <= |q|
  {
    if q == [] then 0
    else CountLetter(q[..|q| - 1], c) + (if q[|q| - 1].kind == c then 1 else 0)
  }

  /** Records that are neither 'P' nor 'S'. */
  function CountOthers(q: seq<Event>): int {
    |q| - CountLetter(q, 'P') - CountLetter(q, 'S')
  }

  /** Patients are the records 'P', sales representatives the records 'S', reporters the rest. */
  lemma {:induction false} CountByLetter(q: seq<Event>)
    ensures CountKind(q, Patient) == CountLetter(q, 'P')
    ensures CountKind(q, Sales) == CountLetter(q, 'S')
    ensures CountKind(q, Reporter) == CountOthers(q)
  {
    if q != [] { CountByLetter(q[..|q| - 1]); }
  }

  /** Among the letters of the file, the doctor's priority is the order of the heap at equal
      times: 'R' before 'P' before 'S'. */
  lemma UrgencyByLetter(a: Event, b: Event)
    requires a.time == b.time && a.kind in {'R', 'P', 'S'} && b.kind in {'R', 'P', 'S'}
    ensures MoreUrgent(KindOf(a), KindOf(b)) <==> AtMost(a, b) && !AtMost(b, a)
    ensures MoreUrgent(KindOf(a), KindOf(b)) <==>
      (a.kind == 'R' && (b.kind == 'P' || b.kind == 'S')) || (a.kind == 'P' && b.kind == 'S')
    ensures MoreUrgent(KindOf(a), KindOf(b)) ==> EventCmp(a, b) < 0 && EventCmp(b, a) > 0
  {
  }

  // ---------------------------------------------------------------- the invariant

  /** The waiting count is the admitted visitors less those already called in. */
  ghost predicate DoorOk(d: Door, admitted: nat) {
    && (forall i :: i in d.served ==> i < admitted)
    && d.cur == admitted - |d.served| - (if d.asleep then 0 else 1)
    && d.cur >= 0
  }

  ghost predicate DoorsOk(s: State) {
    DoorOk(s.rep, |s.reg.rep.args|) && DoorOk(s.pat, |s.reg.pat.args|) && DoorOk(s.sal, |s.reg.sal.args|)
  }

  predicate AllAsleep(s: State) {
    s.rep.asleep && s.pat.asleep && s.sal.asleep
  }

  /** The next arrival, if any, is in the future. */
  predicate Ready(s: State) {
    s.reg.queue == [] || s.reg.queue[0].time > s.now
  }

  /** Why the assistant woke the doctor. */
  predicate Reason(s: State) {
    s.reg.queue == [] || AnyWaiting(s) || QuotasReached(s)
  }

  /** The doctor holds the mutex. */
  predicate Busy(s: State) {
    s.sleeping && s.phase == Open && s.assistant == AtTop && s.assistSleep
  }

  /** One lane was woken, and nobody more urgent waits; or the doctor was woken for nobody. */
  predicate Called(s: State) {
    if AllAsleep(s) then s.reg.queue == [] && !AnyWaiting(s) && !QuotasReached(s)
    else if !s.rep.asleep then s.pat.asleep && s.sal.asleep
    else if !s.pat.asleep then s.sal.asleep && s.rep.cur == 0
    else s.rep.cur == 0 && s.pat.cur == 0
  }

  ghost predicate ControlOk(s: State) {
    match s.doctor
    case Asleep =>
      && AllAsleep(s) && !s.ongoing && s.phase != Over && s.assistant != Exited
      && if s.sleeping then s.assistSleep == (s.assistant == Clearing)
         else s.assistant == AtTop && s.assistSleep && s.phase == Open && Ready(s) && Reason(s)
    case Checking => AllAsleep(s) && !s.ongoing && Busy(s) && Ready(s) && Reason(s)
    case Opening => AllAsleep(s) && !s.ongoing && Busy(s) && Ready(s) && Reason(s) && (QuotasReached(s) ==> AnyWaiting(s))
    case Choosing => AllAsleep(s) && s.ongoing && Busy(s) && Ready(s) && Reason(s) && (QuotasReached(s) ==> AnyWaiting(s))
    case Listening => Busy(s) && if s.ongoing then Ready(s) && Called(s) else AllAsleep(s)
    case Left =>
      && AllAsleep(s) && !s.ongoing && s.sleeping && s.phase == Over && QuotasReached(s) && !AnyWaiting(s)
      && s.assistant != Clearing && s.assistSleep == (s.assistant == Exited) && (s.assistant == Exited ==> s.reg.queue == [])
  }

  /** Of every kind: arrived and to come make up the file; the arrived are the admitted and
      those turned away; nobody is turned away while there is room. */
  ghost predicate KindCounted(k: Kind, l: Intake, file: seq<Event>, queue: seq<Event>, away: seq<Event>, late: seq<Event>) {
    && (forall i :: 0 <= i < |l.args| ==> KindOf(l.args[i]) == k)
    && l.total + CountKind(queue, k) == CountKind(file, k)
    && l.total == |l.args| + CountKind(away, k) + CountKind(late, k)
    && (k == Reporter ==> CountKind(away, k) == 0)
    && (Full(k, l.total) ==> Full(k, |l.args|) && !Full(k, |l.args| - 1))
    && (!Full(k, l.total) ==> CountKind(away, k) == 0)
  }

  ghost predicate KindsCounted(file: seq<Event>, r: Register) {
    && KindCounted(Reporter, r.rep, file, r.queue, r.away, r.late)
    && KindCounted(Patient, r.pat, file, r.queue, r.away, r.late)
    && KindCounted(Sales, r.sal, file, r.queue, r.away, r.late)
  }

  ghost function Admitted(r: Register): multiset<Event> {
    multiset(r.rep.args) + multiset(r.pat.args) + multiset(r.sal.args)
  }

  /** Every event of the file is in exactly one place. */
  ghost predicate Conserved(file: seq<Event>, r: Register) {
    multiset(file) == multiset(r.queue) + Admitted(r) + multiset(r.away) + multiset(r.late)
  }

  ghost predicate Counted(file: seq<Event>, r: Register) {
    Heap(r.queue) && KindsCounted(file, r) && Conserved(file, r)
  }

  ghost predicate HasVisit(log: seq<Visit>, k: Kind, id: nat) {
    exists i :: 0 <= i < |log| && log[i].kind == k && log[i].id == id
  }

  /** The log lists every served visitor exactly once. */
  ghost predicate LogOk(s: State) {
    && (forall k, id :: HasVisit(s.log, k, id) <==> id in DoorOf(s, k).served)
    && (forall i, j :: 0 <= i < j < |s.log| ==> s.log[i].kind != s.log[j].kind || s.log[i].id != s.log[j].id)
    && |s.log| == |s.rep.served| + |s.pat.served| + |s.sal.served|
  }

  ghost predicate Inv(file: seq<Event>, s: State) {
    && DoorsOk(s) && ControlOk(s) && LogOk(s)
    && Counted(file, s.reg) && (s.reg.late != [] ==> s.assistant == Exited)
  }

  lemma InitialInv(file: seq<Event>)
    ensures Inv(file, InitialState(file))
  {
    HeapifyCorrect(file);
    CountPermuted(file, Heapify(file), Reporter);
    CountPermuted(file, Heapify(file), Patient);
    CountPermuted(file, Heapify(file), Sales);
  }

  // ---- one arrival

  /** The event e leaves the queue; it is counted for its own kind only. */
  lemma ArriveKind(k: Kind, l: Intake, e: Event, file: seq<Event>, queue: seq<Event>, rest: seq<Event>, away: seq<Event>)
    requires KindOf(e) == k && KindCounted(k, l, file, queue, away, []) && multiset(queue) == multiset(rest) + multiset{e}
    ensures KindCounted(k, Arrive(k, l, e), file, rest, if Full(k, l.total) then away + [e] else away, [])
  {
    CountDeleted(queue, e, rest, k);
    assert (away + [e])[..|away|] == away;
  }

  lemma OtherKind(k: Kind, l: Intake, e: Event, file: seq<Event>, queue: seq<Event>, rest: seq<Event>, away: seq<Event>, away': seq<Event>)
    requires KindOf(e) != k && KindCounted(k, l, file, queue, away, []) && multiset(queue) == multiset(rest) + multiset{e}
    requires away' == away || away' == away + [e]
    ensures KindCounted(k, l, file, rest, away', [])
  {
    CountDeleted(queue, e, rest, k);
    assert (away + [e])[..|away|] == away;
  }

  lemma MovedKinds(file: seq<Event>, r: Register, e: Event, rest: seq<Event>)
    requires KindsCounted(file, r) && r.late == [] && multiset(r.queue) == multiset(rest) + multiset{e}
    ensures KindsCounted(file, Moved(r, e, rest))
  {
    var away' := Moved(r, e, rest).away;
    if KindOf(e) == Reporter { ArriveKind(Reporter, r.rep, e, file, r.queue, rest, r.away); }
    else { OtherKind(Reporter, r.rep, e, file, r.queue, rest, r.away, away'); }
    if KindOf(e) == Patient { ArriveKind(Patient, r.pat, e, file, r.queue, rest, r.away); }
    else { OtherKind(Patient, r.pat, e, file, r.queue, rest, r.away, away'); }
    if KindOf(e) == Sales { ArriveKind(Sales, r.sal, e, file, r.queue, rest, r.away); }
    else { OtherKind(Sales, r.sal, e, file, r.queue, rest, r.away, away'); }
  }

  lemma ArrivePlaces(k: Kind, l: Intake, e: Event, away: seq<Event>)
    ensures multiset(Arrive(k, l, e).args) + multiset(if Full(k, l.total) then away + [e] else away)
         == multiset(l.args) + multiset(away) + multiset{e}
  {
    assert multiset(away + [e]) == multiset(away) + multiset{e};
    assert multiset(l.args + [e]) == multiset(l.args) + multiset{e};
  }

  lemma MovedConserved(file: seq<Event>, r: Register, e: Event, rest: seq<Event>)
    requires Conserved(file, r) && multiset(r.queue) == multiset(rest) + multiset{e}
    ensures Conserved(file, Moved(r, e, rest))
  {
    var k, r' := KindOf(e), Moved(r, e, rest);
    ArrivePlaces(k, IntakeOf(r, k), e, r.away);
  }

  lemma MovedCounted(file: seq<Event>, r: Register)
    requires r.queue != [] && Counted(file, r) && r.late == []
    ensures Counted(file, Moved(r, r.queue[0], DeleteMin(r.queue)))
  {
    DeleteMinCorrect(r.queue);
    MovedKinds(file, r, r.queue[0], DeleteMin(r.queue));
    MovedConserved(file, r, r.queue[0], DeleteMin(r.queue));
  }

  lemma WaitsOk(k: Kind, l: Intake, d: Door, e: Event)
    requires DoorOk(d, |l.args|)
    ensures DoorOk(Waits(k, l.total, d), |Arrive(k, l, e).args|)
  {
  }

  lemma MovedIntake(r: Register, e: Event, rest: seq<Event>, k: Kind)
    ensures IntakeOf(Moved(r, e, rest), k) == if KindOf(e) == k then Arrive(k, IntakeOf(r, k), e) else IntakeOf(r, k)
  {
  }

  lemma TakeInControl(s: State, e: Event, rest: seq<Event>)
    requires DoorsOk(s)
    ensures DoorsOk(TakeIn(s, e, rest)) && AllAsleep(TakeIn(s, e, rest)) == AllAsleep(s)
  {
    MovedIntake(s.reg, e, rest, Reporter);
    MovedIntake(s.reg, e, rest, Patient);
    MovedIntake(s.reg, e, rest, Sales);
    WaitsOk(KindOf(e), IntakeOf(s.reg, KindOf(e)), DoorOf(s, KindOf(e)), e);
  }

  // ---- the end of the session

  lemma RestKind(k: Kind, l: Intake, file: seq<Event>, queue: seq<Event>, rest: seq<Event>, away: seq<Event>, late: seq<Event>)
    requires KindCounted(k, l, file, queue, away, late) && (k != Reporter ==> Full(k, l.total)) && multiset(queue) == multiset(rest)
    ensures KindCounted(k, l.(total := l.total + CountKind(rest, k)), file, [], away, late + rest)
  {
    CountPermuted(rest, queue, k);
    CountConcat(late, rest, k);
  }

  lemma DismissedConserved(file: seq<Event>, r: Register, rest: seq<Event>)
    requires Conserved(file, r) && multiset(r.queue) == multiset(rest)
    ensures Conserved(file, Dismissed(r, rest))
  {
    assert multiset(r.late + rest) == multiset(r.late) + multiset(r.queue);
  }

  lemma DismissedCounted(file: seq<Event>, r: Register, rest: seq<Event>)
    requires Counted(file, r) && Full(Patient, r.pat.total) && Full(Sales, r.sal.total) && multiset(r.queue) == multiset(rest)
    ensures Counted(file, Dismissed(r, rest))
  {
    RestKind(Reporter, r.rep, file, r.queue, rest, r.away, r.late);
    RestKind(Patient, r.pat, file, r.queue, rest, r.away, r.late);
    RestKind(Sales, r.sal, file, r.queue, rest, r.away, r.late);
    DismissedConserved(file, r, rest);
  }

  // ---- the assistant

  lemma AssistControl(s: State)
    requires ControlOk(s) && DoorsOk(s) && Enabled(s, Assist)
    ensures ControlOk(AssistStep(s)) && DoorsOk(AssistStep(s))
  {
    if Arrives(s) {
      TakeInControl(s.(assistSleep := true), s.reg.queue[0], DeleteMin(s.reg.queue));
    }
  }

  lemma AssistCounted(file: seq<Event>, s: State)
    requires ControlOk(s) && Counted(file, s.reg) && Enabled(s, Assist) && s.reg.late == []
    ensures Counted(file, AssistStep(s).reg)
  {
    if Arrives(s) {
      MovedCounted(file, s.reg);
    } else if s.phase == Over {
      DrainPermutes(s.reg.queue);
      DismissedCounted(file, s.reg, Drain(s.reg.queue));
    }
  }

  /** A step that brings nobody to the doctor. */
  lemma LogSame(s: State, s': State)
    requires LogOk(s) && s'.log == s.log
    requires s'.rep.served == s.rep.served && s'.pat.served == s.pat.served && s'.sal.served == s.sal.served
    ensures LogOk(s')
  {
    assert forall k :: DoorOf(s', k).served == DoorOf(s, k).served;
  }

  lemma TakeInSame(s: State, e: Event, rest: seq<Event>)
    ensures var s' := TakeIn(s, e, rest);
      && s'.log == s.log && s'.rep.served == s.rep.served && s'.pat.served == s.pat.served && s'.sal.served == s.sal.served
      && s'.reg.late == s.reg.late
  {
  }

  lemma AssistSame(s: State)
    requires Enabled(s, Assist)
    ensures var s' := AssistStep(s);
      && s'.log == s.log && s'.rep.served == s.rep.served && s'.pat.served == s.pat.served && s'.sal.served == s.sal.served
      && (s.reg.late == [] ==> s'.reg.late == [] || s'.assistant == Exited)
  {
    if Arrives(s) {
      TakeInSame(s.(assistSleep := true), s.reg.queue[0], DeleteMin(s.reg.queue));
    }
  }

  lemma AssistInv(file: seq<Event>, s: State)
    requires Inv(file, s) && Enabled(s, Assist)
    ensures Inv(file, AssistStep(s))
  {
    AssistControl(s);
    AssistCounted(file, s);
    AssistSame(s);
    LogSame(s, AssistStep(s));
  }

  // ---- visitors and the doctor

  lemma {:induction false} SomebodyUnserved(d: Door, admitted: nat) returns (id: nat)
    requires DoorOk(d, admitted) && |d.served| < admitted
    ensures id < admitted && id !in d.served
  {
    if forall i :: i in Below(admitted) ==> i in d.served {
      SubsetSize(Below(admitted), d.served);
    }
    id :| id in Below(admitted) && id !in d.served;
  }

  lemma AllServed(d: Door, admitted: nat)
    requires DoorOk(d, admitted) && d.asleep && d.cur == 0
    ensures forall id :: 0 <= id < admitted <==> id in d.served
  {
    SubsetSize(d.served, Below(admitted));
  }

  lemma HasVisitGrows(log: seq<Visit>, v: Visit, k: Kind, id: nat)
    ensures HasVisit(log + [v], k, id) <==> HasVisit(log, k, id) || (v.kind == k && v.id == id)
  {
    var log' := log + [v];
    if HasVisit(log, k, id) {
      var i :| 0 <= i < |log| && log[i].kind == k && log[i].id == id;
      assert log'[i] == log[i];
    }
    if v.kind == k && v.id == id {
      assert log'[|log|] == v;
    }
  }

  lemma NewVisit(log: seq<Visit>, v: Visit)
    requires !HasVisit(log, v.kind, v.id)
    ensures forall i :: 0 <= i < |log| ==> log[i].kind != v.kind || log[i].id != v.id
  {
  }

  lemma EnterServed(s: State, k: Kind, id: nat, k': Kind)
    requires Enabled(s, Enter(k, id))
    ensures DoorOf(EnterStep(s, k, id), k').served == if k' == k then DoorOf(s, k).served + {id} else DoorOf(s, k').served
  {
  }

  lemma EnterLog(s: State, k: Kind, id: nat)
    requires LogOk(s) && Enabled(s, Enter(k, id))
    ensures LogOk(EnterStep(s, k, id))
  {
    var s' := EnterStep(s, k, id);
    var v := s'.log[|s.log|];
    NewVisit(s.log, v);
    forall k', id'
      ensures HasVisit(s'.log, k', id') <==> id' in DoorOf(s', k').served
    {
      HasVisitGrows(s.log, v, k', id');
      EnterServed(s, k, id, k');
    }
  }

  lemma EnterControl(s: State, k: Kind, id: nat)
    requires ControlOk(s) && DoorsOk(s) && Enabled(s, Enter(k, id))
    ensures ControlOk(EnterStep(s, k, id)) && DoorsOk(EnterStep(s, k, id))
  {
  }

  lemma DoctorControl(s: State, step: Step)
    requires ControlOk(s) && DoorsOk(s) && Enabled(s, step) && !step.Assist? && !step.Enter?
    ensures ControlOk(Apply(s, step)) && DoorsOk(Apply(s, step))
  {
  }

  lemma EnterInv(file: seq<Event>, s: State, k: Kind, id: nat)
    requires Inv(file, s) && Enabled(s, Enter(k, id))
    ensures Inv(file, EnterStep(s, k, id))
  {
    EnterControl(s, k, id);
    EnterLog(s, k, id);
    assert EnterStep(s, k, id).reg == s.reg;
  }

  lemma DoctorSame(s: State, step: Step)
    requires Enabled(s, step) && !step.Assist? && !step.Enter?
    ensures var s' := Apply(s, step);
      && s'.reg == s.reg && s'.log == s.log
      && s'.rep.served == s.rep.served && s'.pat.served == s.pat.served && s'.sal.served == s.sal.served
  {
  }

  lemma DoctorInv(file: seq<Event>, s: State, step: Step)
    requires Inv(file, s) && Enabled(s, step) && !step.Assist? && !step.Enter?
    ensures Inv(file, Apply(s, step))
  {
    DoctorControl(s, step);
    DoctorSame(s, step);
    LogSame(s, Apply(s, step));
    LateSame(s, step);
  }

  lemma LateSame(s: State, step: Step)
    requires Enabled(s, step) && !step.Assist? && !step.Enter? && (s.assistant == Exited ==> ControlOk(s))
    ensures s.assistant == Exited ==> Apply(s, step).assistant == Exited
  {
  }

  /** Every step keeps the invariant. */
  lemma StepInv(file: seq<Event>, s: State, step: Step)
    requires Inv(file, s) && Enabled(s, step)
    ensures Inv(file, Apply(s, step))
  {
    match step
    case Assist => AssistInv(file, s);
    case Enter(k, id) => EnterInv(file, s, k, id);
    case _ => DoctorInv(file, s, step);
  }

  lemma {:induction false} RunInv(file: seq<Event>, run: seq<State>)
    requires IsRun(file, run)
    ensures Inv(file, run[|run| - 1])
  {
    if |run| == 1 {
      InitialInv(file);
    } else {
      var init := run[..|run| - 1];
      RunInv(file, init);
      assert Next(run[|init| - 1], run[|init| - 1 + 1]);
      var step :| Enabled(run[|init| - 1], step) && run[|init|] == Apply(run[|init| - 1], step);
      StepInv(file, run[|init| - 1], step);
    }
  }
}
