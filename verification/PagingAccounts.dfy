/** The books of the memory unit along a run of the paging system: the time stamp, the page
    faults and the illegal references that the master prints at the end. */
module PagingAccounts {
  import opened Counting
  import opened Mmu
  import opened Master
  import opened Paging
  import opened PagingHandshake

  /** Requests of process i that were answered. */
  ghost function References(s: State): nat -> int {
    i => if 0 <= i < |s.procs| && i < |s.mem.tables|
         then s.procs[i].idx + s.mem.tables[i].faults + s.mem.tables[i].invalid else 0
  }

  /** The faults of a process are its fault notifications among n; it has one illegal reference
      if it ended before the end of its reference string, none otherwise; entries keep their
      page numbers. */
  ghost predicate BookOk(c: Config, s: State, n: seq<Note>, i: nat)
    requires Shape(c, s) && i < |c.refs|
  {
    var t, p := s.mem.tables[i], s.procs[i];
    && t.faults == multiset(n)[Note(false, i)]
    && t.invalid == (if p.pc == Gone && p.idx < |c.refs[i]| then 1 else 0)
    && (forall g :: 0 <= g < |t.entries| ==> t.entries[g].page == g)
  }

  ghost predicate BooksOk(c: Config, s: State, n: seq<Note>)
    requires Shape(c, s)
  {
    && s.mem.time == Sum(|c.refs|, References(s))
    && forall i :: 0 <= i < |c.refs| ==> BookOk(c, s, n, i)
  }

  lemma InitialBooks(c: Config)
    requires c.Valid()
    ensures Shape(c, InitialState(c)) && BooksOk(c, InitialState(c), [])
  {
    var s := InitialState(c);
    InitialInv(c);
    forall i | 0 <= i < |c.refs|
      ensures BookOk(c, s, [], i) && References(s)(i) == 0
    {
      InitialResidents(c.sizes, c.f, i);
    }
    SumZero(|c.refs|, References(s));
  }

  /** A step that answers no request. */
  lemma SameBooks(c: Config, s: State, s': State, n: seq<Note>)
    requires Shape(c, s) && Shape(c, s') && BooksOk(c, s, n) && s'.mem == s.mem
    requires forall i :: 0 <= i < |c.refs| ==>
      && s'.procs[i].idx == s.procs[i].idx
      && (s'.procs[i].pc == Gone && s'.procs[i].idx < |c.refs[i]| <==> s.procs[i].pc == Gone && s.procs[i].idx < |c.refs[i]|)
    ensures BooksOk(c, s', n)
  {
    forall i | 0 <= i < |c.refs|
      ensures BookOk(c, s', n, i)
    {
      assert BookOk(c, s, n, i);
    }
    SumSame(|c.refs|, References(s), References(s'));
  }

  /** Books of everybody but the requester. */
  lemma OtherBook(c: Config, s: State, s': State, n: seq<Note>, note: seq<Note>, j: nat)
    requires Shape(c, s) && Shape(c, s') && j < |c.refs| && BookOk(c, s, n, j)
    requires s'.procs[j] == s.procs[j] && s'.mem.tables[j] == s.mem.tables[j]
    requires note == [] || (|note| == 1 && note[0].pid != j)
    ensures BookOk(c, s', n + note, j)
  {
    assert multiset(n + note) == multiset(n) + multiset(note);
    if note != [] {
      assert note == [note[0]];
    }
  }

  lemma OwnBook(c: Config, s: State, n: seq<Note>, i: nat, page: int)
    requires Shape(c, s) && Control(c, s) && i < |c.refs| && BookOk(c, s, n, i) && s.mq3 == [Ask(i, page)]
    requires Enabled(c, s, Serve) && Shape(c, Apply(c, s, Serve))
    ensures BookOk(c, Apply(c, s, Serve), n + NewNote(s, Apply(c, s, Serve)), i)
    ensures var s' := Apply(c, s, Serve);
      References(s')(i) == References(s)(i) + (if page == END then 0 else 1)
  {
    Requester(c, s);
    HandleCounts(s.mem, i, page);
    var note := NewNote(s, Apply(c, s, Serve));
    assert multiset(n + note) == multiset(n) + multiset(note);
  }

  /** Serving concerns the requester and the clock only. */
  lemma ServeFrame(c: Config, s: State)
    requires Shape(c, s) && Control(c, s) && Enabled(c, s, Serve) && Shape(c, Apply(c, s, Serve))
    ensures var s', i, note := Apply(c, s, Serve), s.mq3[0].pid, NewNote(s, Apply(c, s, Serve));
      && s.mq3 == [Ask(i, s.mq3[0].page)] && i < |c.refs|
      && s'.mem.time == s.mem.time + (if s.mq3[0].page == END then 0 else 1)
      && (note == [] || (|note| == 1 && note[0].pid == i))
      && forall j :: 0 <= j < |c.refs| && j != i ==> s'.procs[j] == s.procs[j] && s'.mem.tables[j] == s.mem.tables[j]
  {
    Requester(c, s);
    HandleCounts(s.mem, s.mq3[0].pid, s.mq3[0].page);
    HandleOthers(s.mem, s.mq3[0].pid, s.mq3[0].page);
  }

  lemma BooksFrom(c: Config, s: State, s': State, n: seq<Note>, note: seq<Note>, i: nat, d: int)
    requires Shape(c, s) && Shape(c, s') && BooksOk(c, s, n) && i < |c.refs| && BookOk(c, s', n + note, i)
    requires s'.mem.time == s.mem.time + d && References(s')(i) == References(s)(i) + d
    requires note == [] || (|note| == 1 && note[0].pid == i)
    requires forall j :: 0 <= j < |c.refs| && j != i ==> s'.procs[j] == s.procs[j] && s'.mem.tables[j] == s.mem.tables[j]
    ensures BooksOk(c, s', n + note)
  {
    forall j | 0 <= j < |c.refs| && j != i
      ensures BookOk(c, s', n + note, j) && References(s')(j) == References(s)(j)
    {
      assert BookOk(c, s, n, j);
      OtherBook(c, s, s', n, note, j);
    }
    SumChange(|c.refs|, References(s), References(s'), i);
  }

  lemma ServeBooks(c: Config, s: State, n: seq<Note>)
    requires Inv(c, s) && Enabled(c, s, Serve) && BooksOk(c, s, n) && Shape(c, Apply(c, s, Serve))
    ensures BooksOk(c, Apply(c, s, Serve), n + NewNote(s, Apply(c, s, Serve)))
  {
    ServeFrame(c, s);
    var i, page, s' := s.mq3[0].pid, s.mq3[0].page, Apply(c, s, Serve);
    assert BookOk(c, s, n, i);
    OwnBook(c, s, n, i, page);
    BooksFrom(c, s, s', n, NewNote(s, s'), i, if page == END then 0 else 1);
  }

  lemma QuietBooks(c: Config, s: State, step: Step, n: seq<Note>)
    requires Inv(c, s) && Enabled(c, s, step) && step != Serve && BooksOk(c, s, n) && Shape(c, Apply(c, s, step))
    ensures BooksOk(c, Apply(c, s, step), n + NewNote(s, Apply(c, s, step)))
  {
    assert n + [] == n;
    SameBooks(c, s, Apply(c, s, step), n);
  }

  lemma StepBooks(c: Config, s: State, step: Step, n: seq<Note>)
    requires Inv(c, s) && Enabled(c, s, step) && BooksOk(c, s, n)
    ensures Shape(c, Apply(c, s, step)) && BooksOk(c, Apply(c, s, step), n + NewNote(s, Apply(c, s, step)))
  {
    StepInv(c, s, step);
    if step == Serve { ServeBooks(c, s, n); } else { QuietBooks(c, s, step, n); }
  }

  lemma {:induction false} RunBooks(c: Config, run: seq<State>)
    requires c.Valid() && IsRun(c, run)
    ensures Shape(c, run[|run| - 1]) && BooksOk(c, run[|run| - 1], Sent(run))
  {
    if |run| == 1 {
      InitialBooks(c);
    } else {
      var init := run[..|run| - 1];
      RunBooks(c, init);
      RunInv(c, init);
      var s := run[|run| - 2];
      assert Next(c, s, run[|run| - 2 + 1]);
      var step :| Enabled(c, s, step) && run[|run| - 1] == Apply(c, s, step);
      StepBooks(c, s, step, Sent(init));
    }
  }

  /** In every reachable state the time stamp is the number of references answered, a process's
      page faults are its fault notifications, and it has one illegal reference exactly if it
      ended before the end of its reference string. */
  lemma RunAccounts(c: Config, run: seq<State>, i: nat)
    requires c.Valid() && IsRun(c, run) && i < |c.refs|
    ensures var s := run[|run| - 1];
      && s.mem.time == Sum(|c.refs|, References(s))
      && i < |s.mem.tables| && i < |s.procs|
      && s.mem.tables[i].faults == multiset(Sent(run))[Note(false, i)]
      && s.mem.tables[i].invalid == (if s.procs[i].pc == Gone && s.procs[i].idx < |c.refs[i]| then 1 else 0)
  {
    RunBooks(c, run);
    assert BookOk(c, run[|run| - 1], Sent(run), i);
  }
}
