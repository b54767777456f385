/** The running paging system: queues, semaphores and process counters updated in place, one
    method per atomic operation of a process, of the scheduler and of the memory unit. */
module PagingSystem {
  import opened Mmu
  import opened Master
  import opened Paging

  class System {
    ghost const config: Config
    const refs: seq<seq<nat>>
    const memory: Unit
    const procs: array<Proc>
    const sem: array<nat>
    var mq1: seq<nat>
    var mq2: seq<Note>
    var mq3: seq<Ask>
    var sched: Sched
    var k: nat

    ghost function View(): State
      reads this, memory, memory.tables, memory.free, procs, sem
    {
      State(memory.View(), procs[..], sem[..], mq1, mq2, mq3, sched, k)
    }

    ghost predicate Valid()
      reads this, memory, memory.tables, memory.free, procs, sem
    {
      refs == config.refs && Inv(config, View())
    }

    /** The master sets up tables, frames, semaphores and queues and forks the processes. */
    constructor (sizes: seq<nat>, f: nat, refs: seq<seq<nat>>)
      requires Config(sizes, f, refs).Valid()
      ensures config == Config(sizes, f, refs) && Valid() && View() == InitialState(config)
      ensures fresh(memory) && fresh(memory.tables) && fresh(memory.free) && fresh(procs) && fresh(sem)
    {
      config := Config(sizes, f, refs);
      this.refs := refs;
      var tables, free := SetUp(sizes, f);
      memory := new Unit(Memory(tables[..], free[..], 0));
      procs := new Proc[|refs|](_ => Proc(NotStarted, 0, false));
      sem := new nat[|refs|](_ => 0);
      mq1, mq2, mq3, sched, k := [], [], [], Ready, |refs|;
      new;
      assert procs[..] == InitialState(config).procs && sem[..] == InitialState(config).sem;
      InitialInv(config);
    }

    /** A process: forked, then entering the ready queue. */
    method Begin(i: nat)
      requires Valid() && Enabled(config, View(), Start(i))
      modifies procs
      ensures Valid() && View() == Apply(config, old(View()), Start(i))
    {
      StepInv(config, View(), Start(i));
      procs[i] := procs[i].(pc := Enqueuing);
    }

    method Join(i: nat)
      requires Valid() && Enabled(config, View(), Enqueue(i))
      modifies this, procs
      ensures Valid() && View() == Apply(config, old(View()), Enqueue(i))
    {
      StepInv(config, View(), Enqueue(i));
      mq1 := mq1 + [i];
      procs[i] := procs[i].(pc := Waiting);
    }

    /** A process passes its semaphore. */
    method WakeUp(i: nat)
      requires Valid() && Enabled(config, View(), Wake(i))
      modifies procs, sem
      ensures Valid() && View() == Apply(config, old(View()), Wake(i))
    {
      StepInv(config, View(), Wake(i));
      sem[i] := sem[i] - 1;
      procs[i] := procs[i].(pc := Running);
    }

    /** A process asks for its next page, or says that it has ended. */
    method SendRequest(i: nat)
      requires Valid() && Enabled(config, View(), Send(i))
      modifies this, procs
      ensures Valid() && View() == Apply(config, old(View()), Send(i))
    {
      StepInv(config, View(), Send(i));
      if procs[i].idx < |refs[i]| {
        mq3 := mq3 + [Ask(i, refs[i][procs[i].idx])];
        procs[i] := procs[i].(pc := Asking);
      } else {
        mq3 := mq3 + [Ask(i, END)];
        procs[i] := procs[i].(pc := Gone);
      }
    }

    /** The requester reacts to the reply; the scheduler is notified unless the turn goes on. */
    method React(i: nat, page: int, reply: Reply)
      requires i < procs.Length
      modifies this, procs
      ensures View() == Replied(old(View()), i, page, reply)
    {
      var p := procs[i];
      match reply {
        case NoReply => mq2 := mq2 + [Note(true, i)];
        case Illegal =>
          procs[i] := Proc(Gone, p.idx, false);
          mq2 := mq2 + [Note(true, i)];
        case Hit(_) => procs[i] := Proc(Running, p.idx + 1, false);
        case Fault =>
          procs[i] := Proc(Enqueuing, p.idx, HasPage(Memory(memory.tables[..], memory.free[..], memory.time), i, page));
          mq2 := mq2 + [Note(false, i)];
      }
    }

    /** The memory unit's turn, with the requester's reaction to the reply. */
    method ServeRequest()
      requires Valid() && Enabled(config, View(), Serve)
      modifies this, procs, memory, memory.tables, memory.free
      ensures Valid() && View() == Apply(config, old(View()), Serve)
    {
      StepInv(config, View(), Serve);
      PopAndServe();
    }

    method PopAndServe()
      requires Enabled(config, View(), Serve) && Owned(memory.View())
      modifies this, procs, memory, memory.tables, memory.free
      ensures View() == Apply(config, old(View()), Serve)
    {
      var i, page := mq3[0].pid, mq3[0].page;
      mq3 := mq3[1..];
      var reply := memory.Serve(i, page);
      React(i, page, reply);
    }

    /** The scheduler takes the head of the ready queue. */
    method DispatchNext()
      requires Valid() && Enabled(config, View(), Dispatch)
      modifies this, sem
      ensures Valid() && View() == Apply(config, old(View()), Dispatch)
    {
      StepInv(config, View(), Dispatch);
      var cur := mq1[0];
      mq1 := mq1[1..];
      sem[cur] := sem[cur] + 1;
      sched := Expecting(cur);
    }

    /** The scheduler takes a notification and counts ended processes. */
    method ReceiveNote()
      requires Valid() && Enabled(config, View(), Receive)
      modifies this
      ensures Valid() && View() == Apply(config, old(View()), Receive)
    {
      StepInv(config, View(), Receive);
      if mq2[0].ended { k := k - 1; }
      mq2 := mq2[1..];
      sched := if k > 0 then Ready else Finished;
    }
  }
}
