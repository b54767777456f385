/** The producer and its consumers are never caught in a corner: from every reachable state
    they can go on to the end, although everybody polls. */
module ProdConsProgress {
  import opened Counting
  import opened ProdCons

  /** The producer's distance to its report, in hand-offs and stations within one. */
  function ProducerLeft(c: Config, s: State): int {
    10 * (|c.items| - s.prod.idx) + match s.prod.pc
      case Choosing => 9
      case Locking => 8
      case Tagging => 7
      case Storing => 6
      case Unlocking => 5
      case Polling => if s.tag != 0 then 4 else 3
      case Closing => 2
      case Waiting => 1
      case Reported => 0
  }

  /** A consumer's distance to the end of its section. */
  function ToLeave(pc: ConsPc): nat {
    match pc
    case Comparing => 6
    case Reading => 5
    case Counted => 4
    case Clearing => 3
    case Leaving => 2
    case Looking => 0
    case Entering => 0
    case Exited => 0
  }

  /** The addressee's distance to clearing the tag. */
  function ToClear(pc: ConsPc): nat {
    match pc
    case Leaving => 18
    case Looking => 16
    case Entering => 14
    case Comparing => 12
    case Reading => 10
    case Counted => 8
    case Clearing => 6
    case Exited => 0
  }

  /** A consumer's distance to its exit once the tag is -1. */
  function ToExit(pc: ConsPc): nat {
    match pc
    case Entering => 10
    case Comparing => 8
    case Reading => 7
    case Counted => 6
    case Clearing => 5
    case Leaving => 4
    case Looking => 2
    case Exited => 0
  }

  /** What consumer j still has to do for the producer to go on. */
  ghost function Burden(s: State): nat -> int {
    j =>
      if !(0 <= j < |s.cons|) then 0
      else if s.tag == -1 then ToExit(s.cons[j].pc)
      else if s.prod.pc == Polling && s.tag == j + 1 then ToClear(s.cons[j].pc)
      else ToLeave(s.cons[j].pc)
  }

  ghost function ConsumersLeft(s: State): int {
    Sum(|s.cons|, Burden(s))
  }

  predicate Finished(s: State) {
    s.prod.pc == Reported && AllExited(s)
  }

  ghost predicate Nearer(c: Config, s: State, s': State) {
    || ProducerLeft(c, s') < ProducerLeft(c, s)
    || (ProducerLeft(c, s') == ProducerLeft(c, s) && ConsumersLeft(s') < ConsumersLeft(s))
  }

  lemma LeftNonneg(c: Config, s: State)
    requires Shape(c, s)
    ensures ProducerLeft(c, s) >= 0 && ConsumersLeft(s) >= 0
  {
    SumNonneg(|s.cons|, Burden(s));
  }

  lemma ProduceNearer(c: Config, s: State)
    requires Inv(c, s) && Enabled(c, s, Produce) && (s.prod.pc == Polling ==> s.tag == 0)
    ensures Nearer(c, s, Produced(c, s))
  {
  }

  /** The consumer does not merely go round its loop in vain. */
  predicate Useful(s: State, j: nat)
    requires j < |s.cons|
  {
    s.cons[j].pc == Looking || s.cons[j].pc == Entering ==> s.tag == -1 || (s.prod.pc == Polling && s.tag == j + 1)
  }

  lemma BurdenDrops(c: Config, s: State, j: nat)
    requires Shape(c, s) && CellsOk(c, s) && ReadersOk(s) && Enabled(c, s, Consume(j)) && Useful(s, j) && s.cons[j].pc != Clearing
    ensures var s' := Consumed(s, j);
      && s'.prod == s.prod && s'.tag == s.tag && |s'.cons| == |s.cons| && Burden(s')(j) < Burden(s)(j)
      && forall i :: 0 <= i < |s.cons| && i != j ==> Burden(s')(i) == Burden(s)(i)
  {
    assert ReaderOk(s, j);
  }

  lemma ClearingFrees(c: Config, s: State, j: nat)
    requires Shape(c, s) && CellsOk(c, s) && ReadersOk(s) && Enabled(c, s, Consume(j)) && s.cons[j].pc == Clearing
    ensures ProducerLeft(c, Consumed(s, j)) < ProducerLeft(c, s)
  {
    assert ReaderOk(s, j);
  }

  lemma ConsumeNearer(c: Config, s: State, j: nat)
    requires Inv(c, s) && Enabled(c, s, Consume(j)) && Useful(s, j)
    ensures Nearer(c, s, Consumed(s, j))
  {
    if s.cons[j].pc == Clearing {
      ClearingFrees(c, s, j);
    } else {
      BurdenDrops(c, s, j);
      SumChange(|s.cons|, Burden(s), Burden(Consumed(s, j)), j);
    }
  }

  /** Whoever holds the semaphore. */
  lemma Holder(s: State) returns (j: nat)
    requires Exclusive(s) && s.sem == 0 && !InsideProducer(s.prod.pc)
    ensures j < |s.cons| && InsideConsumer(s.cons[j].pc)
  {
    j := SumPositive(|s.cons|, Inside(s));
  }

  /** In every state short of the end, somebody can take a step towards it. */
  lemma SomebodyAdvances(c: Config, s: State) returns (step: Step)
    requires Inv(c, s) && !Finished(s)
    ensures Enabled(c, s, step) && Nearer(c, s, Apply(c, s, step))
  {
    var j: nat := 0;
    match s.prod.pc {
      case Locking =>
        if s.sem >= 1 { ProduceNearer(c, s); return Produce; }
        j := Holder(s);
      case Polling =>
        if s.tag == 0 { ProduceNearer(c, s); return Produce; }
        j := c.items[s.prod.idx].0;
        assert ReaderOk(s, j);
        if s.cons[j].pc == Entering && s.sem == 0 { j := Holder(s); }
      case Waiting =>
        if AllExited(s) { ProduceNearer(c, s); return Produce; }
        j :| 0 <= j < |s.cons| && s.cons[j].pc != Exited;
        if s.cons[j].pc == Entering && s.sem == 0 { j := Holder(s); }
      case Reported =>
        assert false;
      case _ =>
        ProduceNearer(c, s); return Produce;
    }
    ConsumeNearer(c, s, j);
    step := Consume(j);
  }

  ghost predicate Continues(c: Config, run: seq<State>) {
    forall i :: 0 <= i < |run| - 1 ==> Next(c, run[i], run[i + 1])
  }

  lemma Prepend(c: Config, s: State, rest: seq<State>)
    requires rest != [] && Continues(c, rest) && Next(c, s, rest[0])
    ensures Continues(c, [s] + rest)
  {
    var run := [s] + rest;
    forall i | 0 <= i < |run| - 1
      ensures Next(c, run[i], run[i + 1])
    {
      if i > 0 { assert Next(c, rest[i - 1], rest[i - 1 + 1]); }
    }
  }

  /** From every state that keeps the invariant the program can run to its end. */
  lemma {:induction false} CanFinish(c: Config, s: State) returns (run: seq<State>)
    requires Inv(c, s)
    ensures run != [] && run[0] == s && Continues(c, run) && Finished(run[|run| - 1])
    decreases ProducerLeft(c, s), ConsumersLeft(s)
  {
    if Finished(s) {
      run := [s];
    } else {
      var step := SomebodyAdvances(c, s);
      var s' := Apply(c, s, step);
      StepInv(c, s, step);
      LeftNonneg(c, s');
      LeftNonneg(c, s);
      var rest := CanFinish(c, s');
      assert Next(c, s, s');
      Prepend(c, s, rest);
      run := [s] + rest;
    }
  }

  /** From every reachable state the program can go on until the producer has reported and
      everybody has exited. */
  lemma RunCanFinish(c: Config, run: seq<State>) returns (rest: seq<State>)
    requires c.Valid() && IsRun(c, run)
    ensures rest != [] && rest[0] == run[|run| - 1] && Continues(c, rest) && Finished(rest[|rest| - 1])
  {
    RunInv(c, run);
    rest := CanFinish(c, run[|run| - 1]);
  }
}
