/** One producer and n consumers sharing a tag M[0], an item M[1] and one semaphore. The
    tag is polled, and finally set to -1, outside the semaphore. One step is one access to
    a shared cell or one semaphore operation. */
module ProdCons {
  import opened Counting

  /** The items in the order of production, each with the index of its addressee. */
  datatype Config = Config(n: nat, items: seq<(nat, int)>) {
    predicate Valid() {
      n >= 1 && forall i :: 0 <= i < |items| ==> items[i].0 < n
    }
  }

  datatype ProdPc = Choosing | Locking | Tagging | Storing | Unlocking | Polling | Closing | Waiting | Reported

  datatype ConsPc = Looking | Entering | Comparing | Reading | Counted | Clearing | Leaving | Exited

  /** counts and sums are the producer's tallies per consumer. */
  datatype Producer = Producer(pc: ProdPc, idx: nat, counts: seq<nat>, sums: seq<int>)

  /** got lists the items read, for the record. */
  datatype Consumer = Consumer(pc: ConsPc, count: nat, checksum: int, got: seq<int>)

  datatype State = State(tag: int, item: int, sem: int, prod: Producer, cons: seq<Consumer>)

  datatype Step = Produce | Consume(j: nat)

  function InitialState(c: Config): State {
    State(0, 0, 1, Producer(Choosing, 0, seq(c.n, _ => 0), seq(c.n, _ => 0)), seq(c.n, _ => Consumer(Looking, 0, 0, [])))
  }

  predicate AllExited(s: State) {
    forall j :: 0 <= j < |s.cons| ==> s.cons[j].pc == Exited
  }

  predicate CanProduce(c: Config, s: State) {
    match s.prod.pc
    case Choosing =>
      s.prod.idx < |c.items| ==> c.items[s.prod.idx].0 < |s.prod.counts| && c.items[s.prod.idx].0 < |s.prod.sums|
    case Locking => s.sem >= 1
    case Tagging => s.prod.idx < |c.items|
    case Storing => s.prod.idx < |c.items|
    case Waiting => AllExited(s)
    case Reported => false
    case _ => true
  }

  predicate Enabled(c: Config, s: State, step: Step) {
    match step
    case Produce => CanProduce(c, s)
    case Consume(j) =>
      j < |s.cons| && s.cons[j].pc != Exited && (s.cons[j].pc == Entering ==> s.sem >= 1)
  }

  function Produced(c: Config, s: State): State
    requires Enabled(c, s, Produce)
  {
    var p := s.prod;
    match p.pc
    case Choosing =>
      if p.idx < |c.items| then
        var (a, item) := c.items[p.idx];
        s.(prod := p.(pc := Locking, counts := p.counts[a := p.counts[a] + 1], sums := p.sums[a := p.sums[a] + item]))
      else s.(prod := p.(pc := Closing))
    case Locking => s.(sem := s.sem - 1, prod := p.(pc := Tagging))
    case Tagging => s.(tag := c.items[p.idx].0 + 1, prod := p.(pc := Storing))
    case Storing => s.(item := c.items[p.idx].1, prod := p.(pc := Unlocking))
    case Unlocking => s.(sem := s.sem + 1, prod := p.(pc := Polling))
    case Polling => if s.tag != 0 then s else s.(prod := p.(pc := Choosing, idx := p.idx + 1))
    case Closing => s.(tag := -1, prod := p.(pc := Waiting))
    case Waiting => s.(prod := p.(pc := Reported))
  }

  function Consumed(s: State, j: nat): State
    requires j < |s.cons| && s.cons[j].pc != Exited
  {
    var k := s.cons[j];
    match k.pc
    case Looking => s.(cons := s.cons[j := k.(pc := if s.tag == -1 then Exited else Entering)])
    case Entering => s.(sem := s.sem - 1, cons := s.cons[j := k.(pc := Comparing)])
    case Comparing => s.(cons := s.cons[j := k.(pc := if s.tag == j + 1 then Reading else Leaving)])
    case Reading => s.(cons := s.cons[j := k.(pc := Counted, checksum := k.checksum + s.item, got := k.got + [s.item])])
    case Counted => s.(cons := s.cons[j := k.(pc := Clearing, count := k.count + 1)])
    case Clearing => s.(tag := 0, cons := s.cons[j := k.(pc := Leaving)])
    case Leaving => s.(sem := s.sem + 1, cons := s.cons[j := k.(pc := Looking)])
  }

  function Apply(c: Config, s: State, step: Step): State
    requires Enabled(c, s, step)
  {
    match step
    case Produce => Produced(c, s)
    case Consume(j) => Consumed(s, j)
  }

  ghost predicate Next(c: Config, s: State, s': State) {
    exists step :: Enabled(c, s, step) && s' == Apply(c, s, step)
  }

  ghost predicate IsRun(c: Config, run: seq<State>) {
    |run| > 0 && run[0] == InitialState(c) && forall i :: 0 <= i < |run| - 1 ==> Next(c, run[i], run[i + 1])
  }

  // ---------------------------------------------------------------- the invariant

  /** The items for consumer j, in order. */
  function For(items: seq<(nat, int)>, j: nat): seq<int> {
    if items == [] then []
    else
      var last := items[|items| - 1];
      For(items[..|items| - 1], j) + (if last.0 == j then [last.1] else [])
  }

  function Total(s: seq<int>): int {
    if s == [] then 0 else Total(s[..|s| - 1]) + s[|s| - 1]
  }

  predicate InsideProducer(pc: ProdPc) {
    pc == Tagging || pc == Storing || pc == Unlocking
  }

  predicate InsideConsumer(pc: ConsPc) {
    pc == Comparing || pc == Reading || pc == Counted || pc == Clearing || pc == Leaving
  }

  ghost function Inside(s: State): nat -> int {
    j => if 0 <= j < |s.cons| && InsideConsumer(s.cons[j].pc) then 1 else 0
  }

  ghost predicate Shape(c: Config, s: State) {
    && c.Valid() && |s.cons| == |s.prod.counts| == |s.prod.sums| == c.n && s.prod.idx <= |c.items|
    && (s.prod.pc != Choosing && s.prod.pc != Closing && s.prod.pc != Waiting && s.prod.pc != Reported ==> s.prod.idx < |c.items|)
    && (s.prod.pc == Closing || s.prod.pc == Waiting || s.prod.pc == Reported ==> s.prod.idx == |c.items|)
  }

  /** One process at most is between its semaphore operations. */
  ghost predicate Exclusive(s: State) {
    s.sem >= 0 && s.sem + (if InsideProducer(s.prod.pc) then 1 else 0) + Sum(|s.cons|, Inside(s)) == 1
  }

  /** What the producer's place says of the shared cells. */
  ghost predicate CellsOk(c: Config, s: State)
    requires Shape(c, s)
  {
    var i := s.prod.idx;
    match s.prod.pc
    case Storing => s.tag == c.items[i].0 + 1
    case Unlocking => s.tag == c.items[i].0 + 1 && s.item == c.items[i].1
    case Polling => s.tag == 0 || (s.tag == c.items[i].0 + 1 && s.item == c.items[i].1)
    case Waiting => s.tag == -1
    case Reported => s.tag == -1 && AllExited(s)
    case _ => s.tag == 0
  }

  predicate HasRead(pc: ConsPc) {
    pc == Counted || pc == Clearing
  }

  /** A consumer past the comparison finds its own tag, with the producer polling. */
  ghost predicate ReaderOk(s: State, j: nat)
    requires j < |s.cons|
  {
    && (s.cons[j].pc == Reading || HasRead(s.cons[j].pc) ==> s.prod.pc == Polling && s.tag == j + 1)
    && (s.cons[j].pc == Exited ==> s.tag == -1)
  }

  ghost predicate ReadersOk(s: State) {
    forall j: nat :: j < |s.cons| ==> ReaderOk(s, j)
  }

  /** The number of items read so far: the current one counts once its addressee has read it. */
  ghost function ReadSoFar(c: Config, s: State): nat
    requires Shape(c, s)
  {
    s.prod.idx + (if s.prod.pc == Polling && (s.tag == 0 || HasRead(s.cons[c.items[s.prod.idx].0].pc)) then 1 else 0)
  }

  function Started(s: State): nat {
    s.prod.idx + (if s.prod.pc == Locking || InsideProducer(s.prod.pc) || s.prod.pc == Polling then 1 else 0)
  }

  /** Consumer j has read its items among the first r. */
  ghost predicate BookOk(items: seq<(nat, int)>, r: nat, k: Consumer, j: nat) {
    && r <= |items| && k.got == For(items[..r], j)
    && k.checksum == Total(k.got) && k.count + (if k.pc == Counted then 1 else 0) == |k.got|
  }

  ghost predicate BooksOk(c: Config, s: State)
    requires Shape(c, s)
  {
    forall j: nat :: j < |s.cons| ==> BookOk(c.items, ReadSoFar(c, s), s.cons[j], j)
  }

  /** The producer's tallies are those of the first n items. */
  ghost predicate TalliesOk(items: seq<(nat, int)>, n: nat, p: Producer) {
    && n <= |items| && |p.counts| == |p.sums|
    && forall j: nat :: j < |p.counts| ==> p.counts[j] == |For(items[..n], j)| && p.sums[j] == Total(For(items[..n], j))
  }

  ghost predicate Inv(c: Config, s: State) {
    Shape(c, s) && Exclusive(s) && CellsOk(c, s) && ReadersOk(s) && BooksOk(c, s) && TalliesOk(c.items, Started(s), s.prod)
  }

  lemma InitialInv(c: Config)
    requires c.Valid()
    ensures Inv(c, InitialState(c))
  {
    SumZero(c.n, Inside(InitialState(c)));
  }

  /** Two processes are never inside at once. */
  lemma OnlyOne(s: State, j: nat)
    requires Exclusive(s) && j < |s.cons| && InsideConsumer(s.cons[j].pc)
    ensures s.sem == 0 && !InsideProducer(s.prod.pc)
  {
    SumAtLeast(|s.cons|, Inside(s), j);
  }

  lemma ForNext(items: seq<(nat, int)>, i: nat, j: nat)
    requires i < |items|
    ensures For(items[..i + 1], j) == For(items[..i], j) + (if items[i].0 == j then [items[i].1] else [])
    ensures Total(For(items[..i + 1], j)) == Total(For(items[..i], j)) + (if items[i].0 == j then items[i].1 else 0)
  {
    assert items[..i + 1][..i] == items[..i];
    assert For(items[..i], j) + [] == For(items[..i], j);
    TotalSnoc(For(items[..i], j), items[i].1);
  }

  lemma TotalSnoc(s: seq<int>, v: int)
    ensures Total(s + [v]) == Total(s) + v
  {
    assert (s + [v])[..|s|] == s;
  }

  // ---- producer steps

  lemma ProduceControl(c: Config, s: State)
    requires Inv(c, s) && Enabled(c, s, Produce)
    ensures var s' := Produced(c, s); Shape(c, s') && Exclusive(s') && CellsOk(c, s') && ReadersOk(s')
  {
    var s' := Produced(c, s);
    SumSame(|s.cons|, Inside(s), Inside(s'));
    forall j: nat | j < |s'.cons|
      ensures ReaderOk(s', j)
    {
      assert ReaderOk(s, j);
    }
  }

  lemma TallyNext(items: seq<(nat, int)>, i: nat, p: Producer)
    requires i < |items| && TalliesOk(items, i, p) && items[i].0 < |p.counts|
    ensures var (a, v) := items[i];
      TalliesOk(items, i + 1, p.(counts := p.counts[a := p.counts[a] + 1], sums := p.sums[a := p.sums[a] + v]))
  {
    forall j: nat | j < |p.counts|
      ensures For(items[..i + 1], j) == For(items[..i], j) + (if items[i].0 == j then [items[i].1] else [])
      ensures Total(For(items[..i + 1], j)) == Total(For(items[..i], j)) + (if items[i].0 == j then items[i].1 else 0)
    {
      ForNext(items, i, j);
    }
  }

  lemma ProduceTallies(c: Config, s: State)
    requires Inv(c, s) && Enabled(c, s, Produce)
    ensures TalliesOk(c.items, Started(Produced(c, s)), Produced(c, s).prod)
  {
    if s.prod.pc == Choosing && s.prod.idx < |c.items| {
      TallyNext(c.items, s.prod.idx, s.prod);
    } else {
      assert Started(Produced(c, s)) == Started(s);
    }
  }

  lemma ProduceRead(c: Config, s: State)
    requires Shape(c, s) && CellsOk(c, s) && ReadersOk(s) && Enabled(c, s, Produce) && Shape(c, Produced(c, s))
    ensures ReadSoFar(c, Produced(c, s)) == ReadSoFar(c, s)
  {
    if s.prod.idx < |c.items| {
      assert ReaderOk(s, c.items[s.prod.idx].0);
    }
  }

  // ---- consumer steps

  lemma ConsumeExclusive(s: State, j: nat)
    requires Exclusive(s) && j < |s.cons| && s.cons[j].pc != Exited && (s.cons[j].pc == Entering ==> s.sem >= 1)
    ensures Exclusive(Consumed(s, j))
  {
    SumChange(|s.cons|, Inside(s), Inside(Consumed(s, j)), j);
  }

  lemma ConsumeReader(c: Config, s: State, j: nat, i: nat)
    requires Shape(c, s) && CellsOk(c, s) && Exclusive(s) && Enabled(c, s, Consume(j))
    requires i < |s.cons| && ReaderOk(s, i) && ReaderOk(s, j)
    ensures ReaderOk(Consumed(s, j), i)
  {
    if InsideConsumer(s.cons[j].pc) { OnlyOne(s, j); }
  }

  lemma ConsumeControl(c: Config, s: State, j: nat)
    requires Inv(c, s) && Enabled(c, s, Consume(j))
    ensures var s' := Consumed(s, j); Shape(c, s') && Exclusive(s') && CellsOk(c, s') && ReadersOk(s') && s'.prod == s.prod
  {
    var s' := Consumed(s, j);
    ConsumeExclusive(s, j);
    assert ReaderOk(s, j);
    forall i: nat | i < |s'.cons|
      ensures ReaderOk(s', i)
    {
      assert ReaderOk(s, i);
      ConsumeReader(c, s, j, i);
    }
  }

  /** A consumer about to read has the current item before it. */
  lemma ReadsCurrent(c: Config, s: State, j: nat)
    requires Shape(c, s) && CellsOk(c, s) && ReadersOk(s) && j < |s.cons|
    requires s.cons[j].pc == Reading || HasRead(s.cons[j].pc)
    ensures s.prod.pc == Polling && s.prod.idx < |c.items| && c.items[s.prod.idx] == (j, s.item) && s.tag == j + 1
  {
    assert ReaderOk(s, j);
  }

  lemma BookNext(items: seq<(nat, int)>, r: nat, k: Consumer, j: nat)
    requires BookOk(items, r, k, j) && r < |items|
    ensures items[r].0 != j ==> BookOk(items, r + 1, k, j)
    ensures items[r].0 == j && k.pc == Reading ==>
      BookOk(items, r + 1, k.(pc := Counted, checksum := k.checksum + items[r].1, got := k.got + [items[r].1]), j)
  {
    ForNext(items, r, j);
  }

  lemma ReadBooks(c: Config, s: State, j: nat)
    requires Inv(c, s) && Enabled(c, s, Consume(j)) && s.cons[j].pc == Reading && Shape(c, Consumed(s, j))
    ensures BooksOk(c, Consumed(s, j))
  {
    var s' := Consumed(s, j);
    ReadsCurrent(c, s, j);
    assert ReadSoFar(c, s) == s.prod.idx && ReadSoFar(c, s') == s.prod.idx + 1;
    forall i: nat | i < |s.cons|
      ensures BookOk(c.items, s.prod.idx + 1, s'.cons[i], i)
    {
      BookNext(c.items, s.prod.idx, s.cons[i], i);
    }
  }

  lemma ConsumeRead(c: Config, s: State, j: nat)
    requires Shape(c, s) && CellsOk(c, s) && ReadersOk(s) && Enabled(c, s, Consume(j)) && Shape(c, Consumed(s, j))
    requires s.cons[j].pc != Reading
    ensures ReadSoFar(c, Consumed(s, j)) == ReadSoFar(c, s)
  {
    if HasRead(s.cons[j].pc) { ReadsCurrent(c, s, j); }
  }

  lemma ConsumeBooks(c: Config, s: State, j: nat)
    requires Inv(c, s) && Enabled(c, s, Consume(j)) && s.cons[j].pc != Reading && Shape(c, Consumed(s, j))
    ensures BooksOk(c, Consumed(s, j))
  {
    var s', r := Consumed(s, j), ReadSoFar(c, s);
    ConsumeRead(c, s, j);
    forall i: nat | i < |s'.cons|
      ensures BookOk(c.items, r, s'.cons[i], i)
    {
      assert BookOk(c.items, r, s.cons[i], i);
    }
  }

  lemma ProduceInv(c: Config, s: State)
    requires Inv(c, s) && Enabled(c, s, Produce)
    ensures Inv(c, Produced(c, s))
  {
    ProduceControl(c, s);
    ProduceTallies(c, s);
    ProduceRead(c, s);
  }

  lemma ConsumeInv(c: Config, s: State, j: nat)
    requires Inv(c, s) && Enabled(c, s, Consume(j))
    ensures Inv(c, Consumed(s, j))
  {
    ConsumeControl(c, s, j);
    assert Started(Consumed(s, j)) == Started(s);
    if s.cons[j].pc == Reading { ReadBooks(c, s, j); } else { ConsumeBooks(c, s, j); }
  }

  /** Every step keeps the invariant. */
  lemma StepInv(c: Config, s: State, step: Step)
    requires Inv(c, s) && Enabled(c, s, step)
    ensures Inv(c, Apply(c, s, step))
  {
    match step
    case Produce => ProduceInv(c, s);
    case Consume(j) => ConsumeInv(c, s, j);
  }

  lemma {:induction false} RunInv(c: Config, run: seq<State>)
    requires c.Valid() && IsRun(c, run)
    ensures Inv(c, run[|run| - 1])
  {
    if |run| == 1 {
      InitialInv(c);
    } else {
      var init := run[..|run| - 1];
      RunInv(c, init);
      assert Next(c, run[|init| - 1], run[|init| - 1 + 1]);
      var step :| Enabled(c, run[|init| - 1], step) && run[|init|] == Apply(c, run[|init| - 1], step);
      StepInv(c, run[|init| - 1], step);
    }
  }

  // ---------------------------------------------------------------- agreement

  /** In every run, a consumer about to read finds its own item under its own tag: the
      producer's current item, which nobody has read. */
  lemma RunReads(c: Config, run: seq<State>, j: nat)
    requires c.Valid() && IsRun(c, run) && j < c.n
    ensures var s := run[|run| - 1]; j < |s.cons| && (s.cons[j].pc == Reading ==>
      && s.prod.idx < |c.items| && c.items[s.prod.idx] == (j, s.item)
      && s.cons[j].got == For(c.items[..s.prod.idx], j))
  {
    RunInv(c, run);
    var s := run[|run| - 1];
    if s.cons[j].pc == Reading {
      ReadsCurrent(c, s, j);
      assert BookOk(c.items, ReadSoFar(c, s), s.cons[j], j);
    }
  }

  /** In every reachable state each consumer has read, in order and once each, its items
      among a first part of the produced ones; when the producer reports, all of them, and
      the counts and checksums of both sides agree. */
  lemma RunAgrees(c: Config, run: seq<State>, j: nat)
    requires c.Valid() && IsRun(c, run) && j < c.n
    ensures var s := run[|run| - 1];
      && j < |s.cons| && Shape(c, s) && ReadSoFar(c, s) <= |c.items|
      && s.cons[j].got == For(c.items[..ReadSoFar(c, s)], j)
      && s.cons[j].checksum == Total(s.cons[j].got)
      && (s.prod.pc == Reported ==>
            && s.cons[j].got == For(c.items, j)
            && s.cons[j].count == s.prod.counts[j] == |For(c.items, j)|
            && s.cons[j].checksum == s.prod.sums[j] == Total(For(c.items, j)))
  {
    RunInv(c, run);
    var s := run[|run| - 1];
    assert BookOk(c.items, ReadSoFar(c, s), s.cons[j], j) && ReaderOk(s, j);
    if s.prod.pc == Reported {
      assert c.items[..|c.items|] == c.items;
    }
  }
}
