/** The running producer and consumers: two shared cells, one semaphore, the producer's
    tallies and the consumers' counters updated in place, one method per process. */
module ProdConsSystem {
  import opened ProdCons

  class Exchange {
    const n: nat
    const items: seq<(nat, int)>
    const M: array<int>
    var sem: int
    var pc: ProdPc
    var idx: nat
    const counts: array<nat>
    const sums: array<int>
    const cons: array<Consumer>

    ghost predicate Shaped()
      reads this
    {
      M.Length == 2 && sums != M && counts.Length == sums.Length == cons.Length == n
    }

    ghost function View(): State
      reads this, M, counts, sums, cons
      requires Shaped()
    {
      State(M[0], M[1], sem, Producer(pc, idx, counts[..], sums[..]), cons[..])
    }

    constructor (n: nat, items: seq<(nat, int)>)
      ensures Shaped() && this.n == n && this.items == items && View() == InitialState(Config(n, items))
      ensures fresh(M) && fresh(counts) && fresh(sums) && fresh(cons)
    {
      this.n, this.items := n, items;
      M := new int[2](_ => 0);
      counts := new nat[n](_ => 0);
      sums := new int[n](_ => 0);
      cons := new Consumer[n](_ => Consumer(Looking, 0, 0, []));
      sem, pc, idx := 1, Choosing, 0;
    }

    method Produce()
      requires Shaped() && pc != Waiting && Enabled(Config(n, items), View(), Step.Produce)
      modifies `sem, `pc, `idx, M, counts, sums
      ensures Shaped() && View() == Produced(Config(n, items), old(View()))
    {
      match pc {
        case Choosing =>
          if idx < |items| {
            var (c, item) := items[idx];
            sums[c] := sums[c] + item;
            counts[c] := counts[c] + 1;
            pc := Locking;
          } else {
            pc := Closing;
          }
        case Locking =>
          sem := sem - 1;
          pc := Tagging;
        case Tagging =>
          M[0] := items[idx].0 + 1;
          pc := Storing;
        case Storing =>
          M[1] := items[idx].1;
          pc := Unlocking;
        case Unlocking =>
          sem := sem + 1;
          pc := Polling;
        case Polling =>
          if M[0] == 0 {
            idx, pc := idx + 1, Choosing;
          }
        case Closing =>
          M[0] := -1;
          pc := Waiting;
      }
    }

    /** The producer waits for its n children and reports. */
    method Report()
      requires Shaped() && pc == Waiting && Enabled(Config(n, items), View(), Step.Produce)
      modifies `pc
      ensures Shaped() && View() == Produced(Config(n, items), old(View()))
    {
      pc := Reported;
    }

    method Consume(j: nat)
      requires Shaped() && Enabled(Config(n, items), View(), Step.Consume(j))
      modifies `sem, M, cons
      ensures Shaped() && View() == Consumed(old(View()), j)
    {
      var k := cons[j];
      match k.pc {
        case Looking =>
          cons[j] := k.(pc := if M[0] == -1 then Exited else Entering);
        case Entering =>
          sem := sem - 1;
          cons[j] := k.(pc := Comparing);
        case Comparing =>
          cons[j] := k.(pc := if M[0] == j + 1 then Reading else Leaving);
        case Reading =>
          cons[j] := k.(pc := Counted, checksum := k.checksum + M[1], got := k.got + [M[1]]);
        case Counted =>
          cons[j] := k.(pc := Clearing, count := k.count + 1);
        case Clearing =>
          M[0] := 0;
          cons[j] := k.(pc := Leaving);
        case Leaving =>
          sem := sem + 1;
          cons[j] := k.(pc := Looking);
      }
    }
  }
}
