// Pipeline counters and the bounded dead-letter buffer
// (go-telemetry/internal/metrics/metrics.go, deadletter.go).
module Metrics {
  import opened Sequences
  import opened Point

  // The counters that take part in conservation; each Add is one atomic step.
  class Registry {
    var ingested: int
    var written: int
    var batches: int
    var writeErrors: int
    var deadLetters: int

    constructor ()
      ensures ingested == written == batches == writeErrors == deadLetters == 0
    {
      ingested, written, batches, writeErrors, deadLetters := 0, 0, 0, 0, 0;
    }

    method IncWritten(n: int)
      modifies this`written
      ensures written == old(written) + n
    {
      written := written + n;
    }

    method IncBatches(n: int)
      modifies this`batches
      ensures batches == old(batches) + n
    {
      batches := batches + n;
    }

    method IncWriteErrors(n: int)
      modifies this`writeErrors
      ensures writeErrors == old(writeErrors) + n
    {
      writeErrors := writeErrors + n;
    }

    method IncDeadLetters(n: int)
      modifies this`deadLetters
      ensures deadLetters == old(deadLetters) + n
    {
      deadLetters := deadLetters + n;
    }
  }

  // ---- The buffer as a function of its history -----------------------------

  // The buffer after one Put: the oldest entry gives way when it is full.
  function Push<T>(items: seq<T>, d: T, cap: nat): seq<T>
    requires cap > 0
  {
    (if |items| >= cap then items[1..] else items) + [d]
  }

  datatype SinkEvent<T> = Put(d: T) | TakeAll

  // Buffered entries, entries handed to Drain's callback, and entries evicted.
  datatype Ledger<T> = Ledger(items: seq<T>, delivered: seq<T>, evicted: seq<T>, puts: seq<T>)

  function Record<T>(l: Ledger<T>, e: SinkEvent<T>, cap: nat): Ledger<T>
    requires cap > 0
  {
    match e
    case Put(d) =>
      l.(items := Push(l.items, d, cap), puts := l.puts + [d],
         evicted := if |l.items| >= cap then l.evicted + [l.items[0]] else l.evicted)
    case TakeAll => l.(items := [], delivered := l.delivered + l.items)
  }

  function History<T>(events: seq<SinkEvent<T>>, cap: nat): Ledger<T>
    requires cap > 0
  {
    if events == [] then Ledger([], [], [], [])
    else Record(History(events[..|events| - 1], cap), events[|events| - 1], cap)
  }

  // The live entries, in the order Drain hands them out.
  function Live<T>(l: Ledger<T>): seq<T> { l.delivered + l.items }

  ghost predicate Balanced<T>(l: Ledger<T>, cap: nat) {
    && |l.items| <= cap
    && multiset(l.puts) == multiset(Live(l)) + multiset(l.evicted)
    && IsSubsequence(Live(l), l.puts)
  }

  lemma EvictionKeepsBalance<T>(l: Ledger<T>, cap: nat)
    requires Balanced(l, cap) && l.items != []
    ensures Balanced(l.(items := l.items[1..], evicted := l.evicted + [l.items[0]]), cap)
  {
    var (live, i) := (Live(l), |l.delivered|);
    var l' := l.(items := l.items[1..], evicted := l.evicted + [l.items[0]]);
    assert Live(l') == live[..i] + live[i + 1..];
    assert live == live[..i] + [live[i]] + live[i + 1..];
    SubsequenceDelete(live, l.puts, i);
  }

  lemma AppendKeepsBalance<T>(l: Ledger<T>, d: T, cap: nat)
    requires Balanced(l, cap) && |l.items| < cap
    ensures Balanced(l.(items := l.items + [d], puts := l.puts + [d]), cap)
  {
    var l' := l.(items := l.items + [d], puts := l.puts + [d]);
    assert Live(l') == Live(l) + [d];
    SubsequenceSnoc(Live(l), l.puts, d);
    hide IsSubsequence, Live;
  }

  // Over every history of puts and drains the buffer is bounded, every put is
  // delivered, buffered or evicted exactly once, and survivors keep put order.
  lemma {:induction false} DeadLetterLedger<T>(events: seq<SinkEvent<T>>, cap: nat)
    requires cap > 0
    ensures Balanced(History(events, cap), cap)
  {
    if events != [] {
      var n := |events| - 1;
      DeadLetterLedger(events[..n], cap);
      var l := History(events[..n], cap);
      match events[n] {
        case TakeAll =>
          assert l.delivered + l.items + [] == Live(l);
        case Put(d) =>
          if |l.items| >= cap {
            EvictionKeepsBalance(l, cap);
            AppendKeepsBalance(l.(items := l.items[1..], evicted := l.evicted + [l.items[0]]), d, cap);
          } else {
            AppendKeepsBalance(l, d, cap);
          }
      }
    }
  }

  // Between two drains the buffer holds exactly the most recent `cap` entries.
  function PushAll<T>(items: seq<T>, ds: seq<T>, cap: nat): seq<T>
    requires cap > 0
  {
    if ds == [] then items else Push(PushAll(items, ds[..|ds| - 1], cap), ds[|ds| - 1], cap)
  }

  lemma PushOntoMostRecent<T>(s: seq<T>, d: T, cap: nat)
    requires cap > 0
    ensures Push(LastN(s, cap), d, cap) == LastN(s + [d], cap)
  {
    if |s| >= cap {
      var k := |s| - cap;
      assert LastN(s, cap) == s[k..];
      assert s[k..][1..] == s[k + 1..];
      assert (s + [d])[k + 1..] == s[k + 1..] + [d];
    }
  }

  lemma {:induction false} KeepsMostRecent<T>(items: seq<T>, ds: seq<T>, cap: nat)
    requires cap > 0 && |items| <= cap
    ensures PushAll(items, ds, cap) == LastN(items + ds, cap)
  {
    if ds == [] {
      assert items + ds == items;
    } else {
      hide LastN, Push;
      var (front, d) := (ds[..|ds| - 1], ds[|ds| - 1]);
      assert items + ds == (items + front) + [d];
      KeepsMostRecent(items, front, cap);
      PushOntoMostRecent(items + front, d, cap);
    }
  }

  // ---- The sink ------------------------------------------------------------

  datatype DeadLetter = DeadLetter(point: DataPoint, error: string)

  class DeadLetterSink {
    const cap: nat
    const reg: Registry?
    var items: seq<DeadLetter>

    constructor (reg: Registry?, capacity: int)
      ensures cap == (if capacity <= 0 then 1024 else capacity) && this.reg == reg && items == []
    {
      cap := if capacity <= 0 then 1024 else capacity;
      this.reg := reg;
      items := [];
    }

    method Put(d: DeadLetter)
      requires cap > 0
      modifies this`items, (if reg == null then {} else {reg})`deadLetters
      ensures items == Push(old(items), d, cap)
      ensures reg != null ==> reg.deadLetters == old(reg.deadLetters) + 1
    {
      if |items| >= cap {
        items := items[1..];
      }
      items := items + [d];
      if reg != null {
        reg.IncDeadLetters(1);
      }
    }

    // The locked part of one turn of Drain: everything buffered leaves at once
    // and is handed, in order, to the callback after the lock is released.
    method Take() returns (taken: seq<DeadLetter>)
      modifies this`items
      ensures taken == old(items) && items == []
    {
      taken := items;
      items := [];
    }

    method Len() returns (n: nat)
      ensures n == |items|
    {
      n := |items|;
    }
  }
}
