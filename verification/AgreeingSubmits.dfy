// Submits whose commands for a channel agree: what the sink shows and what the kept
// audit tells (api/internal/orchestration/orchestrator.go:196-206, :252-255).
module AgreeingSubmits {
  import opened Sequences
  import opened Commands
  import opened AuditLog
  import opened Orchestration
  import opened ConcurrentSubmits

  function EntryOf(p: Policy, c: Call): Entry { Attempted(p, true, c.req, c.delivery) }

  // All commands that the calls send to a channel carry one value.
  ghost predicate OneValue(p: Policy, calls: seq<Call>, device: string, command: string) {
    forall i, j :: 0 <= i < |calls| && 0 <= j < |calls|
      && Hit(EntryOf(p, calls[i]), device, command) && Hit(EntryOf(p, calls[j]), device, command)
      ==> Shown(EntryOf(p, calls[i])) == Shown(EntryOf(p, calls[j]))
  }

  ghost predicate SameEntries(p: Policy, calls: seq<Call>, m: Machine) {
    |m.threads| == |calls| && forall i :: 0 <= i < |calls| ==> m.threads[i].entry == EntryOf(p, calls[i])
  }

  // The channel shows the common value once some command for it is taken, and the
  // log tells it once one is recorded; before that they show the fresh value.
  ghost predicate Settled(m: Machine, device: string, command: string) {
    && (forall k :: 0 <= k < |m.threads| && Hit(m.threads[k].entry, device, command) && m.threads[k].stage != Waiting
          ==> Read(m.sink, device, command) == Shown(m.threads[k].entry))
    && ((forall k :: 0 <= k < |m.threads| && Hit(m.threads[k].entry, device, command) ==> m.threads[k].stage == Waiting)
          ==> Read(m.sink, device, command) == Read(map[], device, command))
    && (forall k :: 0 <= k < |m.threads| && Hit(m.threads[k].entry, device, command) && m.threads[k].stage == Finished
          ==> Read(Fold(m.log), device, command) == Shown(m.threads[k].entry))
    && ((forall k :: 0 <= k < |m.threads| && Hit(m.threads[k].entry, device, command) ==>
           m.threads[k].stage != Finished)
          ==> Read(Fold(m.log), device, command) == Read(map[], device, command))
  }

  ghost predicate Agree(m: Machine, device: string, command: string) {
    forall i, j :: 0 <= i < |m.threads| && 0 <= j < |m.threads|
      && Hit(m.threads[i].entry, device, command) && Hit(m.threads[j].entry, device, command)
      ==> Shown(m.threads[i].entry) == Shown(m.threads[j].entry)
  }

  lemma ActSettles(m: Machine, i: nat, device: string, command: string)
    requires Enabled(m, Act(i)) && AllUsable(m) && command in CHANNELS
    requires Agree(m, device, command) && Settled(m, device, command)
    ensures Settled(Do(m, Act(i)), device, command)
  {
    var e := m.threads[i].entry;
    if e.accepted { ReadCarried(m.sink, e, device, command); }
    hide Carried, Read, Fold, Shown;
    var m' := Do(m, Act(i));
    forall k | 0 <= k < |m.threads|
      ensures m'.threads[k].entry == m.threads[k].entry
      ensures k != i ==> m'.threads[k].stage == m.threads[k].stage
    {}
  }

  lemma RecSettles(m: Machine, i: nat, device: string, command: string)
    requires Enabled(m, Rec(i)) && AllUsable(m) && command in CHANNELS
    requires Agree(m, device, command) && Settled(m, device, command)
    ensures Settled(Do(m, Rec(i)), device, command)
  {
    var e := m.threads[i].entry;
    var n := Numbered(e, |m.log| + 1);
    FoldSnoc(m.log, n);
    if e.accepted { ReadCarried(Fold(m.log), n, device, command); }
    assert Shown(n) == Shown(e) && n.accepted == e.accepted && On(n, device, command) == On(e, device, command);
    hide Carried, Read, Fold, Shown, Id, Numbered;
    var m' := Do(m, Rec(i));
    forall k | 0 <= k < |m.threads|
      ensures m'.threads[k].entry == m.threads[k].entry
      ensures k != i ==> m'.threads[k].stage == m.threads[k].stage
    {}
  }

  lemma {:induction false} KeepsEntries(p: Policy, calls: seq<Call>, moves: seq<Move>)
    requires Run(Start(p, calls), moves)
    ensures SameEntries(p, calls, Reached(Start(p, calls), moves))
  {
    if moves != [] { KeepsEntries(p, calls, moves[..|moves| - 1]); }
  }

  lemma {:induction false} OneValueSettles(p: Policy, calls: seq<Call>, moves: seq<Move>,
                                           device: string, command: string)
    requires Run(Start(p, calls), moves) && OneValue(p, calls, device, command) && command in CHANNELS
    ensures Settled(Reached(Start(p, calls), moves), device, command)
  {
    if moves != [] {
      var front := moves[..|moves| - 1];
      var m := Reached(Start(p, calls), front);
      OneValueSettles(p, calls, front, device, command);
      KeepsEntries(p, calls, front);
      StaysUsable(p, calls, front);
      assert Agree(m, device, command);
      hide Settled, AllUsable, Agree, OneValue;
      match moves[|moves| - 1] {
        case Act(i) => ActSettles(m, i, device, command);
        case Rec(i) => RecSettles(m, i, device, command);
      }
    }
  }

  // ---- What the audit forgets ----------------------------------------------

  function Miss(device: string, command: string): Entry -> nat {
    (e: Entry) => if Hit(e, device, command) then 0 else 1
  }

  function MissDone(device: string, command: string): Thread -> nat {
    (t: Thread) => if t.stage == Finished && !Hit(t.entry, device, command) then 1 else 0
  }

  function Entries(p: Policy, calls: seq<Call>): seq<Entry> {
    seq(|calls|, i requires 0 <= i < |calls| => EntryOf(p, calls[i]))
  }

  // How many of the calls leave an entry that says nothing about the channel.
  function Misses(p: Policy, calls: seq<Call>, device: string, command: string): nat {
    Total(Miss(device, command), Entries(p, calls))
  }

  lemma ActKeepsMisses(m: Machine, i: nat, device: string, command: string)
    requires Enabled(m, Act(i))
    ensures Total(MissDone(device, command), Do(m, Act(i)).threads) == Total(MissDone(device, command), m.threads)
  {
    TotalUpdate(MissDone(device, command), m.threads, i, m.threads[i].(stage := Recording));
    hide Total, Carried;
  }

  lemma RecKeepsMisses(m: Machine, i: nat, device: string, command: string)
    requires Enabled(m, Rec(i))
    requires Total(Miss(device, command), m.log) == Total(MissDone(device, command), m.threads)
    ensures var m' := Do(m, Rec(i));
            Total(Miss(device, command), m'.log) == Total(MissDone(device, command), m'.threads)
  {
    var e := Numbered(m.threads[i].entry, |m.log| + 1);
    TotalUpdate(MissDone(device, command), m.threads, i, m.threads[i].(stage := Finished));
    assert (m.log + [e])[..|m.log|] == m.log;
    hide Keep, Id;
  }

  lemma {:induction false} MissesRecorded(p: Policy, calls: seq<Call>, moves: seq<Move>,
                                          device: string, command: string)
    requires Run(Start(p, calls), moves)
    ensures var m := Reached(Start(p, calls), moves);
            Total(Miss(device, command), m.log) == Total(MissDone(device, command), m.threads)
  {
    var m0 := Start(p, calls);
    if moves == [] {
      TotalZero(MissDone(device, command), m0.threads);
    } else {
      MissesRecorded(p, calls, moves[..|moves| - 1], device, command);
      var m := Reached(m0, moves[..|moves| - 1]);
      hide Total;
      match moves[|moves| - 1] {
        case Act(i) => ActKeepsMisses(m, i, device, command);
        case Rec(i) => RecKeepsMisses(m, i, device, command);
      }
    }
  }

  lemma AllDone(threads: seq<Thread>, entries: seq<Entry>, device: string, command: string)
    requires |threads| == |entries|
    requires forall i :: 0 <= i < |threads| ==> threads[i].stage == Finished && threads[i].entry == entries[i]
    ensures Total(MissDone(device, command), threads) == Total(Miss(device, command), entries)
  {
    hide Hit, Total;
    TotalSame(MissDone(device, command), threads, Miss(device, command), entries);
  }

  lemma AllMissesRecorded(p: Policy, calls: seq<Call>, moves: seq<Move>, device: string, command: string)
    requires Run(Start(p, calls), moves) && AllFinished(Reached(Start(p, calls), moves))
    ensures Total(Miss(device, command), Reached(Start(p, calls), moves).log) == Misses(p, calls, device, command)
  {
    hide Run, Reached, Start, EntryOf, Total, Miss, MissDone;
    MissesRecorded(p, calls, moves, device, command);
    KeepsEntries(p, calls, moves);
    AllDone(Reached(Start(p, calls), moves).threads, Entries(p, calls), device, command);
  }

  // A full window that does not mention the channel consists of misses.
  lemma WindowOfMisses(log: seq<Entry>, n: nat, device: string, command: string)
    requires n <= |log| && !Mentions(LastN(log, n), device, command)
    ensures Total(Miss(device, command), log) >= n
  {
    var d := |log| - n;
    assert log == log[..d] + log[d..] && log[d..] == LastN(log, n);
    TotalConcat(Miss(device, command), log[..d], log[d..]);
    TotalSize(Miss(device, command), log[d..]);
  }

  lemma {:induction false} MissesAfter(log: seq<Entry>, from: nat, device: string, command: string)
    requires from <= |log| && forall k :: 0 <= k < |log| ==> (Hit(log[k], device, command) <==> k < from)
    ensures Total(Miss(device, command), log) == |log| - from
  {
    if from == |log| {
      NoMisses(log, device, command);
    } else {
      var n := |log| - 1;
      assert !Hit(log[n], device, command);
      hide Hit;
      MissesAfter(log[..n], from, device, command);
    }
  }

  lemma NoMisses(log: seq<Entry>, device: string, command: string)
    requires forall k :: 0 <= k < |log| ==> Hit(log[k], device, command)
    ensures Total(Miss(device, command), log) == 0
  {
    hide Hit, Total;
    TotalZero(Miss(device, command), log);
  }

  // If all hits come first, and at least `n` misses follow, the window of `n` is misses.
  lemma MissesLast(log: seq<Entry>, from: nat, n: nat, device: string, command: string)
    requires from <= |log| && Total(Miss(device, command), log) >= n
    requires forall k :: 0 <= k < |log| ==> (Hit(log[k], device, command) <==> k < from)
    ensures !Mentions(LastN(log, n), device, command)
  {
    MissesAfter(log, from, device, command);
    hide Hit, Total, Miss;
    assert forall k :: 0 <= k < |LastN(log, n)| ==> LastN(log, n)[k] == log[|log| - |LastN(log, n)| + k];
  }

  // Whether the value of a channel never set is the only one sent to it.
  ghost predicate OnlyFresh(p: Policy, calls: seq<Call>, device: string, command: string) {
    forall i :: 0 <= i < |calls| && Hit(EntryOf(p, calls[i]), device, command)
      ==> Shown(EntryOf(p, calls[i])) == Read(map[], device, command)
  }

  // The commands for the channel agree, and the thousand entries kept are sure to
  // hold one of them where that matters.
  ghost predicate Faithful(p: Policy, calls: seq<Call>, device: string, command: string) {
    && OneValue(p, calls, device, command)
    && (Misses(p, calls, device, command) < CAP || OnlyFresh(p, calls, device, command))
  }

  lemma FaithfulAuditTells(p: Policy, calls: seq<Call>, moves: seq<Move>, device: string, command: string)
    requires Run(Start(p, calls), moves) && AllFinished(Reached(Start(p, calls), moves))
    requires Faithful(p, calls, device, command) && command in CHANNELS
    ensures var m := Reached(Start(p, calls), moves);
            Read(m.sink, device, command) == Read(Fold(m.audit), device, command)
  {
    var m := Reached(Start(p, calls), moves);
    OneValueSettles(p, calls, moves, device, command);
    KeepsEntries(p, calls, moves);
    WindowTells(p, calls, moves, device, command);
    AllMissesRecorded(p, calls, moves, device, command);
    hide Run, Reached, Start, EntryOf, Fold, Read, Shown, Misses, Total;
    assert Read(m.sink, device, command) == Read(Fold(m.log), device, command) by {
      hide OneValue, OnlyFresh;
    }
    if CAP <= |m.log| && !Mentions(m.audit, device, command) {
      WindowOfMisses(m.log, CAP, device, command);
      assert OnlyFresh(p, calls, device, command);
      assert Read(m.sink, device, command) == Read(map[], device, command);
    }
  }
}
