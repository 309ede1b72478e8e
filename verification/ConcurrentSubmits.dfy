// Submits that overlap: the sink takes a command under its own lock, and the
// entry is recorded later under the orchestrator's
// (api/internal/orchestration/orchestrator.go:196-206, :235-256).
module ConcurrentSubmits {
  import opened Sequences
  import opened Commands
  import opened AuditLog
  import opened Orchestration

  datatype Stage = Waiting | Recording | Finished

  // Policy is a function of the request alone, so the entry is settled from the start.
  datatype Thread = Thread(entry: Entry, stage: Stage)

  // `applied` is everything the sink took and `log` every entry recorded, in order;
  // `audit` is what the orchestrator keeps of the log.
  datatype Machine = Machine(threads: seq<Thread>, sink: Sink, applied: seq<Entry>, log: seq<Entry>, audit: seq<Entry>)

  datatype Move = Act(thread: nat) | Rec(thread: nat)

  predicate Enabled(m: Machine, mv: Move) {
    mv.thread < |m.threads| && m.threads[mv.thread].stage == if mv.Act? then Waiting else Recording
  }

  function Do(m: Machine, mv: Move): Machine
    requires Enabled(m, mv)
  {
    var t := m.threads[mv.thread];
    match mv
    case Act(i) =>
      Machine(m.threads[i := t.(stage := Recording)], Carried(m.sink, t.entry),
              if t.entry.accepted then m.applied + [t.entry] else m.applied, m.log, m.audit)
    case Rec(i) =>
      var e := Numbered(t.entry, |m.log| + 1);
      m.(threads := m.threads[i := t.(stage := Finished)], log := m.log + [e], audit := Keep(m.audit, e))
  }

  function Start(p: Policy, calls: seq<Call>): Machine {
    Machine(seq(|calls|, i requires 0 <= i < |calls| =>
      Thread(Attempted(p, true, calls[i].req, calls[i].delivery), Waiting)), map[], [], [], [])
  }

  // Some interleaving of the threads' steps.
  predicate Run(m: Machine, moves: seq<Move>)
    decreases |moves|, 0
  {
    moves == [] || (Run(m, moves[..|moves| - 1]) && Enabled(Reached(m, moves[..|moves| - 1]), moves[|moves| - 1]))
  }

  function Reached(m: Machine, moves: seq<Move>): Machine
    requires Run(m, moves)
    decreases |moves|, 1
  {
    if moves == [] then m else Do(Reached(m, moves[..|moves| - 1]), moves[|moves| - 1])
  }

  // ---- Bookkeeping ---------------------------------------------------------

  // An entry before it is numbered.
  function Bare(e: Entry): Entry { e.(id := "") }

  function Whole(e: Entry): multiset<Entry> { multiset{Bare(e)} }

  // The command an entry says the sink took.
  function Taken(e: Entry): multiset<Entry> { if e.accepted then multiset{Bare(e)} else multiset{} }

  function InFlight(t: Thread): multiset<Entry> { if t.stage == Recording then Taken(t.entry) else multiset{} }

  function Done(t: Thread): multiset<Entry> { if t.stage == Finished then multiset{t.entry} else multiset{} }

  ghost predicate Unnumbered(m: Machine) {
    forall i :: 0 <= i < |m.threads| ==> Bare(m.threads[i].entry) == m.threads[i].entry
  }

  // What the sink took is what the log accepts plus what is about to be recorded.
  ghost predicate TakenBalance(m: Machine) {
    multiset(m.applied) == Bag(Taken, m.log) + Bag(InFlight, m.threads)
  }

  // Each finished submit has left exactly its own entry, and nobody else has left any.
  ghost predicate EntryBalance(m: Machine) { Bag(Whole, m.log) == Bag(Done, m.threads) }

  ghost predicate NumberedInOrder(log: seq<Entry>) { forall i :: 0 <= i < |log| ==> log[i].id == Id("orc-", i + 1) }

  ghost predicate Balanced(m: Machine) {
    && Unnumbered(m) && TakenBalance(m) && EntryBalance(m) && NumberedInOrder(m.log)
    && m.sink == Fold(m.applied) && m.audit == LastN(m.log, CAP)
  }

  lemma StaysUnnumbered(m: Machine, mv: Move)
    requires Enabled(m, mv) && Unnumbered(m)
    ensures Unnumbered(Do(m, mv))
  {
    hide Bare, Keep, Numbered, Carried;
  }

  lemma ActKeepsTaken(m: Machine, i: nat)
    requires Enabled(m, Act(i)) && TakenBalance(m) && Unnumbered(m)
    ensures TakenBalance(Do(m, Act(i)))
  {
    var t := m.threads[i];
    BagGains(InFlight, m.threads, i, t.(stage := Recording));
    hide Bag, Carried;
    var (a, b) := (Bag(Taken, m.log), Bag(InFlight, m.threads));
    assert Bare(t.entry) == t.entry;
    assert (a + b) + Taken(t.entry) == a + (b + Taken(t.entry));
  }

  lemma ActKeepsEntries(m: Machine, i: nat)
    requires Enabled(m, Act(i)) && EntryBalance(m)
    ensures EntryBalance(Do(m, Act(i)))
  {
    var t := m.threads[i];
    BagGains(Done, m.threads, i, t.(stage := Recording));
    hide Bag, Carried;
    assert Bag(Done, m.threads) + multiset{} == Bag(Done, m.threads);
  }

  lemma ActKeeps(m: Machine, i: nat)
    requires Enabled(m, Act(i)) && Balanced(m)
    ensures Balanced(Do(m, Act(i)))
  {
    var t := m.threads[i];
    ActKeepsTaken(m, i);
    ActKeepsEntries(m, i);
    StaysUnnumbered(m, Act(i));
    FoldSnoc(m.applied, t.entry);
    hide Unnumbered, TakenBalance, EntryBalance, NumberedInOrder, LastN, Fold, Bag, Carried;
  }

  lemma RecKeepsTaken(m: Machine, i: nat)
    requires Enabled(m, Rec(i)) && TakenBalance(m) && Unnumbered(m)
    ensures TakenBalance(Do(m, Rec(i)))
  {
    var t := m.threads[i];
    var t' := t.(stage := Finished);
    var e := Numbered(t.entry, |m.log| + 1);
    BagLoses(InFlight, m.threads, i, t');
    BagSnoc(Taken, m.log, e);
    assert Bare(e) == t.entry == Bare(t.entry);
    hide Bag, Id;
    var (a, b) := (Bag(Taken, m.log), Bag(InFlight, m.threads[i := t']));
    assert a + (b + Taken(t.entry)) == (a + Taken(t.entry)) + b;
  }

  lemma RecKeepsEntries(m: Machine, i: nat)
    requires Enabled(m, Rec(i)) && EntryBalance(m) && Unnumbered(m)
    ensures EntryBalance(Do(m, Rec(i)))
  {
    var t := m.threads[i];
    var e := Numbered(t.entry, |m.log| + 1);
    BagGains(Done, m.threads, i, t.(stage := Finished));
    BagSnoc(Whole, m.log, e);
    assert Bare(e) == t.entry == Bare(t.entry);
  }

  lemma NumbersContinue(log: seq<Entry>, e: Entry)
    requires NumberedInOrder(log)
    ensures NumberedInOrder(log + [Numbered(e, |log| + 1)])
  {
  }

  lemma RecKeeps(m: Machine, i: nat)
    requires Enabled(m, Rec(i)) && Balanced(m)
    ensures Balanced(Do(m, Rec(i)))
  {
    RecKeepsTaken(m, i);
    RecKeepsEntries(m, i);
    StaysUnnumbered(m, Rec(i));
    NumbersContinue(m.log, m.threads[i].entry);
    KeepIsWindow(m.log, Numbered(m.threads[i].entry, |m.log| + 1));
    hide Keep, LastN, Unnumbered, TakenBalance, EntryBalance, NumberedInOrder, Bag, Fold, Id, Numbered;
  }

  // In every reachable state of every interleaving the books balance.
  lemma {:induction false} RunBalances(p: Policy, calls: seq<Call>, moves: seq<Move>)
    requires Run(Start(p, calls), moves)
    ensures Balanced(Reached(Start(p, calls), moves))
  {
    var m0 := Start(p, calls);
    if moves == [] {
      BagOfNothing(InFlight, m0.threads);
      BagOfNothing(Done, m0.threads);
    } else {
      RunBalances(p, calls, moves[..|moves| - 1]);
      var m := Reached(m0, moves[..|moves| - 1]);
      match moves[|moves| - 1] {
        case Act(i) => ActKeeps(m, i);
        case Rec(i) => RecKeeps(m, i);
      }
    }
  }

  lemma {:induction false} BagOfNothing<T, K>(f: T -> multiset<K>, s: seq<T>)
    requires forall i :: 0 <= i < |s| ==> f(s[i]) == multiset{}
    ensures Bag(f, s) == multiset{}
  {
    if s != [] { BagOfNothing(f, s[..|s| - 1]); }
  }

  lemma {:induction false} BagOfOnes<T, K>(f: T -> multiset<K>, s: seq<T>)
    requires forall i :: 0 <= i < |s| ==> |f(s[i])| == 1
    ensures |Bag(f, s)| == |s|
  {
    if s != [] { BagOfOnes(f, s[..|s| - 1]); }
  }

  ghost predicate AllFinished(m: Machine) { forall i :: 0 <= i < |m.threads| ==> m.threads[i].stage == Finished }

  // Once every submit has returned, one entry per submit was recorded, and the
  // accepted ones are, as a bag, exactly what the sink took. The audit is the last
  // thousand of them; it accounts for the sink iff no accepted entry was dropped.
  lemma AfterAll(p: Policy, calls: seq<Call>, moves: seq<Move>)
    requires Run(Start(p, calls), moves) && AllFinished(Reached(Start(p, calls), moves))
    ensures var m := Reached(Start(p, calls), moves);
            && multiset(m.applied) == Bag(Taken, m.log) && |m.log| == |m.threads|
            && m.audit == LastN(m.log, CAP)
            && (multiset(m.applied) == Bag(Taken, m.audit)
                <==> forall k :: 0 <= k < |m.log| - |m.audit| ==> !m.log[k].accepted)
  {
    var m := Reached(Start(p, calls), moves);
    RunBalances(p, calls, moves);
    BagOfNothing(InFlight, m.threads);
    BagOfOnes(Done, m.threads);
    BagOfOnes(Whole, m.log);
    DroppedEntries(m.log, CAP);
  }

  lemma DroppedEntries(log: seq<Entry>, n: nat)
    ensures Bag(Taken, log) == Bag(Taken, LastN(log, n))
       <==> forall k :: 0 <= k < |log| - |LastN(log, n)| ==> !log[k].accepted
  {
    var d := log[..|log| - |LastN(log, n)|];
    assert log == d + LastN(log, n);
    BagConcat(Taken, d, LastN(log, n));
    BagEmptyIff(Taken, d);
    var (a, b) := (Bag(Taken, d), Bag(Taken, LastN(log, n)));
    assert a + b == b ==> |a| == 0;
    assert (forall k :: 0 <= k < |d| ==> Taken(d[k]) == multiset{})
      <==> forall k :: 0 <= k < |d| ==> !log[k].accepted by {
      assert forall k :: 0 <= k < |d| ==> d[k] == log[k] && (Taken(d[k]) == multiset{} <==> !log[k].accepted);
    }
  }

  // ---- The log against the sink ---------------------------------------------

  // What a reader of the sink sees on one channel.
  function Read(sink: Sink, device: string, command: string): Value {
    var s := if device in sink then sink[device] else FRESH;
    match command
    case "valve" => Number(s.valve)
    case "fan" => Number(s.fan)
    case "discharge_limit" => Number(s.discharge)
    case "outlet" => Flag(s.outlet)
    case _ => Other
  }

  function Shown(e: Entry): Value { if e.command == "outlet" then e.applied else Number(ToF(e.applied)) }

  predicate On(e: Entry, device: string, command: string) { e.device == device && e.command == command }

  // The sink took this entry's command for the channel.
  predicate Hit(e: Entry, device: string, command: string) { e.accepted && On(e, device, command) }

  predicate Usable(e: Entry) { e.accepted ==> Fits(e.command, e.applied) && e.command in CHANNELS }

  lemma ReadCarried(sink: Sink, e: Entry, device: string, command: string)
    requires e.accepted && Usable(e) && command in CHANNELS
    ensures Read(Carried(sink, e), device, command)
         == if On(e, device, command) then Shown(e) else Read(sink, device, command)
  {
  }

  ghost predicate AllUsable(m: Machine) { forall j :: 0 <= j < |m.threads| ==> Usable(m.threads[j].entry) }

  ghost predicate UsableLog(log: seq<Entry>) { forall j :: 0 <= j < |log| ==> Usable(log[j]) }

  lemma {:induction false} StaysUsable(p: Policy, calls: seq<Call>, moves: seq<Move>)
    requires Run(Start(p, calls), moves)
    ensures AllUsable(Reached(Start(p, calls), moves)) && UsableLog(Reached(Start(p, calls), moves).log)
  {
    if moves == [] {
      forall i | 0 <= i < |calls| ensures Usable(Attempted(p, true, calls[i].req, calls[i].delivery)) {
        ForwardIff(p, true, calls[i].req);
      }
    } else {
      StaysUsable(p, calls, moves[..|moves| - 1]);
    }
  }

  lemma RunSnoc(m: Machine, moves: seq<Move>, mv: Move)
    requires Run(m, moves) && Enabled(Reached(m, moves), mv)
    ensures Run(m, moves + [mv]) && Reached(m, moves + [mv]) == Do(Reached(m, moves), mv)
  {
    assert (moves + [mv])[..|moves|] == moves;
  }

  lemma FoldSnoc(log: seq<Entry>, e: Entry)
    ensures Fold(log + [e]) == Carried(Fold(log), e)
  {
    assert (log + [e])[..|log|] == log;
  }

  // A channel never set reads zero, an outlet off.
  lemma NeverSet(device: string, command: string)
    requires command in CHANNELS
    ensures Read(map[], device, command) == if command == "outlet" then Flag(false) else Number(Fin(0.0))
  {
  }

  // Some entry of the log took effect on the channel.
  ghost predicate Mentions(log: seq<Entry>, device: string, command: string) {
    exists k :: 0 <= k < |log| && Hit(log[k], device, command)
  }

  // The end of a log tells what the whole log tells if it mentions the channel at
  // all, and otherwise the value of a channel never set.
  lemma {:induction false} SuffixTells(log: seq<Entry>, from: nat, device: string, command: string)
    requires from <= |log| && UsableLog(log) && command in CHANNELS
    ensures Read(Fold(log[from..]), device, command)
         == Read(if Mentions(log[from..], device, command) then Fold(log) else map[], device, command)
  {
    if from < |log| {
      var n := |log| - 1;
      var (front, e) := (log[..n], log[n]);
      SuffixTells(front, from, device, command);
      assert log == front + [e] && log[from..] == front[from..] + [e];
      FoldSnoc(front, e);
      FoldSnoc(front[from..], e);
      if e.accepted {
        ReadCarried(Fold(front), e, device, command);
        ReadCarried(Fold(front[from..]), e, device, command);
      }
      hide Fold, Read, Carried;
      MentionsSnoc(front[from..], e, device, command);
    }
  }

  lemma MentionsSnoc(log: seq<Entry>, e: Entry, device: string, command: string)
    ensures Mentions(log + [e], device, command) <==> Mentions(log, device, command) || Hit(e, device, command)
  {
    hide Hit;
    if Mentions(log, device, command) {
      var k :| 0 <= k < |log| && Hit(log[k], device, command);
      assert (log + [e])[k] == log[k];
    }
    assert (log + [e])[|log|] == e;
  }

  // What the audit tells, at every moment.
  lemma WindowTells(p: Policy, calls: seq<Call>, moves: seq<Move>, device: string, command: string)
    requires Run(Start(p, calls), moves) && command in CHANNELS
    ensures var m := Reached(Start(p, calls), moves);
            && Read(Fold(m.audit), device, command)
               == Read(if Mentions(m.audit, device, command) then Fold(m.log) else map[], device, command)
            && m.audit == LastN(m.log, CAP)
  {
    var m := Reached(Start(p, calls), moves);
    RunBalances(p, calls, moves);
    StaysUsable(p, calls, moves);
    hide Run, Reached, Start, AllUsable, Fold, Read, TakenBalance, EntryBalance, NumberedInOrder;
    assert m.log[|m.log| - |m.audit|..] == m.audit;
    SuffixTells(m.log, |m.log| - |m.audit|, device, command);
  }

  // Two submits of which the second reaches the sink last and the log first.
  lemma OverlapRun(m: Machine)
    requires |m.threads| == 2 && m.threads[0].stage == m.threads[1].stage == Waiting && m.log == m.audit == []
    ensures var moves := [Act(0)] + [Act(1)] + [Rec(1)] + [Rec(0)];
            Run(m, moves)
            && var m' := Reached(m, moves);
               && AllFinished(m')
               && m'.sink == Carried(Carried(m.sink, m.threads[0].entry), m.threads[1].entry)
               && m'.audit == [Numbered(m.threads[1].entry, 1)] + [Numbered(m.threads[0].entry, 2)]
  {
    hide Carried, Numbered;
    assert [] + [Act(0)] == [Act(0)];
    RunSnoc(m, [], Act(0));
    RunSnoc(m, [Act(0)], Act(1));
    RunSnoc(m, [Act(0)] + [Act(1)], Rec(1));
    RunSnoc(m, [Act(0)] + [Act(1)] + [Rec(1)], Rec(0));
    assert [] + [Numbered(m.threads[1].entry, 1)] == [Numbered(m.threads[1].entry, 1)];
  }

  function ValveTo(device: string, v: real): Call {
    Call(Request(device, "valve", Number(Fin(v)), "", "", "brain"), Delivered)
  }

  // The audit need not tell what the sink shows: here the sink ends at 20 and the
  // audit says 10.
  lemma OverlapCanMislead() returns (moves: seq<Move>)
    ensures var m0 := Start(Policy(DEFAULTS, false), [ValveTo("rack-00", 10.0), ValveTo("rack-00", 20.0)]);
            && Run(m0, moves) && AllFinished(Reached(m0, moves))
            && Read(Reached(m0, moves).sink, "rack-00", "valve") == Number(Fin(20.0))
            && Read(Fold(Reached(m0, moves).audit), "rack-00", "valve") == Number(Fin(10.0))
  {
    var m0 := Start(Policy(DEFAULTS, false), [ValveTo("rack-00", 10.0), ValveTo("rack-00", 20.0)]);
    var (e1, e2) := (m0.threads[0].entry, m0.threads[1].entry);
    assert "brain"[0] != "operator"[0];
    assert e1.accepted && e1.applied == Number(Fin(10.0)) && e2.accepted && e2.applied == Number(Fin(20.0));
    moves := [Act(0)] + [Act(1)] + [Rec(1)] + [Rec(0)];
    OverlapRun(m0);
    hide Attempted, Carried, Fold, Read, Run, Reached;
    ReadCarried(Carried(m0.sink, e1), e2, "rack-00", "valve");
    FoldSnoc([Numbered(e2, 1)], Numbered(e1, 2));
    ReadCarried(Fold([Numbered(e2, 1)]), Numbered(e1, 2), "rack-00", "valve");
  }
}
