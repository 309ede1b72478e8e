// Exactly which submits the retained audit cannot misreport, however they overlap
// (api/internal/orchestration/orchestrator.go:196-206, :252-255).
module LogFidelity {
  import opened Sequences
  import opened Commands
  import opened AuditLog
  import opened Orchestration
  import opened ConcurrentSubmits
  import opened AgreeingSubmits

  // The entry was left by one of the threads that `who` selects.
  ghost predicate LeftBy(e: Entry, threads: seq<Thread>, who: nat -> bool) {
    exists t: nat :: who(t) && t < |threads| && Bare(e) == Bare(threads[t].entry)
  }

  lemma LeftByAlike(e: Entry, threads: seq<Thread>, who: nat -> bool, device: string, command: string, hit: bool)
    requires LeftBy(e, threads, who)
    requires forall t: nat :: who(t) && t < |threads| ==> Hit(threads[t].entry, device, command) == hit
    ensures Hit(e, device, command) == hit
  {
  }

  // The first `k` threads that `who` selects have finished, and nobody else has moved.
  ghost predicate Served(r: Machine, r': Machine, k: nat, who: nat -> bool) {
    && |r'.threads| == |r.threads| && |r.log| <= |r'.log| && r'.log[..|r.log|] == r.log
    && (forall t :: 0 <= t < |r.threads| ==>
          r'.threads[t] == if t < k && who(t) then r.threads[t].(stage := Finished) else r.threads[t])
    && (forall x :: |r.log| <= x < |r'.log| ==> LeftBy(r'.log[x], r.threads, who))
  }

  lemma ServeOne(m: Machine, before: seq<Move>, i: nat) returns (moves: seq<Move>)
    requires Run(m, before)
    requires i < |Reached(m, before).threads| && Reached(m, before).threads[i].stage == Waiting
    ensures Run(m, moves)
    ensures var (r, r') := (Reached(m, before), Reached(m, moves));
            && r'.threads == r.threads[i := r.threads[i].(stage := Finished)]
            && r'.log == r.log + [Numbered(r.threads[i].entry, |r.log| + 1)]
  {
    hide Run, Reached, Carried, Numbered, Keep;
    RunSnoc(m, before, Act(i));
    RunSnoc(m, before + [Act(i)], Rec(i));
    moves := before + [Act(i)] + [Rec(i)];
  }

  // Some interleaving goes on by serving those of the first `k` threads that `who`
  // selects, and nobody else.
  lemma {:induction false} Serve(m: Machine, before: seq<Move>, k: nat, who: nat -> bool) returns (moves: seq<Move>)
    requires Run(m, before)
    requires var r := Reached(m, before);
             k <= |r.threads| && forall t: nat :: who(t) && t < |r.threads| ==> r.threads[t].stage == Waiting
    ensures Run(m, moves)
    ensures Served(Reached(m, before), Reached(m, moves), k, who)
  {
    moves := before;
    hide Run, Reached, LeftBy, Numbered;
    if k > 0 {
      moves := Serve(m, before, k - 1, who);
      var (r, r') := (Reached(m, before), Reached(m, moves));
      if who(k - 1) {
        moves := ServeOne(m, moves, k - 1);
        hide Served;
        ServedNext(r, r', Reached(m, moves), k, who);
      }
    }
  }

  lemma ServedNext(r: Machine, r': Machine, next: Machine, k: nat, who: nat -> bool)
    requires 0 < k <= |r.threads| && who(k - 1) && Served(r, r', k - 1, who)
    requires next.threads == r'.threads[k - 1 := r'.threads[k - 1].(stage := Finished)]
    requires next.log == r'.log + [Numbered(r'.threads[k - 1].entry, |r'.log| + 1)]
    ensures Served(r, next, k, who)
  {
    var e := Numbered(r'.threads[k - 1].entry, |r'.log| + 1);
    assert LeftBy(e, r.threads, who) by {
      assert Bare(e) == Bare(r.threads[k - 1].entry);
    }
    hide LeftBy, Numbered;
    forall x | |r.log| <= x < |next.log| ensures LeftBy(next.log[x], r.threads, who) {
      if x < |r'.log| { assert next.log[x] == r'.log[x]; }
    }
  }

  // Of two threads that have not begun, `i` may reach the sink first and the log last.
  lemma Crossing(m: Machine, moves: seq<Move>, i: nat, j: nat) returns (crossed: seq<Move>)
    requires Run(m, moves)
    requires var r := Reached(m, moves);
             i < |r.threads| && j < |r.threads| && i != j && r.threads[i].stage == r.threads[j].stage == Waiting
    ensures Run(m, crossed)
    ensures var (r, r') := (Reached(m, moves), Reached(m, crossed));
            && r'.threads == r.threads[i := r.threads[i].(stage := Finished)][j := r.threads[j].(stage := Finished)]
            && r'.sink == Carried(Carried(r.sink, r.threads[i].entry), r.threads[j].entry)
            && r'.log == r.log + [Numbered(r.threads[j].entry, |r.log| + 1)]
                         + [Numbered(r.threads[i].entry, |r.log| + 2)]
  {
    hide Run, Reached, Carried, Numbered;
    RunSnoc(m, moves, Act(i));
    var m1 := moves + [Act(i)];
    RunSnoc(m, m1, Act(j));
    var m2 := m1 + [Act(j)];
    RunSnoc(m, m2, Rec(j));
    var m3 := m2 + [Rec(j)];
    RunSnoc(m, m3, Rec(i));
    crossed := m3 + [Rec(i)];
  }

  // What sink and log say after a crossing of `a` and `b`.
  lemma CrossedReads(sink: Sink, log: seq<Entry>, a: Entry, b: Entry, device: string, command: string)
    requires Usable(a) && Usable(b) && Hit(a, device, command) && Hit(b, device, command) && command in CHANNELS
    ensures Read(Carried(Carried(sink, a), b), device, command) == Shown(b)
    ensures var log' := log + [Numbered(b, |log| + 1)] + [Numbered(a, |log| + 2)];
            Read(Fold(log'), device, command) == Shown(a) && Mentions(LastN(log', CAP), device, command)
  {
    var log1 := log + [Numbered(b, |log| + 1)];
    var n := Numbered(a, |log| + 2);
    FoldSnoc(log1, n);
    assert Shown(n) == Shown(a) && Usable(n) && Hit(n, device, command);
    hide Carried, Read, Fold, Shown, Numbered;
    ReadCarried(Carried(sink, a), b, device, command);
    ReadCarried(Fold(log1), n, device, command);
    assert LastN(log1 + [n], CAP)[|LastN(log1 + [n], CAP)| - 1] == n;
  }

  // Two commands with different values for one channel: some interleaving ends with
  // the sink showing the one and the audit telling the other.
  lemma DifferentValuesMislead(p: Policy, calls: seq<Call>, i: nat, j: nat, device: string, command: string)
    returns (moves: seq<Move>)
    requires i < |calls| && j < |calls| && command in CHANNELS
    requires Hit(EntryOf(p, calls[i]), device, command) && Hit(EntryOf(p, calls[j]), device, command)
    requires Shown(EntryOf(p, calls[i])) != Shown(EntryOf(p, calls[j]))
    ensures Run(Start(p, calls), moves) && AllFinished(Reached(Start(p, calls), moves))
    ensures var m := Reached(Start(p, calls), moves);
            Read(m.sink, device, command) == Shown(EntryOf(p, calls[j]))
            && Read(Fold(m.audit), device, command) == Shown(EntryOf(p, calls[i]))
  {
    var m0 := Start(p, calls);
    assert Run(m0, []) && Reached(m0, []) == m0;
    hide Run, Reached, LeftBy, Shown, EntryOf, Read, Fold, Carried, Numbered;
    var before := Serve(m0, [], |calls|, t => t != i && t != j);
    var r := Reached(m0, before);
    KeepsEntries(p, calls, before);
    StaysUsable(p, calls, before);
    moves := Crossing(m0, before, i, j);
    assert AllFinished(Reached(m0, moves));
    WindowTells(p, calls, moves, device, command);
    assert Usable(r.threads[i].entry) && Usable(r.threads[j].entry);
    hide Served, Start, AllUsable;
    CrossedReads(r.sink, r.log, r.threads[i].entry, r.threads[j].entry, device, command);
  }

  // Hits served before misses are recorded before them.
  lemma TwoPasses(m: Machine, r: Machine, r': Machine, hits: nat -> bool, misses: nat -> bool,
                  device: string, command: string)
    requires Served(m, r, |m.threads|, hits) && Served(r, r', |m.threads|, misses) && m.log == []
    requires forall t: nat :: t < |m.threads| ==> hits(t) == Hit(m.threads[t].entry, device, command)
    requires forall t: nat :: t < |m.threads| ==> misses(t) == !Hit(m.threads[t].entry, device, command)
    ensures AllFinished(r')
    ensures forall k :: 0 <= k < |r'.log| ==> (Hit(r'.log[k], device, command) <==> k < |r.log|)
  {
    hide LeftBy, Hit;
    assert forall t :: 0 <= t < |m.threads| ==> r.threads[t].entry == m.threads[t].entry;
    forall k | 0 <= k < |r'.log| ensures Hit(r'.log[k], device, command) <==> k < |r.log| {
      if k < |r.log| {
        assert r'.log[k] == r.log[k];
        LeftByAlike(r.log[k], m.threads, hits, device, command, true);
      } else {
        LeftByAlike(r'.log[k], r.threads, misses, device, command, false);
      }
    }
  }

  // Some interleaving records every hit before every miss.
  lemma HitsFirst(p: Policy, calls: seq<Call>, device: string, command: string)
    returns (moves: seq<Move>, from: nat)
    ensures Run(Start(p, calls), moves) && AllFinished(Reached(Start(p, calls), moves))
    ensures var log := Reached(Start(p, calls), moves).log;
            from <= |log| && forall k :: 0 <= k < |log| ==> (Hit(log[k], device, command) <==> k < from)
  {
    var m0 := Start(p, calls);
    var hits := t => 0 <= t < |calls| && Hit(m0.threads[t].entry, device, command);
    var misses := t => 0 <= t < |calls| && !Hit(m0.threads[t].entry, device, command);
    assert Run(m0, []) && Reached(m0, []) == m0;
    hide Run, Reached, LeftBy, Attempted, Hit;
    var first := Serve(m0, [], |calls|, hits);
    moves := Serve(m0, first, |calls|, misses);
    from := |Reached(m0, first).log|;
    TwoPasses(m0, Reached(m0, first), Reached(m0, moves), hits, misses, device, command);
  }

  // A thousand or more entries that say nothing about a channel: some interleaving
  // records them last, and the audit forgets that the channel was ever set.
  lemma AuditForgets(p: Policy, calls: seq<Call>, i: nat, device: string, command: string) returns (moves: seq<Move>)
    requires i < |calls| && Hit(EntryOf(p, calls[i]), device, command) && command in CHANNELS
    requires OneValue(p, calls, device, command) && Misses(p, calls, device, command) >= CAP
    ensures Run(Start(p, calls), moves) && AllFinished(Reached(Start(p, calls), moves))
    ensures var m := Reached(Start(p, calls), moves);
            Read(m.sink, device, command) == Shown(EntryOf(p, calls[i]))
            && Read(Fold(m.audit), device, command) == Read(map[], device, command)
  {
    var from;
    moves, from := HitsFirst(p, calls, device, command);
    OneValueSettles(p, calls, moves, device, command);
    KeepsEntries(p, calls, moves);
    WindowTells(p, calls, moves, device, command);
    AllMissesRecorded(p, calls, moves, device, command);
    hide Run, Reached, Start, EntryOf, Fold, Read, Shown, Misses, Total, LastN, OneValue, Mentions;
    MissesLast(Reached(Start(p, calls), moves).log, from, CAP, device, command);
  }

  // One command to one device and a thousand to another: the audit says 0 where the
  // first device stands at 50.
  lemma ThousandOthers() returns (moves: seq<Move>)
    ensures var m0 := Start(Policy(DEFAULTS, false), [ValveTo("a", 50.0)] + seq(1000, _ => ValveTo("b", 10.0)));
            && Run(m0, moves) && AllFinished(Reached(m0, moves))
            && Read(Reached(m0, moves).sink, "a", "valve") == Number(Fin(50.0))
            && Read(Fold(Reached(m0, moves).audit), "a", "valve") == Number(Fin(0.0))
  {
    var p := Policy(DEFAULTS, false);
    var (one, rest) := ([ValveTo("a", 50.0)], seq(1000, _ => ValveTo("b", 10.0)));
    assert "brain"[0] != "operator"[0] && "a"[0] != "b"[0];
    assert EntryOf(p, one[0]).accepted && EntryOf(p, one[0]).applied == Number(Fin(50.0));
    assert Entries(p, one + rest) == Entries(p, one) + Entries(p, rest);
    TotalConcat(Miss("a", "valve"), Entries(p, one), Entries(p, rest));
    hide Start, Run, Reached, Fold, Attempted;
    TotalSize(Miss("a", "valve"), Entries(p, rest));
    assert forall k :: 0 < k <= 1000 ==> (one + rest)[k] == ValveTo("b", 10.0);
    moves := AuditForgets(p, one + rest, 0, "a", "valve");
  }

  // Whatever the interleaving, the audit tells what a channel shows iff the accepted
  // commands for that channel all carry one value, and fewer than a thousand of the
  // submits leave other entries, unless that value is the one of a channel never set.
  lemma LogIsFaithfulIff(p: Policy, calls: seq<Call>, device: string, command: string)
    requires command in CHANNELS
    ensures (forall moves :: Run(Start(p, calls), moves) && AllFinished(Reached(Start(p, calls), moves)) ==>
               Read(Reached(Start(p, calls), moves).sink, device, command)
               == Read(Fold(Reached(Start(p, calls), moves).audit), device, command))
       <==> Faithful(p, calls, device, command)
  {
    var m0 := Start(p, calls);
    hide Run, Reached, Read, Fold, Start, Shown, EntryOf, Misses;
    if Faithful(p, calls, device, command) {
      forall moves | Run(m0, moves) && AllFinished(Reached(m0, moves))
        ensures Read(Reached(m0, moves).sink, device, command)
             == Read(Fold(Reached(m0, moves).audit), device, command)
      {
        FaithfulAuditTells(p, calls, moves, device, command);
      }
    } else if !OneValue(p, calls, device, command) {
      var i, j :| 0 <= i < |calls| && 0 <= j < |calls|
        && Hit(EntryOf(p, calls[i]), device, command) && Hit(EntryOf(p, calls[j]), device, command)
        && Shown(EntryOf(p, calls[i])) != Shown(EntryOf(p, calls[j]));
      var moves := DifferentValuesMislead(p, calls, i, j, device, command);
    } else {
      var i :| 0 <= i < |calls| && Hit(EntryOf(p, calls[i]), device, command)
        && Shown(EntryOf(p, calls[i])) != Read(map[], device, command);
      var moves := AuditForgets(p, calls, i, device, command);
    }
  }
}
