// Schedules in which what was recorded explains the sink at every moment
// (api/internal/orchestration/orchestrator.go:196-206).
module SubmitRaces {
  import opened Commands
  import opened AuditLog
  import opened Orchestration
  import opened ConcurrentSubmits

  // Taken by the sink and not yet recorded.
  predicate Pending(m: Machine, j: nat, device: string, command: string)
    requires j < |m.threads|
  {
    m.threads[j].stage == Recording && m.threads[j].entry.accepted && On(m.threads[j].entry, device, command)
  }

  predicate SomePending(m: Machine, device: string, command: string) {
    exists j :: 0 <= j < |m.threads| && Pending(m, j, device, command)
  }

  // No command reaches the sink while another for its channel waits to be recorded.
  predicate Clear(m: Machine, mv: Move)
    requires Enabled(m, mv)
  {
    var e := m.threads[mv.thread].entry;
    mv.Act? && e.accepted ==> !SomePending(m, e.device, e.command)
  }

  predicate RaceFree(m: Machine, moves: seq<Move>)
    requires Run(m, moves)
  {
    moves == [] || (RaceFree(m, moves[..|moves| - 1]) && Clear(Reached(m, moves[..|moves| - 1]), moves[|moves| - 1]))
  }

  // A channel shows its pending command, or else what the log says.
  ghost predicate Explained(m: Machine, device: string, command: string) {
    && (forall j :: 0 <= j < |m.threads| && Pending(m, j, device, command) ==>
          Read(m.sink, device, command) == Shown(m.threads[j].entry))
    && (!SomePending(m, device, command) ==> Read(m.sink, device, command) == Read(Fold(m.log), device, command))
    && (forall j, k :: 0 <= j < k < |m.threads| ==> !(Pending(m, j, device, command) && Pending(m, k, device, command)))
  }

  lemma ActExplains(m: Machine, i: nat, device: string, command: string)
    requires Enabled(m, Act(i)) && Clear(m, Act(i)) && AllUsable(m) && command in CHANNELS
    requires Explained(m, device, command)
    ensures Explained(Do(m, Act(i)), device, command)
  {
    var e := m.threads[i].entry;
    var m' := Do(m, Act(i));
    if e.accepted { ReadCarried(m.sink, e, device, command); }
    hide Carried, Read, Fold, Shown;
    forall j | 0 <= j < |m.threads| && j != i
      ensures Pending(m', j, device, command) == Pending(m, j, device, command)
    {}
    if e.accepted && On(e, device, command) {
      assert Pending(m', i, device, command);
    }
  }

  lemma RecExplains(m: Machine, i: nat, device: string, command: string)
    requires Enabled(m, Rec(i)) && AllUsable(m) && command in CHANNELS
    requires Explained(m, device, command)
    ensures Explained(Do(m, Rec(i)), device, command)
  {
    var e := m.threads[i].entry;
    var n := Numbered(e, |m.log| + 1);
    var m' := Do(m, Rec(i));
    assert (m.log + [n])[..|m.log|] == m.log;
    assert Fold(m'.log) == Carried(Fold(m.log), n);
    if e.accepted {
      ReadCarried(Fold(m.log), n, device, command);
      assert Pending(m, i, device, command) <==> On(e, device, command);
    }
    hide Carried, Read, Fold, Id;
    forall j | 0 <= j < |m.threads| && j != i
      ensures Pending(m', j, device, command) == Pending(m, j, device, command)
    {}
  }

  // If no two commands for one channel overlap, then at every moment each channel
  // shows either its one unrecorded command or what the audit log says, whatever
  // else overlaps.
  lemma {:induction false} RaceFreeLogExplains(p: Policy, calls: seq<Call>, moves: seq<Move>,
                                               device: string, command: string)
    requires Run(Start(p, calls), moves) && RaceFree(Start(p, calls), moves) && command in CHANNELS
    ensures Explained(Reached(Start(p, calls), moves), device, command)
  {
    var m0 := Start(p, calls);
    if moves == [] {
    } else {
      var front := moves[..|moves| - 1];
      RaceFreeLogExplains(p, calls, front, device, command);
      StaysUsable(p, calls, front);
      var m := Reached(m0, front);
      hide Explained, AllUsable;
      match moves[|moves| - 1] {
        case Act(i) => ActExplains(m, i, device, command);
        case Rec(i) => RecExplains(m, i, device, command);
      }
    }
  }

  // So once nothing waits to be recorded for a channel, the thousand entries kept
  // tell what it shows iff they mention it, or it shows what a channel never set does.
  lemma RaceFreeAuditTellsIff(p: Policy, calls: seq<Call>, moves: seq<Move>, device: string, command: string)
    requires Run(Start(p, calls), moves) && RaceFree(Start(p, calls), moves) && command in CHANNELS
    requires !SomePending(Reached(Start(p, calls), moves), device, command)
    ensures var m := Reached(Start(p, calls), moves);
            Read(m.sink, device, command) == Read(Fold(m.audit), device, command)
            <==> Mentions(m.audit, device, command) || Read(m.sink, device, command) == Read(map[], device, command)
  {
    RaceFreeLogExplains(p, calls, moves, device, command);
    hide Run, RaceFree, Reached, Read, Fold, Start, SomePending, Mentions;
    WindowTells(p, calls, moves, device, command);
  }

  // In the end, with no overlap of that kind, everything recorded tells what every
  // channel shows, and so does the audit as far as it goes back.
  lemma RaceFreeLogIsFaithful(p: Policy, calls: seq<Call>, moves: seq<Move>, device: string, command: string)
    requires Run(Start(p, calls), moves) && RaceFree(Start(p, calls), moves) && command in CHANNELS
    requires AllFinished(Reached(Start(p, calls), moves))
    ensures var m := Reached(Start(p, calls), moves);
            && Read(m.sink, device, command) == Read(Fold(m.log), device, command)
            && (Read(m.sink, device, command) == Read(Fold(m.audit), device, command)
                <==> Mentions(m.audit, device, command)
                     || Read(m.sink, device, command) == Read(map[], device, command))
  {
    hide Run, RaceFree, Reached, Read, Fold, Start, Mentions;
    assert !SomePending(Reached(Start(p, calls), moves), device, command);
    RaceFreeLogExplains(p, calls, moves, device, command);
    RaceFreeAuditTellsIff(p, calls, moves, device, command);
  }
}
