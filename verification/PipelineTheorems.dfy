// The promises of the ingest pipeline, for every interleaving of its goroutines.
module PipelineTheorems {
  import opened Sequences
  import opened Point
  import opened Metrics
  import opened PipelineMachine
  import opened PipelineSafety

  lemma ReachedInv(c: Config, s: State)
    requires ValidConfig(c) && Reached(c, s)
    ensures Inv(c, s)
  {
    var run :| Exec(c, Init(c), run) == Some(s);
    InitInv(c);
    RunKeepsInv(c, Init(c), run);
  }

  lemma ReachedStep(c: Config, s: State, a: Step)
    requires ValidConfig(c) && Reached(c, s) && Enabled(c, s, a)
    ensures Reached(c, Do(c, s, a))
  {
    var run :| Exec(c, Init(c), run) == Some(s);
    hide Init, Do, Enabled;
    ExecCons(c, s, a, []);
    ReachedRun(c, s, [a] + []);
  }

  lemma ReachedRun(c: Config, s: State, run: seq<Step>)
    requires ValidConfig(c) && Reached(c, s) && Exec(c, s, run).Some?
    ensures Reached(c, Exec(c, s, run).value)
  {
    var before :| Exec(c, Init(c), before) == Some(s);
    hide Init, Do, Enabled;
    ExecConcat(c, Init(c), before, run);
    assert Exec(c, Init(c), before + run) == Exec(c, s, run);
  }

  // Draining takes the dead letters and touches nothing else.
  lemma DrainTakesLetters(c: Config, s: State)
    requires ValidConfig(c)
    ensures Enabled(c, s, DrainLetters) && Do(c, s, DrainLetters).letters == []
    ensures Do(c, s, DrainLetters).(letters := s.letters) == s
  {
  }

  // ---- Order and conservation ----------------------------------------------

  lemma {:induction false} PickIsSubsequence(sent: seq<DataPoint>, owner: seq<nat>, w: nat)
    requires |owner| <= |sent|
    ensures IsSubsequence(Pick(sent, owner, w), sent[..|owner|])
  {
    if owner != [] {
      var n := |owner| - 1;
      var front := Pick(sent, owner[..n], w);
      PickIsSubsequence(sent, owner[..n], w);
      SubsequenceSnoc(front, sent[..n], sent[n]);
      assert sent[..n + 1] == sent[..n] + [sent[n]];
      assert front + [] == front;
    }
  }

  lemma {:induction false} SubsequenceExtends<T>(a: seq<T>, b: seq<T>, more: seq<T>)
    requires IsSubsequence(a, b)
    ensures IsSubsequence(a, b + more)
  {
    if more == [] {
      assert b + more == b;
    } else {
      var n := |more| - 1;
      SubsequenceExtends(a, b, more[..n]);
      SubsequenceSnoc(a, b + more[..n], more[n]);
      assert b + more == b + more[..n] + [more[n]];
    }
  }

  lemma {:induction false} PickOfSoleWorker(sent: seq<DataPoint>, owner: seq<nat>)
    requires |owner| <= |sent| && forall i :: 0 <= i < |owner| ==> owner[i] == 0
    ensures Pick(sent, owner, 0) == sent[..|owner|]
  {
    if owner != [] {
      PickOfSoleWorker(sent, owner[..|owner| - 1]);
    }
  }

  // The send order splits into what is still on the bus, its end, and what each
  // worker received; nothing is duplicated, lost or reordered on the way.
  lemma SendOrderSplits(c: Config, s: State)
    requires ValidConfig(c) && Reached(c, s)
    ensures |s.owner| <= |s.sent| && s.sent == s.sent[..|s.owner|] + s.bus
    ensures forall w :: 0 <= w < |s.workers| ==>
              Stream(s.workers[w]) == Pick(s.sent, s.owner, w)
              && IsSubsequence(Stream(s.workers[w]), s.sent)
    ensures Total(StreamLen, s.workers) + |s.bus| == |s.sent|
  {
    ReachedInv(c, s);
    assert s.sent == s.sent[..|s.owner|] + s.bus;
    forall w | 0 <= w < |s.workers|
      ensures IsSubsequence(Stream(s.workers[w]), s.sent)
    {
      PickIsSubsequence(s.sent, s.owner, w);
      SubsequenceExtends(Pick(s.sent, s.owner, w), s.sent[..|s.owner|], s.bus);
    }
  }

  // With a single worker the sink receives the points in exactly the send order.
  lemma SoleWorkerWritesInOrder(c: Config, s: State)
    requires ValidConfig(c) && Reached(c, s) && c.workers == 1
    ensures |s.workers| == 1
    ensures Points(s.workers[0].flushed) + Held(s.workers[0]) + s.bus == s.sent
  {
    SendOrderSplits(c, s);
    ReachedInv(c, s);
    PickOfSoleWorker(s.sent, s.owner);
  }

  // The ingested counter trails the sends by at most one per source, and no
  // point is written or dead-lettered twice.
  lemma CountersMidRun(c: Config, s: State)
    requires ValidConfig(c) && Reached(c, s)
    ensures s.ingested <= |s.sent| <= s.ingested + c.sources
    ensures s.written + s.deadLetters + |s.bus| <= |s.sent|
  {
    ReachedInv(c, s);
    TotalAtMost(InCount, s.sources, 1);
    StreamParts(s.workers);
  }

  // A worker's stream: accepted, refused, and held points.
  lemma {:induction false} StreamParts(ws: seq<Worker>)
    ensures Total(CommittedPoints, ws) + Total(FailedPoints, ws) <= Total(StreamLen, ws)
    ensures AllGone(ws) && (forall w :: 0 <= w < |ws| ==> ws[w].batch == []) ==>
              Total(CommittedPoints, ws) + Total(FailedPoints, ws) == Total(StreamLen, ws)
  {
    if ws != [] {
      var w := ws[|ws| - 1];
      StreamParts(ws[..|ws| - 1]);
      PointsAccounted(w.flushed);
    }
  }

  lemma {:induction false} PointsAccounted(fs: seq<Flush>)
    ensures Accepted(fs, true) + Accepted(fs, false) == |Points(fs)|
  {
    if fs != [] {
      PointsAccounted(fs[..|fs| - 1]);
    }
  }

  // When `Run` returns every send has been counted, and each counted point was
  // written, dead-lettered, or left on the bus.
  lemma Conservation(c: Config, s: State)
    requires ValidConfig(c) && Reached(c, s) && s.main == Returned
    ensures s.ingested == |s.sent|
    ensures s.ingested == s.written + Total(FailedPoints, s.workers) + |s.bus|
    ensures c.lettersOn ==> s.ingested == s.written + s.deadLetters + |s.bus|
    ensures c.lettersOn ==> (s.ingested == s.written + s.deadLetters <==> s.bus == [])
  {
    ReachedInv(c, s);
    TotalZero(InCount, s.sources);
    forall w | 0 <= w < |s.workers| ensures s.workers[w].batch == [] {
      assert WorkerOk(c, s.workers[w]);
    }
    TotalZero(Uncounted, s.workers);
    TotalZero(Unput, s.workers);
    StreamParts(s.workers);
  }

  // Nothing is left on the bus if any worker left because the bus was closed.
  lemma DrainedIfAnyWorkerSawClose(c: Config, s: State, w: nat)
    requires ValidConfig(c) && Reached(c, s) && s.main == Returned
    requires w < |s.workers| && s.workers[w].pc == Gone(ByClose)
    ensures s.bus == []
    ensures c.lettersOn ==> s.ingested == s.written + s.deadLetters
  {
    ReachedInv(c, s);
    Conservation(c, s);
  }

  // ---- What can remain -----------------------------------------------------

  lemma NobodyReceivesNext(c: Config, s: State, a: Step)
    requires ValidConfig(c) && AllGone(s.workers) && Enabled(c, s, a)
    ensures var t := Do(c, s, a); t.owner == s.owner && s.sent <= t.sent && AllGone(t.workers)
  {
    assert !a.WorkerStep?;
    hide WorkerDo, WorkerMay, AllStopped, SourceCan, SourceAfter;
  }

  lemma {:induction false} NobodyReceives(c: Config, s: State, run: seq<Step>)
    requires ValidConfig(c) && Inv(c, s) && AllGone(s.workers) && Exec(c, s, run).Some?
    ensures var t := Exec(c, s, run).value;
            t.owner == s.owner && s.sent <= t.sent && AllGone(t.workers)
    decreases |run|
  {
    if run != [] {
      StepKeepsInv(c, s, run[0]);
      NobodyReceivesNext(c, s, run[0]);
      hide Do, Enabled, Inv;
      NobodyReceives(c, Do(c, s, run[0]), run[1..]);
    }
  }

  // Exactly what remains: from the moment the last worker is gone, the bus and
  // every later send. So nothing remains iff the bus was empty at that moment
  // and no source sends afterwards.
  lemma ResidueExactly(c: Config, s: State, run: seq<Step>)
    requires ValidConfig(c) && Reached(c, s) && AllGone(s.workers) && Exec(c, s, run).Some?
    ensures var t := Exec(c, s, run).value;
            && |s.sent| <= |t.sent| && t.bus == s.bus + t.sent[|s.sent|..]
            && (t.bus == [] <==> s.bus == [] && t.sent == s.sent)
  {
    hide Do, Enabled, Exec, Init, Shape, Phases, Books;
    ReachedInv(c, s);
    RunKeepsInv(c, s, run);
    NobodyReceives(c, s, run);
    BusIsRest(s);
    BusIsRest(Exec(c, s, run).value);
  }

  lemma BusIsRest(s: State)
    requires Order(s.workers, s.bus, s.sent, s.owner)
    ensures |s.owner| <= |s.sent| && s.bus == s.sent[|s.owner|..]
  {
  }

  // ---- Shutdown ------------------------------------------------------------

  // No interleaving sends on, or closes, a closed bus; none writes to a closed sink.
  lemma ShutdownSafe(c: Config, s: State)
    requires ValidConfig(c) && Reached(c, s)
    ensures !s.panicked && !s.lateWrite
    ensures s.closed ==> AllStopped(s.sources)
    ensures s.sinkClosed ==> AllGone(s.workers)
    ensures forall i :: SourceMay(c, s, i, Send) ==> !s.closed
    ensures forall w, a :: WorkerMay(c, s, w, a) && (a.WriteOk? || a.WriteFails?) ==> !s.sinkClosed
    ensures s.main == ClosingBus ==> !s.closed
    ensures s.main == ClosingSink ==> !s.sinkClosed
  {
    ReachedInv(c, s);
    hide Order, Books, Shape;
  }

  // Every write carries between one and batchSize points, and the points in
  // flight stay within the configured buffers.
  lemma MemoryBound(c: Config, s: State)
    requires ValidConfig(c) && Reached(c, s)
    ensures forall w, i :: 0 <= w < |s.workers| && 0 <= i < |s.workers[w].flushed| ==>
              1 <= |s.workers[w].flushed[i].points| <= c.batchSize
    ensures |s.bus| + Total(BatchLen, s.workers) <= c.buffer + c.workers * c.batchSize
    ensures |s.letters| <= c.letterCap
  {
    ReachedInv(c, s);
    forall w | 0 <= w < |s.workers|
      ensures BatchLen(s.workers[w]) <= c.batchSize
    {
      assert WorkerOk(c, s.workers[w]);
    }
    TotalAtMost(BatchLen, s.workers, c.batchSize);
  }

  // How far each goroutine is from its end once the context is cancelled.
  function SourceLeft(src: Source): nat {
    match src case Stopped => 0 case Counting(_) => 2 case _ => 1
  }

  function AfterExit(exit: Exit): nat { if exit == Stay then 4 else 0 }

  function WorkerLeft(w: Worker): nat {
    match w.pc
    case Gone(_) => 0
    case Selecting => 4
    case Flushing(e) => 3 + AfterExit(e)
    case Committed(e) => 2 + AfterExit(e)
    case BatchCounted(e) => 1 + AfterExit(e)
    case Failing(e, k) => 1 + AfterExit(e) + if k <= |w.batch| then |w.batch| - k else 0
  }

  function MainLeft(m: Main): nat {
    match m
    case AwaitCancel => 5 case AwaitSources => 4 case ClosingBus => 3
    case AwaitWorkers => 2 case ClosingSink => 1 case Returned => 0
  }

  function Left(s: State): nat {
    Total(SourceLeft, s.sources) + Total(WorkerLeft, s.workers) + MainLeft(s.main)
  }

  // A step after cancellation that moves nothing onto the bus or off it.
  predicate Calm(s: State, t: State) { t.cancelled && t.bus == s.bus && t.sent == s.sent }

  function WindDown(c: Config, w: Worker): WorkerAct {
    match w.pc
    case Selecting => SeesDone
    case Flushing(_) => WriteOk
    case Committed(_) => CountBatch
    case BatchCounted(_) => CountWritten
    case Failing(_, k) => if c.lettersOn && k < |w.batch| then PutLetter else EndFailed
    case Gone(_) => SeesDone
  }

  lemma WindsDown(c: Config, w: Worker)
    requires ValidConfig(c) && WorkerOk(c, w) && !w.pc.Gone?
    ensures var a := WindDown(c, w);
            WorkerCan(c, w, a) && !a.Receive? && !a.SeesClosed?
            && WorkerLeft(WorkerAfter(c, w, a, [])) < WorkerLeft(w)
  {
  }

  lemma WorkerWindsDown(c: Config, s: State, w: nat)
    requires ValidConfig(c) && Inv(c, s) && s.cancelled && w < |s.workers| && !s.workers[w].pc.Gone?
    ensures var a := WorkerStep(w, WindDown(c, s.workers[w]));
            Enabled(c, s, a) && Left(Do(c, s, a)) < Left(s) && Calm(s, Do(c, s, a))
  {
    var me := s.workers[w];
    assert WorkerOk(c, me);
    WindsDown(c, me);
    hide Order, Books, Phases, Total, WorkerOk, WindDown, WorkerAfter, WorkerCan, WorkerLeft;
    TotalUpdate(WorkerLeft, s.workers, w, WorkerAfter(c, me, WindDown(c, me), []));
  }

  lemma SourceWindsDown(c: Config, s: State, i: nat)
    requires ValidConfig(c) && Inv(c, s) && s.cancelled && i < |s.sources| && !s.sources[i].Stopped?
    ensures var a := SourceStep(i, if s.sources[i].Counting? then CountSend else Quit);
            Enabled(c, s, a) && Left(Do(c, s, a)) < Left(s) && Calm(s, Do(c, s, a))
  {
    hide Order, Books, Phases, Total;
    var a := if s.sources[i].Counting? then CountSend else Quit;
    TotalUpdate(SourceLeft, s.sources, i, SourceAfter(s.sources[i], a));
  }

  lemma MakesProgress(c: Config, s: State) returns (a: Step)
    requires ValidConfig(c) && Inv(c, s) && s.cancelled && s.main != Returned
    ensures Enabled(c, s, a) && Left(Do(c, s, a)) < Left(s) && Calm(s, Do(c, s, a))
  {
    hide Order, Books, WorkerOk, Total, WindDown, WorkerDo, SourceDo;
    if i :| 0 <= i < |s.sources| && !s.sources[i].Stopped? {
      SourceWindsDown(c, s, i);
      a := SourceStep(i, if s.sources[i].Counting? then CountSend else Quit);
    } else if w :| 0 <= w < |s.workers| && !s.workers[w].pc.Gone? {
      WorkerWindsDown(c, s, w);
      a := WorkerStep(w, WindDown(c, s.workers[w]));
    } else {
      a := MainStep;
    }
  }

  // After cancellation some action is always possible until `Run` has returned,
  // and one that brings the end nearer.
  lemma NeverStuck(c: Config, s: State)
    requires ValidConfig(c) && Reached(c, s) && s.cancelled && s.main != Returned
    ensures exists a :: Enabled(c, s, a) && Left(Do(c, s, a)) < Left(s) && Reached(c, Do(c, s, a))
  {
    ReachedInv(c, s);
    var a := MakesProgress(c, s);
    ReachedStep(c, s, a);
  }

  lemma {:induction false} Finishing(c: Config, s: State) returns (run: seq<Step>)
    requires ValidConfig(c) && Inv(c, s) && s.cancelled
    ensures Exec(c, s, run).Some? && Exec(c, s, run).value.main == Returned && Calm(s, Exec(c, s, run).value)
    decreases Left(s)
  {
    if s.main == Returned {
      run := [];
    } else {
      var a := MakesProgress(c, s);
      StepKeepsInv(c, s, a);
      var rest := Finishing(c, Do(c, s, a));
      run := [a] + rest;
      ExecCons(c, s, a, rest);
    }
  }

  // From every reachable state a Stop leads, by some continuation, to the return of
  // `Run`, with everything that was on the bus still on it.
  lemma StopCanAlwaysComplete(c: Config, s: State)
    requires ValidConfig(c) && Reached(c, s)
    ensures exists run, t :: Exec(c, s, [Cancel] + run) == Some(t) && t.main == Returned && Reached(c, t)
                             && t.bus == s.bus && t.sent == s.sent
  {
    ReachedInv(c, s);
    StepKeepsInv(c, s, Cancel);
    var run := Finishing(c, Do(c, s, Cancel));
    assert Enabled(c, s, Cancel) && Calm(s, Do(c, s, Cancel));
    hide Exec, Do, Enabled, Reached, Inv;
    ExecCons(c, s, Cancel, run);
    ReachedRun(c, s, [Cancel] + run);
  }

  // ---- What the dead letters are -------------------------------------------

  // The sink refused a batch that held `p`.
  ghost predicate Refused(workers: seq<Worker>, p: DataPoint) {
    exists w, i :: 0 <= w < |workers| && RefusedBy(workers[w], i, p)
  }

  ghost predicate RefusedBy(w: Worker, i: int, p: DataPoint) {
    0 <= i < |w.flushed| && !w.flushed[i].ok && p in w.flushed[i].points
  }

  // A worker that is putting letters is putting the batch the sink just refused.
  ghost predicate PutsRefused(w: Worker) {
    w.pc.Failing? ==> w.flushed != [] && w.flushed[|w.flushed| - 1] == Flush(w.batch, false)
  }

  ghost predicate LettersRefused(workers: seq<Worker>, letters: seq<DataPoint>) {
    && (forall w :: 0 <= w < |workers| ==> PutsRefused(workers[w]))
    && (forall p :: p in letters ==> Refused(workers, p))
  }

  lemma NoLetters(workers: seq<Worker>, letters: seq<DataPoint>)
    requires LettersRefused(workers, letters)
    ensures LettersRefused(workers, [])
  {
  }

  lemma WorkerRefuses(c: Config, w: Worker, a: WorkerAct, input: seq<DataPoint>)
    requires WorkerCan(c, w, a) && PutsRefused(w) && |input| == if a.Receive? then 1 else 0
    ensures PutsRefused(WorkerAfter(c, w, a, input)) && w.flushed <= WorkerAfter(c, w, a, input).flushed
  {
  }

  // Refusals are never forgotten.
  lemma StillRefused(workers: seq<Worker>, w: nat, w': Worker, p: DataPoint)
    requires w < |workers| && workers[w].flushed <= w'.flushed && Refused(workers, p)
    ensures Refused(workers[w := w'], p)
  {
    var v, i :| 0 <= v < |workers| && RefusedBy(workers[v], i, p);
    assert RefusedBy(workers[w := w'][v], i, p);
  }

  // What a worker's action does to workers and letters.
  lemma DoLetters(c: Config, s: State, w: nat, a: WorkerAct)
    requires ValidConfig(c) && WorkerMay(c, s, w, a)
    ensures var (me, t) := (s.workers[w], WorkerDo(c, s, w, a));
            && t.workers == s.workers[w := WorkerAfter(c, me, a, Input(s, a))]
            && t.letters == if a.PutLetter? then Push(s.letters, me.batch[me.pc.put], c.letterCap) else s.letters
  {
    hide WorkerAfter, Push;
  }

  lemma WorkerStepRefuses(c: Config, s: State, w: nat, a: WorkerAct)
    requires ValidConfig(c) && WorkerMay(c, s, w, a) && LettersRefused(s.workers, s.letters)
    ensures LettersRefused(WorkerDo(c, s, w, a).workers, WorkerDo(c, s, w, a).letters)
  {
    var me := s.workers[w];
    var t := WorkerDo(c, s, w, a);
    DoLetters(c, s, w, a);
    WorkerRefuses(c, me, a, Input(s, a));
    if a.PutLetter? {
      assert RefusedBy(me, |me.flushed| - 1, me.batch[me.pc.put]);
      PushMember(s.letters, me.batch[me.pc.put], c.letterCap);
    }
    hide WorkerAfter, WorkerCan, WorkerDo, RefusedBy, Push, PutsRefused;
    forall p | p in t.letters ensures Refused(t.workers, p) {
      assert p in s.letters ==> Refused(s.workers, p);
      StillRefused(s.workers, w, t.workers[w], p);
    }
  }

  lemma StepRefuses(c: Config, s: State, a: Step)
    requires ValidConfig(c) && Enabled(c, s, a) && LettersRefused(s.workers, s.letters)
    ensures LettersRefused(Do(c, s, a).workers, Do(c, s, a).letters)
  {
    hide WorkerDo, WorkerMay, LettersRefused;
    NoLetters(s.workers, s.letters);
    if a.WorkerStep? { WorkerStepRefuses(c, s, a.w, a.wa); }
  }

  lemma PushMember(items: seq<DataPoint>, d: DataPoint, cap: nat)
    requires cap > 0
    ensures forall p :: p in Push(items, d, cap) ==> p in items || p == d
  {
  }

  lemma {:induction false} RunRefuses(c: Config, s: State, run: seq<Step>)
    requires ValidConfig(c) && LettersRefused(s.workers, s.letters) && Exec(c, s, run).Some?
    ensures LettersRefused(Exec(c, s, run).value.workers, Exec(c, s, run).value.letters)
    decreases |run|
  {
    if run != [] {
      StepRefuses(c, s, run[0]);
      hide Do, Enabled, LettersRefused;
      RunRefuses(c, Do(c, s, run[0]), run[1..]);
    }
  }

  // Every buffered dead letter is a point of a batch the sink refused.
  lemma LettersWereRefused(c: Config, s: State, p: DataPoint)
    requires ValidConfig(c) && Reached(c, s) && p in s.letters
    ensures Refused(s.workers, p)
  {
    var run :| Exec(c, Init(c), run) == Some(s);
    assert LettersRefused(Init(c).workers, Init(c).letters);
    RunRefuses(c, Init(c), run);
  }

  // ---- What can remain in a given configuration ----------------------------

  const SAMPLE: DataPoint := DataPoint([], [], [], 0, [], 0)

  // One point polled and sent by the first source, nothing else done.
  function OneSent(c: Config): State
    requires c.sources > 0
  {
    var s := Init(c);
    s.(sources := s.sources[0 := Counting([])], bus := [SAMPLE], sent := [SAMPLE])
  }

  lemma ReachOneSent(c: Config)
    requires ValidConfig(c) && c.sources > 0
    ensures Reached(c, OneSent(c))
  {
    var s0 := Init(c);
    var poll := SourceStep(0, Poll([SAMPLE]));
    var s1 := s0.(sources := s0.sources[0 := Sending([SAMPLE])]);
    assert Exec(c, s0, []) == Some(s0);
    assert Enabled(c, s0, poll) && Do(c, s0, poll) == s1 by { assert s0.bus + [] == [] && s0.sent + [] == []; }
    ReachedStep(c, s0, poll);
    var send := SourceStep(0, Send);
    assert [SAMPLE][1..] == [] && [] + [SAMPLE] == [SAMPLE];
    assert Enabled(c, s1, send) && Do(c, s1, send) == OneSent(c);
    ReachedStep(c, s1, send);
  }

  lemma NothingSentNext(c: Config, s: State, a: Step)
    requires ValidConfig(c) && Enabled(c, s, a) && s.sources == [] && s.sent == []
    ensures Do(c, s, a).sources == [] && Do(c, s, a).sent == []
  {
    hide WorkerAfter, WorkerMay, SourceDo, AllStopped, AllGone;
  }

  lemma {:induction false} NothingSent(c: Config, s: State, run: seq<Step>)
    requires ValidConfig(c) && Exec(c, s, run).Some? && s.sources == [] && s.sent == []
    ensures Exec(c, s, run).value.sent == []
    decreases |run|
  {
    if run != [] {
      NothingSentNext(c, s, run[0]);
      hide Do, Enabled;
      NothingSent(c, Do(c, s, run[0]), run[1..]);
    }
  }

  // A point may be left behind under every configuration that has a source: `Run`
  // returns although an ingested point was neither written nor dead-lettered.
  lemma ResidueIsPossible(c: Config)
    requires ValidConfig(c) && c.sources > 0
    ensures exists t :: Reached(c, t) && t.main == Returned
              && t.bus == [SAMPLE] && t.ingested == 1 && t.written == 0 && t.deadLetters == 0
  {
    ReachOneSent(c);
    StopCanAlwaysComplete(c, OneSent(c));
    var t: State :| t.main == Returned && Reached(c, t) && t.bus == [SAMPLE] && t.sent == [SAMPLE];
    hide Reached;
    CountersMidRun(c, t);
    Conservation(c, t);
  }

  // Whether `Run` is sure to leave the bus empty: only if there is nothing to send.
  lemma DrainsIff(c: Config)
    requires ValidConfig(c)
    ensures (forall t :: Reached(c, t) && t.main == Returned ==> t.bus == []) <==> c.sources == 0
  {
    if c.sources > 0 {
      ResidueIsPossible(c);
    } else {
      forall t | Reached(c, t) ensures t.bus == [] {
        var run :| Exec(c, Init(c), run) == Some(t);
        NothingSent(c, Init(c), run);
        SendOrderSplits(c, t);
      }
    }
  }
}
