// The worker goroutine and `flush` as they run between two select statements
// (go-telemetry/internal/pipeline/pipeline.go:140-193).
module PipelineWorker {
  import opened Point
  import opened Metrics
  import M = PipelineMachine

  // What a select statement of the worker loop may yield.
  datatype Event = Got(p: DataPoint) | BusClosed | TimedOut | Cancelled

  // ---- A turn of the loop in terms of the machine --------------------------

  function Act(e: Event): M.WorkerAct {
    match e
    case Got(_) => M.Receive
    case BusClosed => M.SeesClosed
    case TimedOut => M.TimerFires
    case Cancelled => M.SeesDone
  }

  function Taken(e: Event): seq<DataPoint> { if e.Got? then [e.p] else [] }

  // The way out an event leads to.
  function WayOut(e: Event): M.Exit {
    match e
    case BusClosed => M.ByClose
    case Cancelled => M.ByCancel
    case _ => M.Stay
  }

  // Whether the batch, with what was just received, is due: it is full, or something
  // other than a point ended the wait. An empty batch never is.
  predicate Due(size: nat, full: seq<DataPoint>, e: Event) { full != [] && (!e.Got? || |full| >= size) }

  // A select of the machine's worker takes in the point received, begins a flush
  // exactly when one is due, and leaves only for a closed bus or a cancelled context.
  lemma SelectBegins(c: M.Config, w: M.Worker, e: Event)
    requires w.pc.Selecting?
    ensures var full := w.batch + Taken(e);
            M.WorkerAfter(c, w, Act(e), Taken(e))
            == if Due(c.batchSize, full, e) then M.Worker(M.Flushing(WayOut(e)), full, w.flushed)
               else M.Worker(if WayOut(e) == M.Stay then M.Selecting else M.Gone(WayOut(e)), full, w.flushed)
  {
    if !e.Got? { assert w.batch + Taken(e) == w.batch; }
  }

  // The stages of a flush: the write records the batch and the sink's answer; the
  // batch is empty, and the way out taken, only when all that follows is done.
  lemma FlushStages(c: M.Config, w: M.Worker, a: M.WorkerAct)
    requires M.WorkerCan(c, w, a) && !w.pc.Selecting?
    ensures var w' := M.WorkerAfter(c, w, a, []);
            && w'.flushed == w.flushed + (if a.WriteOk? || a.WriteFails? then [M.Flush(w.batch, a.WriteOk?)] else [])
            && (a.CountWritten? || a.EndFailed? ==>
                  w'.batch == [] && w'.pc == if w.pc.exit == M.Stay then M.Selecting else M.Gone(w.pc.exit))
            && (!a.CountWritten? && !a.EndFailed? ==>
                  w'.batch == w.batch && !w'.pc.Selecting? && !w'.pc.Gone? && w'.pc.exit == w.pc.exit)
            && (w'.pc.Committed? ==> a.WriteOk?) && (w'.pc.Failing? ==> a.WriteFails? || a.PutLetter?)
  {
  }

  // A turn writes the batch exactly when it is due, whole and once, and then empties it.
  lemma TurnWrites(c: M.Config, w: M.Worker, e: Event, ok: bool)
    requires w.pc.Selecting?
    ensures var (full, w') := (w.batch + Taken(e), Turn(c, w, e, ok));
            && w'.flushed == w.flushed + (if Due(c.batchSize, full, e) then [M.Flush(full, ok)] else [])
            && w'.batch == (if Due(c.batchSize, full, e) then [] else full)
            && w'.pc == if WayOut(e) == M.Stay then M.Selecting else M.Gone(WayOut(e))
  {
    SelectBegins(c, w, e);
  }

  // The worker after the flush it has begun, if any, ran to its end.
  function Settled(w: M.Worker, ok: bool): M.Worker {
    if w.pc.Flushing? then
      M.EndFlush(w.(flushed := w.flushed + [M.Flush(w.batch, ok)]), w.pc.exit)
    else w
  }

  function Turn(c: M.Config, w: M.Worker, e: Event, ok: bool): M.Worker
    requires w.pc.Selecting?
  {
    Settled(M.WorkerAfter(c, w, Act(e), Taken(e)), ok)
  }

  // Turn by turn, until one leaves the loop.
  function Turns(c: M.Config, w: M.Worker, events: seq<Event>, answers: seq<bool>): M.Worker
    requires |answers| == |events|
  {
    if events == [] then w
    else
      var n := |events| - 1;
      var before := Turns(c, w, events[..n], answers[..n]);
      if before.pc.Selecting? then Turn(c, before, events[n], answers[n]) else before
  }

  lemma TurnsNext(c: M.Config, w: M.Worker, events: seq<Event>, answers: seq<bool>, k: nat)
    requires |answers| == |events| && k < |events|
    ensures var before := Turns(c, w, events[..k], answers[..k]);
            Turns(c, w, events[..k + 1], answers[..k + 1])
            == if before.pc.Selecting? then Turn(c, before, events[k], answers[k]) else before
  {
    assert events[..k + 1][..k] == events[..k] && answers[..k + 1][..k] == answers[..k];
  }

  // The state after the flush of worker `w` ran to its end.
  function Flushed(c: M.Config, s: M.State, w: nat, ok: bool): M.State
    requires M.ValidConfig(c) && w < |s.workers|
  {
    var b := s.workers[w].batch;
    var settled := s.(workers := s.workers[w := Settled(s.workers[w], ok)]);
    if ok then settled.(batches := s.batches + 1, written := s.written + |b|)
    else
      var refused := settled.(writeErrors := s.writeErrors + 1);
      if !c.lettersOn then refused
      else refused.(letters := PushAll(s.letters, b, c.letterCap), deadLetters := s.deadLetters + |b|)
  }

  // Uninterrupted, the machine's write, counting and dead-letter actions do what
  // `flush` does: on success the counters move, on refusal every point of the
  // batch becomes a dead letter, in order, if a dead-letter sink is configured.
  lemma FlushIsARun(c: M.Config, s: M.State, w: nat, ok: bool) returns (run: seq<M.Step>)
    requires M.ValidConfig(c)
    requires w < |s.workers| && s.workers[w].pc.Flushing? && !s.sinkClosed
    ensures M.Exec(c, s, run) == M.Some(Flushed(c, s, w, ok))
  {
    var a, s1 := HandOver(c, s, w, ok);
    var rest := FlushRest(c, s, s1, w, ok);
    hide *;
    M.ExecCons(c, s, a, rest);
    run := [a] + rest;
  }

  lemma FlushRest(c: M.Config, s: M.State, s1: M.State, w: nat, ok: bool) returns (run: seq<M.Step>)
    requires M.ValidConfig(c) && w < |s.workers| && w < |s1.workers|
    requires s1 == s.(workers := s1.workers, writeErrors := s.writeErrors + if ok then 0 else 1)
    requires s1.workers[w].batch == s.workers[w].batch
    requires if ok then s1.workers[w].pc.Committed? else s1.workers[w].pc.Failing? && s1.workers[w].pc.put == 0
    requires s1.workers[w := M.EndFlush(s1.workers[w], s1.workers[w].pc.exit)]
          == s.workers[w := Settled(s.workers[w], ok)]
    ensures M.Exec(c, s1, run) == M.Some(Flushed(c, s, w, ok))
  {
    if ok {
      run := CountRest(c, s1, w);
    } else if c.lettersOn {
      run := PutRest(c, s1, w);
      assert s1.workers[w].batch[0..] == s1.workers[w].batch;
    } else {
      run := DropRest(c, s1, w);
    }
    hide M.Exec, M.EndFlush, Settled, M.ValidConfig, PushAll;
  }

  lemma DropRest(c: M.Config, s: M.State, w: nat) returns (run: seq<M.Step>)
    requires M.ValidConfig(c) && !c.lettersOn && w < |s.workers| && s.workers[w].pc.Failing?
    ensures var me := s.workers[w];
            M.Exec(c, s, run) == M.Some(s.(workers := s.workers[w := M.EndFlush(me, me.pc.exit)]))
  {
    var me := s.workers[w];
    var a := M.WorkerStep(w, M.EndFailed);
    assert M.Enabled(c, s, a) && M.Do(c, s, a) == s.(workers := s.workers[w := M.EndFlush(me, me.pc.exit)]);
    hide M.Do, M.Enabled;
    M.ExecCons(c, s, a, []);
    run := [a] + [];
  }

  lemma HandOver(c: M.Config, s: M.State, w: nat, ok: bool) returns (a: M.Step, s1: M.State)
    requires M.ValidConfig(c)
    requires w < |s.workers| && s.workers[w].pc.Flushing? && !s.sinkClosed
    ensures var me := s.workers[w];
            && M.Enabled(c, s, a) && M.Do(c, s, a) == s1
            && s1 == s.(workers := s.workers[w := M.Handed(me, ok)],
                        writeErrors := s.writeErrors + if ok then 0 else 1)
            && s1.workers[w].batch == me.batch
            && (if ok then s1.workers[w].pc.Committed? else s1.workers[w].pc.Failing? && s1.workers[w].pc.put == 0)
            && s1.workers[w := M.EndFlush(s1.workers[w], s1.workers[w].pc.exit)]
               == s.workers[w := Settled(me, ok)]
  {
    var me := s.workers[w];
    a := M.WorkerStep(w, if ok then M.WriteOk else M.WriteFails);
    s1 := s.(workers := s.workers[w := M.Handed(me, ok)], writeErrors := s.writeErrors + if ok then 0 else 1);
  }

  lemma CountRest(c: M.Config, s: M.State, w: nat) returns (run: seq<M.Step>)
    requires M.ValidConfig(c) && w < |s.workers| && s.workers[w].pc.Committed?
    ensures var me := s.workers[w];
            M.Exec(c, s, run) == M.Some(
              s.(workers := s.workers[w := M.EndFlush(me, me.pc.exit)],
                 batches := s.batches + 1, written := s.written + |me.batch|))
  {
    var me := s.workers[w];
    var (a, b) := (M.WorkerStep(w, M.CountBatch), M.WorkerStep(w, M.CountWritten));
    var s1 := s.(workers := s.workers[w := me.(pc := M.BatchCounted(me.pc.exit))], batches := s.batches + 1);
    var s2 := s.(workers := s.workers[w := M.EndFlush(me, me.pc.exit)],
                 batches := s.batches + 1, written := s.written + |me.batch|);
    assert M.Enabled(c, s, a) && M.Do(c, s, a) == s1;
    assert s1.workers[w := M.EndFlush(me, me.pc.exit)] == s.workers[w := M.EndFlush(me, me.pc.exit)];
    assert M.Enabled(c, s1, b) && M.Do(c, s1, b) == s2;
    hide M.Do, M.Enabled;
    M.ExecCons(c, s1, b, []);
    M.ExecCons(c, s, a, [b] + []);
    run := [a] + ([b] + []);
  }

  lemma PushAllFirst<T>(items: seq<T>, d: T, ds: seq<T>, cap: nat)
    requires cap > 0
    ensures PushAll(items, [d] + ds, cap) == PushAll(Push(items, d, cap), ds, cap)
  {
    if ds == [] {
      assert [d] + ds == [d] && [d][..0] == [];
    } else {
      var n := |ds| - 1;
      PushAllFirst(items, d, ds[..n], cap);
      assert ([d] + ds)[..n + 1] == [d] + ds[..n];
    }
  }

  lemma PutOne(c: M.Config, s: M.State, w: nat) returns (s1: M.State)
    requires M.ValidConfig(c) && c.lettersOn
    requires w < |s.workers| && s.workers[w].pc.Failing? && s.workers[w].pc.put < |s.workers[w].batch|
    ensures var me := s.workers[w]; var a := M.WorkerStep(w, M.PutLetter);
            && M.Enabled(c, s, a) && M.Do(c, s, a) == s1
            && s1 == s.(workers := s.workers[w := me.(pc := M.Failing(me.pc.exit, me.pc.put + 1))],
                        letters := Push(s.letters, me.batch[me.pc.put], c.letterCap),
                        deadLetters := s.deadLetters + 1)
            && s1.workers[w := M.EndFlush(s1.workers[w], me.pc.exit)] == s.workers[w := M.EndFlush(me, me.pc.exit)]
  {
    s1 := M.Do(c, s, M.WorkerStep(w, M.PutLetter));
  }

  lemma PutNone(c: M.Config, s: M.State, w: nat)
    requires M.ValidConfig(c) && c.lettersOn
    requires w < |s.workers| && s.workers[w].pc.Failing? && s.workers[w].pc.put == |s.workers[w].batch|
    ensures var me := s.workers[w]; var a := M.WorkerStep(w, M.EndFailed);
            M.Enabled(c, s, a) && M.Do(c, s, a) == s.(workers := s.workers[w := M.EndFlush(me, me.pc.exit)])
  {
  }

  lemma {:induction false} PutRest(c: M.Config, s: M.State, w: nat) returns (run: seq<M.Step>)
    requires M.ValidConfig(c) && c.lettersOn
    requires w < |s.workers| && s.workers[w].pc.Failing? && s.workers[w].pc.put <= |s.workers[w].batch|
    ensures var (me, k) := (s.workers[w], s.workers[w].pc.put);
            M.Exec(c, s, run) == M.Some(
              s.(workers := s.workers[w := M.EndFlush(me, me.pc.exit)],
                 letters := PushAll(s.letters, me.batch[k..], c.letterCap),
                 deadLetters := s.deadLetters + (|me.batch| - k)))
    decreases |s.workers[w].batch| - s.workers[w].pc.put
  {
    var (me, k) := (s.workers[w], s.workers[w].pc.put);
    hide M.Do, M.Enabled, Push;
    if k == |me.batch| {
      PutNone(c, s, w);
      M.ExecCons(c, s, M.WorkerStep(w, M.EndFailed), []);
      run := [M.WorkerStep(w, M.EndFailed)] + [];
      assert me.batch[k..] == [];
    } else {
      var s1 := PutOne(c, s, w);
      var rest := PutRest(c, s1, w);
      run := [M.WorkerStep(w, M.PutLetter)] + rest;
      M.ExecCons(c, s, M.WorkerStep(w, M.PutLetter), rest);
      assert me.batch[k..] == [me.batch[k]] + me.batch[k + 1..];
      PushAllFirst(s.letters, me.batch[k], me.batch[k + 1..], c.letterCap);
    }
  }

  // ---- The goroutine -------------------------------------------------------

  function Letters(points: seq<DataPoint>, error: string): seq<DeadLetter> {
    if points == [] then []
    else Letters(points[..|points| - 1], error) + [DeadLetter(points[|points| - 1], error)]
  }

  // One letter for each point, in order, with the sink's error.
  lemma {:induction false} LettersTell(points: seq<DataPoint>, error: string)
    ensures |Letters(points, error)| == |points|
    ensures forall i :: 0 <= i < |points| ==> Letters(points, error)[i] == DeadLetter(points[i], error)
  {
    if points != [] { LettersTell(points[..|points| - 1], error); }
  }

  class WorkerLoop {
    const config: M.Config
    const reg: Registry
    const dead: DeadLetterSink?
    var batch: seq<DataPoint>
    var exited: M.Exit
    // The sink's record of the batches it was handed, and its answers.
    var writes: seq<M.Flush>

    ghost predicate Valid()
      reads this
    {
      M.ValidConfig(config) && (dead != null ==> dead.cap > 0) && |batch| < config.batchSize
      && (exited != M.Stay ==> batch == [])
    }

    ghost function View(): M.Worker
      reads this
    {
      M.Worker(if exited == M.Stay then M.Selecting else M.Gone(exited), batch, writes)
    }

    // How far the counters are from what the sink accepted and refused.
    ghost function WrittenGap(): int
      reads `writes, reg`written
    {
      reg.written - M.Accepted(writes, true)
    }

    ghost function LetterGap(): int
      requires dead != null && dead.reg != null
      reads `writes, dead.reg`deadLetters
    {
      dead.reg.deadLetters - M.Accepted(writes, false)
    }

    ghost function Footprint(): set<object> {
      {this as object, reg} + (if dead == null then {} else {dead as object})
      + (if dead == null || dead.reg == null then {} else {dead.reg as object})
    }

    constructor (config: M.Config, reg: Registry, dead: DeadLetterSink?)
      requires M.ValidConfig(config) && (dead != null ==> dead.cap > 0)
      ensures Valid() && View() == M.Worker(M.Selecting, [], [])
      ensures this.config == config && this.reg == reg && this.dead == dead
    {
      this.config, this.reg, this.dead := config, reg, dead;
      batch, exited, writes := [], M.Stay, [];
    }

    // Pipeline.flush: the sink's answer is `ok`.
    method WriteBatch(points: seq<DataPoint>, ok: bool, error: string)
      requires dead != null ==> dead.cap > 0
      modifies Footprint()
      ensures writes == old(writes) + [M.Flush(points, ok)]
      ensures batch == old(batch) && exited == old(exited)
      ensures reg.batches == old(reg.batches) + (if ok then 1 else 0)
      ensures reg.written == old(reg.written) + (if ok then |points| else 0)
      ensures reg.writeErrors == old(reg.writeErrors) + (if ok then 0 else 1)
      ensures reg.ingested == old(reg.ingested)
      ensures dead != null ==> dead.items == if ok then old(dead.items)
                                            else PushAll(old(dead.items), Letters(points, error), dead.cap)
      ensures dead != null && dead.reg != null ==>
                dead.reg.deadLetters == old(dead.reg.deadLetters) + (if ok then 0 else |points|)
    {
      writes := writes + [M.Flush(points, ok)];
      if !ok {
        reg.IncWriteErrors(1);
        if dead != null {
          DeadLetterAll(points, error);
        }
        return;
      }
      reg.IncBatches(1);
      reg.IncWritten(|points|);
    }

    method DeadLetterAll(points: seq<DataPoint>, error: string)
      requires dead != null && dead.cap > 0
      modifies dead`items, (if dead.reg == null then {} else {dead.reg})`deadLetters
      ensures dead.items == PushAll(old(dead.items), Letters(points, error), dead.cap)
      ensures dead.reg != null ==> dead.reg.deadLetters == old(dead.reg.deadLetters) + |points|
    {
      for i := 0 to |points|
        invariant dead.items == PushAll(old(dead.items), Letters(points[..i], error), dead.cap)
        invariant dead.reg != null ==> dead.reg.deadLetters == old(dead.reg.deadLetters) + i
      {
        dead.Put(DeadLetter(points[i], error));
        assert points[..i + 1][..i] == points[..i];
        var ls := Letters(points[..i + 1], error);
        assert ls[..|ls| - 1] == Letters(points[..i], error);
      }
      assert points[..|points|] == points;
    }

    // The `flush` closure: an empty batch is not written.
    method Flush(ok: bool, error: string)
      requires dead != null ==> dead.cap > 0
      modifies Footprint()
      ensures batch == [] && exited == old(exited)
      ensures writes == old(writes) + if old(batch) == [] then [] else [M.Flush(old(batch), ok)]
      ensures reg.ingested == old(reg.ingested)
      ensures reg.batches == old(reg.batches) + (if ok && old(batch) != [] then 1 else 0)
      ensures reg.writeErrors == old(reg.writeErrors) + (if !ok && old(batch) != [] then 1 else 0)
      ensures dead != null ==> dead.items == if ok || old(batch) == [] then old(dead.items)
                                            else PushAll(old(dead.items), Letters(old(batch), error), dead.cap)
      ensures WrittenGap() == old(WrittenGap())
      ensures dead != null && dead.reg != null ==> LetterGap() == old(LetterGap())
    {
      if |batch| == 0 {
        return;
      }
      AcceptedSnoc(writes, M.Flush(batch, ok));
      WriteBatch(batch, ok, error);
      batch := [];
    }

    // One iteration of the worker's `for`; `ok` answers the write it may make.
    // The batch is written exactly when it is full or the wait ended otherwise, and it
    // is not empty.
    method Iterate(e: Event, ok: bool, error: string)
      requires Valid() && exited == M.Stay
      modifies Footprint()
      ensures Valid() && View() == Turn(config, old(View()), e, ok)
      ensures var full := old(batch) + Taken(e);
              var due := full != [] && (!e.Got? || |full| >= config.batchSize);
              && writes == old(writes) + (if due then [M.Flush(full, ok)] else [])
              && batch == (if due then [] else full)
              && reg.batches == old(reg.batches) + (if due && ok then 1 else 0)
              && reg.writeErrors == old(reg.writeErrors) + (if due && !ok then 1 else 0)
              && reg.ingested == old(reg.ingested)
              && (dead != null ==> dead.items == if !due || ok then old(dead.items)
                                                else PushAll(old(dead.items), Letters(full, error), dead.cap))
      ensures exited == if e.BusClosed? then M.ByClose else if e.Cancelled? then M.ByCancel else M.Stay
      ensures WrittenGap() == old(WrittenGap())
      ensures dead != null && dead.reg != null ==> LetterGap() == old(LetterGap())
    {
      assert !e.Got? ==> batch + Taken(e) == batch;
      TurnWrites(config, View(), e, ok);
      hide M.Accepted, Turn, PushAll, Letters;
      match e {
        case Got(p) =>
          batch := batch + [p];
          if |batch| >= config.batchSize {
            Flush(ok, error);
          }
        case BusClosed =>
          Flush(ok, error);
          exited := M.ByClose;
        case TimedOut =>
          Flush(ok, error);
        case Cancelled =>
          Flush(ok, error);
          exited := M.ByCancel;
      }
    }

    // The goroutine: iterations until one leaves the loop or the events end. Each
    // point received is in exactly one write, in order, or in the pending batch; the
    // counters grow by the points the sink accepted and refused.
    method Run(events: seq<Event>, answers: seq<bool>, error: string) returns (used: nat)
      requires Valid() && exited == M.Stay && |answers| == |events|
      modifies Footprint()
      ensures Valid() && used <= |events|
      ensures used < |events| ==> exited != M.Stay
      ensures View() == Turns(config, old(View()), events[..used], answers[..used])
      ensures M.Stream(View()) == old(M.Stream(View())) + PointsOf(events[..used])
      ensures exited != M.Stay ==> M.Points(writes) == old(M.Stream(View())) + PointsOf(events[..used])
      ensures WrittenGap() == old(WrittenGap())
      ensures dead != null && dead.reg != null ==> LetterGap() == old(LetterGap())
    {
      used := 0;
      ghost var start := View();
      hide M.Stream, M.Points, M.Accepted, Turn, Turns, PointsOf, PushAll, Letters, Taken;
      RunStarts(config, start, events, answers);
      while used < |events| && exited == M.Stay
        invariant Valid() && used <= |events|
        invariant View() == Turns(config, start, events[..used], answers[..used])
        invariant M.Stream(View()) == M.Stream(start) + PointsOf(events[..used])
        invariant WrittenGap() == old(WrittenGap())
        invariant dead != null && dead.reg != null ==> LetterGap() == old(LetterGap())
      {
        ghost var w := View();
        Iterate(events[used], answers[used], error);
        StreamNext(config, w, events, used, answers[used], M.Stream(start));
        TurnsNext(config, start, events, answers, used);
        used := used + 1;
      }
      if exited != M.Stay { GoneStream(View()); }
    }
  }

  lemma AcceptedSnoc(fs: seq<M.Flush>, f: M.Flush)
    ensures forall ok :: M.Accepted(fs + [f], ok) == M.Accepted(fs, ok) + if f.ok == ok then |f.points| else 0
  {
    assert (fs + [f])[..|fs|] == fs;
  }

  function PointsOf(events: seq<Event>): seq<DataPoint> {
    if events == [] then [] else PointsOf(events[..|events| - 1]) + Taken(events[|events| - 1])
  }

  lemma SettledStream(w: M.Worker, ok: bool)
    ensures M.Stream(Settled(w, ok)) == M.Stream(w)
  {
    if w.pc.Flushing? {
      var f := M.Flush(w.batch, ok);
      assert (w.flushed + [f])[..|w.flushed|] == w.flushed;
      assert M.Points(w.flushed + [f]) == M.Points(w.flushed) + w.batch;
      hide M.Points;
    }
  }

  lemma TurnStream(c: M.Config, w: M.Worker, e: Event, ok: bool)
    requires M.ValidConfig(c) && w.pc.Selecting? && |w.batch| < c.batchSize
    ensures M.Stream(Turn(c, w, e, ok)) == M.Stream(w) + Taken(e)
  {
    hide M.Points;
    var w' := M.WorkerAfter(c, w, Act(e), Taken(e));
    assert M.Points(w.flushed) + (w.batch + Taken(e)) == M.Points(w.flushed) + w.batch + Taken(e);
    assert M.Stream(w') == M.Stream(w) + Taken(e);
    SettledStream(w', ok);
  }

  lemma RunStarts(c: M.Config, w: M.Worker, events: seq<Event>, answers: seq<bool>)
    requires |answers| == |events|
    ensures Turns(c, w, events[..0], answers[..0]) == w && M.Stream(w) == M.Stream(w) + PointsOf(events[..0])
  {
    hide M.Stream;
  }

  lemma StreamNext(c: M.Config, w: M.Worker, events: seq<Event>, k: nat, ok: bool, before: seq<DataPoint>)
    requires M.ValidConfig(c) && w.pc.Selecting? && |w.batch| < c.batchSize
    requires k < |events| && M.Stream(w) == before + PointsOf(events[..k])
    ensures M.Stream(Turn(c, w, events[k], ok)) == before + PointsOf(events[..k + 1])
  {
    hide M.Stream, Turn;
    TurnStream(c, w, events[k], ok);
    assert events[..k + 1][..k] == events[..k];
    var got := PointsOf(events[..k]);
    assert PointsOf(events[..k + 1]) == got + Taken(events[k]);
    hide PointsOf, Taken;
    assert before + got + Taken(events[k]) == before + (got + Taken(events[k]));
  }

  lemma GoneStream(w: M.Worker)
    requires w.pc.Gone?
    ensures M.Stream(w) == M.Points(w.flushed)
  {
  }
}
