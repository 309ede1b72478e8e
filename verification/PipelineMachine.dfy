// The ingest pipeline as a state machine: every goroutine of `Run` takes one
// atomic action at a time, in any order (go-telemetry/internal/pipeline/pipeline.go).
module PipelineMachine {
  import opened Sequences
  import opened Point
  import opened Metrics

  // The configuration as `New` leaves it: every size is positive.
  datatype Config = Config(buffer: nat, workers: nat, batchSize: nat, sources: nat,
                           lettersOn: bool, letterCap: nat)

  ghost predicate ValidConfig(c: Config) {
    c.buffer > 0 && c.workers > 0 && c.batchSize > 0 && c.letterCap > 0
  }

  // A size as given, or its default if it is not positive.
  predicate Defaulted(given: int, default: nat, taken: nat) {
    taken == if given > 0 then given else default
  }

  // `New`: positive sizes are kept, others take their defaults.
  function New(buffer: int, workers: int, batchSize: int, sources: nat,
               lettersOn: bool, letterCap: int): (c: Config)
    ensures ValidConfig(c) && c.sources == sources && c.lettersOn == lettersOn
    ensures Defaulted(buffer, 65536, c.buffer) && Defaulted(workers, 4, c.workers)
    ensures Defaulted(batchSize, 4096, c.batchSize) && Defaulted(letterCap, 1024, c.letterCap)
  {
    Config(if buffer <= 0 then 65536 else buffer, if workers <= 0 then 4 else workers,
           if batchSize <= 0 then 4096 else batchSize, sources,
           lettersOn, if letterCap <= 0 then 1024 else letterCap)
  }

  // A source waits for its ticker, forwards a poll point by point, and counts
  // each send after it happened.
  datatype Source = Idle | Sending(rest: seq<DataPoint>) | Counting(rest: seq<DataPoint>) | Stopped

  // What a worker does once the flush in progress is over.
  datatype Exit = Stay | ByClose | ByCancel

  datatype Pc = Selecting | Flushing(exit: Exit) | Committed(exit: Exit) | BatchCounted(exit: Exit)
              | Failing(exit: Exit, put: nat) | Gone(how: Exit)

  // A batch as the sink received it, and whether the sink accepted it.
  datatype Flush = Flush(points: seq<DataPoint>, ok: bool)

  datatype Worker = Worker(pc: Pc, batch: seq<DataPoint>, flushed: seq<Flush>)

  // Where `Run` itself stands.
  datatype Main = AwaitCancel | AwaitSources | ClosingBus | AwaitWorkers | ClosingSink | Returned

  // `sent` and `owner` record the order of sends and which worker received each
  // point that left the bus.
  datatype State = State(
    sources: seq<Source>, workers: seq<Worker>, main: Main,
    bus: seq<DataPoint>, closed: bool, cancelled: bool, sinkClosed: bool,
    letters: seq<DataPoint>,
    ingested: nat, written: nat, batches: nat, writeErrors: nat, deadLetters: nat,
    panicked: bool, lateWrite: bool,
    sent: seq<DataPoint>, owner: seq<nat>)

  function Init(c: Config): State {
    State(seq(c.sources, _ => Idle), seq(c.workers, _ => Worker(Selecting, [], [])), AwaitCancel,
          [], false, false, false, [], 0, 0, 0, 0, 0, false, false, [], [])
  }

  // One turn of a source's select statements, and the count after a send.
  datatype SourceAct = Poll(pts: seq<DataPoint>) | PollFails | Quit | Send | CountSend

  // One turn of a worker's select statement, and the stages of a flush.
  datatype WorkerAct = Receive | TimerFires | SeesClosed | SeesDone
                     | WriteOk | WriteFails | CountBatch | CountWritten | PutLetter | EndFailed

  datatype Step = SourceStep(i: nat, sa: SourceAct) | WorkerStep(w: nat, wa: WorkerAct)
                | DrainLetters | Cancel | MainStep

  predicate AllStopped(sources: seq<Source>) { forall i :: 0 <= i < |sources| ==> sources[i].Stopped? }

  predicate AllGone(workers: seq<Worker>) { forall w :: 0 <= w < |workers| ==> workers[w].pc.Gone? }

  // ---- Sources -------------------------------------------------------------

  predicate SourceCan(src: Source, a: SourceAct) {
    match a
    case Poll(_) => src.Idle?
    case PollFails => src.Idle?
    case Quit => src.Idle? || src.Sending?
    case Send => src.Sending? && src.rest != []
    case CountSend => src.Counting?
  }

  // The source after it has something, or nothing, left to forward.
  function Forward(rest: seq<DataPoint>): Source { if rest == [] then Idle else Sending(rest) }

  function SourceAfter(src: Source, a: SourceAct): Source
    requires SourceCan(src, a)
  {
    match a
    case Poll(pts) => Forward(pts)
    case PollFails => Idle
    case Quit => Stopped
    case Send => Counting(src.rest[1..])
    case CountSend => Forward(src.rest)
  }

  function Output(src: Source, a: SourceAct): seq<DataPoint>
    requires SourceCan(src, a)
  {
    if a.Send? then [src.rest[0]] else []
  }

  // Quit needs the cancelled context; Send needs room, or panics on a closed bus.
  predicate SourceMay(c: Config, s: State, i: nat, a: SourceAct) {
    && i < |s.sources| && SourceCan(s.sources[i], a)
    && (a.Quit? ==> s.cancelled)
    && (a.Send? ==> s.closed || |s.bus| < c.buffer)
  }

  function SourceDo(c: Config, s: State, i: nat, a: SourceAct): State
    requires SourceMay(c, s, i, a)
  {
    if a.Send? && s.closed then s.(panicked := true)
    else
      var out := Output(s.sources[i], a);
      s.(sources := s.sources[i := SourceAfter(s.sources[i], a)],
         bus := s.bus + out, sent := s.sent + out,
         ingested := s.ingested + if a.CountSend? then 1 else 0)
  }

  // ---- Workers -------------------------------------------------------------

  predicate WorkerCan(c: Config, w: Worker, a: WorkerAct) {
    match a
    case Receive => w.pc.Selecting?
    case TimerFires => w.pc.Selecting?
    case SeesClosed => w.pc.Selecting?
    case SeesDone => w.pc.Selecting?
    case WriteOk => w.pc.Flushing?
    case WriteFails => w.pc.Flushing?
    case CountBatch => w.pc.Committed?
    case CountWritten => w.pc.BatchCounted?
    case PutLetter => c.lettersOn && w.pc.Failing? && w.pc.put < |w.batch|
    case EndFailed => w.pc.Failing? && (!c.lettersOn || w.pc.put == |w.batch|)
  }

  // `flush` returns at once on an empty batch.
  function BeginFlush(w: Worker, exit: Exit): Worker {
    if w.batch == [] then EndFlush(w, exit) else w.(pc := Flushing(exit))
  }

  function EndFlush(w: Worker, exit: Exit): Worker {
    w.(batch := [], pc := if exit == Stay then Selecting else Gone(exit))
  }

  function Handed(w: Worker, ok: bool): Worker
    requires w.pc.Flushing?
  {
    w.(flushed := w.flushed + [Flush(w.batch, ok)],
       pc := if ok then Committed(w.pc.exit) else Failing(w.pc.exit, 0))
  }

  function WorkerAfter(c: Config, w: Worker, a: WorkerAct, input: seq<DataPoint>): Worker
    requires WorkerCan(c, w, a) && (a.Receive? <==> |input| == 1) && |input| <= 1
  {
    match a
    case Receive =>
      var w' := w.(batch := w.batch + input);
      if |w'.batch| >= c.batchSize then BeginFlush(w', Stay) else w'
    case TimerFires => BeginFlush(w, Stay)
    case SeesClosed => BeginFlush(w, ByClose)
    case SeesDone => BeginFlush(w, ByCancel)
    case WriteOk => Handed(w, true)
    case WriteFails => Handed(w, false)
    case CountBatch => w.(pc := BatchCounted(w.pc.exit))
    case CountWritten => EndFlush(w, w.pc.exit)
    case PutLetter => w.(pc := Failing(w.pc.exit, w.pc.put + 1))
    case EndFailed => EndFlush(w, w.pc.exit)
  }

  // A closed bus is seen only once it is empty; `ok` is true until then.
  predicate WorkerMay(c: Config, s: State, w: nat, a: WorkerAct) {
    && w < |s.workers| && WorkerCan(c, s.workers[w], a)
    && (a.Receive? ==> s.bus != [])
    && (a.SeesClosed? ==> s.closed && s.bus == [])
    && (a.SeesDone? ==> s.cancelled)
  }

  function Input(s: State, a: WorkerAct): seq<DataPoint>
    requires a.Receive? ==> s.bus != []
  {
    if a.Receive? then [s.bus[0]] else []
  }

  function WorkerDo(c: Config, s: State, w: nat, a: WorkerAct): State
    requires ValidConfig(c) && WorkerMay(c, s, w, a)
  {
    var me := s.workers[w];
    s.(workers := s.workers[w := WorkerAfter(c, me, a, Input(s, a))],
       bus := if a.Receive? then s.bus[1..] else s.bus,
       owner := if a.Receive? then s.owner + [w] else s.owner,
       lateWrite := s.lateWrite || (s.sinkClosed && (a.WriteOk? || a.WriteFails?)),
       writeErrors := s.writeErrors + if a.WriteFails? then 1 else 0,
       batches := s.batches + if a.CountBatch? then 1 else 0,
       written := s.written + if a.CountWritten? then |me.batch| else 0,
       letters := if a.PutLetter? then Push(s.letters, me.batch[me.pc.put], c.letterCap) else s.letters,
       deadLetters := s.deadLetters + if a.PutLetter? then 1 else 0)
  }

  // ---- Run -----------------------------------------------------------------

  predicate MainMay(s: State) {
    match s.main
    case AwaitCancel => s.cancelled
    case AwaitSources => AllStopped(s.sources)
    case AwaitWorkers => AllGone(s.workers)
    case Returned => false
    case _ => true
  }

  function MainDo(s: State): State
    requires MainMay(s)
  {
    match s.main
    case AwaitCancel => s.(main := AwaitSources)
    case AwaitSources => s.(main := ClosingBus)
    case ClosingBus => s.(main := AwaitWorkers, closed := true, panicked := s.panicked || s.closed)
    case AwaitWorkers => s.(main := ClosingSink)
    case ClosingSink => s.(main := Returned, sinkClosed := true)
  }

  // Which actions the select statements, channel and wait groups permit.
  predicate Enabled(c: Config, s: State, a: Step) {
    match a
    case SourceStep(i, sa) => SourceMay(c, s, i, sa)
    case WorkerStep(w, wa) => WorkerMay(c, s, w, wa)
    case DrainLetters => true
    case Cancel => true
    case MainStep => MainMay(s)
  }

  function Do(c: Config, s: State, a: Step): State
    requires ValidConfig(c) && Enabled(c, s, a)
  {
    match a
    case SourceStep(i, sa) => SourceDo(c, s, i, sa)
    case WorkerStep(w, wa) => WorkerDo(c, s, w, wa)
    case DrainLetters => s.(letters := [])
    case Cancel => s.(cancelled := true)
    case MainStep => MainDo(s)
  }

  datatype Option<T> = None | Some(value: T)

  // The state a sequence of actions leads to, if each was enabled in its turn.
  function Exec(c: Config, s: State, run: seq<Step>): Option<State>
    requires ValidConfig(c)
    decreases |run|
  {
    if run == [] then Some(s)
    else if !Enabled(c, s, run[0]) then None
    else Exec(c, Do(c, s, run[0]), run[1..])
  }

  // `s` is reached by some interleaving.
  ghost predicate Reached(c: Config, s: State)
    requires ValidConfig(c)
  {
    exists run :: Exec(c, Init(c), run) == Some(s)
  }

  lemma {:induction false} ExecConcat(c: Config, s: State, r1: seq<Step>, r2: seq<Step>)
    requires ValidConfig(c)
    requires Exec(c, s, r1).Some?
    ensures Exec(c, s, r1 + r2) == Exec(c, Exec(c, s, r1).value, r2)
    decreases |r1|
  {
    if r1 == [] {
      assert r1 + r2 == r2;
    } else {
      assert (r1 + r2)[1..] == r1[1..] + r2;
      ExecConcat(c, Do(c, s, r1[0]), r1[1..], r2);
    }
  }

  lemma ExecCons(c: Config, s: State, a: Step, run: seq<Step>)
    requires ValidConfig(c) && Enabled(c, s, a)
    ensures Exec(c, s, [a] + run) == Exec(c, Do(c, s, a), run)
  {
    hide Do, Enabled;
    assert ([a] + run)[1..] == run;
  }

  // ---- Accounts ------------------------------------------------------------

  function Points(fs: seq<Flush>): seq<DataPoint> {
    if fs == [] then [] else Points(fs[..|fs| - 1]) + fs[|fs| - 1].points
  }

  // Points a worker has received but not yet handed to the sink.
  function Held(w: Worker): seq<DataPoint> {
    if w.pc.Selecting? || w.pc.Flushing? then w.batch else []
  }

  // Everything a worker has received, in the order it passes it on.
  function Stream(w: Worker): seq<DataPoint> { Points(w.flushed) + Held(w) }

  function StreamLen(w: Worker): nat { |Stream(w)| }

  function Accepted(fs: seq<Flush>, ok: bool): nat {
    if fs == [] then 0
    else Accepted(fs[..|fs| - 1], ok) + if fs[|fs| - 1].ok == ok then |fs[|fs| - 1].points| else 0
  }

  function CommittedPoints(w: Worker): nat { Accepted(w.flushed, true) }

  function FailedPoints(w: Worker): nat { Accepted(w.flushed, false) }

  // Committed points not yet in the `written` counter.
  function Uncounted(w: Worker): nat {
    if w.pc.Committed? || w.pc.BatchCounted? then |w.batch| else 0
  }

  // Points of a failed batch not yet put into the dead-letter buffer.
  function Unput(w: Worker): nat {
    if w.pc.Failing? && w.pc.put <= |w.batch| then |w.batch| - w.pc.put else 0
  }

  function BatchLen(w: Worker): nat { |w.batch| }

  function InCount(src: Source): nat { if src.Counting? then 1 else 0 }

  // The received points of worker `w`, in order: those of `sent` that `owner` assigns to it.
  function Pick(sent: seq<DataPoint>, owner: seq<nat>, w: nat): seq<DataPoint>
    requires |owner| <= |sent|
  {
    if owner == [] then []
    else
      var n := |owner| - 1;
      Pick(sent, owner[..n], w) + if owner[n] == w then [sent[n]] else []
  }

  // ---- Invariants ----------------------------------------------------------

  ghost predicate WorkerOk(c: Config, w: Worker) {
    && |w.batch| <= c.batchSize
    && (forall i :: 0 <= i < |w.flushed| ==> 1 <= |w.flushed[i].points| <= c.batchSize)
    && (w.pc.Selecting? ==> |w.batch| < c.batchSize)
    && (w.pc.Gone? <==> !w.pc.Selecting? && w.batch == [])
    && (w.pc.Failing? ==> w.pc.put <= |w.batch|)
    && (w.pc.Gone? ==> w.pc.how != Stay)
  }

  // The way out a worker is taking or has taken.
  function Leaving(w: Worker): Exit {
    match w.pc
    case Selecting => Stay
    case Gone(how) => how
    case _ => w.pc.exit
  }

  ghost predicate Shape(c: Config, s: State) {
    && |s.sources| == c.sources && |s.workers| == c.workers
    && |s.bus| <= c.buffer && |s.letters| <= c.letterCap
    && (forall w :: 0 <= w < |s.workers| ==> WorkerOk(c, s.workers[w]))
    && (forall i :: 0 <= i < |s.sources| && s.sources[i].Sending? ==> s.sources[i].rest != [])
  }

  ghost predicate Phases(s: State) {
    && !s.panicked && !s.lateWrite
    && (s.closed <==> s.main in {AwaitWorkers, ClosingSink, Returned})
    && (s.sinkClosed <==> s.main == Returned)
    && (s.main != AwaitCancel ==> s.cancelled)
    && (s.main !in {AwaitCancel, AwaitSources} ==> AllStopped(s.sources))
    && (s.main in {ClosingSink, Returned} ==> AllGone(s.workers))
    && (forall w :: 0 <= w < |s.workers| && Leaving(s.workers[w]) == ByClose ==> s.closed && s.bus == [])
    && (forall w :: 0 <= w < |s.workers| && Leaving(s.workers[w]) == ByCancel ==> s.cancelled)
  }

  // The bus holds the end of the send order; what left it is split among the workers.
  ghost predicate Order(workers: seq<Worker>, bus: seq<DataPoint>, sent: seq<DataPoint>, owner: seq<nat>) {
    && |owner| + |bus| == |sent|
    && bus == sent[|owner|..]
    && (forall i :: 0 <= i < |owner| ==> owner[i] < |workers|)
    && (forall w :: 0 <= w < |workers| ==> Stream(workers[w]) == Pick(sent, owner, w))
  }

  // Counters against what the workers did; `received` is how many points left the bus.
  ghost predicate Books(c: Config, workers: seq<Worker>, received: nat, written: nat, deadLetters: nat) {
    && Total(StreamLen, workers) == received
    && written + Total(Uncounted, workers) == Total(CommittedPoints, workers)
    && (if c.lettersOn then deadLetters + Total(Unput, workers) == Total(FailedPoints, workers)
        else deadLetters == 0)
  }

  ghost predicate Inv(c: Config, s: State) {
    && Shape(c, s) && Phases(s)
    && Order(s.workers, s.bus, s.sent, s.owner)
    && Books(c, s.workers, |s.owner|, s.written, s.deadLetters)
    && s.ingested + Total(InCount, s.sources) == |s.sent|
  }
}
