// What every interleaving of the ingest pipeline keeps.
module PipelineSafety {
  import opened Sequences
  import opened Point
  import opened PipelineMachine

  lemma InitInv(c: Config)
    requires ValidConfig(c)
    ensures Inv(c, Init(c))
  {
    var s := Init(c);
    TotalZero(InCount, s.sources);
    TotalZero(StreamLen, s.workers);
    TotalZero(Uncounted, s.workers);
    TotalZero(CommittedPoints, s.workers);
    TotalZero(FailedPoints, s.workers);
    TotalZero(Unput, s.workers);
  }

  // ---- One worker ----------------------------------------------------------

  lemma WorkerStaysOk(c: Config, w: Worker, a: WorkerAct, input: seq<DataPoint>)
    requires ValidConfig(c) && WorkerOk(c, w) && WorkerCan(c, w, a)
    requires |input| == if a.Receive? then 1 else 0
    ensures WorkerOk(c, WorkerAfter(c, w, a, input))
  {
  }

  // The way out changes only when the worker sees the closed bus or the cancelled context.
  lemma WayOut(c: Config, w: Worker, a: WorkerAct, input: seq<DataPoint>)
    requires ValidConfig(c) && WorkerOk(c, w) && WorkerCan(c, w, a)
    requires |input| == if a.Receive? then 1 else 0
    ensures var exit := Leaving(WorkerAfter(c, w, a, input));
            exit == Leaving(w) || (exit == ByClose && a.SeesClosed?) || (exit == ByCancel && a.SeesDone?)
            || exit == Stay
  {
  }

  lemma PointsSnoc(fs: seq<Flush>, f: Flush)
    ensures Points(fs + [f]) == Points(fs) + f.points
  {
    assert (fs + [f])[..|fs|] == fs;
  }

  // Only Receive adds to a worker's stream, and no action loses or reorders it.
  lemma StreamGrows(c: Config, w: Worker, a: WorkerAct, input: seq<DataPoint>)
    requires ValidConfig(c) && WorkerOk(c, w) && WorkerCan(c, w, a)
    requires |input| == if a.Receive? then 1 else 0
    ensures Stream(WorkerAfter(c, w, a, input)) == Stream(w) + input
  {
    PointsSnoc(w.flushed, Flush(w.batch, a.WriteOk?));
    hide Points;
    assert Points(w.flushed) + (w.batch + input) == Points(w.flushed) + w.batch + input;
  }

  // How many points an action of `w` moves through the books: counted as written,
  // put into the dead-letter buffer, accepted and refused by the sink.
  datatype Movement = Movement(counted: nat, put: nat, ok: nat, failed: nat)

  function Moves(w: Worker, a: WorkerAct): Movement {
    Movement(if a.CountWritten? then |w.batch| else 0, if a.PutLetter? then 1 else 0,
             if a.WriteOk? then |w.batch| else 0, if a.WriteFails? then |w.batch| else 0)
  }

  // Each worker's share of the books before and after.
  ghost predicate Moved(c: Config, w: Worker, w': Worker, input: nat, m: Movement) {
    && StreamLen(w') == StreamLen(w) + input
    && CommittedPoints(w') == CommittedPoints(w) + m.ok
    && FailedPoints(w') == FailedPoints(w) + m.failed
    && Uncounted(w') + m.counted == Uncounted(w) + m.ok
    && (if c.lettersOn then Unput(w') + m.put == Unput(w) + m.failed else m.put == 0)
  }

  lemma AcceptedSnoc(fs: seq<Flush>, f: Flush, ok: bool)
    ensures Accepted(fs + [f], ok) == Accepted(fs, ok) + if f.ok == ok then |f.points| else 0
  {
    assert (fs + [f])[..|fs|] == fs;
  }

  lemma WriteMoves(w: Worker, ok: bool)
    requires w.pc.Flushing?
    ensures CommittedPoints(Handed(w, ok)) == CommittedPoints(w) + if ok then |w.batch| else 0
    ensures FailedPoints(Handed(w, ok)) == FailedPoints(w) + if ok then 0 else |w.batch|
  {
    AcceptedSnoc(w.flushed, Flush(w.batch, ok), true);
    AcceptedSnoc(w.flushed, Flush(w.batch, ok), false);
    hide Accepted;
  }

  lemma SharesMove(c: Config, w: Worker, a: WorkerAct, input: seq<DataPoint>)
    requires ValidConfig(c) && WorkerOk(c, w) && WorkerCan(c, w, a)
    requires |input| == if a.Receive? then 1 else 0
    ensures Moved(c, w, WorkerAfter(c, w, a, input), |input|, Moves(w, a))
  {
    StreamGrows(c, w, a, input);
    hide Stream, Accepted, Points;
    if a.WriteOk? || a.WriteFails? {
      WriteMoves(w, a.WriteOk?);
    }
  }

  // ---- Order ---------------------------------------------------------------

  lemma {:induction false} PickSend(sent: seq<DataPoint>, owner: seq<nat>, w: nat, out: seq<DataPoint>)
    requires |owner| <= |sent|
    ensures Pick(sent + out, owner, w) == Pick(sent, owner, w)
  {
    if owner != [] {
      PickSend(sent, owner[..|owner| - 1], w, out);
    }
  }

  lemma PickReceive(sent: seq<DataPoint>, owner: seq<nat>, w: nat, v: nat)
    requires |owner| < |sent|
    ensures Pick(sent, owner + [v], w)
         == Pick(sent, owner, w) + if v == w then [sent[|owner|]] else []
  {
    assert (owner + [v])[..|owner|] == owner;
  }

  lemma OrderAfterSend(workers: seq<Worker>, bus: seq<DataPoint>, sent: seq<DataPoint>, owner: seq<nat>,
                       out: seq<DataPoint>)
    requires Order(workers, bus, sent, owner)
    ensures Order(workers, bus + out, sent + out, owner)
  {
    forall w | 0 <= w < |workers|
      ensures Stream(workers[w]) == Pick(sent + out, owner, w)
    {
      PickSend(sent, owner, w, out);
    }
  }

  lemma SourceKeepsInv(c: Config, s: State, i: nat, a: SourceAct)
    requires ValidConfig(c) && Inv(c, s) && SourceMay(c, s, i, a)
    ensures Inv(c, SourceDo(c, s, i, a))
  {
    assert !s.sources[i].Stopped? && !s.closed;
    OrderAfterSend(s.workers, s.bus, s.sent, s.owner, Output(s.sources[i], a));
    TotalUpdate(InCount, s.sources, i, SourceAfter(s.sources[i], a));
    hide Order, Books, WorkerOk, Total;
  }

  lemma WorkerKeepsShape(c: Config, s: State, w: nat, a: WorkerAct)
    requires ValidConfig(c) && Inv(c, s) && WorkerMay(c, s, w, a)
    ensures Shape(c, WorkerDo(c, s, w, a))
  {
    WorkerStaysOk(c, s.workers[w], a, Input(s, a));
    hide WorkerAfter, WorkerCan, WorkerOk;
  }

  lemma WorkerKeepsPhases(c: Config, s: State, w: nat, a: WorkerAct)
    requires ValidConfig(c) && Inv(c, s) && WorkerMay(c, s, w, a)
    ensures Phases(WorkerDo(c, s, w, a))
  {
    assert WorkerOk(c, s.workers[w]);
    WayOut(c, s.workers[w], a, Input(s, a));
    assert !s.workers[w].pc.Gone?;
    hide WorkerAfter, WorkerCan, WorkerOk;
  }

  // A worker that takes `input` from the head of the bus, or nothing.
  lemma OrderAfter(workers: seq<Worker>, bus: seq<DataPoint>, sent: seq<DataPoint>, owner: seq<nat>,
                   w: nat, w': Worker, input: seq<DataPoint>)
    requires Order(workers, bus, sent, owner) && w < |workers|
    requires input == [] || (bus != [] && input == [bus[0]])
    requires Stream(w') == Stream(workers[w]) + input
    ensures Order(workers[w := w'], bus[|input|..], sent, owner + if input == [] then [] else [w])
  {
    if input == [] {
      assert bus[0..] == bus && owner + [] == owner;
    } else {
      forall v | 0 <= v < |workers|
        ensures Stream(workers[w := w'][v]) == Pick(sent, owner + [w], v)
      {
        PickReceive(sent, owner, v, w);
      }
    }
  }

  lemma WorkerKeepsOrder(c: Config, s: State, w: nat, a: WorkerAct)
    requires ValidConfig(c) && Inv(c, s) && WorkerMay(c, s, w, a)
    ensures var s' := WorkerDo(c, s, w, a); Order(s'.workers, s'.bus, s'.sent, s'.owner)
  {
    var input := Input(s, a);
    assert WorkerOk(c, s.workers[w]);
    StreamGrows(c, s.workers[w], a, input);
    OrderAfter(s.workers, s.bus, s.sent, s.owner, w, WorkerAfter(c, s.workers[w], a, input), input);
    hide WorkerAfter, WorkerCan, Order, Books, Shape, Phases;
    assert s.bus[0..] == s.bus && s.owner + [] == s.owner;
  }

  lemma BooksAfter(c: Config, workers: seq<Worker>, received: nat, written: nat, deadLetters: nat,
                   w: nat, w': Worker, input: nat, m: Movement)
    requires Books(c, workers, received, written, deadLetters) && w < |workers|
    requires Moved(c, workers[w], w', input, m)
    ensures Books(c, workers[w := w'], received + input, written + m.counted, deadLetters + m.put)
  {
    UpdateTotals(workers, w, w');
    hide StreamLen, CommittedPoints, FailedPoints, Uncounted, Unput, Total;
  }

  lemma DoMoves(c: Config, s: State, w: nat, a: WorkerAct)
    requires ValidConfig(c) && WorkerMay(c, s, w, a)
    ensures var s' := WorkerDo(c, s, w, a); var m := Moves(s.workers[w], a);
            && s'.workers == s.workers[w := WorkerAfter(c, s.workers[w], a, Input(s, a))]
            && |s'.owner| == |s.owner| + |Input(s, a)|
            && s'.written == s.written + m.counted && s'.deadLetters == s.deadLetters + m.put
  {
    hide WorkerAfter;
  }

  lemma WorkerKeepsBooks(c: Config, s: State, w: nat, a: WorkerAct)
    requires ValidConfig(c) && WorkerMay(c, s, w, a) && WorkerOk(c, s.workers[w])
    requires Books(c, s.workers, |s.owner|, s.written, s.deadLetters)
    ensures var s' := WorkerDo(c, s, w, a); Books(c, s'.workers, |s'.owner|, s'.written, s'.deadLetters)
  {
    var (me, input) := (s.workers[w], Input(s, a));
    SharesMove(c, me, a, input);
    DoMoves(c, s, w, a);
    hide *;
    BooksAfter(c, s.workers, |s.owner|, s.written, s.deadLetters, w, WorkerAfter(c, me, a, input),
               |input|, Moves(me, a));
  }

  lemma UpdateTotals(ws: seq<Worker>, i: nat, w: Worker)
    requires i < |ws|
    ensures Total(StreamLen, ws[i := w]) + StreamLen(ws[i]) == Total(StreamLen, ws) + StreamLen(w)
    ensures Total(Uncounted, ws[i := w]) + Uncounted(ws[i]) == Total(Uncounted, ws) + Uncounted(w)
    ensures Total(Unput, ws[i := w]) + Unput(ws[i]) == Total(Unput, ws) + Unput(w)
    ensures Total(CommittedPoints, ws[i := w]) + CommittedPoints(ws[i])
         == Total(CommittedPoints, ws) + CommittedPoints(w)
    ensures Total(FailedPoints, ws[i := w]) + FailedPoints(ws[i])
         == Total(FailedPoints, ws) + FailedPoints(w)
  {
    TotalUpdate(StreamLen, ws, i, w);
    TotalUpdate(Uncounted, ws, i, w);
    TotalUpdate(Unput, ws, i, w);
    TotalUpdate(CommittedPoints, ws, i, w);
    TotalUpdate(FailedPoints, ws, i, w);
  }

  lemma StepKeepsInv(c: Config, s: State, a: Step)
    requires ValidConfig(c) && Inv(c, s) && Enabled(c, s, a)
    ensures Inv(c, Do(c, s, a))
  {
    hide Order, Books, SourceDo, WorkerAfter;
    match a
    case SourceStep(i, sa) => SourceKeepsInv(c, s, i, sa);
    case WorkerStep(w, wa) =>
      WorkerKeepsShape(c, s, w, wa);
      WorkerKeepsPhases(c, s, w, wa);
      WorkerKeepsOrder(c, s, w, wa);
      WorkerKeepsBooks(c, s, w, wa);
    case _ =>
  }

  lemma {:induction false} RunKeepsInv(c: Config, s: State, run: seq<Step>)
    requires ValidConfig(c) && Inv(c, s) && Exec(c, s, run).Some?
    ensures Inv(c, Exec(c, s, run).value)
    decreases |run|
  {
    if run != [] {
      StepKeepsInv(c, s, run[0]);
      RunKeepsInv(c, Do(c, s, run[0]), run[1..]);
    }
  }
}
