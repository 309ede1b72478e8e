// What the sources put on the bus: every poll, point by point, in order
// (go-telemetry/internal/pipeline/pipeline.go:110-138).
module SourceOrder {
  import opened Point
  import opened PipelineMachine

  // ---- What happened in a run ----------------------------------------------

  // Everything the polls of source `i` returned, in order.
  function Polled(run: seq<Step>, i: nat): seq<DataPoint> {
    if run == [] then [] else PolledBy(run[0], i) + Polled(run[1..], i)
  }

  function PolledBy(a: Step, i: nat): seq<DataPoint> {
    if a.SourceStep? && a.i == i && a.sa.Poll? then a.sa.pts else []
  }

  // A point and the source that sent it.
  datatype Sent = Sent(source: nat, p: DataPoint)

  // What a step added to the send order, under the source whose send it was.
  function Grown(s: State, s': State, a: Step): seq<Sent> {
    if |s.sent| < |s'.sent| && a.SourceStep? && a.sa.Send?
    then seq(|s'.sent| - |s.sent|, k requires 0 <= k < |s'.sent| - |s.sent| => Sent(a.i, s'.sent[|s.sent| + k]))
    else []
  }

  function Sends(c: Config, s: State, run: seq<Step>): seq<Sent>
    requires ValidConfig(c) && Exec(c, s, run).Some?
    decreases |run|
  {
    if run == [] then []
    else Grown(s, Do(c, s, run[0]), run[0]) + Sends(c, Do(c, s, run[0]), run[1..])
  }

  function PointsOf(sends: seq<Sent>): seq<DataPoint> {
    if sends == [] then [] else [sends[0].p] + PointsOf(sends[1..])
  }

  function OfSource(sends: seq<Sent>, i: nat): seq<DataPoint> {
    if sends == [] then [] else (if sends[0].source == i then [sends[0].p] else []) + OfSource(sends[1..], i)
  }

  // What a source still has to send.
  function Rest(src: Source): seq<DataPoint> { if src.Sending? || src.Counting? then src.rest else [] }

  // `sent` against what was there to send: all of it but the rest, in order; a
  // source that was stopped may have dropped the end.
  ghost predicate Forwarded(src: Source, sent: seq<DataPoint>, due: seq<DataPoint>) {
    if src.Stopped? then sent <= due else sent + Rest(src) == due
  }

  // A source that went from `src` to `src'` while it sent and polled so much.
  ghost predicate Passed(src: Source, src': Source, sent: seq<DataPoint>, polled: seq<DataPoint>) {
    if src.Stopped? then src'.Stopped? && sent == [] && polled == []
    else Forwarded(src', sent, Rest(src) + polled)
  }

  lemma PassedChain(a: Source, b: Source, c: Source, sent1: seq<DataPoint>, polled1: seq<DataPoint>,
                    sent2: seq<DataPoint>, polled2: seq<DataPoint>)
    requires Passed(a, b, sent1, polled1) && Passed(b, c, sent2, polled2)
    ensures Passed(a, c, sent1 + sent2, polled1 + polled2)
  {
    var due := Rest(a) + polled1;
    assert Rest(a) + (polled1 + polled2) == due + polled2;
    if !a.Stopped? {
      if b.Stopped? {
        assert sent1 + sent2 == sent1 && due + polled2 == due;
      } else {
        assert due + polled2 == sent1 + (Rest(b) + polled2);
        assert sent1 + sent2 + Rest(c) == sent1 + (sent2 + Rest(c));
      }
    }
  }

  // ---- One step ------------------------------------------------------------

  function PollOf(a: SourceAct): seq<DataPoint> { if a.Poll? then a.pts else [] }

  // A source takes one point from the front of what it has to send, or takes a
  // whole poll, or stops.
  lemma ActPasses(src: Source, a: SourceAct)
    requires SourceCan(src, a)
    ensures Passed(src, SourceAfter(src, a), if a.Send? then [src.rest[0]] else [], PollOf(a))
  {
    if a.Send? { assert [src.rest[0]] + src.rest[1..] == src.rest; }
  }

  lemma SourceGrows(c: Config, s: State, j: nat, a: SourceAct)
    requires ValidConfig(c) && SourceMay(c, s, j, a)
    ensures var s' := SourceDo(c, s, j, a);
            && Grown(s, s', SourceStep(j, a)) == (if a.Send? && !s.closed then [Sent(j, s.sources[j].rest[0])] else [])
            && s'.sent == s.sent + (if a.Send? && !s.closed then [s.sources[j].rest[0]] else [])
            && s'.sources == (if a.Send? && s.closed then s.sources
                              else s.sources[j := SourceAfter(s.sources[j], a)])
            && s'.cancelled == s.cancelled
  {
    hide SourceAfter;
  }

  lemma WorkerSendsNothing(c: Config, s: State, w: nat, a: WorkerAct)
    requires ValidConfig(c) && WorkerMay(c, s, w, a)
    ensures WorkerDo(c, s, w, a).sent == s.sent && WorkerDo(c, s, w, a).sources == s.sources
  {
    hide WorkerAfter, WorkerCan;
  }

  lemma OthersGrowNothing(c: Config, s: State, a: Step)
    requires ValidConfig(c) && Enabled(c, s, a) && !a.SourceStep?
    ensures Do(c, s, a).sent == s.sent && Do(c, s, a).sources == s.sources
  {
    hide WorkerDo, WorkerMay;
    if a.WorkerStep? { WorkerSendsNothing(c, s, a.w, a.wa); }
  }

  lemma StepPasses(c: Config, s: State, a: Step, i: nat)
    requires ValidConfig(c) && Enabled(c, s, a) && i < |s.sources|
    ensures var s' := Do(c, s, a);
            && |s'.sources| == |s.sources|
            && s'.sent == s.sent + PointsOf(Grown(s, s', a))
            && Passed(s.sources[i], s'.sources[i], OfSource(Grown(s, s', a), i), PolledBy(a, i))
  {
    hide WorkerDo, MainDo, SourceDo, SourceAfter, WorkerMay, MainMay;
    if a.SourceStep? {
      SourceGrows(c, s, a.i, a.sa);
      hide Grown;
      var src := s.sources[a.i];
      if a.sa.Send? && !s.closed { assert [Sent(a.i, src.rest[0])][1..] == []; }
      ActPasses(src, a.sa);
      assert Passed(s.sources[i], s.sources[i], [], []);
    } else {
      hide Do;
      OthersGrowNothing(c, s, a);
      assert Grown(s, Do(c, s, a), a) == [];
    }
  }

  // ---- Whole runs ----------------------------------------------------------

  lemma {:induction false} PointsOfConcat(a: seq<Sent>, b: seq<Sent>)
    ensures PointsOf(a + b) == PointsOf(a) + PointsOf(b)
  {
    if a == [] {
      assert a + b == b;
    } else {
      assert (a + b)[1..] == a[1..] + b;
      PointsOfConcat(a[1..], b);
    }
  }

  lemma {:induction false} OfSourceConcat(a: seq<Sent>, b: seq<Sent>, i: nat)
    ensures OfSource(a + b, i) == OfSource(a, i) + OfSource(b, i)
  {
    if a == [] {
      assert a + b == b;
    } else {
      assert (a + b)[1..] == a[1..] + b;
      OfSourceConcat(a[1..], b, i);
      var (x, y, z) := (if a[0].source == i then [a[0].p] else [], OfSource(a[1..], i), OfSource(b, i));
      assert OfSource(a, i) == x + y && OfSource(a + b, i) == x + (y + z);
      hide OfSource;
      assert x + (y + z) == (x + y) + z;
    }
  }

  // From any state on, sources forward what they had and what they poll.
  lemma {:induction false} RunPasses(c: Config, s: State, run: seq<Step>, i: nat)
    requires ValidConfig(c) && Exec(c, s, run).Some? && i < |s.sources|
    ensures var (s', sends) := (Exec(c, s, run).value, Sends(c, s, run));
            && |s'.sources| == |s.sources|
            && s'.sent == s.sent + PointsOf(sends)
            && Passed(s.sources[i], s'.sources[i], OfSource(sends, i), Polled(run, i))
    decreases |run|
  {
    hide Do, Enabled, Passed, Grown;
    if run == [] {
      PassedNothing(s.sources[i]);
    } else {
      var s1 := Do(c, s, run[0]);
      var g := Grown(s, s1, run[0]);
      StepPasses(c, s, run[0], i);
      RunPasses(c, s1, run[1..], i);
      var more := Sends(c, s1, run[1..]);
      var s' := Exec(c, s1, run[1..]).value;
      assert Polled(run, i) == PolledBy(run[0], i) + Polled(run[1..], i);
      hide OfSource, PointsOf, Polled, PolledBy, Exec, Sends;
      PointsOfConcat(g, more);
      OfSourceConcat(g, more, i);
      assert s.sent + PointsOf(g) + PointsOf(more) == s.sent + (PointsOf(g) + PointsOf(more));
      PassedChain(s.sources[i], s1.sources[i], s'.sources[i], OfSource(g, i), PolledBy(run[0], i),
                  OfSource(more, i), Polled(run[1..], i));
    }
  }

  lemma StepStops(c: Config, s: State, a: Step, i: nat)
    requires ValidConfig(c) && Enabled(c, s, a) && i < |s.sources|
    ensures var s' := Do(c, s, a);
            && |s'.sources| == |s.sources|
            && (s'.sources[i].Stopped? <==> s.sources[i].Stopped? || a == SourceStep(i, Quit))
            && (s'.cancelled <==> s.cancelled || a == Cancel) && (a == SourceStep(i, Quit) ==> s.cancelled)
  {
    hide WorkerDo, MainDo, SourceDo, SourceAfter, WorkerMay, MainMay;
    if a.SourceStep? {
      SourceGrows(c, s, a.i, a.sa);
      assert SourceAfter(s.sources[a.i], a.sa).Stopped? <==> a.sa.Quit? by { QuitStops(s.sources[a.i], a.sa); }
    } else {
      CancelCancels(c, s, a);
      hide Do;
      OthersGrowNothing(c, s, a);
    }
  }

  lemma CancelCancels(c: Config, s: State, a: Step)
    requires ValidConfig(c) && Enabled(c, s, a) && !a.SourceStep?
    ensures Do(c, s, a).cancelled <==> s.cancelled || a == Cancel
  {
    hide WorkerAfter, WorkerMay;
  }

  lemma QuitStops(src: Source, a: SourceAct)
    requires SourceCan(src, a)
    ensures SourceAfter(src, a).Stopped? <==> a.Quit?
  {
  }

  // Nothing stops a source but the cancelled context: no failed poll, no empty one.
  lemma {:induction false} OnlyQuitStops(c: Config, s: State, run: seq<Step>, i: nat)
    requires ValidConfig(c) && Exec(c, s, run).Some? && i < |s.sources|
    ensures var s' := Exec(c, s, run).value;
            && |s'.sources| == |s.sources|
            && (s'.sources[i].Stopped? <==> s.sources[i].Stopped? || SourceStep(i, Quit) in run)
            && (s'.cancelled <==> s.cancelled || Cancel in run)
            && (s'.sources[i].Stopped? && !s.sources[i].Stopped? ==> s'.cancelled)
    decreases |run|
  {
    hide Do, Enabled;
    if run != [] {
      StepStops(c, s, run[0], i);
      OnlyQuitStops(c, Do(c, s, run[0]), run[1..], i);
      assert run == [run[0]] + run[1..];
    }
  }

  lemma PassedNothing(src: Source)
    ensures Passed(src, src, [], [])
  {
  }

  // In every run the send order is exactly what the sources sent; and each source
  // sent exactly what its polls returned, point by point and in order, but for what
  // it still has in hand or, once it has stopped, dropped at the end. It has stopped
  // iff it saw the cancelled context.
  lemma SourcesForwardPolls(c: Config, run: seq<Step>, i: nat)
    requires ValidConfig(c) && Exec(c, Init(c), run).Some? && i < c.sources
    ensures var (s, sends) := (Exec(c, Init(c), run).value, Sends(c, Init(c), run));
            && i < |s.sources| && s.sent == PointsOf(sends)
            && Forwarded(s.sources[i], OfSource(sends, i), Polled(run, i))
            && (s.sources[i].Stopped? <==> SourceStep(i, Quit) in run) && (s.sources[i].Stopped? ==> Cancel in run)
  {
    RunPasses(c, Init(c), run, i);
    OnlyQuitStops(c, Init(c), run, i);
    hide Exec, Polled, Sends;
  }
}
