/** The two in-memory buffers: their sizes, their order, and the pairs of analytics events. */
module PipelineBuffers {
  import opened Common
  import opened PipelineModel

  predicate IsEnriched(raw: Event, e: Event) {
    e.metadata.device.Some? && e == Enrich(raw, e.metadata.device.value)
  }

  predicate PairEndsAt(events: seq<Event>, i: int)
    requires 0 < i < |events|
  {
    IsEnriched(events[i - 1], events[i])
  }

  /** Raw events at even places, each followed by its enriched copy. */
  ghost predicate Paired(events: seq<Event>) {
    |events| % 2 == 0 && forall i {:trigger PairEndsAt(events, i)} :: 0 < i < |events| && i % 2 == 1 ==> PairEndsAt(events, i)
  }

  lemma PairedConcat(a: seq<Event>, b: seq<Event>)
    requires Paired(a) && Paired(b)
    ensures Paired(a + b)
  {
    forall i | 0 < i < |a + b| && i % 2 == 1
      ensures PairEndsAt(a + b, i)
    {
      assert if i < |a| then PairEndsAt(a, i) else PairEndsAt(b, i - |a|);
    }
  }

  /** Everything flushed for a kind, in order. */
  function Flat(kind: Kind, flushed: seq<(Kind, seq<Event>)>): seq<Event> {
    if flushed == [] then []
    else
      var last := flushed[|flushed| - 1];
      Flat(kind, flushed[..|flushed| - 1]) + if last.0 == kind then last.1 else []
  }

  function NewEvents(kind: Kind, step: Step): seq<Event> {
    match step
    case ClickArrives(e) => if kind.Click? then [e] else []
    case AnalyticsArrives(e, device) => if kind.Analytics? then [e, Enrich(e, device)] else []
    case _ => []
  }

  /** Everything pushed onto a buffer, in order. */
  function Stored(kind: Kind, steps: seq<Step>): seq<Event> {
    if steps == [] then [] else Stored(kind, steps[..|steps| - 1]) + NewEvents(kind, steps[|steps| - 1])
  }

  ghost predicate FlushesOk(flushed: seq<(Kind, seq<Event>)>) {
    forall i :: 0 <= i < |flushed| ==>
      0 < |flushed[i].1| <= BATCH_SIZE && (flushed[i].0.Analytics? ==> Paired(flushed[i].1))
  }

  ghost predicate Disciplined(s: State) {
    && |s.clickBuffer| < BATCH_SIZE
    && |s.analyticsBuffer| < BATCH_SIZE
    && Paired(s.analyticsBuffer)
    && FlushesOk(s.log.flushed)
  }

  /** Flushed batches followed by what still waits. */
  function Stream(kind: Kind, s: State): seq<Event> {
    Flat(kind, s.log.flushed) + BufferOf(kind, s)
  }

  lemma FlatAppend(kind: Kind, flushed: seq<(Kind, seq<Event>)>, k: Kind, batch: seq<Event>)
    ensures Flat(kind, flushed + [(k, batch)]) == Flat(kind, flushed) + if k == kind then batch else []
  {
    assert (flushed + [(k, batch)])[..|flushed|] == flushed;
  }

  lemma FlushEmpties(s: State, k: Kind, kind: Kind)
    requires |BufferOf(k, s)| <= BATCH_SIZE
    requires Paired(s.analyticsBuffer) && FlushesOk(s.log.flushed)
    ensures var s' := StartFlush(s, k);
            && s'.clickBuffer == (if k.Click? then [] else s.clickBuffer)
            && s'.analyticsBuffer == (if k.Click? then s.analyticsBuffer else [])
            && FlushesOk(s'.log.flushed)
            && Stream(kind, s') == Stream(kind, s)
  {
    var buffer, s' := BufferOf(k, s), StartFlush(s, k);
    if buffer != [] {
      assert buffer[..|buffer|] == buffer && buffer[|buffer|..] == [];
      FlatAppend(kind, s.log.flushed, k, buffer);
      assert Flat(kind, s.log.flushed) + [] == Flat(kind, s.log.flushed);
      assert Stream(kind, s') == Stream(kind, s);
    }
  }

  lemma ArriveDisciplined(kind: Kind, s: State, k: Kind, events: seq<Event>)
    requires Disciplined(s) && |events| <= 2
    requires if k.Click? then |events| == 1 else Paired(events)
    ensures Disciplined(Arrive(s, k, events))
    ensures Stream(kind, Arrive(s, k, events)) == Stream(kind, s) + if kind == k then events else []
  {
    var t := Pushed(s, k, events);
    assert Stream(kind, t) == Stream(kind, s) + if kind == k then events else [];
    if k.Analytics? {
      PairedConcat(s.analyticsBuffer, events);
    }
    FlushEmpties(t, k, kind);
    hide StartFlush, Flat;
  }

  // ---- nothing is flushed on arrival before a hundred events wait ----

  /**
   A click that arrives is appended, and nothing is started, until it makes the hundredth; then
   all hundred are handed over in order, and the buffer is empty.
   */
  lemma ClickWaits(s: State, e: Event)
    requires |s.clickBuffer| < 100
    ensures var s' := Apply(s, ClickArrives(e));
            && s'.analyticsBuffer == s.analyticsBuffer && s'.dlq == s.dlq
            && (|s.clickBuffer| + 1 < 100 ==> s'.clickBuffer == s.clickBuffer + [e] && s'.jobs == s.jobs)
            && (|s.clickBuffer| + 1 == 100 ==>
                  s'.clickBuffer == [] && s'.jobs == s.jobs + [Flush(Click, s.clickBuffer + [e], 0)])
  {
    var all := s.clickBuffer + [e];
    assert all[..|all|] == all && all[|all|..] == [];
  }

  /** The same for an analytics event, which is followed by a copy that differs in its device alone. */
  lemma PairWaits(s: State, e: Event, device: Device)
    requires |s.analyticsBuffer| < 99
    ensures var s' := Apply(s, AnalyticsArrives(e, device));
            var enriched := Event(e.shortCode, e.timestamp, Metadata(e.metadata.userAgent, e.metadata.ip, Some(device)));
            && s'.clickBuffer == s.clickBuffer && s'.dlq == s.dlq
            && (|s.analyticsBuffer| + 2 < 100 ==>
                  s'.analyticsBuffer == s.analyticsBuffer + [e, enriched] && s'.jobs == s.jobs)
            && (|s.analyticsBuffer| + 2 == 100 ==>
                  s'.analyticsBuffer == [] && s'.jobs == s.jobs + [Flush(Analytics, s.analyticsBuffer + [e, enriched], 0)])
  {
    var all := s.analyticsBuffer + [e, Enrich(e, device)];
    assert all[..|all|] == all && all[|all|..] == [];
  }

  /** In every run the buffers are small enough for that. */
  lemma ArrivalsWait(steps: seq<Step>)
    ensures var s := Exec(Init(), steps); |s.clickBuffer| < 100 && |s.analyticsBuffer| < 99
  {
    hide Exec;
    BufferDiscipline(Click, steps);
  }

  lemma EmptyPaired()
    ensures Paired([])
  {
  }

  lemma PairOf(e: Event, device: Device)
    ensures Paired([e, Enrich(e, device)])
  {
    assert PairEndsAt([e, Enrich(e, device)], 1);
  }

  lemma StartRetryKeepsBuffers(s: State)
    ensures var s' := StartRetry(s);
            s'.clickBuffer == s.clickBuffer && s'.analyticsBuffer == s.analyticsBuffer && s'.log == s.log
  {
  }

  lemma TimerDisciplined(kind: Kind, s: State)
    requires Disciplined(s)
    ensures Disciplined(Apply(s, Timer)) && Stream(kind, Apply(s, Timer)) == Stream(kind, s)
    ensures Apply(s, Timer).clickBuffer == [] && Apply(s, Timer).analyticsBuffer == []
  {
    FlushEmpties(s, Click, kind);
    var s' := StartFlush(s, Click);
    FlushEmpties(s', Analytics, kind);
    hide StartFlush, StartRetry, Flat, Paired, FlushesOk;
    StartRetryKeepsBuffers(StartFlush(s', Analytics));
    assert Apply(s, Timer) == StartRetry(StartFlush(s', Analytics));
    EmptyPaired();
  }

  lemma JobStepKeepsBuffers(s: State, step: Step)
    requires !step.ClickArrives? && !step.AnalyticsArrives? && !step.Timer?
    ensures var s' := Apply(s, step);
            s'.clickBuffer == s.clickBuffer && s'.analyticsBuffer == s.analyticsBuffer
            && s'.log.flushed == s.log.flushed
  {
  }

  lemma StepDisciplined(kind: Kind, s: State, step: Step)
    requires Disciplined(s)
    ensures Disciplined(Apply(s, step))
    ensures Stream(kind, Apply(s, step)) == Stream(kind, s) + NewEvents(kind, step)
  {
    assert Stream(kind, s) + [] == Stream(kind, s);
    match step
    case ClickArrives(e) => ArriveDisciplined(kind, s, Click, [e]);
    case AnalyticsArrives(e, device) =>
      PairOf(e, device);
      ArriveDisciplined(kind, s, Analytics, [e, Enrich(e, device)]);
    case Timer => TimerDisciplined(kind, s);
    case _ => JobStepKeepsBuffers(s, step);
  }

  lemma EvenBelow(events: seq<Event>)
    requires Paired(events) && |events| < BATCH_SIZE
    ensures |events| <= 98
  {
  }

  /**
   Buffer discipline over every run: fewer than 100 waiting clicks; an even number of waiting
   analytics events, at most 98, in adjacent pairs; batches of at most 100 that never split a
   pair; and nothing reordered, dropped or repeated between pushing and flushing.
   */
  lemma {:induction false} BufferDiscipline(kind: Kind, steps: seq<Step>)
    ensures var s := Exec(Init(), steps);
            Disciplined(s) && |s.analyticsBuffer| <= 98
            && Stream(kind, s) == Stored(kind, steps)
  {
    hide Apply;
    if steps == [] {
      assert Stream(kind, Init()) == [];
    } else {
      var before, last := Exec(Init(), steps[..|steps| - 1]), steps[|steps| - 1];
      BufferDiscipline(kind, steps[..|steps| - 1]);
      StepDisciplined(kind, before, last);
      assert Exec(Init(), steps) == Apply(before, last);
      EvenBelow(Exec(Init(), steps).analyticsBuffer);
    }
  }
}
