/**
 Conservation over every run of the click pipeline.  One law, quantified over the way items
 are weighed, is proved step by step; choosing the weight then gives what happens to each
 event and to each failure count.
 */
module PipelineLaws {
  import opened Common
  import opened PipelineModel

  function Sum(v: Item -> nat, s: seq<Item>): nat {
    if s == [] then 0 else Sum(v, s[..|s| - 1]) + v(s[|s| - 1])
  }

  lemma {:induction false} SumConcat(v: Item -> nat, a: seq<Item>, b: seq<Item>)
    ensures Sum(v, a + b) == Sum(v, a) + Sum(v, b)
  {
    if b == [] {
      assert a + b == a;
    } else {
      SumConcat(v, a, b[..|b| - 1]);
      assert (a + b)[..|a + b| - 1] == a + b[..|b| - 1];
    }
  }

  lemma {:induction false} SumUpdate(v: Item -> nat, s: seq<Item>, p: nat, x: Item)
    requires p < |s|
    ensures Sum(v, s[p := x]) + v(s[p]) == Sum(v, s) + v(x)
  {
    var n := |s| - 1;
    if p == n {
      assert s[p := x][..n] == s[..n];
    } else {
      SumUpdate(v, s[..n], p, x);
      assert s[p := x][..n] == s[..n][p := x];
    }
  }

  lemma {:induction false} SumAtLeast(v: Item -> nat, s: seq<Item>, p: nat)
    requires p < |s|
    ensures v(s[p]) <= Sum(v, s)
  {
    if p < |s| - 1 {
      SumAtLeast(v, s[..|s| - 1], p);
    }
  }

  lemma SumAppendIf(v: Item -> nat, s: seq<Item>, i: Item, b: bool)
    ensures Sum(v, s + if b then [i] else []) == Sum(v, s) + if b then v(i) else 0
  {
    if b {
      assert (s + [i])[..|s|] == s;
    } else {
      assert s + [] == s;
    }
  }

  lemma {:induction false} SumSplit(v: Item -> nat, q: seq<Item>)
    ensures Sum(v, Retryable(Click, q)) + Sum(v, Retryable(Analytics, q)) + Sum(v, Exhausted(q)) == Sum(v, q)
  {
    if q != [] {
      var r, i := q[..|q| - 1], q[|q| - 1];
      SumSplit(v, r);
      var open := i.failures < DEAD_LETTER_THRESHOLD;
      SumAppendIf(v, Retryable(Click, r), i, open && i.kind == Click);
      SumAppendIf(v, Retryable(Analytics, r), i, open && i.kind == Analytics);
      SumAppendIf(v, Exhausted(r), i, !open);
    }
  }

  function JobSum(v: Item -> nat, j: Job): nat {
    match j
    case Flush(_, _, _) => Sum(v, Saving(j))
    case Retry(clicks, analytics, failed, _) => Sum(v, clicks) + Sum(v, analytics) + Sum(v, failed)
  }

  function SumJobs(v: Item -> nat, jobs: seq<Job>): nat {
    if jobs == [] then 0 else SumJobs(v, jobs[..|jobs| - 1]) + JobSum(v, jobs[|jobs| - 1])
  }

  lemma {:induction false} SumJobsUpdate(v: Item -> nat, jobs: seq<Job>, p: nat, j: Job)
    requires p < |jobs|
    ensures SumJobs(v, jobs[p := j]) + JobSum(v, jobs[p]) == SumJobs(v, jobs) + JobSum(v, j)
  {
    var n := |jobs| - 1;
    if p == n {
      assert jobs[p := j][..n] == jobs[..n];
    } else {
      SumJobsUpdate(v, jobs[..n], p, j);
      assert jobs[p := j][..n] == jobs[..n][p := j];
    }
  }

  function Buffers(s: State): seq<Item> {
    Lift(Click, s.clickBuffer) + Lift(Analytics, s.analyticsBuffer)
  }

  /** The weight of every place an item can be. */
  function Total(v: Item -> nat, s: State): nat {
    Sum(v, Buffers(s)) + Sum(v, s.dlq) + SumJobs(v, s.jobs)
    + Sum(v, s.log.saved) + Sum(v, s.log.reported) + Sum(v, s.log.lost)
  }

  /** `v` weighs a failure of an item at `d` of its key. */
  ghost predicate Charges(v: Item -> nat, d: Key -> nat) {
    forall i {:trigger Failed(i)} :: v(Failed(i)) == v(i) + d(KeyOf(i))
  }

  function Charge(d: Key -> nat): Item -> nat {
    (i: Item) => d(KeyOf(i))
  }

  ghost predicate Law(v: Item -> nat, d: Key -> nat, s: State) {
    Total(v, s) == Sum(v, s.log.received) + Sum(Charge(d), s.log.failedCalls)
  }

  lemma BumpSum(v: Item -> nat, d: Key -> nat, r: Queued, i: Item)
    requires Charges(v, d)
    ensures Sum(v, Bump(r, i).dlq) + Sum(v, Bump(r, i).lost) == Sum(v, r.dlq) + Sum(v, r.lost) + v(i) + d(KeyOf(i))
  {
    var p := IndexOf(r.dlq, KeyOf(i));
    if p < |r.dlq| {
      SumUpdate(v, r.dlq, p, Failed(r.dlq[p]));
      SumConcat(v, r.lost, [i]);
    } else {
      SumConcat(v, r.dlq, [Failed(i)]);
    }
  }

  lemma PutSum(v: Item -> nat, d: Key -> nat, r: Queued, i: Item)
    requires Charges(v, d)
    ensures Sum(v, Put(r, i).dlq) + Sum(v, Put(r, i).lost) == Sum(v, r.dlq) + Sum(v, r.lost) + v(i) + d(KeyOf(i))
  {
    var p := IndexOf(r.dlq, KeyOf(i));
    if p < |r.dlq| {
      SumUpdate(v, r.dlq, p, Failed(i));
      SumConcat(v, r.lost, [r.dlq[p]]);
    } else {
      SumConcat(v, r.dlq, [Failed(i)]);
    }
  }

  lemma {:induction false} BumpAllSum(v: Item -> nat, d: Key -> nat, q: seq<Item>, batch: seq<Item>)
    requires Charges(v, d)
    ensures Sum(v, BumpAll(q, batch).dlq) + Sum(v, BumpAll(q, batch).lost)
         == Sum(v, q) + Sum(v, batch) + Sum(Charge(d), batch)
  {
    if batch != [] {
      var n := |batch| - 1;
      BumpAllSum(v, d, q, batch[..n]);
      BumpSum(v, d, BumpAll(q, batch[..n]), batch[n]);
    }
  }

  lemma {:induction false} PutAllSum(v: Item -> nat, d: Key -> nat, q: seq<Item>, items: seq<Item>)
    requires Charges(v, d)
    ensures Sum(v, PutAll(q, items).dlq) + Sum(v, PutAll(q, items).lost)
         == Sum(v, q) + Sum(v, items) + Sum(Charge(d), items)
  {
    if items != [] {
      var n := |items| - 1;
      PutAllSum(v, d, q, items[..n]);
      PutSum(v, d, PutAll(q, items[..n]), items[n]);
    }
  }

  lemma RequeuedSum(v: Item -> nat, d: Key -> nat, j: Job, q: seq<Item>)
    requires Charges(v, d)
    ensures Sum(v, Requeued(j, q).dlq) + Sum(v, Requeued(j, q).lost)
         == Sum(v, q) + Sum(v, Saving(j)) + Sum(Charge(d), Saving(j))
  {
    if j.Flush? {
      BumpAllSum(v, d, q, Saving(j));
    } else {
      PutAllSum(v, d, q, Saving(j));
    }
  }

  lemma AfterSaveSum(v: Item -> nat, j: Job)
    ensures JobSum(v, AfterSave(j)) + Sum(v, Saving(j)) == JobSum(v, j)
  {
  }

  // ---- the law holds over every run ----

  lemma LiftSplit(kind: Kind, batch: seq<Event>, n: nat)
    requires n <= |batch|
    ensures Lift(kind, batch) == Lift(kind, batch[..n]) + Lift(kind, batch[n..])
  {
  }

  lemma LiftConcat(kind: Kind, a: seq<Event>, b: seq<Event>)
    ensures Lift(kind, a + b) == Lift(kind, a) + Lift(kind, b)
  {
  }

  lemma BuffersSum(v: Item -> nat, s: State)
    ensures Sum(v, Buffers(s)) == Sum(v, Lift(Click, s.clickBuffer)) + Sum(v, Lift(Analytics, s.analyticsBuffer))
  {
    SumConcat(v, Lift(Click, s.clickBuffer), Lift(Analytics, s.analyticsBuffer));
  }

  lemma StartFlushTotal(v: Item -> nat, s: State, kind: Kind)
    ensures Total(v, StartFlush(s, kind)) == Total(v, s)
    ensures StartFlush(s, kind).log.(flushed := s.log.flushed) == s.log
  {
    var buffer := BufferOf(kind, s);
    if buffer != [] {
      var n := Min(BATCH_SIZE, |buffer|);
      var s' := StartFlush(s, kind);
      LiftSplit(kind, buffer, n);
      SumConcat(v, Lift(kind, buffer[..n]), Lift(kind, buffer[n..]));
      BuffersSum(v, s);
      BuffersSum(v, s');
      assert s'.jobs[..|s'.jobs| - 1] == s.jobs;
    }
  }

  lemma StartRetryTotal(v: Item -> nat, s: State)
    ensures Total(v, StartRetry(s)) == Total(v, s) && StartRetry(s).log == s.log
  {
    if s.dlq != [] {
      SumSplit(v, s.dlq);
      assert StartRetry(s).jobs[..|s.jobs|] == s.jobs;
    }
  }

  lemma PushedLaw(v: Item -> nat, d: Key -> nat, s: State, kind: Kind, events: seq<Event>)
    requires Law(v, d, s)
    ensures Law(v, d, Pushed(s, kind, events))
  {
    SumConcat(v, s.log.received, Lift(kind, events));
    LiftConcat(kind, BufferOf(kind, s), events);
    SumConcat(v, Lift(kind, BufferOf(kind, s)), Lift(kind, events));
    BuffersSum(v, s);
    BuffersSum(v, Pushed(s, kind, events));
  }

  lemma ArriveLaw(v: Item -> nat, d: Key -> nat, s: State, kind: Kind, events: seq<Event>)
    requires Law(v, d, s)
    ensures Law(v, d, Arrive(s, kind, events))
  {
    PushedLaw(v, d, s, kind, events);
    StartFlushTotal(v, Pushed(s, kind, events), kind);
  }

  lemma FailAttemptLaw(v: Item -> nat, d: Key -> nat, s: State, n: nat, applied: set<string>)
    requires n < |s.jobs| && Charges(v, d) && Law(v, d, s)
    ensures Law(v, d, FailAttempt(s, n, applied))
  {
    var j := s.jobs[n];
    if j.attempts < MAX_RETRIES {
      SumJobsUpdate(v, s.jobs, n, Attempted(j));
    } else {
      SumJobsUpdate(v, s.jobs, n, AfterSave(j));
      AfterSaveSum(v, j);
      RequeuedSum(v, d, j, s.dlq);
      SumConcat(v, s.log.lost, Requeued(j, s.dlq).lost);
      SumConcat(Charge(d), s.log.failedCalls, Saving(j));
    }
  }

  lemma PassAttemptTotal(v: Item -> nat, s: State, n: nat)
    requires n < |s.jobs|
    ensures Total(v, PassAttempt(s, n)) == Total(v, s)
  {
    SumJobsUpdate(v, s.jobs, n, AfterSave(s.jobs[n]));
    AfterSaveSum(v, s.jobs[n]);
    SumConcat(v, s.log.saved, Saving(s.jobs[n]));
  }

  lemma ReportTotal(v: Item -> nat, s: State, n: nat)
    requires n < |s.jobs| && s.jobs[n].Retry?
    ensures Total(v, Report(s, n)) == Total(v, s)
  {
    SumJobsUpdate(v, s.jobs, n, s.jobs[n].(failed := []));
    SumConcat(v, s.log.reported, s.jobs[n].failed);
  }

  lemma StepLaw(v: Item -> nat, d: Key -> nat, s: State, step: Step)
    requires Charges(v, d) && Law(v, d, s)
    ensures Law(v, d, Apply(s, step))
  {
    match step
    case ClickArrives(e) => ArriveLaw(v, d, s, Click, [e]);
    case AnalyticsArrives(e, device) => ArriveLaw(v, d, s, Analytics, [e, Enrich(e, device)]);
    case Timer =>
      StartFlushTotal(v, s, Click);
      StartFlushTotal(v, StartFlush(s, Click), Analytics);
      StartRetryTotal(v, StartFlush(StartFlush(s, Click), Analytics));
    case AttemptFails(n, applied) =>
      if n < |s.jobs| && Saving(s.jobs[n]) != [] { FailAttemptLaw(v, d, s, n, applied); }
    case AttemptSucceeds(n) =>
      if n < |s.jobs| && Saving(s.jobs[n]) != [] { PassAttemptTotal(v, s, n); }
    case ReportFailed(n) =>
      if n < |s.jobs| && Saving(s.jobs[n]) == [] && s.jobs[n].Retry? { ReportTotal(v, s, n); }
    case LateUpdate(_, _) =>
  }

  /**
   The general law: over every run, whatever the weight, what is in the buffers, the jobs
   and the queue, saved, reported or lost weighs what was received plus what every failed
   save call charged.
   */
  lemma {:induction false} RunLaw(v: Item -> nat, d: Key -> nat, steps: seq<Step>)
    requires Charges(v, d)
    ensures Law(v, d, Exec(Init(), steps))
  {
    hide Apply;
    if steps == [] {
      assert Buffers(Init()) == [];
    } else {
      RunLaw(v, d, steps[..|steps| - 1]);
      StepLaw(v, d, Exec(Init(), steps[..|steps| - 1]), steps[|steps| - 1]);
    }
  }

  // ---- the weights that matter ----

  function Same(kind: Kind, e: Event): Item -> nat {
    (i: Item) => if i.kind == kind && i.event == e then 1 else 0
  }

  function Under(k: Key): Item -> nat {
    (i: Item) => if KeyOf(i) == k then 1 else 0
  }

  function FailuresUnder(k: Key): Item -> nat {
    (i: Item) => if KeyOf(i) == k then i.failures else 0
  }

  function Free(): Key -> nat {
    (k: Key) => 0
  }

  function OneFor(k: Key): Key -> nat {
    (k': Key) => if k' == k then 1 else 0
  }

  lemma {:induction false} SumCharge(k: Key, s: seq<Item>)
    ensures Sum(Charge(OneFor(k)), s) == Sum(Under(k), s)
    ensures Sum(Charge(Free()), s) == 0
  {
    if s != [] {
      SumCharge(k, s[..|s| - 1]);
    }
  }

  /** What a step adds to what was received. */
  function News(step: Step): seq<Item> {
    match step
    case ClickArrives(e) => Lift(Click, [e])
    case AnalyticsArrives(e, device) => Lift(Analytics, [e, Enrich(e, device)])
    case _ => []
  }

  function Received(steps: seq<Step>): seq<Item> {
    if steps == [] then [] else Received(steps[..|steps| - 1]) + News(steps[|steps| - 1])
  }

  lemma StepReceives(s: State, step: Step)
    ensures Apply(s, step).log.received == s.log.received + News(step)
  {
    match step
    case AttemptFails(_, _) =>
    case AttemptSucceeds(_) =>
    case ReportFailed(_) =>
    case _ =>
  }

  lemma {:induction false} RunReceives(steps: seq<Step>)
    ensures Exec(Init(), steps).log.received == Received(steps)
  {
    hide Apply;
    if steps != [] {
      RunReceives(steps[..|steps| - 1]);
      StepReceives(Exec(Init(), steps[..|steps| - 1]), steps[|steps| - 1]);
    }
  }

  lemma {:induction false} NoFailures(k: Key, s: seq<Item>)
    requires forall i :: 0 <= i < |s| ==> s[i].failures == 0
    ensures Sum(FailuresUnder(k), s) == 0
  {
    if s != [] {
      NoFailures(k, s[..|s| - 1]);
    }
  }

  lemma {:induction false} NoFailuresReceived(k: Key, steps: seq<Step>)
    ensures Sum(FailuresUnder(k), Received(steps)) == 0
  {
    if steps != [] {
      var n := |steps| - 1;
      NoFailuresReceived(k, steps[..n]);
      SumConcat(FailuresUnder(k), Received(steps[..n]), News(steps[n]));
      NoFailures(k, News(steps[n]));
    }
  }

  /** No event is ever made up and none vanishes unseen: every copy received is in some place, or lost. */
  lemma EventsConserved(kind: Kind, e: Event, steps: seq<Step>)
    ensures var s := Exec(Init(), steps);
            Total(Same(kind, e), s) == Sum(Same(kind, e), s.log.received)
  {
    RunLaw(Same(kind, e), Free(), steps);
    SumCharge(Key(kind, e.shortCode, e.timestamp), Exec(Init(), steps).log.failedCalls);
  }

  lemma KeysConserved(k: Key, steps: seq<Step>)
    ensures var s := Exec(Init(), steps);
            Total(Under(k), s) == Sum(Under(k), s.log.received)
  {
    RunLaw(Under(k), Free(), steps);
    SumCharge(k, Exec(Init(), steps).log.failedCalls);
  }

  /**
   Failure counts are exact in the aggregate, clashes or not: the counts kept under a key add
   up to the number of times an event with that key was in a failed save call.
   */
  lemma FailuresConserved(k: Key, steps: seq<Step>)
    ensures var s := Exec(Init(), steps);
            Total(FailuresUnder(k), s) == Sum(Under(k), s.log.failedCalls)
  {
    RunLaw(FailuresUnder(k), OneFor(k), steps);
    SumCharge(k, Exec(Init(), steps).log.failedCalls);
    NoFailuresReceived(k, steps);
    RunReceives(steps);
  }
}
