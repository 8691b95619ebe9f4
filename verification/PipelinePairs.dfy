/**
 What becomes of an analytics event.  It is buffered raw and enriched under one dead-letter
 key, so a failed flush counts two failures for one failed call and drops the second copy.
 */
module PipelinePairs {
  import opened Common
  import opened PipelineModel
  import opened PipelineLaws
  import opened PipelineBuffers
  import opened PipelineFates
  import opened PipelineTheorems

  // ---- a failed flush starts its analytics events at two failures ----

  ghost predicate StandsAt(q: seq<Item>, k: Key, failures: nat) {
    var p := IndexOf(q, k);
    p < |q| && failures <= q[p].failures
  }

  lemma {:induction false} IndexOfSame(q: seq<Item>, q': seq<Item>, k: Key)
    requires |q| <= |q'| && forall i :: 0 <= i < |q| ==> KeyOf(q'[i]) == KeyOf(q[i])
    ensures IndexOf(q, k) < |q| ==> IndexOf(q', k) == IndexOf(q, k)
    ensures IndexOf(q, k) == |q| ==> |q| <= IndexOf(q', k)
  {
    var p, p' := IndexOf(q, k), IndexOf(q', k);
    assert p < |q| ==> KeyOf(q'[p]) == k;
    assert p' < |q| ==> KeyOf(q[p']) == k;
  }

  lemma BumpRaises(r: Queued, i: Item, k: Key, failures: nat)
    requires StandsAt(r.dlq, k, failures)
    ensures StandsAt(Bump(r, i).dlq, k, failures + if KeyOf(i) == k then 1 else 0)
  {
    IndexOfSame(r.dlq, Bump(r, i).dlq, k);
  }

  lemma BumpStarts(r: Queued, i: Item)
    ensures StandsAt(Bump(r, i).dlq, KeyOf(i), 1)
  {
    IndexOfSame(r.dlq, Bump(r, i).dlq, KeyOf(i));
    assert KeyOf(Bump(r, i).dlq[IndexOf(r.dlq, KeyOf(i))]) == KeyOf(i);
  }

  lemma {:induction false} BumpAllStands(q: seq<Item>, batch: seq<Item>, i: nat)
    requires i < |batch|
    ensures StandsAt(BumpAll(q, batch).dlq, KeyOf(batch[i]), 1)
  {
    var n := |batch| - 1;
    if i < n {
      BumpAllStands(q, batch[..n], i);
      BumpRaises(BumpAll(q, batch[..n]), batch[n], KeyOf(batch[i]), 1);
    } else {
      BumpStarts(BumpAll(q, batch[..n]), batch[n]);
    }
  }

  lemma {:induction false} BumpAllTwice(q: seq<Item>, batch: seq<Item>, i: nat, j: nat)
    requires i < j < |batch| && KeyOf(batch[i]) == KeyOf(batch[j])
    ensures StandsAt(BumpAll(q, batch).dlq, KeyOf(batch[i]), 2)
  {
    hide Bump;
    var n := |batch| - 1;
    if j < n {
      BumpAllTwice(q, batch[..n], i, j);
      BumpRaises(BumpAll(q, batch[..n]), batch[n], KeyOf(batch[i]), 2);
    } else {
      BumpAllStands(q, batch[..n], i);
      BumpRaises(BumpAll(q, batch[..n]), batch[n], KeyOf(batch[i]), 1);
    }
  }

  /**
   In every run, when the save call of an analytics flush fails for good, the key of each of
   its events stands in the queue at two failures or more, after one failed call.
   */
  lemma FailedAnalyticsFlushStartsAtTwo(steps: seq<Step>, n: nat, applied: set<string>, i: nat)
    requires var s := Exec(Init(), steps);
             n < |s.jobs| && s.jobs[n].Flush? && s.jobs[n].kind.Analytics? && s.jobs[n].attempts == MAX_RETRIES
             && i < |s.jobs[n].batch|
    ensures var s := Exec(Init(), steps);
            StandsAt(Apply(s, AttemptFails(n, applied)).dlq, KeyOf(Item(Analytics, s.jobs[n].batch[i], 0)), 2)
  {
    hide Exec, Bump, StandsAt, AddCounts;
    var s := Exec(Init(), steps);
    RunJobsPaired(steps);
    var batch, items := s.jobs[n].batch, Saving(s.jobs[n]);
    var j := if i % 2 == 1 then i else i + 1;
    assert PairEndsAt(batch, j);
    assert KeyOf(items[j - 1]) == KeyOf(items[j]);
    BumpAllTwice(s.dlq, items, j - 1, j);
  }

  // ---- an analytics event is reported after two failed save calls ----

  /** The save calls of a run that failed for good while holding an event with this key. */
  function FailedCalls(k: Key, steps: seq<Step>): nat {
    if steps == [] then 0
    else
      FailedCalls(k, steps[..|steps| - 1])
      + if FailsCall(k, Exec(Init(), steps[..|steps| - 1]), steps[|steps| - 1]) then 1 else 0
  }

  predicate FailsCall(k: Key, s: State, step: Step) {
    && step.AttemptFails? && step.job < |s.jobs|
    && MAX_RETRIES <= s.jobs[step.job].attempts
    && 0 < Sum(Under(k), Saving(s.jobs[step.job]))
  }

  /**
   The state of a key that only one pair has.  Until a call fails, no copy is in the queue or
   a retry; from then on one copy is lost, and the failures counted are one more than the
   calls that failed, and at most three.
   */
  ghost predicate PairState(k: Key, s: State, calls: nat) {
    var lost := Sum(Under(k), s.log.lost);
    && lost <= 1
    && Sum(FailuresUnder(k), s.log.lost) == 0
    && Sum(Under(k), s.log.failedCalls) == calls + lost <= DEAD_LETTER_THRESHOLD
    && (lost == 0 <==> calls == 0)
    && (lost == 0 ==> Sum(Under(k), s.dlq) == 0 && Sum(Under(k), s.log.reported) == 0)
    && forall n :: 0 <= n < |s.jobs| ==> JobPairState(k, s.jobs[n], lost)
  }

  ghost predicate JobPairState(k: Key, j: Job, lost: nat) {
    && (j.Flush? ==> Sum(Under(k), Saving(j)) % 2 == 0)
    && (j.Retry? && lost == 0 ==> JobSum(Under(k), j) == 0)
  }

  /** Paired events hold an even number of any analytics key. */
  lemma {:induction false} PairedEven(k: Key, batch: seq<Event>)
    requires Paired(batch)
    ensures Sum(Under(k), Lift(Analytics, batch)) % 2 == 0
  {
    if batch != [] {
      var n := |batch|;
      assert PairEndsAt(batch, n - 1);
      assert Paired(batch[..n - 2]) by {
        forall i | 0 < i < n - 2 && i % 2 == 1
          ensures PairEndsAt(batch[..n - 2], i)
        {
          assert PairEndsAt(batch, i);
        }
      }
      PairedEven(k, batch[..n - 2]);
      var items := Lift(Analytics, batch);
      assert items[..n - 1][..n - 2] == Lift(Analytics, batch[..n - 2]);
      assert KeyOf(items[n - 2]) == KeyOf(items[n - 1]);
    }
  }

  lemma {:induction false} ClicksNotUnder(k: Key, items: seq<Item>)
    requires k.kind.Analytics? && forall i :: 0 <= i < |items| ==> items[i].kind.Click?
    ensures Sum(Under(k), items) == 0
  {
    if items != [] {
      ClicksNotUnder(k, items[..|items| - 1]);
    }
  }

  lemma FlushEven(k: Key, j: Job)
    requires k.kind.Analytics? && j.Flush? && (j.kind.Analytics? ==> Paired(j.batch))
    ensures Sum(Under(k), Saving(j)) % 2 == 0
  {
    if j.kind.Analytics? {
      PairedEven(k, j.batch);
    } else {
      ClicksNotUnder(k, Saving(j));
    }
  }

  lemma JobsEven(k: Key, s: State)
    requires k.kind.Analytics? && JobsPaired(s)
    ensures forall n :: 0 <= n < |s.jobs| && s.jobs[n].Flush? ==> Sum(Under(k), Saving(s.jobs[n])) % 2 == 0
  {
    forall n | 0 <= n < |s.jobs| && s.jobs[n].Flush?
      ensures Sum(Under(k), Saving(s.jobs[n])) % 2 == 0
    {
      FlushEven(k, s.jobs[n]);
    }
  }

  /** With at most two copies about, what a job is saving and what waits in the queue are at most two. */
  lemma JobAndQueue(k: Key, s: State, n: nat)
    requires n < |s.jobs|
    ensures Sum(Under(k), Saving(s.jobs[n])) + Sum(Under(k), s.dlq) + Sum(Under(k), s.log.lost)
            + Sum(Under(k), s.log.reported) <= Total(Under(k), s)
    ensures Sum(Under(k), Saving(s.jobs[n])) <= JobSum(Under(k), s.jobs[n])
  {
    SumJobsAtLeast(Under(k), s.jobs, n);
    hide Sum, SumJobs, JobSum, Buffers;
  }

  lemma {:induction false} BumpAllLostFresh(k: Key, q: seq<Item>, batch: seq<Item>)
    requires forall i :: 0 <= i < |batch| ==> batch[i].failures == 0
    ensures Sum(FailuresUnder(k), BumpAll(q, batch).lost) == 0
  {
    if batch != [] {
      BumpAllLostFresh(k, q, batch[..|batch| - 1]);
      SumAppendIf(FailuresUnder(k), BumpAll(q, batch[..|batch| - 1]).lost, batch[|batch| - 1],
                  IndexOf(BumpAll(q, batch[..|batch| - 1]).dlq, KeyOf(batch[|batch| - 1]))
                  < |BumpAll(q, batch[..|batch| - 1]).dlq|);
    }
  }

  lemma {:induction false} HeldIndex(k: Key, s: seq<Item>) returns (p: nat)
    requires 0 < Sum(Under(k), s)
    ensures p < |s| && KeyOf(s[p]) == k
  {
    if KeyOf(s[|s| - 1]) == k {
      p := |s| - 1;
    } else {
      p := HeldIndex(k, s[..|s| - 1]);
    }
  }

  /** A failed flush that holds both copies keeps one and loses the other. */
  lemma PairBumped(k: Key, q: seq<Item>, batch: seq<Item>)
    requires UniqueKeys(q) && (forall i :: 0 <= i < |q| ==> 0 < q[i].failures)
    requires forall i :: 0 <= i < |batch| ==> batch[i].failures == 0
    requires Sum(Under(k), batch) == 2 && Sum(Under(k), q) == 0
    ensures var r := BumpAll(q, batch); Sum(Under(k), r.dlq) == 1 && Sum(Under(k), r.lost) == 1
  {
    var r := BumpAll(q, batch);
    BumpAllSum(Under(k), Free(), q, batch);
    SumCharge(k, batch);
    BumpAllOk(q, batch);
    UniqueAtMostOne(k, r.dlq);
    var p := HeldIndex(k, batch);
    BumpAllHolds(q, batch, p);
    var at :| 0 <= at < |r.dlq| && KeyOf(r.dlq[at]) == k;
    SumAtLeast(Under(k), r.dlq, at);
  }

  /** A call that holds no copy loses none. */
  lemma OthersRequeued(k: Key, j: Job, q: seq<Item>)
    requires UniqueKeys(q) && Sum(Under(k), Saving(j)) == 0
    ensures var r := Requeued(j, q);
            Sum(Under(k), r.lost) == 0 && Sum(Under(k), r.dlq) == Sum(Under(k), q)
  {
    UniqueAtMostOne(k, q);
    BumpAllLoses(k, q, Saving(j));
    PutAllLoses(k, q, Saving(j));
    RequeuedSum(Under(k), Free(), j, q);
    SumCharge(k, Saving(j));
  }

  lemma OneRequeued(k: Key, j: Job, q: seq<Item>)
    requires j.Retry? && Sum(Under(k), Saving(j)) == 1 && Sum(Under(k), q) == 0
    ensures var r := Requeued(j, q); Sum(Under(k), r.lost) == 0 && Sum(Under(k), r.dlq) == 1
  {
    PutAllLoses(k, q, Saving(j));
    RequeuedSum(Under(k), Free(), j, q);
    SumCharge(k, Saving(j));
  }

  /** What a failed call does to the counts of a key that only one pair has. */
  lemma CallFails(k: Key, s: State, n: nat, calls: nat)
    requires k.kind.Analytics? && n < |s.jobs| && WellFormed(s) && PairState(k, s, calls) && Total(Under(k), s) <= 2
    requires Law(FailuresUnder(k), OneFor(k), s) && Sum(FailuresUnder(k), s.log.received) == 0
    ensures var r, held, lost := Requeued(s.jobs[n], s.dlq), Sum(Under(k), Saving(s.jobs[n])), Sum(Under(k), s.log.lost);
            && Sum(Under(k), r.lost) == (if held == 2 then 1 else 0)
            && held <= 2 && (0 < held < 2 ==> lost == 1) && (held == 2 ==> lost == 0)
            && Sum(FailuresUnder(k), r.lost) == 0
            && (held == 0 ==> Sum(Under(k), r.dlq) == Sum(Under(k), s.dlq))
            && (0 < held ==> Sum(Under(k), s.log.failedCalls) + held <= DEAD_LETTER_THRESHOLD)
  {
    var j := s.jobs[n];
    assert JobOk(j) && JobPairState(k, j, Sum(Under(k), s.log.lost));
    JobAndQueue(k, s, n);
    SavingOk(j);
    var held := Sum(Under(k), Saving(j));
    if held == 0 {
      OthersRequeued(k, j, s.dlq);
      NoneNoFailures(k, Requeued(j, s.dlq).lost);
    } else if j.Flush? {
      PairBumped(k, s.dlq, Saving(j));
      BumpAllLostFresh(k, s.dlq, Saving(j));
    } else {
      OneRequeued(k, j, s.dlq);
      NoneNoFailures(k, Requeued(j, s.dlq).lost);
      FewFailures(k, s, n);
    }
  }

  /** The copy in a retry holds all failures of its key, and they are fewer than three. */
  lemma FewFailures(k: Key, s: State, n: nat)
    requires n < |s.jobs| && WellFormed(s) && s.jobs[n].Retry? && Total(Under(k), s) <= 2
    requires Law(FailuresUnder(k), OneFor(k), s) && Sum(FailuresUnder(k), s.log.received) == 0
    requires Sum(Under(k), Saving(s.jobs[n])) == 1 && Sum(Under(k), s.log.lost) == 1
    requires Sum(FailuresUnder(k), s.log.lost) == 0
    ensures Sum(Under(k), s.log.failedCalls) < DEAD_LETTER_THRESHOLD
  {
    var j := s.jobs[n];
    assert JobOk(j);
    SavingOk(j);
    var p := HeldIndex(k, Saving(j));
    OneItemFailures(k, Saving(j), Saving(j)[p]);
    AfterSaveSum(Under(k), j);
    AfterSaveSum(FailuresUnder(k), j);
    SumJobsUpdate(Under(k), s.jobs, n, AfterSave(j));
    SumJobsUpdate(FailuresUnder(k), s.jobs, n, AfterSave(j));
    JobsNoneNoFailures(k, s.jobs[n := AfterSave(j)]);
    NoneNoFailures(k, Buffers(s));
    NoneNoFailures(k, s.dlq);
    NoneNoFailures(k, s.log.saved);
    NoneNoFailures(k, s.log.reported);
    SumCharge(k, s.log.failedCalls);
  }

  // ---- the steps ----

  lemma StartRetryPair(k: Key, s: State, calls: nat)
    requires PairState(k, s, calls)
    ensures PairState(k, StartRetry(s), calls)
  {
    hide Retryable, Exhausted, Sum, JobPairState;
    if s.dlq != [] {
      EmptySums(k);
      var s', lost := StartRetry(s), Sum(Under(k), s.log.lost);
      RetryJobPair(k, s.dlq, lost);
      assert forall n :: 0 <= n < |s.jobs| ==> s'.jobs[n] == s.jobs[n];
    }
  }

  lemma RetryJobPair(k: Key, q: seq<Item>, lost: nat)
    requires lost == 0 ==> Sum(Under(k), q) == 0
    ensures JobPairState(k, Retry(Retryable(Click, q), Retryable(Analytics, q), Exhausted(q), 0), lost)
  {
    hide Retryable, Exhausted, Sum;
    SumSplit(Under(k), q);
  }

  ghost predicate EmptySum(k: Key) {
    Sum(Under(k), []) == 0
  }

  lemma StartFlushPair(k: Key, s: State, kind: Kind, calls: nat)
    requires k.kind.Analytics? && PairState(k, s, calls) && JobsPaired(StartFlush(s, kind))
    ensures PairState(k, StartFlush(s, kind), calls)
  {
    JobsEven(k, StartFlush(s, kind));
    hide Sum;
  }

  lemma FailAttemptPair(k: Key, s: State, n: nat, applied: set<string>, calls: nat)
    requires k.kind.Analytics? && n < |s.jobs| && WellFormed(s) && PairState(k, s, calls) && Total(Under(k), s) <= 2
    requires Law(FailuresUnder(k), OneFor(k), s) && Sum(FailuresUnder(k), s.log.received) == 0
    ensures PairState(k, FailAttempt(s, n, applied),
                      calls + if FailsCall(k, s, AttemptFails(n, applied)) then 1 else 0)
  {
    hide FailAttempt, Sum, Law, Total, WellFormed, JobPairState, Saving;
    var j, s' := s.jobs[n], FailAttempt(s, n, applied);
    FailedParts(s, n, applied);
    assert JobPairState(k, j, Sum(Under(k), s.log.lost));
    if MAX_RETRIES <= j.attempts {
      CallFails(k, s, n, calls);
      var r := Requeued(j, s.dlq);
      SumConcat(Under(k), s.log.lost, r.lost);
      SumConcat(FailuresUnder(k), s.log.lost, r.lost);
      SumConcat(Under(k), s.log.failedCalls, Saving(j));
      AfterSavePair(k, j, Sum(Under(k), s.log.lost), Sum(Under(k), s'.log.lost));
      JobsPairKept(k, s, s', n);
    } else {
      AttemptedPair(k, j, Sum(Under(k), s.log.lost));
      JobsPairKept(k, s, s', n);
    }
  }

  lemma FailedParts(s: State, n: nat, applied: set<string>)
    requires n < |s.jobs|
    ensures var j, s' := s.jobs[n], FailAttempt(s, n, applied);
            if j.attempts < MAX_RETRIES then
              s'.jobs == s.jobs[n := Attempted(j)] && s'.dlq == s.dlq && s'.log == s.log
            else
              var r := Requeued(j, s.dlq);
              && s'.jobs == s.jobs[n := AfterSave(j)] && s'.dlq == r.dlq
              && s'.log == s.log.(failedCalls := s.log.failedCalls + Saving(j), lost := s.log.lost + r.lost)
  {
    hide Requeued, Saving, AfterSave, AddCounts;
  }

  lemma AttemptedPair(k: Key, j: Job, lost: nat)
    requires JobPairState(k, j, lost)
    ensures JobPairState(k, Attempted(j), lost)
  {
    assert Saving(Attempted(j)) == Saving(j);
  }

  lemma AfterSavePair(k: Key, j: Job, lost: nat, lost': nat)
    requires JobPairState(k, j, lost) && lost <= lost'
    ensures JobPairState(k, AfterSave(j), lost')
  {
  }

  lemma JobsPairKept(k: Key, s: State, s': State, n: nat)
    requires n < |s.jobs| && |s'.jobs| == |s.jobs|
    requires forall m :: 0 <= m < |s.jobs| && m != n ==> s'.jobs[m] == s.jobs[m]
    requires Sum(Under(k), s.log.lost) <= Sum(Under(k), s'.log.lost)
    requires forall m :: 0 <= m < |s.jobs| ==> JobPairState(k, s.jobs[m], Sum(Under(k), s.log.lost))
    requires JobPairState(k, s'.jobs[n], Sum(Under(k), s'.log.lost))
    ensures forall m :: 0 <= m < |s'.jobs| ==> JobPairState(k, s'.jobs[m], Sum(Under(k), s'.log.lost))
  {
    hide Sum, JobSum, Saving;
  }

  lemma PassAttemptPair(k: Key, s: State, n: nat, calls: nat)
    requires n < |s.jobs| && PairState(k, s, calls)
    ensures PairState(k, PassAttempt(s, n), calls)
  {
    var lost := Sum(Under(k), s.log.lost);
    assert JobPairState(k, s.jobs[n], lost);
    AfterSavePair(k, s.jobs[n], lost, lost);
    hide Sum, AddCounts;
    JobsPairKept(k, s, PassAttempt(s, n), n);
  }

  lemma ReportPair(k: Key, s: State, n: nat, calls: nat)
    requires n < |s.jobs| && s.jobs[n].Retry? && PairState(k, s, calls)
    ensures PairState(k, Report(s, n), calls)
  {
    var lost := Sum(Under(k), s.log.lost);
    var s' := Report(s, n);
    assert JobPairState(k, s.jobs[n], lost);
    assert EmptySum(k);
    SumConcat(Under(k), s.log.reported, s.jobs[n].failed);
    assert JobPairState(k, s'.jobs[n], lost);
    hide Sum;
    JobsPairKept(k, s, s', n);
  }

  lemma ArrivePair(k: Key, s: State, kind: Kind, events: seq<Event>, calls: nat)
    requires k.kind.Analytics? && PairState(k, s, calls) && JobsPaired(Arrive(s, kind, events))
    ensures PairState(k, Arrive(s, kind, events), calls)
  {
    var t := Pushed(s, kind, events);
    assert PairState(k, t, calls);
    if |BufferOf(kind, t)| >= BATCH_SIZE {
      StartFlushPair(k, t, kind, calls);
    }
  }

  lemma TimerPair(k: Key, s: State, calls: nat)
    requires k.kind.Analytics? && PairState(k, s, calls) && JobsPaired(s) && Disciplined(s)
    ensures PairState(k, Apply(s, Timer), calls)
  {
    hide Sum, PairState;
    StartFlushJobsPaired(s, Click);
    FlushEmpties(s, Click, Click);
    StartFlushJobsPaired(StartFlush(s, Click), Analytics);
    StartFlushPair(k, s, Click, calls);
    StartFlushPair(k, StartFlush(s, Click), Analytics, calls);
    StartRetryPair(k, StartFlush(StartFlush(s, Click), Analytics), calls);
  }

  lemma StepPair(k: Key, s: State, step: Step, calls: nat)
    requires k.kind.Analytics? && WellFormed(s) && PairState(k, s, calls) && Total(Under(k), s) <= 2
    requires Law(FailuresUnder(k), OneFor(k), s) && Sum(FailuresUnder(k), s.log.received) == 0
    requires JobsPaired(s) && Disciplined(s)
    ensures PairState(k, Apply(s, step), calls + if FailsCall(k, s, step) then 1 else 0)
  {
    hide PairState, Total, Law, Sum, WellFormed, JobsPaired, Disciplined, Arrive, FailAttempt, PassAttempt, Report;
    StepJobsPaired(s, step);
    match step
    case ClickArrives(e) => ArrivePair(k, s, Click, [e], calls);
    case AnalyticsArrives(e, device) => ArrivePair(k, s, Analytics, [e, Enrich(e, device)], calls);
    case Timer => TimerPair(k, s, calls);
    case AttemptFails(n, applied) =>
      if n < |s.jobs| && Saving(s.jobs[n]) != [] {
        FailAttemptPair(k, s, n, applied, calls);
      } else if n < |s.jobs| {
        assert EmptySum(k) by { EmptySums(k); }
      }
    case AttemptSucceeds(n) =>
      if n < |s.jobs| && Saving(s.jobs[n]) != [] { PassAttemptPair(k, s, n, calls); }
    case ReportFailed(n) =>
      if n < |s.jobs| && Saving(s.jobs[n]) == [] && s.jobs[n].Retry? { ReportPair(k, s, n, calls); }
    case LateUpdate(_, _) => LateUpdatePair(k, s, step, calls);
  }

  lemma EmptySums(k: Key)
    ensures EmptySum(k)
  {
  }

  lemma LateUpdatePair(k: Key, s: State, step: Step, calls: nat)
    requires step.LateUpdate? && PairState(k, s, calls)
    ensures PairState(k, Apply(s, step), calls)
  {
    hide Sum;
  }

  lemma ReceivedGrows(k: Key, steps: seq<Step>)
    requires steps != []
    ensures Sum(Under(k), Received(steps[..|steps| - 1])) <= Sum(Under(k), Received(steps))
  {
    SumConcat(Under(k), Received(steps[..|steps| - 1]), News(steps[|steps| - 1]));
  }

  lemma {:induction false} RunPair(k: Key, steps: seq<Step>)
    requires k.kind.Analytics? && Sum(Under(k), Received(steps)) <= 2
    ensures PairState(k, Exec(Init(), steps), FailedCalls(k, steps))
  {
    hide Apply, PairState, Sum, Total, WellFormed, Disciplined, JobsPaired, Law, FailsCall;
    if steps == [] {
      EmptyPair(k);
    } else {
      var before, last := steps[..|steps| - 1], steps[|steps| - 1];
      var s := Exec(Init(), before);
      ReceivedGrows(k, steps);
      RunPair(k, before);
      RunWellFormed(before);
      RunJobsPaired(before);
      BufferDiscipline(Analytics, before);
      KeysConserved(k, before);
      RunReceives(before);
      NoFailuresReceived(k, before);
      FailuresCharge(k);
      RunLaw(FailuresUnder(k), OneFor(k), before);
      StepPair(k, s, last, FailedCalls(k, before));
      assert Exec(Init(), steps) == Apply(s, last);
    }
  }

  lemma FailuresCharge(k: Key)
    ensures Charges(FailuresUnder(k), OneFor(k))
  {
  }

  lemma EmptyPair(k: Key)
    ensures PairState(k, Init(), 0)
  {
  }

  /**
   The counterpart of `ExactlyOnePlace` for analytics.  If only one raw event and its enriched
   copy have a key, then after any run at most one copy is lost, exactly when a call failed
   for good; a copy that was reported stands at three failures after only two failed save
   calls; one that waits in the queue stands at one more than the calls that failed; and one
   that was saved has been through at most one.
   */
  lemma PairReportedAfterTwo(k: Key, steps: seq<Step>)
    requires k.kind.Analytics? && Sum(Under(k), Received(steps)) == 2
    ensures var s, calls := Exec(Init(), steps), FailedCalls(k, steps);
            && Sum(Under(k), s.log.lost) == (if calls == 0 then 0 else 1)
            && (forall i :: i in s.log.reported && KeyOf(i) == k ==> i.failures == 3 && calls == 2)
            && (forall i :: i in s.dlq && KeyOf(i) == k ==> i.failures == calls + 1)
            && (forall i :: i in s.log.saved && KeyOf(i) == k ==> calls < 2)
  {
    var s, calls := Exec(Init(), steps), FailedCalls(k, steps);
    RunPair(k, steps);
    RunWellFormed(steps);
    KeysConserved(k, steps);
    RunReceives(steps);
    FailuresConserved(k, steps);
    RunLossNeedsClash(k, steps);
    PairFates(k, s, calls);
  }

  lemma PairFates(k: Key, s: State, calls: nat)
    requires PairState(k, s, calls) && WellFormed(s) && Total(Under(k), s) == 2
    requires Total(FailuresUnder(k), s) == Sum(Under(k), s.log.failedCalls)
    ensures Sum(Under(k), s.log.lost) == (if calls == 0 then 0 else 1)
    ensures forall i :: i in s.log.reported && KeyOf(i) == k ==> i.failures == 3 && calls == 2
    ensures forall i :: i in s.dlq && KeyOf(i) == k ==> i.failures == calls + 1
    ensures forall i :: i in s.log.saved && KeyOf(i) == k ==> calls < 2
  {
    hide Sum, Total;
    forall i | i in s.log.reported && KeyOf(i) == k
      ensures i.failures == 3 && calls == 2
    {
      SumPositive(k, s.log.reported, i);
      OneLeft(k, s);
      OneItemFailures(k, s.log.reported, i);
    }
    forall i | i in s.dlq && KeyOf(i) == k
      ensures i.failures == calls + 1
    {
      SumPositive(k, s.dlq, i);
      OneLeft(k, s);
      OneItemFailures(k, s.dlq, i);
    }
    forall i | i in s.log.saved && KeyOf(i) == k && 0 < calls
      ensures calls < 2
    {
      SumPositive(k, s.log.saved, i);
      OneLeft(k, s);
      OneItemFailures(k, s.log.saved, i);
    }
  }

  /** With one copy lost before it failed, the other one holds all failures of the key. */
  lemma OneLeft(k: Key, s: State)
    requires Total(Under(k), s) == 2 && Sum(Under(k), s.log.lost) == 1 && Sum(FailuresUnder(k), s.log.lost) == 0
    ensures 0 < Sum(Under(k), s.log.reported) ==>
              Sum(Under(k), s.log.reported) == 1 && Total(FailuresUnder(k), s) == Sum(FailuresUnder(k), s.log.reported)
    ensures 0 < Sum(Under(k), s.dlq) ==>
              Sum(Under(k), s.dlq) == 1 && Total(FailuresUnder(k), s) == Sum(FailuresUnder(k), s.dlq)
    ensures 0 < Sum(Under(k), s.log.saved) ==>
              Sum(Under(k), s.log.saved) == 1 && Total(FailuresUnder(k), s) == Sum(FailuresUnder(k), s.log.saved)
  {
    hide Sum, Buffers, SumJobs;
    ZeroFailures(k, Buffers(s));
    ZeroFailures(k, s.dlq);
    ZeroFailures(k, s.log.saved);
    ZeroFailures(k, s.log.reported);
    if SumJobs(Under(k), s.jobs) == 0 {
      JobsNoneNoFailures(k, s.jobs);
    }
  }

  lemma ZeroFailures(k: Key, items: seq<Item>)
    ensures Sum(Under(k), items) == 0 ==> Sum(FailuresUnder(k), items) == 0
  {
    if Sum(Under(k), items) == 0 {
      NoneNoFailures(k, items);
    }
  }
}
