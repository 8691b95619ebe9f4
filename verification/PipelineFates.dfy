/**
 What every run of the pipeline keeps about failure counts and losses: the ranges of the
 counts, that a loss needs a clash of keys, and how far a clash can drive a count.
 */
module PipelineFates {
  import opened Common
  import opened PipelineModel
  import opened PipelineLaws
  import opened PipelineBuffers

  ghost predicate UniqueKeys(q: seq<Item>) {
    forall i, j :: 0 <= i < j < |q| ==> KeyOf(q[i]) != KeyOf(q[j])
  }

  ghost predicate JobOk(j: Job) {
    && j.attempts <= MAX_RETRIES
    && (j.Retry? ==>
          && (forall i :: 0 <= i < |j.clicks| ==> j.clicks[i].kind.Click? && 0 < j.clicks[i].failures < DEAD_LETTER_THRESHOLD)
          && (forall i :: 0 <= i < |j.analytics| ==>
                j.analytics[i].kind.Analytics? && 0 < j.analytics[i].failures < DEAD_LETTER_THRESHOLD)
          && (forall i :: 0 <= i < |j.failed| ==> DEAD_LETTER_THRESHOLD <= j.failed[i].failures))
  }

  ghost predicate WellFormed(s: State) {
    && UniqueKeys(s.dlq)
    && (forall i :: 0 <= i < |s.dlq| ==> 0 < s.dlq[i].failures)
    && (forall n :: 0 <= n < |s.jobs| ==> JobOk(s.jobs[n]))
    && (forall i :: 0 <= i < |s.log.saved| ==> s.log.saved[i].failures < DEAD_LETTER_THRESHOLD)
    && (forall i :: 0 <= i < |s.log.reported| ==> DEAD_LETTER_THRESHOLD <= s.log.reported[i].failures)
  }

  // ---- well-formedness is kept ----

  /** Facts about the two ways back into the queue, for any bound on the failures that go in. */
  lemma {:induction false} BumpAllOk(q: seq<Item>, batch: seq<Item>)
    requires UniqueKeys(q) && forall i :: 0 <= i < |q| ==> 0 < q[i].failures
    ensures var r := BumpAll(q, batch);
            UniqueKeys(r.dlq) && forall i :: 0 <= i < |r.dlq| ==> 0 < r.dlq[i].failures
  {
    if batch != [] {
      BumpAllOk(q, batch[..|batch| - 1]);
      var r, b := BumpAll(q, batch[..|batch| - 1]), batch[|batch| - 1];
      var p := IndexOf(r.dlq, KeyOf(b));
    }
  }

  lemma {:induction false} PutAllOk(q: seq<Item>, items: seq<Item>)
    requires UniqueKeys(q) && forall i :: 0 <= i < |q| ==> 0 < q[i].failures
    ensures var r := PutAll(q, items);
            UniqueKeys(r.dlq) && forall i :: 0 <= i < |r.dlq| ==> 0 < r.dlq[i].failures
  {
    if items != [] {
      PutAllOk(q, items[..|items| - 1]);
      var r, b := PutAll(q, items[..|items| - 1]), items[|items| - 1];
      var p := IndexOf(r.dlq, KeyOf(b));
    }
  }

  lemma {:induction false} SplitOk(kind: Kind, q: seq<Item>)
    requires forall i :: 0 <= i < |q| ==> 0 < q[i].failures
    ensures forall i :: 0 <= i < |Retryable(kind, q)| ==>
              var x := Retryable(kind, q)[i]; x in q && x.kind == kind && 0 < x.failures < DEAD_LETTER_THRESHOLD
    ensures forall i :: 0 <= i < |Exhausted(q)| ==>
              var x := Exhausted(q)[i]; x in q && DEAD_LETTER_THRESHOLD <= x.failures
  {
    if q != [] {
      SplitOk(kind, q[..|q| - 1]);
    }
  }

  lemma StartFlushWellFormed(s: State, kind: Kind)
    requires WellFormed(s)
    ensures WellFormed(StartFlush(s, kind))
  {
  }

  lemma ArriveWellFormed(s: State, kind: Kind, events: seq<Event>)
    requires WellFormed(s)
    ensures WellFormed(Arrive(s, kind, events))
  {
    StartFlushWellFormed(Pushed(s, kind, events), kind);
  }

  lemma StartRetryWellFormed(s: State)
    requires WellFormed(s)
    ensures WellFormed(StartRetry(s))
  {
    SplitOk(Click, s.dlq);
    SplitOk(Analytics, s.dlq);
  }

  lemma SavingOk(j: Job)
    requires JobOk(j)
    ensures JobOk(AfterSave(j))
    ensures forall i :: 0 <= i < |Saving(j)| ==> Saving(j)[i].failures < DEAD_LETTER_THRESHOLD
  {
  }

  lemma FailAttemptWellFormed(s: State, n: nat, applied: set<string>)
    requires WellFormed(s) && n < |s.jobs|
    ensures WellFormed(FailAttempt(s, n, applied))
  {
    var j := s.jobs[n];
    SavingOk(j);
    BumpAllOk(s.dlq, Saving(j));
    PutAllOk(s.dlq, Saving(j));
    assert JobOk(s.jobs[n]);
    var s' := FailAttempt(s, n, applied);
    assert forall m :: 0 <= m < |s'.jobs| ==> JobOk(s'.jobs[m]);
  }

  lemma PassAttemptWellFormed(s: State, n: nat)
    requires WellFormed(s) && n < |s.jobs|
    ensures WellFormed(PassAttempt(s, n))
  {
    SavingOk(s.jobs[n]);
  }

  lemma StepWellFormed(s: State, step: Step)
    requires WellFormed(s)
    ensures WellFormed(Apply(s, step))
  {
    match step
    case ClickArrives(e) => ArriveWellFormed(s, Click, [e]);
    case AnalyticsArrives(e, device) => ArriveWellFormed(s, Analytics, [e, Enrich(e, device)]);
    case Timer =>
      StartFlushWellFormed(s, Click);
      StartFlushWellFormed(StartFlush(s, Click), Analytics);
      StartRetryWellFormed(StartFlush(StartFlush(s, Click), Analytics));
    case AttemptFails(n, applied) =>
      if n < |s.jobs| { FailAttemptWellFormed(s, n, applied); }
    case AttemptSucceeds(n) =>
      if n < |s.jobs| { PassAttemptWellFormed(s, n); }
    case ReportFailed(n) =>
    case LateUpdate(_, _) =>
  }

  lemma {:induction false} RunWellFormed(steps: seq<Step>)
    ensures WellFormed(Exec(Init(), steps))
  {
    hide Apply;
    if steps != [] {
      var before, last := Exec(Init(), steps[..|steps| - 1]), steps[|steps| - 1];
      RunWellFormed(steps[..|steps| - 1]);
      StepWellFormed(before, last);
      assert Exec(Init(), steps) == Apply(before, last);
    }
  }

  // ---- a loss needs a clash ----

  lemma {:induction false} BumpAllLoses(k: Key, q: seq<Item>, batch: seq<Item>)
    ensures 0 < Sum(Under(k), BumpAll(q, batch).lost) ==> 2 <= Sum(Under(k), q) + Sum(Under(k), batch)
  {
    if batch != [] {
      var n := |batch| - 1;
      BumpAllLoses(k, q, batch[..n]);
      var r := BumpAll(q, batch[..n]);
      BumpAllSum(Under(k), Free(), q, batch[..n]);
      SumCharge(k, batch[..n]);
      var p := IndexOf(r.dlq, KeyOf(batch[n]));
      if p < |r.dlq| {
        SumConcat(Under(k), r.lost, [batch[n]]);
        SumAtLeast(Under(k), r.dlq, p);
      }
    }
  }

  lemma {:induction false} PutAllLoses(k: Key, q: seq<Item>, items: seq<Item>)
    ensures 0 < Sum(Under(k), PutAll(q, items).lost) ==> 2 <= Sum(Under(k), q) + Sum(Under(k), items)
  {
    if items != [] {
      var n := |items| - 1;
      PutAllLoses(k, q, items[..n]);
      var r := PutAll(q, items[..n]);
      PutAllSum(Under(k), Free(), q, items[..n]);
      SumCharge(k, items[..n]);
      var p := IndexOf(r.dlq, KeyOf(items[n]));
      if p < |r.dlq| {
        SumConcat(Under(k), r.lost, [r.dlq[p]]);
        SumAtLeast(Under(k), r.dlq, p);
      }
    }
  }

  lemma {:induction false} SumJobsAtLeast(v: Item -> nat, jobs: seq<Job>, n: nat)
    requires n < |jobs|
    ensures Sum(v, Saving(jobs[n])) <= JobSum(v, jobs[n]) <= SumJobs(v, jobs)
  {
    if n < |jobs| - 1 {
      SumJobsAtLeast(v, jobs[..|jobs| - 1], n);
    }
  }

  /** Whatever is lost under a key, two events with that key were about. */
  ghost predicate LossNeedsClash(k: Key, s: State) {
    0 < Sum(Under(k), s.log.lost) ==> 2 <= Total(Under(k), s)
  }

  lemma StepLossNeedsClash(k: Key, s: State, step: Step)
    requires LossNeedsClash(k, s) && Law(Under(k), Free(), s)
    ensures LossNeedsClash(k, Apply(s, step))
  {
    StepLaw(Under(k), Free(), s, step);
    SumCharge(k, s.log.failedCalls);
    SumCharge(k, Apply(s, step).log.failedCalls);
    StepReceives(s, step);
    SumConcat(Under(k), s.log.received, News(step));
    if step.AttemptFails? && step.job < |s.jobs| && Saving(s.jobs[step.job]) != [] {
      var j := s.jobs[step.job];
      if MAX_RETRIES <= j.attempts {
        BumpAllLoses(k, s.dlq, Saving(j));
        PutAllLoses(k, s.dlq, Saving(j));
        SumJobsAtLeast(Under(k), s.jobs, step.job);
        SumConcat(Under(k), s.log.lost, Requeued(j, s.dlq).lost);
      }
    } else {
      StepLosesOnlyOnFailure(s, step);
    }
  }

  lemma StepLosesOnlyOnFailure(s: State, step: Step)
    requires !(step.AttemptFails? && step.job < |s.jobs| && Saving(s.jobs[step.job]) != [])
    ensures Apply(s, step).log.lost == s.log.lost
  {
  }

  lemma {:induction false} RunLossNeedsClash(k: Key, steps: seq<Step>)
    ensures LossNeedsClash(k, Exec(Init(), steps))
  {
    hide Apply;
    if steps != [] {
      var before, last := Exec(Init(), steps[..|steps| - 1]), steps[|steps| - 1];
      RunLossNeedsClash(k, steps[..|steps| - 1]);
      RunLaw(Under(k), Free(), steps[..|steps| - 1]);
      StepLossNeedsClash(k, before, last);
      assert Exec(Init(), steps) == Apply(before, last);
    }
  }

  // ---- failure counts stay at three unless a clash bumps them ----

  ghost predicate Capped(lost: seq<Item>, items: seq<Item>) {
    forall i :: 0 <= i < |items| ==>
      items[i].failures <= DEAD_LETTER_THRESHOLD + Sum(Under(KeyOf(items[i])), lost)
  }

  ghost predicate AllCapped(s: State) {
    && Capped(s.log.lost, s.dlq)
    && (forall n :: 0 <= n < |s.jobs| && s.jobs[n].Retry? ==> Capped(s.log.lost, s.jobs[n].failed))
    && Capped(s.log.lost, s.log.reported)
  }

  lemma CappedMore(lost: seq<Item>, more: seq<Item>, items: seq<Item>)
    requires Capped(lost, items)
    ensures Capped(lost + more, items)
  {
    forall i | 0 <= i < |items|
      ensures items[i].failures <= DEAD_LETTER_THRESHOLD + Sum(Under(KeyOf(items[i])), lost + more)
    {
      SumConcat(Under(KeyOf(items[i])), lost, more);
    }
  }

  lemma BumpCapped(lost: seq<Item>, r: Queued, b: Item)
    requires Capped(lost + r.lost, r.dlq)
    ensures Capped(lost + Bump(r, b).lost, Bump(r, b).dlq) || DEAD_LETTER_THRESHOLD <= b.failures
  {
    var p := IndexOf(r.dlq, KeyOf(b));
    if p < |r.dlq| {
      var all := lost + r.lost;
      assert lost + (r.lost + [b]) == all + [b];
      CappedMore(all, [b], r.dlq);
      SumConcat(Under(KeyOf(b)), all, [b]);
      assert Sum(Under(KeyOf(b)), [b]) == 1;
      assert r.dlq[p].failures <= DEAD_LETTER_THRESHOLD + Sum(Under(KeyOf(b)), all);
    }
  }

  lemma PutCapped(lost: seq<Item>, r: Queued, b: Item)
    requires Capped(lost + r.lost, r.dlq)
    ensures Capped(lost + Put(r, b).lost, Put(r, b).dlq) || DEAD_LETTER_THRESHOLD <= b.failures
  {
    var p := IndexOf(r.dlq, KeyOf(b));
    if p < |r.dlq| {
      assert lost + (r.lost + [r.dlq[p]]) == (lost + r.lost) + [r.dlq[p]];
      CappedMore(lost + r.lost, [r.dlq[p]], r.dlq);
    }
  }

  lemma {:induction false} BumpAllCapped(lost: seq<Item>, q: seq<Item>, batch: seq<Item>)
    requires Capped(lost, q)
    requires forall i :: 0 <= i < |batch| ==> batch[i].failures < DEAD_LETTER_THRESHOLD
    ensures Capped(lost + BumpAll(q, batch).lost, BumpAll(q, batch).dlq)
  {
    if batch == [] {
      assert lost + [] == lost;
    } else {
      BumpAllCapped(lost, q, batch[..|batch| - 1]);
      BumpCapped(lost, BumpAll(q, batch[..|batch| - 1]), batch[|batch| - 1]);
    }
  }

  lemma {:induction false} PutAllCapped(lost: seq<Item>, q: seq<Item>, items: seq<Item>)
    requires Capped(lost, q)
    requires forall i :: 0 <= i < |items| ==> items[i].failures < DEAD_LETTER_THRESHOLD
    ensures Capped(lost + PutAll(q, items).lost, PutAll(q, items).dlq)
  {
    if items == [] {
      assert lost + [] == lost;
    } else {
      PutAllCapped(lost, q, items[..|items| - 1]);
      PutCapped(lost, PutAll(q, items[..|items| - 1]), items[|items| - 1]);
    }
  }

  lemma {:induction false} ExhaustedFrom(q: seq<Item>)
    ensures forall i :: 0 <= i < |Exhausted(q)| ==> Exhausted(q)[i] in q
  {
    if q != [] {
      ExhaustedFrom(q[..|q| - 1]);
    }
  }

  lemma FailAttemptCapped(s: State, n: nat, applied: set<string>)
    requires WellFormed(s) && AllCapped(s) && n < |s.jobs|
    ensures AllCapped(FailAttempt(s, n, applied))
  {
    var j := s.jobs[n];
    var s' := FailAttempt(s, n, applied);
    SavingOk(j);
    if j.attempts == MAX_RETRIES {
      var more := Requeued(j, s.dlq).lost;
      BumpAllCapped(s.log.lost, s.dlq, Saving(j));
      PutAllCapped(s.log.lost, s.dlq, Saving(j));
      CappedMore(s.log.lost, more, s.log.reported);
      forall m | 0 <= m < |s.jobs| && s.jobs[m].Retry?
        ensures Capped(s'.log.lost, s'.jobs[m].failed)
      {
        CappedMore(s.log.lost, more, s.jobs[m].failed);
      }
    } else {
      assert JobOk(j);
    }
  }

  lemma StartFlushCapped(s: State, kind: Kind)
    requires AllCapped(s)
    ensures AllCapped(StartFlush(s, kind))
  {
  }

  lemma ArriveCapped(s: State, kind: Kind, events: seq<Event>)
    requires AllCapped(s)
    ensures AllCapped(Arrive(s, kind, events))
  {
    StartFlushCapped(Pushed(s, kind, events), kind);
  }

  lemma StartRetryCapped(s: State)
    requires AllCapped(s)
    ensures AllCapped(StartRetry(s))
  {
    ExhaustedFrom(s.dlq);
    assert Capped(s.log.lost, Exhausted(s.dlq));
  }

  lemma StepCapped(s: State, step: Step)
    requires WellFormed(s) && AllCapped(s)
    ensures AllCapped(Apply(s, step))
  {
    match step
    case AttemptFails(n, applied) =>
      if n < |s.jobs| && Saving(s.jobs[n]) != [] { FailAttemptCapped(s, n, applied); }
    case Timer =>
      StartFlushCapped(s, Click);
      StartFlushCapped(StartFlush(s, Click), Analytics);
      StartRetryCapped(StartFlush(StartFlush(s, Click), Analytics));
    case ReportFailed(n) =>
      if n < |s.jobs| && Saving(s.jobs[n]) == [] && s.jobs[n].Retry? {
        assert Capped(s.log.lost, s.jobs[n].failed);
      }
    case ClickArrives(e) => ArriveCapped(s, Click, [e]);
    case AnalyticsArrives(e, device) => ArriveCapped(s, Analytics, [e, Enrich(e, device)]);
    case AttemptSucceeds(_) =>
    case LateUpdate(_, _) =>
  }

  lemma {:induction false} RunCapped(steps: seq<Step>)
    ensures AllCapped(Exec(Init(), steps))
  {
    hide Apply;
    if steps != [] {
      var before, last := Exec(Init(), steps[..|steps| - 1]), steps[|steps| - 1];
      RunCapped(steps[..|steps| - 1]);
      RunWellFormed(steps[..|steps| - 1]);
      StepCapped(before, last);
      assert Exec(Init(), steps) == Apply(before, last);
    }
  }
}
