/** Once arrivals stop, four rounds of flushing empty the pipeline whatever the database does. */
module PipelineDrain {
  import opened Common
  import opened PipelineModel
  import opened PipelineBuffers
  import opened PipelineFates

  predicate IsJobStep(step: Step) {
    !step.ClickArrives? && !step.AnalyticsArrives? && !step.Timer?
  }

  ghost predicate JobSteps(steps: seq<Step>) {
    forall i :: 0 <= i < |steps| ==> IsJobStep(steps[i])
  }

  ghost predicate Quiet(s: State) {
    forall n :: 0 <= n < |s.jobs| ==> Idle(s.jobs[n])
  }

  ghost predicate AtLeast(k: nat, items: seq<Item>) {
    forall i :: 0 <= i < |items| ==> k <= items[i].failures
  }

  /**
   In the middle of a round that started with every queued item at `k` failures or more: what
   is being retried stands at `k` or more, what is back in the queue at more than `k`.
   */
  ghost predicate Working(k: nat, s: State) {
    && WellFormed(s)
    && s.clickBuffer == [] && s.analyticsBuffer == []
    && AtLeast(k + 1, s.dlq)
    && (k == DEAD_LETTER_THRESHOLD ==> s.dlq == [])
    && forall n :: 0 <= n < |s.jobs| ==>
         match s.jobs[n]
         case Flush(_, batch, _) => k == 0 || batch == []
         case Retry(clicks, analytics, _, _) => AtLeast(k, clicks) && AtLeast(k, analytics)
  }

  lemma {:induction false} BumpAllLevel(q: seq<Item>, batch: seq<Item>)
    requires AtLeast(1, q)
    ensures AtLeast(1, BumpAll(q, batch).dlq)
  {
    if batch != [] {
      BumpAllLevel(q, batch[..|batch| - 1]);
    }
  }

  lemma {:induction false} PutAllLevel(k: nat, q: seq<Item>, items: seq<Item>)
    requires AtLeast(k + 1, q) && AtLeast(k, items)
    ensures AtLeast(k + 1, PutAll(q, items).dlq)
  {
    if items != [] {
      PutAllLevel(k, q, items[..|items| - 1]);
    }
  }

  lemma {:induction false} SplitLevel(k: nat, kind: Kind, q: seq<Item>)
    requires AtLeast(k, q)
    ensures AtLeast(k, Retryable(kind, q))
  {
    if q != [] {
      SplitLevel(k, kind, q[..|q| - 1]);
    }
  }

  lemma Squeezed(items: seq<Item>)
    requires forall i :: 0 <= i < |items| ==> items[i].failures < DEAD_LETTER_THRESHOLD
    ensures AtLeast(DEAD_LETTER_THRESHOLD, items) ==> items == []
  {
    if items != [] {
      assert items[0].failures < DEAD_LETTER_THRESHOLD;
    }
  }

  lemma NothingToSaveAtThree(s: State, n: nat)
    requires Working(DEAD_LETTER_THRESHOLD, s) && n < |s.jobs|
    ensures Saving(s.jobs[n]) == []
  {
    var j := s.jobs[n];
    assert JobOk(j);
    if j.Retry? {
      Squeezed(j.clicks);
      Squeezed(j.analytics);
    }
  }

  lemma FailAttemptWorking(k: nat, s: State, n: nat, applied: set<string>)
    requires k <= DEAD_LETTER_THRESHOLD && Working(k, s) && n < |s.jobs| && Saving(s.jobs[n]) != []
    ensures Working(k, FailAttempt(s, n, applied))
  {
    if k == DEAD_LETTER_THRESHOLD {
      NothingToSaveAtThree(s, n);
    }
    var j := s.jobs[n];
    FailAttemptWellFormed(s, n, applied);
    if j.Flush? {
      BumpAllLevel(s.dlq, Saving(j));
    } else {
      PutAllLevel(k, s.dlq, Saving(j));
    }
  }

  lemma StepWorking(k: nat, s: State, step: Step)
    requires k <= DEAD_LETTER_THRESHOLD && Working(k, s) && IsJobStep(step)
    ensures Working(k, Apply(s, step))
  {
    StepWellFormed(s, step);
    if step.AttemptFails? && step.job < |s.jobs| && Saving(s.jobs[step.job]) != [] {
      FailAttemptWorking(k, s, step.job, step.applied);
    }
  }

  lemma {:induction false} RunWorking(k: nat, s: State, steps: seq<Step>)
    requires k <= DEAD_LETTER_THRESHOLD && Working(k, s) && JobSteps(steps)
    ensures Working(k, Exec(s, steps))
  {
    hide Apply;
    if steps != [] {
      var last := steps[|steps| - 1];
      RunWorking(k, s, steps[..|steps| - 1]);
      assert IsJobStep(last);
      StepWorking(k, Exec(s, steps[..|steps| - 1]), last);
    }
  }

  lemma StartRetryWorking(k: nat, s: State)
    requires k <= DEAD_LETTER_THRESHOLD && WellFormed(s) && AtLeast(k, s.dlq)
    requires s.clickBuffer == [] && s.analyticsBuffer == []
    requires forall n :: 0 <= n < |s.jobs| ==> Idle(s.jobs[n]) || (k == 0 && s.jobs[n].Flush?)
    ensures Working(k, StartRetry(s))
  {
    StartRetryWellFormed(s);
    SplitLevel(k, Click, s.dlq);
    SplitLevel(k, Analytics, s.dlq);
    forall n | 0 <= n < |s.jobs|
      ensures match s.jobs[n]
              case Flush(_, batch, _) => k == 0 || batch == []
              case Retry(clicks, analytics, _, _) => clicks == [] && analytics == []
    {
      assert Idle(s.jobs[n]) || (k == 0 && s.jobs[n].Flush?);
      if s.jobs[n].Flush? && Idle(s.jobs[n]) {
        assert |Saving(s.jobs[n])| == |s.jobs[n].batch|;
      }
    }
  }

  lemma StartFlushOnlyAdds(s: State, kind: Kind)
    requires forall n :: 0 <= n < |s.jobs| ==> Idle(s.jobs[n]) || s.jobs[n].Flush?
    ensures var s' := StartFlush(s, kind);
            s'.dlq == s.dlq && forall n :: 0 <= n < |s'.jobs| ==> Idle(s'.jobs[n]) || s'.jobs[n].Flush?
  {
  }

  /** The first round may flush; the later ones find the buffers empty. */
  lemma TimerWorking(k: nat, s: State)
    requires k <= DEAD_LETTER_THRESHOLD && WellFormed(s) && Disciplined(s) && Quiet(s) && AtLeast(k, s.dlq)
    requires k == 0 || (s.clickBuffer == [] && s.analyticsBuffer == [])
    ensures Working(k, Apply(s, Timer))
  {
    TimerDisciplined(Click, s);
    StartFlushWellFormed(s, Click);
    StartFlushWellFormed(StartFlush(s, Click), Analytics);
    StartFlushOnlyAdds(s, Click);
    StartFlushOnlyAdds(StartFlush(s, Click), Analytics);
    var t := StartFlush(StartFlush(s, Click), Analytics);
    FlushEmpties(s, Click, Click);
    FlushEmpties(StartFlush(s, Click), Analytics, Click);
    StartRetryWorking(k, t);
  }

  /** One call of the timer, with everything it starts run to its end in any order. */
  function Round(s: State, answers: seq<Step>): State {
    Exec(Apply(s, Timer), answers)
  }

  lemma RoundRaises(k: nat, s: State, answers: seq<Step>)
    requires k <= DEAD_LETTER_THRESHOLD && WellFormed(s) && Disciplined(s) && Quiet(s) && AtLeast(k, s.dlq)
    requires k == 0 || (s.clickBuffer == [] && s.analyticsBuffer == [])
    requires JobSteps(answers)
    ensures Working(k, Round(s, answers)) && Disciplined(Round(s, answers))
  {
    TimerWorking(k, s);
    TimerDisciplined(Click, s);
    RunWorking(k, Apply(s, Timer), answers);
    RunDisciplined(Apply(s, Timer), answers);
  }

  lemma {:induction false} RunDisciplined(s: State, steps: seq<Step>)
    requires Disciplined(s)
    ensures Disciplined(Exec(s, steps))
  {
    hide Apply;
    if steps != [] {
      RunDisciplined(s, steps[..|steps| - 1]);
      StepDisciplined(Click, Exec(s, steps[..|steps| - 1]), steps[|steps| - 1]);
    }
  }

  /**
   After any run that leaves nothing in flight, four completed rounds without arrivals empty
   both buffers and the dead-letter queue, whatever the database answers and even with
   clashing keys: every round raises the least failure count in the queue.
   */
  lemma FourRoundsDrain(steps: seq<Step>, a: seq<Step>, b: seq<Step>, c: seq<Step>, d: seq<Step>)
    requires var s := Exec(Init(), steps);
             && JobSteps(a) && JobSteps(b) && JobSteps(c) && JobSteps(d)
             && Quiet(s) && Quiet(Round(s, a)) && Quiet(Round(Round(s, a), b))
             && Quiet(Round(Round(Round(s, a), b), c))
    ensures var s' := Round(Round(Round(Round(Exec(Init(), steps), a), b), c), d);
            s'.clickBuffer == [] && s'.analyticsBuffer == [] && s'.dlq == []
  {
    var s := Exec(Init(), steps);
    RunWellFormed(steps);
    BufferDiscipline(Click, steps);
    RoundRaises(0, s, a);
    RoundRaises(1, Round(s, a), b);
    RoundRaises(2, Round(Round(s, a), b), c);
    RoundRaises(3, Round(Round(Round(s, a), b), c), d);
  }

  // ---- every round comes to an end ----

  /** The answers a job is still waiting for, at most. */
  function Work(j: Job): nat
    requires j.attempts <= MAX_RETRIES
  {
    match j
    case Flush(_, batch, attempts) => if batch == [] then 0 else 4 - attempts
    case Retry(clicks, analytics, failed, attempts) =>
      (if clicks != [] then (4 - attempts) + (if analytics != [] then 4 else 0)
       else if analytics != [] then 4 - attempts else 0)
      + if failed != [] then 1 else 0
  }

  function WorkOf(jobs: seq<Job>): nat
    requires forall n :: 0 <= n < |jobs| ==> jobs[n].attempts <= MAX_RETRIES
  {
    if jobs == [] then 0 else WorkOf(jobs[..|jobs| - 1]) + Work(jobs[|jobs| - 1])
  }

  lemma {:induction false} WorkUpdate(jobs: seq<Job>, p: nat, j: Job)
    requires p < |jobs| && j.attempts <= MAX_RETRIES
    requires forall n :: 0 <= n < |jobs| ==> jobs[n].attempts <= MAX_RETRIES
    ensures WorkOf(jobs[p := j]) + Work(jobs[p]) == WorkOf(jobs) + Work(j)
  {
    var n := |jobs| - 1;
    if p == n {
      assert jobs[p := j][..n] == jobs[..n];
    } else {
      WorkUpdate(jobs[..n], p, j);
      assert jobs[p := j][..n] == jobs[..n][p := j];
    }
  }

  lemma {:induction false} NoWorkIffIdle(jobs: seq<Job>)
    requires forall n :: 0 <= n < |jobs| ==> jobs[n].attempts <= MAX_RETRIES
    ensures WorkOf(jobs) == 0 <==> forall n :: 0 <= n < |jobs| ==> Idle(jobs[n])
  {
    if jobs != [] {
      var n := |jobs| - 1;
      NoWorkIffIdle(jobs[..n]);
      if jobs[n].Flush? {
        assert |Saving(jobs[n])| == |jobs[n].batch|;
      }
      assert Work(jobs[n]) == 0 <==> Idle(jobs[n]);
      assert forall m :: 0 <= m < n ==> jobs[..n][m] == jobs[m];
    }
  }

  /** The answers that a job can get next: refusal or success while it saves, else its report. */
  predicate Answers(s: State, step: Step) {
    match step
    case AttemptFails(n, _) => n < |s.jobs| && Saving(s.jobs[n]) != []
    case AttemptSucceeds(n) => n < |s.jobs| && Saving(s.jobs[n]) != []
    case ReportFailed(n) => n < |s.jobs| && Saving(s.jobs[n]) == [] && s.jobs[n].Retry? && s.jobs[n].failed != []
    case _ => false
  }

  /** Each answer brings the round nearer its end, and the round is over when no job waits. */
  lemma AnswersRunOut(s: State, step: Step)
    requires WellFormed(s) && Answers(s, step)
    ensures WellFormed(Apply(s, step)) && WorkOf(Apply(s, step).jobs) < WorkOf(s.jobs)
    ensures WorkOf(Apply(s, step).jobs) == 0 <==> Quiet(Apply(s, step))
  {
    StepWellFormed(s, step);
    var n := step.job;
    var j, s' := s.jobs[n], Apply(s, step);
    assert JobOk(j) && JobOk(s'.jobs[n]);
    assert s'.jobs == s.jobs[n := s'.jobs[n]];
    if j.Flush? {
      assert |Saving(j)| == |j.batch|;
    }
    WorkUpdate(s.jobs, n, s'.jobs[n]);
    NoWorkIffIdle(s'.jobs);
  }
}
