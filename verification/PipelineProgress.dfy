/**
 Progress of the click pipeline with timers that fire while earlier work is still in flight, as
 they do when a save is refused: its waits are longer than the flush interval.  A potential
 pays for every answer of the database.
 */
module PipelineProgress {
  import opened Common
  import opened PipelineModel
  import opened PipelineLaws
  import opened PipelineFates
  import opened PipelineTheorems
  import D = PipelineDrain

  /** The answers an item can still take part in, and one more for being about. */
  function Weight(): Item -> nat {
    (i: Item) => if i.failures < DEAD_LETTER_THRESHOLD then 4 * (DEAD_LETTER_THRESHOLD - i.failures) + 1 else 1
  }

  /** Failed attempts of the save call under way have been paid for by the items in it. */
  function JobPotential(j: Job): int {
    JobSum(Weight(), j) - j.attempts * |Saving(j)|
  }

  function JobsPotential(jobs: seq<Job>): int {
    if jobs == [] then 0 else JobsPotential(jobs[..|jobs| - 1]) + JobPotential(jobs[|jobs| - 1])
  }

  function Potential(s: State): int {
    Sum(Weight(), Buffers(s)) + Sum(Weight(), s.dlq) + JobsPotential(s.jobs)
  }

  lemma {:induction false} JobsPotentialUpdate(jobs: seq<Job>, p: nat, j: Job)
    requires p < |jobs|
    ensures JobsPotential(jobs[p := j]) + JobPotential(jobs[p]) == JobsPotential(jobs) + JobPotential(j)
  {
    hide JobPotential;
    var n := |jobs| - 1;
    if p == n {
      assert jobs[p := j][..n] == jobs[..n];
    } else {
      JobsPotentialUpdate(jobs[..n], p, j);
      assert jobs[p := j][..n] == jobs[..n][p := j];
    }
  }

  lemma {:induction false} WeightAtLeast(s: seq<Item>)
    ensures |s| <= Sum(Weight(), s)
    ensures (forall i :: 0 <= i < |s| ==> s[i].failures < DEAD_LETTER_THRESHOLD) ==> 5 * |s| <= Sum(Weight(), s)
  {
    if s != [] {
      WeightAtLeast(s[..|s| - 1]);
    }
  }

  lemma {:induction false} FreshWeight(s: seq<Item>)
    requires forall i :: 0 <= i < |s| ==> s[i].failures == 0
    ensures Sum(Weight(), s) == 13 * |s|
  {
    if s != [] {
      FreshWeight(s[..|s| - 1]);
    }
  }

  // ---- back into the queue ----

  lemma BumpPotential(r: Queued, i: Item)
    requires i.failures < DEAD_LETTER_THRESHOLD
    ensures Sum(Weight(), Bump(r, i).dlq) + 4 <= Sum(Weight(), r.dlq) + Weight()(i)
  {
    var p := IndexOf(r.dlq, KeyOf(i));
    if p < |r.dlq| {
      SumUpdate(Weight(), r.dlq, p, Failed(r.dlq[p]));
    } else {
      SumConcat(Weight(), r.dlq, [Failed(i)]);
    }
  }

  lemma PutPotential(r: Queued, i: Item)
    requires i.failures < DEAD_LETTER_THRESHOLD
    ensures Sum(Weight(), Put(r, i).dlq) + 4 <= Sum(Weight(), r.dlq) + Weight()(i)
  {
    var p := IndexOf(r.dlq, KeyOf(i));
    if p < |r.dlq| {
      SumUpdate(Weight(), r.dlq, p, Failed(i));
    } else {
      SumConcat(Weight(), r.dlq, [Failed(i)]);
    }
  }

  lemma {:induction false} BumpAllPotential(q: seq<Item>, batch: seq<Item>)
    requires forall i :: 0 <= i < |batch| ==> batch[i].failures < DEAD_LETTER_THRESHOLD
    ensures Sum(Weight(), BumpAll(q, batch).dlq) + 4 * |batch| <= Sum(Weight(), q) + Sum(Weight(), batch)
  {
    hide Bump;
    if batch != [] {
      BumpAllPotential(q, batch[..|batch| - 1]);
      BumpPotential(BumpAll(q, batch[..|batch| - 1]), batch[|batch| - 1]);
    }
  }

  lemma {:induction false} PutAllPotential(q: seq<Item>, items: seq<Item>)
    requires forall i :: 0 <= i < |items| ==> items[i].failures < DEAD_LETTER_THRESHOLD
    ensures Sum(Weight(), PutAll(q, items).dlq) + 4 * |items| <= Sum(Weight(), q) + Sum(Weight(), items)
  {
    hide Put;
    if items != [] {
      PutAllPotential(q, items[..|items| - 1]);
      PutPotential(PutAll(q, items[..|items| - 1]), items[|items| - 1]);
    }
  }

  lemma RequeuedPotential(j: Job, q: seq<Item>)
    requires JobOk(j)
    ensures Sum(Weight(), Requeued(j, q).dlq) + 4 * |Saving(j)| <= Sum(Weight(), q) + Sum(Weight(), Saving(j))
  {
    hide Sum, BumpAll, PutAll;
    SavingOk(j);
    BumpAllPotential(q, Saving(j));
    PutAllPotential(q, Saving(j));
  }

  // ---- the steps ----

  lemma AttemptedPotential(j: Job)
    ensures JobPotential(Attempted(j)) == JobPotential(j) - |Saving(j)|
  {
    hide Sum;
    assert Saving(Attempted(j)) == Saving(j);
    assert (j.attempts + 1) * |Saving(j)| == j.attempts * |Saving(j)| + |Saving(j)|;
  }

  lemma AfterSavePotential(j: Job)
    requires JobOk(j)
    ensures JobPotential(AfterSave(j)) + Sum(Weight(), Saving(j)) - j.attempts * |Saving(j)| == JobPotential(j)
    ensures 5 * |Saving(j)| <= Sum(Weight(), Saving(j)) && j.attempts * |Saving(j)| <= 3 * |Saving(j)|
  {
    hide Sum, JobSum, Saving, AfterSave;
    AfterSaveSum(Weight(), j);
    SavingOk(j);
    WeightAtLeast(Saving(j));
    AtMostThreefold(j.attempts, |Saving(j)|);
    assert AfterSave(j).attempts == 0 by { NoAttempts(j); }
  }

  lemma NoAttempts(j: Job)
    ensures AfterSave(j).attempts == 0
  {
  }

  lemma AtMostThreefold(a: nat, n: nat)
    requires a <= 3
    ensures a * n <= 3 * n
  {
  }

  lemma FailAttemptPotential(s: State, n: nat, applied: set<string>)
    requires WellFormed(s) && n < |s.jobs| && Saving(s.jobs[n]) != []
    ensures Potential(FailAttempt(s, n, applied)) < Potential(s)
  {
    hide Sum, JobPotential, Saving, AfterSave, AddCounts, Requeued;
    var j := s.jobs[n];
    assert JobOk(j);
    if j.attempts < MAX_RETRIES {
      AttemptedPotential(j);
      JobsPotentialUpdate(s.jobs, n, Attempted(j));
    } else {
      AfterSavePotential(j);
      RequeuedPotential(j, s.dlq);
      JobsPotentialUpdate(s.jobs, n, AfterSave(j));
      assert j.attempts * |Saving(j)| == 3 * |Saving(j)|;
    }
  }

  lemma PassAttemptPotential(s: State, n: nat)
    requires WellFormed(s) && n < |s.jobs| && Saving(s.jobs[n]) != []
    ensures Potential(PassAttempt(s, n)) < Potential(s)
  {
    hide Sum, JobPotential, Saving, AfterSave, AddCounts;
    AfterSavePotential(s.jobs[n]);
    JobsPotentialUpdate(s.jobs, n, AfterSave(s.jobs[n]));
  }

  lemma ReportPotential(s: State, n: nat)
    requires n < |s.jobs| && s.jobs[n].Retry?
    ensures Potential(Report(s, n)) + |s.jobs[n].failed| <= Potential(s)
  {
    var j := s.jobs[n];
    JobsPotentialUpdate(s.jobs, n, j.(failed := []));
    WeightAtLeast(j.failed);
    assert Saving(j.(failed := [])) == Saving(j);
    assert Sum(Weight(), []) == 0;
    hide Sum, Saving;
  }

  lemma JobAdded(jobs: seq<Job>, j: Job)
    ensures JobsPotential(jobs + [j]) == JobsPotential(jobs) + JobPotential(j)
  {
    hide JobPotential;
    assert (jobs + [j])[..|jobs|] == jobs;
  }

  lemma StartFlushPotential(s: State, kind: Kind)
    ensures Potential(StartFlush(s, kind)) == Potential(s)
  {
    hide Sum, Lift;
    var buffer := BufferOf(kind, s);
    if buffer != [] {
      var n := Min(BATCH_SIZE, |buffer|);
      var s' := StartFlush(s, kind);
      LiftSplit(kind, buffer, n);
      SumConcat(Weight(), Lift(kind, buffer[..n]), Lift(kind, buffer[n..]));
      BuffersSum(Weight(), s);
      BuffersSum(Weight(), s');
      JobAdded(s.jobs, Flush(kind, buffer[..n], 0));
    }
  }

  lemma NoWeight()
    ensures Sum(Weight(), []) == 0
  {
  }

  lemma StartRetryPotential(s: State)
    ensures Potential(StartRetry(s)) == Potential(s)
  {
    hide Sum, Retryable, Exhausted, Saving, JobsPotential;
    if s.dlq != [] {
      SumSplit(Weight(), s.dlq);
      NoWeight();
      JobAdded(s.jobs, Retry(Retryable(Click, s.dlq), Retryable(Analytics, s.dlq), Exhausted(s.dlq), 0));
    }
  }

  /** The timer moves work around but neither adds nor does any. */
  lemma TimerPotential(s: State)
    ensures Potential(Apply(s, Timer)) == Potential(s)
  {
    hide Potential, StartFlush, StartRetry;
    StartFlushPotential(s, Click);
    StartFlushPotential(StartFlush(s, Click), Analytics);
    StartRetryPotential(StartFlush(StartFlush(s, Click), Analytics));
  }

  lemma ArrivePotential(s: State, kind: Kind, events: seq<Event>)
    ensures Potential(Arrive(s, kind, events)) == Potential(s) + 13 * |events|
  {
    hide Sum, Lift, JobsPotential;
    var t := Pushed(s, kind, events);
    LiftConcat(kind, BufferOf(kind, s), events);
    SumConcat(Weight(), Lift(kind, BufferOf(kind, s)), Lift(kind, events));
    FreshWeight(Lift(kind, events));
    BuffersSum(Weight(), s);
    BuffersSum(Weight(), t);
    StartFlushPotential(t, kind);
    hide StartFlush;
  }

  /** Every answer lowers the potential, every event received raises it by 13, and nothing else moves it up. */
  lemma StepPotential(s: State, step: Step)
    requires WellFormed(s)
    ensures Potential(Apply(s, step)) + (if D.Answers(s, step) then 1 else 0) <= Potential(s) + 13 * |News(step)|
  {
    hide Potential, Saving, FailAttempt, PassAttempt, Report, Arrive, WellFormed;
    match step
    case ClickArrives(e) => ArrivePotential(s, Click, [e]);
    case AnalyticsArrives(e, device) => ArrivePotential(s, Analytics, [e, Enrich(e, device)]);
    case Timer => TimerPotential(s);
    case AttemptFails(n, applied) =>
      if n < |s.jobs| && Saving(s.jobs[n]) != [] { FailAttemptPotential(s, n, applied); }
    case AttemptSucceeds(n) =>
      if n < |s.jobs| && Saving(s.jobs[n]) != [] { PassAttemptPotential(s, n); }
    case ReportFailed(n) =>
      if n < |s.jobs| && Saving(s.jobs[n]) == [] && s.jobs[n].Retry? { ReportPotential(s, n); }
    case LateUpdate(_, _) => LateUpdatePotential(s, step);
  }

  lemma LateUpdatePotential(s: State, step: Step)
    requires step.LateUpdate?
    ensures Potential(Apply(s, step)) == Potential(s)
  {
    hide Sum;
  }

  // ---- over all runs ----

  /** The answers that suspended calls were given in the course of a run. */
  function AnswersTaken(s: State, steps: seq<Step>): nat {
    if steps == [] then 0
    else
      AnswersTaken(s, steps[..|steps| - 1])
      + if D.Answers(Exec(s, steps[..|steps| - 1]), steps[|steps| - 1]) then 1 else 0
  }

  /**
   From any moment of any run, with arrivals and timers wherever they like: what is still to be
   done plus the answers that were taken is at most what was to be done plus 13 for each event
   that arrived, whatever the database answered.
   */
  lemma {:induction false} AnswersPaidFor(s: State, steps: seq<Step>)
    requires WellFormed(s)
    ensures WellFormed(Exec(s, steps))
    ensures Potential(Exec(s, steps)) + AnswersTaken(s, steps) <= Potential(s) + 13 * |Received(steps)|
  {
    hide Apply, Potential, WellFormed, D.Answers, News;
    if steps != [] {
      var before, last := steps[..|steps| - 1], steps[|steps| - 1];
      AnswersPaidFor(s, before);
      StepPotential(Exec(s, before), last);
      StepWellFormed(Exec(s, before), last);
    }
  }

  ghost predicate Drained(s: State) {
    s.clickBuffer == [] && s.analyticsBuffer == [] && s.dlq == [] && D.Quiet(s)
  }

  lemma JobPotentialZeroIff(j: Job)
    requires JobOk(j)
    ensures 0 <= JobPotential(j) && (JobPotential(j) == 0 <==> Idle(j))
  {
    AfterSavePotential(j);
    assert Sum(Weight(), []) == 0 && |Saving(Flush(Click, [], 0))| == 0;
    match j
    case Flush(_, _, _) => assert JobSum(Weight(), j) == Sum(Weight(), Saving(j));
    case Retry(clicks, analytics, failed, attempts) =>
      WeightAtLeast(clicks);
      WeightAtLeast(analytics);
      WeightAtLeast(failed);
  }

  lemma {:induction false} JobsPotentialZeroIff(jobs: seq<Job>)
    requires forall n :: 0 <= n < |jobs| ==> JobOk(jobs[n])
    ensures 0 <= JobsPotential(jobs)
    ensures JobsPotential(jobs) == 0 <==> forall n :: 0 <= n < |jobs| ==> Idle(jobs[n])
  {
    hide JobPotential, JobOk, Idle;
    if jobs != [] {
      JobsPotentialZeroIff(jobs[..|jobs| - 1]);
      JobPotentialZeroIff(jobs[|jobs| - 1]);
      assert forall m :: 0 <= m < |jobs| - 1 ==> jobs[..|jobs| - 1][m] == jobs[m];
    }
  }

  /** Nothing is to be done exactly when buffers and queue are empty and no call waits. */
  lemma PotentialZeroIff(s: State)
    requires WellFormed(s)
    ensures 0 <= Potential(s) && (Potential(s) == 0 <==> Drained(s))
  {
    assert Sum(Weight(), []) == 0;
    hide Sum, JobsPotential, Idle, JobOk;
    JobsPotentialZeroIff(s.jobs);
    WeightAtLeast(Buffers(s));
    WeightAtLeast(s.dlq);
    assert |Buffers(s)| == |s.clickBuffer| + |s.analyticsBuffer|;
    assert s.clickBuffer == [] && s.analyticsBuffer == [] ==> Buffers(s) == [];
  }

  // ---- nothing gets stuck ----

  ghost predicate AnswerPending(s: State) {
    exists step :: D.Answers(s, step)
  }

  lemma BusyIsPending(s: State, n: nat)
    requires n < |s.jobs| && !Idle(s.jobs[n])
    ensures AnswerPending(s)
  {
    if Saving(s.jobs[n]) != [] {
      assert D.Answers(s, AttemptSucceeds(n));
    } else {
      assert D.Answers(s, ReportFailed(n));
    }
  }

  lemma StartFlushBusy(s: State, kind: Kind)
    requires BufferOf(kind, s) != []
    ensures var s' := StartFlush(s, kind); |s'.jobs| == |s.jobs| + 1 && !Idle(s'.jobs[|s.jobs|])
  {
    var s' := StartFlush(s, kind);
    assert |Saving(s'.jobs[|s.jobs|])| == |s'.jobs[|s.jobs|].batch|;
  }

  lemma StartRetryBusy(s: State)
    requires s.dlq != []
    ensures var s' := StartRetry(s); |s'.jobs| == |s.jobs| + 1 && !Idle(s'.jobs[|s.jobs|])
  {
    SumSplit(Weight(), s.dlq);
    WeightAtLeast(s.dlq);
    assert Sum(Weight(), []) == 0;
    hide Sum, Retryable, Exhausted;
  }

  lemma JobsStay(s: State, kind: Kind)
    ensures var s' := StartFlush(s, kind);
            |s.jobs| <= |s'.jobs| && s'.dlq == s.dlq && forall n :: 0 <= n < |s.jobs| ==> s'.jobs[n] == s.jobs[n]
    ensures BufferOf(if kind.Click? then Analytics else Click, StartFlush(s, kind))
         == BufferOf(if kind.Click? then Analytics else Click, s)
    ensures |s.jobs| <= |StartRetry(s).jobs| && forall n :: 0 <= n < |s.jobs| ==> StartRetry(s).jobs[n] == s.jobs[n]
  {
  }

  /** While anything is left to be done, an answer is owed, or the next timer makes one owed. */
  lemma Progress(s: State)
    requires WellFormed(s) && !Drained(s)
    ensures AnswerPending(s) || AnswerPending(Apply(s, Timer))
  {
    hide StartFlush, StartRetry, Idle, WellFormed;
    if n :| 0 <= n < |s.jobs| && !Idle(s.jobs[n]) {
      BusyIsPending(s, n);
      return;
    }
    var t := StartFlush(s, Click);
    var u := StartFlush(t, Analytics);
    var v := StartRetry(u);
    JobsStay(s, Click);
    JobsStay(t, Analytics);
    JobsStay(u, Click);
    assert v == Apply(s, Timer);
    if s.clickBuffer != [] {
      StartFlushBusy(s, Click);
      BusyIsPending(v, |s.jobs|);
    } else if s.analyticsBuffer != [] {
      StartFlushBusy(t, Analytics);
      BusyIsPending(v, |t.jobs|);
    } else {
      StartRetryBusy(u);
      BusyIsPending(v, |u.jobs|);
    }
  }

  /**
   Once arrivals stop, whenever timers fire and whatever the database answers, suspended calls
   take no more answers than the potential, which is at most 13 for each event received; while
   anything is left an answer is owed or the next timer makes one owed; and when the potential
   is used up, buffers and queue are empty and no call waits.
   */
  lemma OverlappingRoundsDrain(run: seq<Step>, steps: seq<Step>)
    requires NoArrivals(steps)
    ensures var s := Exec(Init(), run);
            var s' := Exec(s, steps);
            && AnswersTaken(s, steps) <= Potential(s) <= 13 * |Received(run)|
            && (AnswersTaken(s, steps) == Potential(s) ==> Drained(s'))
            && (!Drained(s') ==> AnswerPending(s') || AnswerPending(Apply(s', Timer)))
  {
    hide Apply, Potential, WellFormed, Drained, AnswerPending, NoArrivals;
    var s := Exec(Init(), run);
    RunWellFormed(run);
    RunWellFormed([]);
    AnswersPaidFor(Init(), run);
    AnswersPaidFor(s, steps);
    NothingReceived(steps);
    NothingAtFirst();
    PotentialZeroIff(s);
    PotentialZeroIff(Exec(s, steps));
    if !Drained(Exec(s, steps)) {
      Progress(Exec(s, steps));
    }
  }

  lemma NothingAtFirst()
    ensures Potential(Init()) == 0
  {
    assert Buffers(Init()) == [];
  }

  lemma NothingReceived(steps: seq<Step>)
    requires NoArrivals(steps)
    ensures Received(steps) == []
  {
    ReceivedConcat([], steps);
    assert [] + steps == steps;
  }
}
