/**
 How often one click can be counted.  A save call is up to four attempts, an event goes
 through at most three save calls, and a refused attempt may have applied any of its updates,
 now or later.
 */
module PipelineBudget {
  import opened Common
  import opened PipelineModel
  import opened PipelineLaws
  import opened PipelineFates
  import T = PipelineTheorems

  function Held(c: string): Item -> nat {
    (i: Item) => if ClickOf(i, c) then 1 else 0
  }

  /** The increments an item's failed save calls may have caused. */
  function Spent(c: string): Item -> nat {
    (i: Item) => if ClickOf(i, c) then 4 * Min(i.failures, DEAD_LETTER_THRESHOLD) else 0
  }

  lemma {:induction false} ClicksForIsSum(c: string, s: seq<Item>)
    ensures ClicksFor(c, s) == Sum(Held(c), s)
  {
    if s != [] {
      ClicksForIsSum(c, s[..|s| - 1]);
    }
  }

  lemma {:induction false} NoCodeNoClicks(c: string, s: seq<Item>)
    requires c !in Codes(s)
    ensures ClicksFor(c, s) == 0
  {
    if s != [] {
      var r := s[..|s| - 1];
      var last := s[|s| - 1];
      assert forall i :: i in r ==> i in s;
      assert last in s;
      NoCodeNoClicks(c, r);
    }
  }

  lemma AtAddCounts(counter: map<string, nat>, items: seq<Item>, wanted: set<string>, c: string)
    ensures At(AddCounts(counter, items, wanted), c)
         == At(counter, c) + if c in wanted then Sum(Held(c), items) else 0
    ensures c !in Codes(items) ==> Sum(Held(c), items) == 0
  {
    ClicksForIsSum(c, items);
    if c !in Codes(items) {
      NoCodeNoClicks(c, items);
    }
  }

  // ---- what increments are accounted for ----

  function JobSpent(c: string, j: Job): nat {
    JobSum(Spent(c), j) + j.attempts * Sum(Held(c), Saving(j))
  }

  function JobsSpent(c: string, jobs: seq<Job>): nat {
    if jobs == [] then 0 else JobsSpent(c, jobs[..|jobs| - 1]) + JobSpent(c, jobs[|jobs| - 1])
  }

  lemma {:induction false} JobsSpentUpdate(c: string, jobs: seq<Job>, p: nat, j: Job)
    requires p < |jobs|
    ensures JobsSpent(c, jobs[p := j]) + JobSpent(c, jobs[p]) == JobsSpent(c, jobs) + JobSpent(c, j)
  {
    var n := |jobs| - 1;
    if p == n {
      assert jobs[p := j][..n] == jobs[..n];
    } else {
      JobsSpentUpdate(c, jobs[..n], p, j);
      assert jobs[p := j][..n] == jobs[..n][p := j];
    }
  }

  function Bound(c: string, s: State): nat {
    Sum(Spent(c), s.dlq) + JobsSpent(c, s.jobs) + Sum(Spent(c), s.log.reported)
    + 12 * (Sum(Held(c), s.log.saved) + Sum(Held(c), s.log.lost))
  }

  ghost predicate Budgeted(c: string, s: State) {
    && Sum(Held(c), s.log.saved) <= At(s.counter, c)
    && At(s.counter, c) + At(s.late, c) <= Bound(c, s)
  }

  lemma {:induction false} SpentAtMost(c: string, s: seq<Item>)
    ensures Sum(Spent(c), s) <= 12 * Sum(Held(c), s)
    ensures (forall i :: 0 <= i < |s| ==> s[i].failures < DEAD_LETTER_THRESHOLD) ==>
              Sum(Spent(c), s) <= 8 * Sum(Held(c), s)
  {
    if s != [] {
      SpentAtMost(c, s[..|s| - 1]);
    }
  }

  lemma {:induction false} FreshSpendNothing(c: string, s: seq<Item>)
    requires forall i :: 0 <= i < |s| ==> s[i].failures == 0
    ensures Sum(Spent(c), s) == 0
  {
    if s != [] {
      FreshSpendNothing(c, s[..|s| - 1]);
    }
  }

  function Covered(c: string, r: Queued): nat {
    Sum(Spent(c), r.dlq) + 12 * Sum(Held(c), r.lost)
  }

  lemma BumpCovers(c: string, r: Queued, i: Item)
    requires i.failures == 0
    ensures Covered(c, r) + 4 * Held(c)(i) <= Covered(c, Bump(r, i))
  {
    var p := IndexOf(r.dlq, KeyOf(i));
    if p < |r.dlq| {
      SumUpdate(Spent(c), r.dlq, p, Failed(r.dlq[p]));
      SumConcat(Held(c), r.lost, [i]);
    } else {
      SumConcat(Spent(c), r.dlq, [Failed(i)]);
    }
  }

  lemma PutCovers(c: string, r: Queued, i: Item)
    requires i.failures < DEAD_LETTER_THRESHOLD
    ensures Covered(c, r) + Spent(c)(i) + 4 * Held(c)(i) <= Covered(c, Put(r, i))
  {
    var p := IndexOf(r.dlq, KeyOf(i));
    if p < |r.dlq| {
      SumUpdate(Spent(c), r.dlq, p, Failed(i));
      SumConcat(Held(c), r.lost, [r.dlq[p]]);
    } else {
      SumConcat(Spent(c), r.dlq, [Failed(i)]);
    }
  }

  lemma {:induction false} BumpAllCovers(c: string, q: seq<Item>, batch: seq<Item>)
    requires forall i :: 0 <= i < |batch| ==> batch[i].failures == 0
    ensures Sum(Spent(c), q) + 4 * Sum(Held(c), batch) <= Covered(c, BumpAll(q, batch))
  {
    if batch != [] {
      BumpAllCovers(c, q, batch[..|batch| - 1]);
      BumpCovers(c, BumpAll(q, batch[..|batch| - 1]), batch[|batch| - 1]);
    }
  }

  lemma {:induction false} PutAllCovers(c: string, q: seq<Item>, items: seq<Item>)
    requires forall i :: 0 <= i < |items| ==> items[i].failures < DEAD_LETTER_THRESHOLD
    ensures Sum(Spent(c), q) + Sum(Spent(c), items) + 4 * Sum(Held(c), items) <= Covered(c, PutAll(q, items))
  {
    if items != [] {
      PutAllCovers(c, q, items[..|items| - 1]);
      PutCovers(c, PutAll(q, items[..|items| - 1]), items[|items| - 1]);
    }
  }

  lemma RequeuedCovers(c: string, j: Job, q: seq<Item>)
    requires JobOk(j)
    ensures Sum(Spent(c), q) + Sum(Spent(c), Saving(j)) + 4 * Sum(Held(c), Saving(j)) <= Covered(c, Requeued(j, q))
  {
    SavingOk(j);
    if j.Flush? {
      BumpAllCovers(c, q, Saving(j));
      FreshSpendNothing(c, Saving(j));
    } else {
      PutAllCovers(c, q, Saving(j));
    }
  }

  // ---- the budget holds over every run ----

  lemma StartFlushBudgeted(c: string, s: State, kind: Kind)
    requires Budgeted(c, s)
    ensures Budgeted(c, StartFlush(s, kind))
  {
    var s' := StartFlush(s, kind);
    if s'.jobs != s.jobs {
      assert s'.jobs[..|s'.jobs| - 1] == s.jobs;
    }
  }

  lemma ArriveBudgeted(c: string, s: State, kind: Kind, events: seq<Event>)
    requires Budgeted(c, s)
    ensures Budgeted(c, Arrive(s, kind, events))
  {
    StartFlushBudgeted(c, Pushed(s, kind, events), kind);
  }

  lemma StartRetryBudgeted(c: string, s: State)
    requires Budgeted(c, s)
    ensures Budgeted(c, StartRetry(s))
  {
    if s.dlq != [] {
      SumSplit(Spent(c), s.dlq);
      hide Retryable, Exhausted;
      assert StartRetry(s).jobs[..|s.jobs|] == s.jobs;
    }
  }

  lemma AttemptedSpent(c: string, j: Job)
    ensures JobSpent(c, Attempted(j)) == JobSpent(c, j) + Sum(Held(c), Saving(j))
  {
    assert Saving(Attempted(j)) == Saving(j);
    assert (j.attempts + 1) * Sum(Held(c), Saving(j)) == j.attempts * Sum(Held(c), Saving(j)) + Sum(Held(c), Saving(j));
  }

  lemma AfterSaveSpent(c: string, j: Job)
    requires JobOk(j)
    ensures JobSpent(c, j) <= JobSpent(c, AfterSave(j)) + Sum(Spent(c), Saving(j)) + 3 * Sum(Held(c), Saving(j))
  {
    AfterSaveSum(Spent(c), j);
    assert j.attempts * Sum(Held(c), Saving(j)) <= 3 * Sum(Held(c), Saving(j));
  }

  lemma RefusedCounts(c: string, s: State, n: nat, applied: set<string>)
    requires n < |s.jobs|
    ensures var s' := FailAttempt(s, n, applied);
            && At(s.counter, c) <= At(s'.counter, c)
            && At(s'.counter, c) + At(s'.late, c) == At(s.counter, c) + At(s.late, c) + Sum(Held(c), Saving(s.jobs[n]))
  {
    var items := Saving(s.jobs[n]);
    AtAddCounts(s.counter, items, applied, c);
    AtAddCounts(s.late, items, Codes(items) - applied, c);
  }

  lemma FailAttemptBudgeted(c: string, s: State, n: nat, applied: set<string>)
    requires WellFormed(s) && Budgeted(c, s) && n < |s.jobs|
    ensures Budgeted(c, FailAttempt(s, n, applied))
  {
    var j := s.jobs[n];
    assert JobOk(j);
    RefusedCounts(c, s, n, applied);
    if j.attempts < MAX_RETRIES {
      JobsSpentUpdate(c, s.jobs, n, Attempted(j));
      AttemptedSpent(c, j);
    } else {
      JobsSpentUpdate(c, s.jobs, n, AfterSave(j));
      AfterSaveSpent(c, j);
      RequeuedCovers(c, j, s.dlq);
      SumConcat(Held(c), s.log.lost, Requeued(j, s.dlq).lost);
    }
  }

  lemma PassAttemptBudgeted(c: string, s: State, n: nat)
    requires WellFormed(s) && Budgeted(c, s) && n < |s.jobs|
    ensures Budgeted(c, PassAttempt(s, n))
  {
    var j := s.jobs[n];
    var items := Saving(j);
    assert JobOk(j);
    AtAddCounts(s.counter, items, Codes(items), c);
    JobsSpentUpdate(c, s.jobs, n, AfterSave(j));
    AfterSaveSpent(c, j);
    SumConcat(Held(c), s.log.saved, items);
    SavingOk(j);
    SpentAtMost(c, items);
  }

  lemma ReportBudgeted(c: string, s: State, n: nat)
    requires Budgeted(c, s) && n < |s.jobs| && s.jobs[n].Retry?
    ensures Budgeted(c, Report(s, n))
  {
    JobsSpentUpdate(c, s.jobs, n, s.jobs[n].(failed := []));
    SumConcat(Spent(c), s.log.reported, s.jobs[n].failed);
    assert Saving(s.jobs[n].(failed := [])) == Saving(s.jobs[n]);
  }

  lemma StepBudgeted(c: string, s: State, step: Step)
    requires WellFormed(s) && Budgeted(c, s)
    ensures Budgeted(c, Apply(s, step))
  {
    match step
    case ClickArrives(e) => ArriveBudgeted(c, s, Click, [e]);
    case AnalyticsArrives(e, device) => ArriveBudgeted(c, s, Analytics, [e, Enrich(e, device)]);
    case Timer =>
      StartFlushBudgeted(c, s, Click);
      StartFlushBudgeted(c, StartFlush(s, Click), Analytics);
      StartRetryBudgeted(c, StartFlush(StartFlush(s, Click), Analytics));
    case AttemptFails(n, applied) =>
      if n < |s.jobs| { FailAttemptBudgeted(c, s, n, applied); }
    case AttemptSucceeds(n) =>
      if n < |s.jobs| { PassAttemptBudgeted(c, s, n); }
    case ReportFailed(n) =>
      if n < |s.jobs| && s.jobs[n].Retry? { ReportBudgeted(c, s, n); }
    case LateUpdate(_, _) =>
  }

  lemma {:induction false} RunBudgeted(c: string, steps: seq<Step>)
    ensures Budgeted(c, Exec(Init(), steps))
  {
    hide Apply;
    if steps != [] {
      var before, last := Exec(Init(), steps[..|steps| - 1]), steps[|steps| - 1];
      RunBudgeted(c, steps[..|steps| - 1]);
      RunWellFormed(steps[..|steps| - 1]);
      StepBudgeted(c, before, last);
      assert Exec(Init(), steps) == Apply(before, last);
    }
  }

  lemma JobSpentAtMost(c: string, j: Job)
    requires JobOk(j)
    ensures JobSpent(c, j) <= 12 * JobSum(Held(c), j)
  {
    SavingOk(j);
    SpentAtMost(c, Saving(j));
    AfterSaveSpent(c, j);
    AfterSaveSum(Held(c), j);
    match AfterSave(j)
    case Flush(_, _, _) => FreshSpendNothing(c, Saving(AfterSave(j)));
    case Retry(clicks, analytics, failed, _) =>
      SpentAtMost(c, analytics);
      SpentAtMost(c, failed);
  }

  lemma {:induction false} JobsSpentAtMost(c: string, jobs: seq<Job>)
    requires forall n :: 0 <= n < |jobs| ==> JobOk(jobs[n])
    ensures JobsSpent(c, jobs) <= 12 * SumJobs(Held(c), jobs)
  {
    if jobs != [] {
      JobsSpentAtMost(c, jobs[..|jobs| - 1]);
      JobSpentAtMost(c, jobs[|jobs| - 1]);
    }
  }

  lemma BoundAtMost(c: string, s: State)
    requires WellFormed(s)
    ensures Bound(c, s) <= 12 * Total(Held(c), s)
  {
    JobsSpentAtMost(c, s.jobs);
    SpentAtMost(c, s.dlq);
    SpentAtMost(c, s.log.reported);
  }

  /**
   For every code and every run: the clicks saved are all counted, and the counter never gets
   more than 12 increments for each click received, even with those still on their way.
   */
  lemma CountedAtMostTwelveTimes(c: string, steps: seq<Step>)
    ensures var s := Exec(Init(), steps);
            Sum(Held(c), s.log.saved) <= At(s.counter, c)
            && At(s.counter, c) + At(s.late, c) <= 12 * Sum(Held(c), Received(steps))
  {
    var s := Exec(Init(), steps);
    RunBudgeted(c, steps);
    RunWellFormed(steps);
    BoundAtMost(c, s);
    RunLaw(Held(c), Free(), steps);
    SumCharge(Key(Click, c, 0), s.log.failedCalls);
    RunReceives(steps);
  }

  // ---- the bound is tight ----

  /** A save call whose four attempts are all refused after they were applied. */
  function AppliedRefusals(n: nat, code: string): seq<Step> {
    [AttemptFails(n, {code}), AttemptFails(n, {code})] + [AttemptFails(n, {code}), AttemptFails(n, {code})]
  }

  lemma ExecTwo(s: State, a: Step, b: Step)
    ensures Exec(s, [a, b]) == Apply(Apply(s, a), b)
  {
    hide Apply;
    assert [a, b][..1] == [a] && [a][..0] == [];
    assert Exec(s, [a]) == Apply(s, a);
  }

  lemma OneRefusal(s: State, n: nat, x: Item)
    requires n < |s.jobs| && Saving(s.jobs[n]) == [x] && x.kind.Click?
    ensures var s' := Apply(s, AttemptFails(n, {x.event.shortCode}));
            && At(s'.counter, x.event.shortCode) == At(s.counter, x.event.shortCode) + 1
            && s'.clickBuffer == s.clickBuffer && s'.analyticsBuffer == s.analyticsBuffer
            && (s.jobs[n].attempts < MAX_RETRIES ==> s'.dlq == s.dlq && s'.jobs == s.jobs[n := Attempted(s.jobs[n])])
            && (s.jobs[n].attempts == MAX_RETRIES ==>
                  s'.dlq == Requeued(s.jobs[n], s.dlq).dlq && s'.jobs == s.jobs[n := AfterSave(s.jobs[n])])
  {
    AtAddCounts(s.counter, [x], {x.event.shortCode}, x.event.shortCode);
    assert [x][..0] == [];
    hide AddCounts, Requeued;
  }

  lemma AttemptsAside(j: Job, q: seq<Item>)
    ensures Saving(Attempted(j)) == Saving(j) && AfterSave(Attempted(j)) == AfterSave(j)
    ensures Requeued(Attempted(j), q) == Requeued(j, q)
  {
  }

  lemma CallRefused(s: State, n: nat, x: Item)
    requires n < |s.jobs| && Saving(s.jobs[n]) == [x] && x.kind.Click? && s.jobs[n].attempts == 0
    ensures var s' := Exec(s, AppliedRefusals(n, x.event.shortCode));
            && At(s'.counter, x.event.shortCode) == At(s.counter, x.event.shortCode) + 4
            && s'.clickBuffer == s.clickBuffer && s'.analyticsBuffer == s.analyticsBuffer
            && s'.dlq == Requeued(s.jobs[n], s.dlq).dlq && s'.jobs == s.jobs[n := AfterSave(s.jobs[n])]
  {
    hide Apply, Exec, Requeued, AfterSave;
    var step := AttemptFails(n, {x.event.shortCode});
    var s1 := Apply(s, step);
    var s2 := Apply(s1, step);
    var s3 := Apply(s2, step);
    OneRefusal(s, n, x);
    OneRefusal(s1, n, x);
    OneRefusal(s2, n, x);
    OneRefusal(s3, n, x);
    AttemptsAside(s.jobs[n], s.dlq);
    AttemptsAside(s1.jobs[n], s.dlq);
    AttemptsAside(s2.jobs[n], s.dlq);
    ExecTwo(s, step, step);
    ExecTwo(s2, step, step);
    T.ExecConcat(s, [step, step], [step, step]);
  }

  ghost predicate Alone(s: State, x: Item) {
    s.clickBuffer == [] && s.analyticsBuffer == [] && s.dlq == [x]
  }

  lemma RetryStarts(s: State, x: Item)
    requires Alone(s, x) && x.kind.Click? && x.failures < DEAD_LETTER_THRESHOLD
    ensures var s' := Apply(s, Timer);
            && s'.clickBuffer == [] && s'.analyticsBuffer == [] && s'.dlq == [] && s'.counter == s.counter
            && s'.jobs == s.jobs + [Retry([x], [], [], 0)]
  {
    assert [x][..0] == [];
    assert Retryable(Click, []) == [] && Retryable(Analytics, []) == [] && Exhausted([]) == [];
    assert Retryable(Click, [x]) == [x] && Retryable(Analytics, [x]) == [] && Exhausted([x]) == [];
    assert StartFlush(StartFlush(s, Click), Analytics) == s;
  }

  lemma PutAlone(x: Item)
    ensures PutAll([], [x]).dlq == [Failed(x)]
  {
    assert [x][..0] == [] && PutAll([], []) == Queued([], []);
  }

  /** A round of the timer in which the retry of one waiting click is applied and refused throughout. */
  lemma RetryRefused(s: State, x: Item)
    requires Alone(s, x) && x.kind.Click? && x.failures < DEAD_LETTER_THRESHOLD
    ensures var s' := Exec(s, [Timer] + AppliedRefusals(|s.jobs|, x.event.shortCode));
            && Alone(s', Failed(x))
            && At(s'.counter, x.event.shortCode) == At(s.counter, x.event.shortCode) + 4
  {
    hide Apply, PutAll, At;
    var s1 := Apply(s, Timer);
    RetryStarts(s, x);
    T.ExecConcat(s, [Timer], AppliedRefusals(|s.jobs|, x.event.shortCode));
    assert Exec(s, [Timer]) == s1 by { assert [Timer][..0] == []; }
    hide Exec;
    CallRefused(s1, |s.jobs|, x);
    PutAlone(x);
  }

  lemma FirstFlush(e: Event)
    ensures var s := Exec(Init(), [ClickArrives(e), Timer]);
            && s.clickBuffer == [] && s.analyticsBuffer == [] && s.dlq == [] && s.counter == map[]
            && s.jobs == [Flush(Click, [e], 0)]
  {
    ExecTwo(Init(), ClickArrives(e), Timer);
    hide Exec;
    var s := Apply(Init(), ClickArrives(e));
    assert s.clickBuffer == [e];
    assert [e][..1] == [e] && [e][1..] == [];
  }

  lemma BumpAlone(x: Item)
    ensures BumpAll([], [x]).dlq == [Failed(x)]
  {
    assert [x][..0] == [] && BumpAll([], []) == Queued([], []);
  }

  lemma FirstCallRefused(e: Event)
    ensures var s := Exec(Init(), [ClickArrives(e), Timer] + AppliedRefusals(0, e.shortCode));
            Alone(s, Item(Click, e, 1)) && At(s.counter, e.shortCode) == 4
  {
    hide Exec, Apply, BumpAll;
    FirstFlush(e);
    var s := Exec(Init(), [ClickArrives(e), Timer]);
    assert Saving(s.jobs[0]) == [Item(Click, e, 0)];
    CallRefused(s, 0, Item(Click, e, 0));
    BumpAlone(Item(Click, e, 0));
    T.ExecConcat(Init(), [ClickArrives(e), Timer], AppliedRefusals(0, e.shortCode));
  }

  lemma RefusalsBringNothing(arrivals: seq<Step>, n: nat, code: string)
    ensures Received(arrivals + ([Timer] + AppliedRefusals(n, code))) == Received(arrivals)
    ensures Received(arrivals + AppliedRefusals(n, code)) == Received(arrivals)
  {
    T.ReceivedConcat(arrivals, [Timer] + AppliedRefusals(n, code));
    T.ReceivedConcat(arrivals, AppliedRefusals(n, code));
  }

  /** Twelve increments for a single click do happen. */
  lemma TwelveReached(e: Event) returns (steps: seq<Step>)
    ensures Received(steps) == [Item(Click, e, 0)]
    ensures At(Exec(Init(), steps).counter, e.shortCode) == 12
  {
    hide Exec, AppliedRefusals;
    var x, code := Item(Click, e, 1), e.shortCode;
    var a := [ClickArrives(e), Timer] + AppliedRefusals(0, code);
    var s1 := Exec(Init(), a);
    FirstCallRefused(e);
    var b := [Timer] + AppliedRefusals(|s1.jobs|, code);
    RetryRefused(s1, x);
    T.ExecConcat(Init(), a, b);
    var s2 := Exec(Init(), a + b);
    var c := [Timer] + AppliedRefusals(|s2.jobs|, code);
    RetryRefused(s2, Failed(x));
    T.ExecConcat(Init(), a + b, c);
    steps := a + b + c;
    OneReceived(e);
    RefusalsBringNothing([ClickArrives(e), Timer], 0, code);
    RefusalsBringNothing(a, |s1.jobs|, code);
    RefusalsBringNothing(a + b, |s2.jobs|, code);
  }

  lemma OneReceived(e: Event)
    ensures Received([ClickArrives(e), Timer]) == [Item(Click, e, 0)]
  {
    assert [ClickArrives(e), Timer][..1] == [ClickArrives(e)] && [ClickArrives(e)][..0] == [];
    assert Received([ClickArrives(e)]) == [Item(Click, e, 0)];
  }

  /**
   What is counted when: an accepted attempt counts every click of its code in the call; a refused
   one counts those whose update was applied and leaves the others to be applied later; and an
   update that is applied later moves clicks from there to the counter.
   */
  lemma AttemptsCount(c: string, s: State, n: nat, applied: set<string>, clicks: nat)
    requires n < |s.jobs| && Saving(s.jobs[n]) != []
    ensures var held := Sum(Held(c), Saving(s.jobs[n]));
            && At(Apply(s, AttemptSucceeds(n)).counter, c) == At(s.counter, c) + held
            && At(Apply(s, AttemptFails(n, applied)).counter, c) == At(s.counter, c) + (if c in applied then held else 0)
            && At(Apply(s, AttemptFails(n, applied)).late, c) == At(s.late, c) + (if c in applied then 0 else held)
    ensures clicks <= At(s.late, c) ==>
              var s' := Apply(s, LateUpdate(c, clicks));
              At(s'.counter, c) == At(s.counter, c) + clicks && At(s'.late, c) == At(s.late, c) - clicks
  {
    hide Sum, Saving, Apply, At;
    AcceptedCounts(c, s, n);
    RefusedCountsApplied(c, s, n, applied);
    if clicks <= At(s.late, c) {
      LateCounts(c, s, clicks);
    }
  }

  lemma AcceptedCounts(c: string, s: State, n: nat)
    requires n < |s.jobs| && Saving(s.jobs[n]) != []
    ensures At(Apply(s, AttemptSucceeds(n)).counter, c) == At(s.counter, c) + Sum(Held(c), Saving(s.jobs[n]))
  {
    hide Sum, AddCounts, Saving, Codes, At;
    AtAddCounts(s.counter, Saving(s.jobs[n]), Codes(Saving(s.jobs[n])), c);
  }

  lemma RefusedCountsApplied(c: string, s: State, n: nat, applied: set<string>)
    requires n < |s.jobs| && Saving(s.jobs[n]) != []
    ensures var held, s' := Sum(Held(c), Saving(s.jobs[n])), Apply(s, AttemptFails(n, applied));
            && At(s'.counter, c) == At(s.counter, c) + (if c in applied then held else 0)
            && At(s'.late, c) == At(s.late, c) + (if c in applied then 0 else held)
  {
    hide Sum, AddCounts, Saving, Codes, At, Requeued, AfterSave;
    var items := Saving(s.jobs[n]);
    AtAddCounts(s.counter, items, applied, c);
    AtAddCounts(s.late, items, Codes(items) - applied, c);
  }

  lemma LateCounts(c: string, s: State, clicks: nat)
    requires clicks <= At(s.late, c)
    ensures var s' := Apply(s, LateUpdate(c, clicks));
            At(s'.counter, c) == At(s.counter, c) + clicks && At(s'.late, c) == At(s.late, c) - clicks
  {
  }

  /** A database that applies each attempt completely or not at all. */
  ghost predicate AllOrNothing(steps: seq<Step>) {
    forall i :: 0 <= i < |steps| ==>
      (steps[i].AttemptFails? ==> steps[i].applied == {}) && !steps[i].LateUpdate?
  }

  /** If each attempt is all-or-nothing, every counter is exactly the number of clicks saved. */
  lemma {:induction false} AllOrNothingCountsExactly(c: string, steps: seq<Step>)
    requires AllOrNothing(steps)
    ensures var s := Exec(Init(), steps); At(s.counter, c) == Sum(Held(c), s.log.saved)
  {
    if steps != [] {
      var before, last := Exec(Init(), steps[..|steps| - 1]), steps[|steps| - 1];
      AllOrNothingCountsExactly(c, steps[..|steps| - 1]);
      assert Exec(Init(), steps) == Apply(before, last);
      StepCountsExactly(c, before, last);
    }
  }

  lemma OthersCountNothing(s: State, step: Step)
    requires !step.AttemptFails? && !step.AttemptSucceeds? && !step.LateUpdate?
    ensures Apply(s, step).counter == s.counter && Apply(s, step).log.saved == s.log.saved
  {
    hide Retryable, Exhausted, Saving, Lift;
  }

  lemma AttemptsSave(s: State, n: nat, applied: set<string>)
    requires n < |s.jobs| && Saving(s.jobs[n]) != []
    ensures Apply(s, AttemptFails(n, applied)).log.saved == s.log.saved
    ensures Apply(s, AttemptSucceeds(n)).log.saved == s.log.saved + Saving(s.jobs[n])
  {
    hide AddCounts, Requeued, Saving, AfterSave;
  }

  lemma StepCountsExactly(c: string, s: State, step: Step)
    requires At(s.counter, c) == Sum(Held(c), s.log.saved)
    requires (step.AttemptFails? ==> step.applied == {}) && !step.LateUpdate?
    ensures var s' := Apply(s, step); At(s'.counter, c) == Sum(Held(c), s'.log.saved)
  {
    hide Sum, At, FailAttempt, PassAttempt, Saving;
    match step
    case AttemptFails(n, applied) =>
      if n < |s.jobs| && Saving(s.jobs[n]) != [] {
        AttemptsCount(c, s, n, applied, 0);
        AttemptsSave(s, n, applied);
      }
    case AttemptSucceeds(n) =>
      if n < |s.jobs| && Saving(s.jobs[n]) != [] {
        AttemptsCount(c, s, n, {}, 0);
        AttemptsSave(s, n, {});
        SumConcat(Held(c), s.log.saved, Saving(s.jobs[n]));
      }
    case _ => OthersCountNothing(s, step);
  }
}
