/** The pipeline's main results about single events: where each one is, and when one is lost. */
module PipelineTheorems {
  import opened Common
  import opened PipelineModel
  import opened PipelineLaws
  import opened PipelineBuffers
  import opened PipelineFates

  /** The places an event can be in without having dropped out. */
  function Kept(v: Item -> nat, s: State): nat {
    Sum(v, Buffers(s)) + Sum(v, s.dlq) + SumJobs(v, s.jobs) + Sum(v, s.log.saved) + Sum(v, s.log.reported)
  }

  lemma {:induction false} SumLe(v: Item -> nat, w: Item -> nat, s: seq<Item>)
    requires forall i :: v(i) <= w(i)
    ensures Sum(v, s) <= Sum(w, s)
  {
    if s != [] {
      SumLe(v, w, s[..|s| - 1]);
    }
  }

  lemma {:induction false} SumPositive(k: Key, s: seq<Item>, i: Item)
    requires i in s && KeyOf(i) == k
    ensures 0 < Sum(Under(k), s) && i.failures <= Sum(FailuresUnder(k), s)
  {
    var p :| 0 <= p < |s| && s[p] == i;
    SumAtLeast(Under(k), s, p);
    SumAtLeast(FailuresUnder(k), s, p);
  }

  lemma {:induction false} NoneNoFailures(k: Key, s: seq<Item>)
    requires Sum(Under(k), s) == 0
    ensures Sum(FailuresUnder(k), s) == 0
  {
    if s != [] {
      NoneNoFailures(k, s[..|s| - 1]);
    }
  }

  lemma {:induction false} JobsNoneNoFailures(k: Key, jobs: seq<Job>)
    requires SumJobs(Under(k), jobs) == 0
    ensures SumJobs(FailuresUnder(k), jobs) == 0
  {
    if jobs != [] {
      var j := jobs[|jobs| - 1];
      JobsNoneNoFailures(k, jobs[..|jobs| - 1]);
      match j
      case Flush(_, _, _) => NoneNoFailures(k, Saving(j));
      case Retry(clicks, analytics, failed, _) =>
        NoneNoFailures(k, clicks);
        NoneNoFailures(k, analytics);
        NoneNoFailures(k, failed);
    }
  }

  lemma {:induction false} OneItemFailures(k: Key, s: seq<Item>, i: Item)
    requires i in s && KeyOf(i) == k && Sum(Under(k), s) == 1
    ensures Sum(FailuresUnder(k), s) == i.failures
  {
    var n := |s| - 1;
    if s[n] == i {
      NoneNoFailures(k, s[..n]);
    } else {
      assert i in s[..n];
      SumPositive(k, s[..n], i);
      OneItemFailures(k, s[..n], i);
    }
  }

  /**
   An event whose key no other received event shares is, after any run, in exactly one place
   and never lost.  If it was reported it has been through exactly 3 failed save calls; if it
   was saved, through fewer than 3.
   */
  lemma ExactlyOnePlace(r: Item, steps: seq<Step>)
    requires r in Received(steps) && Sum(Under(KeyOf(r)), Received(steps)) == 1
    ensures var s, k := Exec(Init(), steps), KeyOf(r);
            && Kept(Same(r.kind, r.event), s) == 1
            && Sum(Under(k), s.log.lost) == 0
            && (forall i :: i in s.log.reported && KeyOf(i) == k ==>
                  i.failures == 3 && Sum(Under(k), s.log.failedCalls) == 3)
            && (forall i :: i in s.log.saved && KeyOf(i) == k ==>
                  i.failures == Sum(Under(k), s.log.failedCalls) < 3)
  {
    var s, k := Exec(Init(), steps), KeyOf(r);
    RunReceives(steps);
    KeysConserved(k, steps);
    RunLossNeedsClash(k, steps);
    EventsConserved(r.kind, r.event, steps);
    SumLe(Same(r.kind, r.event), Under(k), s.log.lost);
    SumLe(Same(r.kind, r.event), Under(k), s.log.received);
    var p :| 0 <= p < |s.log.received| && s.log.received[p] == r;
    SumAtLeast(Same(r.kind, r.event), s.log.received, p);
    RunWellFormed(steps);
    RunCapped(steps);
    FailuresConserved(k, steps);
    forall i | i in s.log.reported && KeyOf(i) == k
      ensures i.failures == 3 && Sum(Under(k), s.log.failedCalls) == 3
    {
      SumPositive(k, s.log.reported, i);
      OneItemFailures(k, s.log.reported, i);
      OnlyThere(k, s);
    }
    forall i | i in s.log.saved && KeyOf(i) == k
      ensures i.failures == Sum(Under(k), s.log.failedCalls) < 3
    {
      SumPositive(k, s.log.saved, i);
      OneItemFailures(k, s.log.saved, i);
      OnlyThere(k, s);
    }
  }

  /** With one event under a key, only its own place holds failures of that key. */
  lemma OnlyThere(k: Key, s: State)
    requires Total(Under(k), s) == 1
    ensures 0 < Sum(Under(k), s.log.reported) ==> Total(FailuresUnder(k), s) == Sum(FailuresUnder(k), s.log.reported)
    ensures 0 < Sum(Under(k), s.log.saved) ==> Total(FailuresUnder(k), s) == Sum(FailuresUnder(k), s.log.saved)
  {
    if 0 < Sum(Under(k), s.log.reported) || 0 < Sum(Under(k), s.log.saved) {
      NoneNoFailures(k, Buffers(s));
      NoneNoFailures(k, s.dlq);
      JobsNoneNoFailures(k, s.jobs);
      NoneNoFailures(k, s.log.lost);
      if Sum(Under(k), s.log.reported) == 0 {
        NoneNoFailures(k, s.log.reported);
      } else {
        NoneNoFailures(k, s.log.saved);
      }
    }
  }

  // ---- exactly when events can be lost ----

  predicate IsArrival(step: Step) {
    step.ClickArrives? || step.AnalyticsArrives?
  }

  ghost predicate Arrivals(steps: seq<Step>) {
    forall i :: 0 <= i < |steps| ==> IsArrival(steps[i])
  }

  ghost predicate NoArrivals(steps: seq<Step>) {
    forall i :: 0 <= i < |steps| ==> !IsArrival(steps[i])
  }

  lemma {:induction false} ExecConcat(s: State, a: seq<Step>, b: seq<Step>)
    ensures Exec(s, a + b) == Exec(Exec(s, a), b)
  {
    hide Apply;
    if b == [] {
      assert a + b == a;
    } else {
      ExecConcat(s, a, b[..|b| - 1]);
      assert (a + b)[..|a + b| - 1] == a + b[..|b| - 1];
    }
  }

  /** Only flushes that have not failed yet are under way, and nothing has been decided. */
  ghost predicate Undecided(s: State) {
    && (forall n :: 0 <= n < |s.jobs| ==> s.jobs[n].Flush? && s.jobs[n].attempts == 0)
    && s.dlq == [] && s.log.saved == [] && s.log.reported == []
  }

  lemma {:induction false} ArrivalsUndecided(steps: seq<Step>)
    requires Arrivals(steps)
    ensures Undecided(Exec(Init(), steps))
  {
    if steps != [] {
      var before, last := Exec(Init(), steps[..|steps| - 1]), steps[|steps| - 1];
      ArrivalsUndecided(steps[..|steps| - 1]);
      assert Exec(Init(), steps) == Apply(before, last);
      assert IsArrival(last);
    }
  }

  /** The first `m` jobs have failed for good, the others have not been touched. */
  ghost predicate FailedUpTo(s: State, m: nat) {
    && m <= |s.jobs|
    && (forall n :: 0 <= n < m ==> Saving(s.jobs[n]) == [] && s.jobs[n].Flush?)
    && (forall n :: m <= n < |s.jobs| ==> s.jobs[n].Flush? && s.jobs[n].attempts == 0)
    && s.log.saved == [] && s.log.reported == []
    && s.clickBuffer == [] && s.analyticsBuffer == []
  }

  function FourFailures(n: nat): seq<Step> {
    [AttemptFails(n, {}), AttemptFails(n, {}), AttemptFails(n, {}), AttemptFails(n, {})]
  }

  lemma FailOne(s: State, m: nat)
    requires FailedUpTo(s, m) && m < |s.jobs|
    ensures FailedUpTo(Exec(s, FourFailures(m)), m + 1)
    ensures |Exec(s, FourFailures(m)).jobs| == |s.jobs|
  {
    var f := FourFailures(m);
    var step := AttemptFails(m, {});
    assert f[..3] == [step, step, step] && f[..3][..2] == [step, step] && f[..2][..1] == [step] && f[..1][..0] == [];
    assert f[..3][..2] == f[..2];
    var s1 := Apply(s, step);
    var s2 := Apply(s1, step);
    var s3 := Apply(s2, step);
    var s4 := Apply(s3, step);
    assert Exec(s, f[..1]) == s1;
    assert Exec(s, f[..2]) == s2;
    assert Exec(s, f[..3]) == s3;
    assert Exec(s, f) == s4;
    if Saving(s.jobs[m]) != [] {
      var j := s.jobs[m];
      assert s1.jobs == s.jobs[m := Attempted(j)];
      assert s2.jobs == s.jobs[m := Attempted(Attempted(j))];
      assert s3.jobs == s.jobs[m := Attempted(Attempted(Attempted(j)))];
      assert s4.jobs == s.jobs[m := AfterSave(s.jobs[m])];
    } else {
      assert s1 == s && s4 == s;
    }
  }

  lemma {:induction false} FailThemAll(s: State, m: nat) returns (steps: seq<Step>)
    requires FailedUpTo(s, m)
    ensures NoArrivals(steps) && FailedUpTo(Exec(s, steps), |s.jobs|) && |Exec(s, steps).jobs| == |s.jobs|
    decreases |s.jobs| - m
  {
    if m == |s.jobs| {
      steps := [];
    } else {
      FailOne(s, m);
      var rest := FailThemAll(Exec(s, FourFailures(m)), m + 1);
      ExecConcat(s, FourFailures(m), rest);
      steps := FourFailures(m) + rest;
    }
  }

  lemma {:induction false} UniqueAtMostOne(k: Key, q: seq<Item>)
    requires UniqueKeys(q)
    ensures Sum(Under(k), q) <= 1
  {
    if q != [] {
      var n := |q| - 1;
      UniqueAtMostOne(k, q[..n]);
      if KeyOf(q[n]) == k {
        NotThere(k, q[..n]);
      }
    }
  }

  lemma {:induction false} NotThere(k: Key, q: seq<Item>)
    requires forall i :: 0 <= i < |q| ==> KeyOf(q[i]) != k
    ensures Sum(Under(k), q) == 0
  {
    if q != [] {
      NotThere(k, q[..|q| - 1]);
    }
  }

  lemma {:induction false} IdleFlushesHoldNothing(v: Item -> nat, jobs: seq<Job>)
    requires forall n :: 0 <= n < |jobs| ==> Saving(jobs[n]) == [] && jobs[n].Flush?
    ensures SumJobs(v, jobs) == 0
  {
    if jobs != [] {
      IdleFlushesHoldNothing(v, jobs[..|jobs| - 1]);
    }
  }

  lemma TimerFailedUpTo(s: State)
    requires Undecided(s) && Disciplined(s)
    ensures FailedUpTo(Apply(s, Timer), 0)
  {
    TimerDisciplined(Click, s);
    StartFlushUndecided(s, Click);
    StartFlushUndecided(StartFlush(s, Click), Analytics);
  }

  /** After any arrivals the database can refuse everything: then all is in the queue, or lost. */
  lemma RefuseEverything(arrivals: seq<Step>) returns (tail: seq<Step>)
    requires Arrivals(arrivals)
    ensures NoArrivals(tail)
    ensures var u := Exec(Init(), arrivals + tail); FailedUpTo(u, |u.jobs|)
  {
    var s := Exec(Init(), arrivals);
    ArrivalsUndecided(arrivals);
    BufferDiscipline(Click, arrivals);
    TimerFailedUpTo(s);
    var rest := FailThemAll(Apply(s, Timer), 0);
    tail := [Timer] + rest;
    assert Exec(s, [Timer]) == Apply(s, Timer) by { assert [Timer][..0] == []; }
    ExecConcat(s, [Timer], rest);
    ExecConcat(Init(), arrivals, tail);
  }

  lemma NothingElsewhere(k: Key, u: State)
    requires FailedUpTo(u, |u.jobs|)
    ensures Total(Under(k), u) == Sum(Under(k), u.dlq) + Sum(Under(k), u.log.lost)
  {
    IdleFlushesHoldNothing(Under(k), u.jobs);
    assert Buffers(u) == [];
  }

  /** When keys clash, a database that is down for long enough loses an event. */
  lemma ClashCanLose(arrivals: seq<Step>, k: Key) returns (tail: seq<Step>)
    requires Arrivals(arrivals) && 2 <= Sum(Under(k), Received(arrivals))
    ensures NoArrivals(tail) && Exec(Init(), arrivals + tail).log.lost != []
  {
    tail := RefuseEverything(arrivals);
    var u := Exec(Init(), arrivals + tail);
    KeysConserved(k, arrivals + tail);
    RunReceives(arrivals + tail);
    ReceivedConcat(arrivals, tail);
    RunWellFormed(arrivals + tail);
    UniqueAtMostOne(k, u.dlq);
    NothingElsewhere(k, u);
  }

  lemma StartFlushUndecided(s: State, kind: Kind)
    requires Undecided(s)
    ensures Undecided(StartFlush(s, kind))
  {
  }

  lemma {:induction false} ReceivedConcat(a: seq<Step>, b: seq<Step>)
    requires NoArrivals(b)
    ensures Received(a + b) == Received(a)
  {
    if b == [] {
      assert a + b == a;
    } else {
      var last := b[|b| - 1];
      ReceivedConcat(a, b[..|b| - 1]);
      assert (a + b)[..|a + b| - 1] == a + b[..|b| - 1];
      assert !IsArrival(last);
    }
  }

  lemma {:induction false} NonemptyWeighs(s: seq<Item>)
    requires s != []
    ensures 0 < Sum(Under(KeyOf(s[0])), s)
  {
    SumAtLeast(Under(KeyOf(s[0])), s, 0);
  }

  /**
   Exactly when events can be lost: for any arrivals, some course of the timer and the
   database loses an event if and only if two of the events received have the same key.
   */
  lemma LostIffClash(arrivals: seq<Step>)
    requires Arrivals(arrivals)
    ensures (exists tail :: NoArrivals(tail) && Exec(Init(), arrivals + tail).log.lost != [])
       <==> (exists k :: 2 <= Sum(Under(k), Received(arrivals)))
  {
    if k :| 2 <= Sum(Under(k), Received(arrivals)) {
      var tail := ClashCanLose(arrivals, k);
    }
    if tail :| NoArrivals(tail) && Exec(Init(), arrivals + tail).log.lost != [] {
      var lost := Exec(Init(), arrivals + tail).log.lost;
      var k := KeyOf(lost[0]);
      NonemptyWeighs(lost);
      RunLossNeedsClash(k, arrivals + tail);
      KeysConserved(k, arrivals + tail);
      RunReceives(arrivals + tail);
      ReceivedConcat(arrivals, tail);
    }
  }

  // ---- analytics events always clash with their enriched copies ----

  ghost predicate Holds(q: seq<Item>, k: Key) {
    exists p :: 0 <= p < |q| && KeyOf(q[p]) == k
  }

  lemma BumpHolds(r: Queued, i: Item)
    ensures Holds(Bump(r, i).dlq, KeyOf(i))
    ensures forall k :: Holds(r.dlq, k) ==> Holds(Bump(r, i).dlq, k)
  {
    var p, r' := IndexOf(r.dlq, KeyOf(i)), Bump(r, i).dlq;
    assert KeyOf(r'[p]) == KeyOf(i);
    forall k | Holds(r.dlq, k)
      ensures Holds(r', k)
    {
      var at :| 0 <= at < |r.dlq| && KeyOf(r.dlq[at]) == k;
      assert KeyOf(r'[at]) == k;
    }
  }

  lemma {:induction false} BumpAllHolds(q: seq<Item>, batch: seq<Item>, i: nat)
    requires i < |batch|
    ensures Holds(BumpAll(q, batch).dlq, KeyOf(batch[i]))
  {
    var n := |batch| - 1;
    BumpHolds(BumpAll(q, batch[..n]), batch[n]);
    if i < n {
      BumpAllHolds(q, batch[..n], i);
    }
  }

  lemma {:induction false} BumpAllDrops(q: seq<Item>, batch: seq<Item>, i: nat, j: nat)
    requires i < j < |batch| && KeyOf(batch[i]) == KeyOf(batch[j])
    ensures batch[j] in BumpAll(q, batch).lost
  {
    var n := |batch| - 1;
    if j < n {
      BumpAllDrops(q, batch[..n], i, j);
    } else {
      BumpAllHolds(q, batch[..n], i);
    }
  }

  ghost predicate JobsPaired(s: State) {
    forall n :: 0 <= n < |s.jobs| && s.jobs[n].Flush? && s.jobs[n].kind.Analytics? ==> Paired(s.jobs[n].batch)
  }

  lemma StartFlushJobsPaired(s: State, kind: Kind)
    requires JobsPaired(s) && Paired(s.analyticsBuffer) && |s.analyticsBuffer| <= BATCH_SIZE
    ensures JobsPaired(StartFlush(s, kind))
  {
    assert s.analyticsBuffer[..|s.analyticsBuffer|] == s.analyticsBuffer;
  }

  lemma ArriveJobsPaired(s: State, e: Event, device: Device)
    requires JobsPaired(s) && Disciplined(s)
    ensures JobsPaired(Arrive(s, Analytics, [e, Enrich(e, device)]))
  {
    PairOf(e, device);
    PairedConcat(s.analyticsBuffer, [e, Enrich(e, device)]);
    StartFlushJobsPaired(Pushed(s, Analytics, [e, Enrich(e, device)]), Analytics);
  }

  lemma TimerJobsPaired(s: State)
    requires JobsPaired(s) && Disciplined(s)
    ensures JobsPaired(Apply(s, Timer))
  {
    StartFlushJobsPaired(s, Click);
    FlushEmpties(s, Click, Click);
    StartFlushJobsPaired(StartFlush(s, Click), Analytics);
  }

  lemma StepJobsPaired(s: State, step: Step)
    requires JobsPaired(s) && Disciplined(s)
    ensures JobsPaired(Apply(s, step))
  {
    match step
    case AnalyticsArrives(e, device) => ArriveJobsPaired(s, e, device);
    case Timer => TimerJobsPaired(s);
    case _ =>
  }

  lemma {:induction false} RunJobsPaired(steps: seq<Step>)
    ensures JobsPaired(Exec(Init(), steps))
  {
    hide Apply;
    if steps != [] {
      var before, last := Exec(Init(), steps[..|steps| - 1]), steps[|steps| - 1];
      RunJobsPaired(steps[..|steps| - 1]);
      BufferDiscipline(Analytics, steps[..|steps| - 1]);
      StepJobsPaired(before, last);
      assert Exec(Init(), steps) == Apply(before, last);
    }
  }

  lemma FailedFlushDropsEnriched(s: State, n: nat, applied: set<string>, i: nat)
    requires JobsPaired(s) && n < |s.jobs| && s.jobs[n].Flush? && s.jobs[n].kind.Analytics?
    requires s.jobs[n].attempts == MAX_RETRIES && i < |s.jobs[n].batch| && i % 2 == 1
    ensures IsEnriched(s.jobs[n].batch[i - 1], s.jobs[n].batch[i])
    ensures Item(Analytics, s.jobs[n].batch[i], 0) in FailAttempt(s, n, applied).log.lost
  {
    var items := Saving(s.jobs[n]);
    assert PairEndsAt(s.jobs[n].batch, i);
    BumpAllDrops(s.dlq, items, i - 1, i);
    hide BumpAll, AddCounts;
    var r := Requeued(s.jobs[n], s.dlq);
    assert items[i] in r.lost;
    assert FailAttempt(s, n, applied).log.lost == s.log.lost + r.lost;
  }

  /**
   A raw analytics event and its enriched copy share their dead-letter key, so in every run,
   whenever the save call of an analytics flush fails for good, every second event of its
   batch is an enriched copy and is lost.
   */
  lemma FailedAnalyticsFlushDropsEnriched(steps: seq<Step>, n: nat, applied: set<string>, i: nat)
    requires var s := Exec(Init(), steps);
             n < |s.jobs| && s.jobs[n].Flush? && s.jobs[n].kind.Analytics? && s.jobs[n].attempts == MAX_RETRIES
             && i < |s.jobs[n].batch| && i % 2 == 1
    ensures var s := Exec(Init(), steps);
            && IsEnriched(s.jobs[n].batch[i - 1], s.jobs[n].batch[i])
            && Item(Analytics, s.jobs[n].batch[i], 0) in Apply(s, AttemptFails(n, applied)).log.lost
  {
    hide Exec, FailAttempt;
    var s := Exec(Init(), steps);
    RunJobsPaired(steps);
    FailedFlushDropsEnriched(s, n, applied, i);
    assert |Saving(s.jobs[n])| == |s.jobs[n].batch|;
  }
}
