/**
 The click pipeline as a step machine.  Each step is one stretch of code between two
 `await` points; whatever a suspended call still holds is an explicit job.  Steps that do
 not apply leave the state as it is, so every sequence of steps is a run.
 */
module PipelineModel {
  import opened Common

  const BATCH_SIZE: nat := 100
  const MAX_RETRIES: nat := 3
  const DEAD_LETTER_THRESHOLD: nat := 3

  datatype Kind = Click | Analytics

  /** What the user-agent rules say about a device; no metadata at all is `None`. */
  datatype Device = Device(isMobile: bool, isTablet: bool)

  datatype Metadata = Metadata(userAgent: Option<string>, ip: Option<string>, device: Option<Device>)

  datatype Event = Event(shortCode: string, timestamp: int, metadata: Metadata)

  /** An event together with the failure count the dead-letter queue keeps for it. */
  datatype Item = Item(kind: Kind, event: Event, failures: nat)

  /** The dead-letter key: the kind, the code and the time, and nothing else. */
  datatype Key = Key(kind: Kind, code: string, time: int)

  function KeyOf(i: Item): Key {
    Key(i.kind, i.event.shortCode, i.event.timestamp)
  }

  function Failed(i: Item): Item {
    i.(failures := i.failures + 1)
  }

  function Enrich(e: Event, device: Device): Event {
    e.(metadata := e.metadata.(device := Some(device)))
  }

  function Lift(kind: Kind, batch: seq<Event>): (items: seq<Item>)
    ensures |items| == |batch|
    ensures forall i :: 0 <= i < |items| ==> items[i] == Item(kind, batch[i], 0)
  {
    seq(|batch|, i requires 0 <= i < |batch| => Item(kind, batch[i], 0))
  }

  /**
   A suspended call.  A flush is saving its batch.  A retry first saves its clicks, then
   its analytics, then reports the items that failed for good; what it has dealt with is
   emptied, so a finished job holds nothing.  `attempts` counts the failed attempts of the
   save call now under way.
   */
  datatype Job =
    | Flush(kind: Kind, batch: seq<Event>, attempts: nat)
    | Retry(clicks: seq<Item>, analytics: seq<Item>, failed: seq<Item>, attempts: nat)

  /** Everything that ever happened; the service itself never reads it. */
  datatype Log = Log(
    received: seq<Item>,
    flushed: seq<(Kind, seq<Event>)>,
    failedCalls: seq<Item>,
    saved: seq<Item>,
    reported: seq<Item>,
    lost: seq<Item>)

  /** `late` holds updates of failed attempts that the database may still apply. */
  datatype State = State(
    clickBuffer: seq<Event>,
    analyticsBuffer: seq<Event>,
    dlq: seq<Item>,
    jobs: seq<Job>,
    counter: map<string, nat>,
    late: map<string, nat>,
    log: Log)

  function Init(): State {
    State([], [], [], [], map[], map[], Log([], [], [], [], [], []))
  }

  // ---- the dead-letter queue: a Map kept in insertion order ----

  /** The position of a key, or the length of the queue. */
  function IndexOf(q: seq<Item>, k: Key): (p: nat)
    ensures p <= |q|
    ensures p < |q| ==> KeyOf(q[p]) == k
    ensures forall i :: 0 <= i < p ==> KeyOf(q[i]) != k
  {
    if q == [] then 0
    else if KeyOf(q[0]) == k then 0
    else 1 + IndexOf(q[1..], k)
  }

  /** A queue and the items that fell out of the system on the way to it. */
  datatype Queued = Queued(dlq: seq<Item>, lost: seq<Item>)

  /** A failed flush counts the failure against whatever the key already holds. */
  function Bump(r: Queued, i: Item): Queued {
    var p := IndexOf(r.dlq, KeyOf(i));
    if p < |r.dlq| then Queued(r.dlq[p := Failed(r.dlq[p])], r.lost + [i])
    else Queued(r.dlq + [Failed(i)], r.lost)
  }

  function BumpAll(q: seq<Item>, batch: seq<Item>): Queued {
    if batch == [] then Queued(q, [])
    else Bump(BumpAll(q, batch[..|batch| - 1]), batch[|batch| - 1])
  }

  /** A failed retry overwrites whatever the key already holds. */
  function Put(r: Queued, i: Item): Queued {
    var p := IndexOf(r.dlq, KeyOf(i));
    if p < |r.dlq| then Queued(r.dlq[p := Failed(i)], r.lost + [r.dlq[p]])
    else Queued(r.dlq + [Failed(i)], r.lost)
  }

  function PutAll(q: seq<Item>, items: seq<Item>): Queued {
    if items == [] then Queued(q, [])
    else Put(PutAll(q, items[..|items| - 1]), items[|items| - 1])
  }

  function Retryable(kind: Kind, q: seq<Item>): seq<Item> {
    if q == [] then []
    else
      var i := q[|q| - 1];
      Retryable(kind, q[..|q| - 1]) + if i.failures < DEAD_LETTER_THRESHOLD && i.kind == kind then [i] else []
  }

  function Exhausted(q: seq<Item>): seq<Item> {
    if q == [] then []
    else
      var i := q[|q| - 1];
      Exhausted(q[..|q| - 1]) + if i.failures < DEAD_LETTER_THRESHOLD then [] else [i]
  }

  // ---- jobs ----

  /** The items of the save call a job is waiting for. */
  function Saving(j: Job): seq<Item> {
    match j
    case Flush(kind, batch, _) => Lift(kind, batch)
    case Retry(clicks, analytics, _, _) => if clicks != [] then clicks else analytics
  }

  function AfterSave(j: Job): Job {
    match j
    case Flush(kind, _, _) => Flush(kind, [], 0)
    case Retry(clicks, analytics, failed, _) =>
      Retry([], if clicks != [] then analytics else [], failed, 0)
  }

  function Attempted(j: Job): Job {
    j.(attempts := j.attempts + 1)
  }

  predicate Idle(j: Job) {
    Saving(j) == [] && (j.Retry? ==> j.failed == [])
  }

  function Requeued(j: Job, q: seq<Item>): Queued {
    match j
    case Flush(_, _, _) => BumpAll(q, Saving(j))
    case Retry(_, _, _, _) => PutAll(q, Saving(j))
  }

  // ---- the counter table ----

  predicate ClickOf(i: Item, code: string) {
    i.kind.Click? && i.event.shortCode == code
  }

  function ClicksFor(code: string, items: seq<Item>): nat {
    if items == [] then 0
    else ClicksFor(code, items[..|items| - 1]) + if ClickOf(items[|items| - 1], code) then 1 else 0
  }

  function Codes(items: seq<Item>): set<string> {
    set i | i in items && i.kind.Click? :: i.event.shortCode
  }

  /** One grouped `clicks = clicks + ?` update for each code that is wanted. */
  function AddCounts(counter: map<string, nat>, items: seq<Item>, wanted: set<string>): map<string, nat> {
    map c | c in counter.Keys + Codes(items) ::
      At(counter, c) + if c in wanted then ClicksFor(c, items) else 0
  }

  // ---- steps ----

  datatype Step =
    | ClickArrives(event: Event)
    | AnalyticsArrives(event: Event, device: Device)
    | Timer
    | AttemptFails(job: nat, applied: set<string>)
    | AttemptSucceeds(job: nat)
    | ReportFailed(job: nat)
    | LateUpdate(code: string, clicks: nat)

  function BufferOf(kind: Kind, s: State): seq<Event> {
    if kind.Click? then s.clickBuffer else s.analyticsBuffer
  }

  function WithBuffer(kind: Kind, s: State, buffer: seq<Event>): State {
    if kind.Click? then s.(clickBuffer := buffer) else s.(analyticsBuffer := buffer)
  }

  function StartFlush(s: State, kind: Kind): State {
    var buffer := BufferOf(kind, s);
    if buffer == [] then s
    else
      var n := Min(BATCH_SIZE, |buffer|);
      WithBuffer(kind, s, buffer[n..])
        .(jobs := s.jobs + [Flush(kind, buffer[..n], 0)],
          log := s.log.(flushed := s.log.flushed + [(kind, buffer[..n])]))
  }

  function StartRetry(s: State): State {
    if s.dlq == [] then s
    else
      s.(dlq := [],
         jobs := s.jobs + [Retry(Retryable(Click, s.dlq), Retryable(Analytics, s.dlq), Exhausted(s.dlq), 0)])
  }

  function Pushed(s: State, kind: Kind, events: seq<Event>): State {
    WithBuffer(kind, s, BufferOf(kind, s) + events)
      .(log := s.log.(received := s.log.received + Lift(kind, events)))
  }

  /** Events are pushed, and a full buffer is flushed at once. */
  function Arrive(s: State, kind: Kind, events: seq<Event>): State {
    var s' := Pushed(s, kind, events);
    if |BufferOf(kind, s')| >= BATCH_SIZE then StartFlush(s', kind) else s'
  }

  /** The database refused an attempt, though it applied some updates and may yet apply others. */
  function FailAttempt(s: State, n: nat, applied: set<string>): State
    requires n < |s.jobs|
  {
    var j := s.jobs[n];
    var items := Saving(j);
    var t := s.(counter := AddCounts(s.counter, items, applied),
                late := AddCounts(s.late, items, Codes(items) - applied));
    if j.attempts < MAX_RETRIES then t.(jobs := s.jobs[n := Attempted(j)])
    else
      var r := Requeued(j, s.dlq);
      t.(jobs := s.jobs[n := AfterSave(j)],
         dlq := r.dlq,
         log := s.log.(failedCalls := s.log.failedCalls + items, lost := s.log.lost + r.lost))
  }

  function PassAttempt(s: State, n: nat): State
    requires n < |s.jobs|
  {
    var items := Saving(s.jobs[n]);
    s.(counter := AddCounts(s.counter, items, Codes(items)),
       jobs := s.jobs[n := AfterSave(s.jobs[n])],
       log := s.log.(saved := s.log.saved + items))
  }

  function Report(s: State, n: nat): State
    requires n < |s.jobs| && s.jobs[n].Retry?
  {
    s.(jobs := s.jobs[n := s.jobs[n].(failed := [])],
       log := s.log.(reported := s.log.reported + s.jobs[n].failed))
  }

  function Apply(s: State, step: Step): State {
    match step
    case ClickArrives(e) => Arrive(s, Click, [e])
    case AnalyticsArrives(e, device) => Arrive(s, Analytics, [e, Enrich(e, device)])
    case Timer => StartRetry(StartFlush(StartFlush(s, Click), Analytics))
    case AttemptFails(n, applied) =>
      if n < |s.jobs| && Saving(s.jobs[n]) != [] then FailAttempt(s, n, applied) else s
    case AttemptSucceeds(n) =>
      if n < |s.jobs| && Saving(s.jobs[n]) != [] then PassAttempt(s, n) else s
    case ReportFailed(n) =>
      if n < |s.jobs| && Saving(s.jobs[n]) == [] && s.jobs[n].Retry? then Report(s, n) else s
    case LateUpdate(c, k) =>
      if k <= At(s.late, c) then
        s.(late := s.late[c := At(s.late, c) - k], counter := s.counter[c := At(s.counter, c) + k])
      else s
  }

  function Exec(s: State, steps: seq<Step>): State {
    if steps == [] then s
    else Apply(Exec(s, steps[..|steps| - 1]), steps[|steps| - 1])
  }
}
