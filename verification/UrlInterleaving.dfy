/**
 `findByShortCode` and `incrementClicks` broken up at every `await`, among arbitrary writes,
 deletions, invalidations, evictions and list caching by everybody else.
 */
module UrlInterleaving {
  import opened Common
  import opened UrlStore

  /** Where a suspended call stands, and what it holds. */
  datatype Task =
    | AskingCache(code: string)
    | Reading(code: string, row: Option<Option<Row>>, clicks: Option<nat>)
    | Caching(record: Record)
    | Incrementing(record: Record)
    | Done

  datatype State = State(
    rows: map<string, Row>,
    counters: map<string, nat>,
    cache: map<string, Cached>,
    now: int,
    tasks: seq<Task>,
    served: seq<Record>)

  datatype Step =
    | StartFind(code: string)
    | CacheAnswers(task: nat)
    | RowAnswers(task: nat)
    | ClicksAnswer(task: nat)
    | CacheWritten(task: nat)
    | IncrementReads(code: string)
    | IncrementWrites(task: nat)
    // what everybody else does, in any order
    | Inserted(code: string, newRow: Row)
    | Deleted(code: string)
    | ClicksSet(code: string, value: nat)
    | KeyDropped(key: string)
    | ListCached(key: string, records: map<string, Record>)
    | TimePasses(time: nat)

  function Init(): State {
    State(map[], map[], map[], 0, [], [])
  }

  /** Once both reads are in, the call fails, or it has its record. */
  function Settle(t: Task, now: int): Task
    requires t.Reading?
  {
    match (t.row, t.clicks)
    case (Some(None), Some(_)) => Done
    case (Some(Some(row)), Some(n)) => if Expired(row.expiresAt, now) then Done else Caching(Record(t.code, row, n))
    case _ => t
  }

  function Apply(s: State, step: Step): State {
    match step
    case StartFind(code) => if CodeOk(code) then s.(tasks := s.tasks + [AskingCache(code)]) else s
    case CacheAnswers(n) =>
      if n < |s.tasks| && s.tasks[n].AskingCache? then
        var code := s.tasks[n].code;
        if code in s.cache && s.cache[code].One? then
          s.(tasks := s.tasks[n := Done], served := s.served + [s.cache[code].record])
        else s.(tasks := s.tasks[n := Reading(code, None, None)])
      else s
    case RowAnswers(n) =>
      if n < |s.tasks| && s.tasks[n].Reading? then
        var t := s.tasks[n];
        s.(tasks := s.tasks[n := Settle(t.(row := Some(if t.code in s.rows then Some(s.rows[t.code]) else None)), s.now)])
      else s
    case ClicksAnswer(n) =>
      if n < |s.tasks| && s.tasks[n].Reading? then
        var t := s.tasks[n];
        s.(tasks := s.tasks[n := Settle(t.(clicks := Some(At(s.counters, t.code))), s.now)])
      else s
    case CacheWritten(n) =>
      if n < |s.tasks| && s.tasks[n].Caching? then
        var r := s.tasks[n].record;
        s.(tasks := s.tasks[n := Done], cache := s.cache[r.code := One(r)], served := s.served + [r])
      else s
    case IncrementReads(code) =>
      if CodeOk(code) && code in s.cache && s.cache[code].One? then
        var r := s.cache[code].record;
        s.(tasks := s.tasks + [Incrementing(r.(clicks := r.clicks + 1))])
      else s
    case IncrementWrites(n) =>
      if n < |s.tasks| && s.tasks[n].Incrementing? then
        s.(tasks := s.tasks[n := Done], cache := s.cache[s.tasks[n].record.code := One(s.tasks[n].record)])
      else s
    case Inserted(code, row) => s.(rows := s.rows[code := row])
    case Deleted(code) => s.(rows := s.rows - {code}, counters := s.counters - {code})
    case ClicksSet(code, n) => s.(counters := s.counters[code := n])
    case KeyDropped(key) => s.(cache := s.cache - {key})
    case ListCached(key, records) => if CodeOk(key) then s else s.(cache := s.cache[key := Many(records)])
    case TimePasses(time) => s.(now := s.now + time)
  }

  function Exec(steps: seq<Step>): State {
    if steps == [] then Init() else Apply(Exec(steps[..|steps| - 1]), steps[|steps| - 1])
  }

  /** At some moment of the run, this row was stored under this code. */
  ghost predicate Stored(steps: seq<Step>, code: string, row: Row) {
    exists m {:trigger steps[..m]} :: 0 <= m <= |steps|
      && code in Exec(steps[..m]).rows && Exec(steps[..m]).rows[code] == row
  }

  ghost predicate TaskOk(steps: seq<Step>, t: Task) {
    match t
    case Reading(code, Some(Some(row)), _) => Stored(steps, code, row)
    case Caching(r) => Stored(steps, r.code, r.row)
    case Incrementing(r) => Stored(steps, r.code, r.row)
    case _ => true
  }

  ghost predicate FromHistory(steps: seq<Step>, s: State) {
    && (forall key :: key in s.cache && CodeOk(key) ==>
          s.cache[key].One? && s.cache[key].record.code == key && Stored(steps, key, s.cache[key].record.row))
    && (forall n :: 0 <= n < |s.tasks| ==>
          TaskOk(steps, s.tasks[n]) && (s.tasks[n].Caching? || s.tasks[n].Incrementing? ==> CodeOk(s.tasks[n].record.code))
          && (s.tasks[n].AskingCache? || s.tasks[n].Reading? ==> CodeOk(s.tasks[n].code)))
    && (forall i :: 0 <= i < |s.served| ==> Stored(steps, s.served[i].code, s.served[i].row))
  }

  lemma StoredLater(steps: seq<Step>, step: Step, code: string, row: Row)
    requires Stored(steps, code, row)
    ensures Stored(steps + [step], code, row)
  {
    hide Apply;
    var m :| 0 <= m <= |steps| && code in Exec(steps[..m]).rows && Exec(steps[..m]).rows[code] == row;
    assert (steps + [step])[..m] == steps[..m];
  }

  lemma StoredNow(steps: seq<Step>, code: string)
    requires code in Exec(steps).rows
    ensures Stored(steps, code, Exec(steps).rows[code])
  {
    assert steps[..|steps|] == steps;
  }

  lemma FromHistoryLater(steps: seq<Step>, step: Step, s: State)
    requires FromHistory(steps, s)
    ensures FromHistory(steps + [step], s)
  {
    hide Apply, Exec, Stored;
    forall code, row | Stored(steps, code, row)
      ensures Stored(steps + [step], code, row)
    {
      StoredLater(steps, step, code, row);
    }
  }

  /** A step keeps everything from history, when the rows of the moment count as history. */
  lemma StepFromHistory(steps: seq<Step>, s: State, step: Step)
    requires FromHistory(steps, s)
    requires forall code :: code in s.rows ==> Stored(steps, code, s.rows[code])
    ensures FromHistory(steps, Apply(s, step))
  {
    hide Exec, Stored, CodeOk;
  }

  lemma {:induction false} RunFromHistory(steps: seq<Step>)
    ensures FromHistory(steps, Exec(steps))
  {
    if steps != [] {
      var before, last := steps[..|steps| - 1], steps[|steps| - 1];
      assert before + [last] == steps;
      RunFromHistory(before);
      forall code | code in Exec(before).rows
        ensures Stored(before, code, Exec(before).rows[code])
      {
        StoredNow(before, code);
      }
      StepFromHistory(before, Exec(before), last);
      hide Apply, Stored;
      FromHistoryLater(before, last, Exec(steps));
    }
  }

  /**
   Under every interleaving, each record that `findByShortCode` has served equals, clicks
   apart, the row that was stored under its code at some earlier moment.
   */
  lemma ServedWasStored(steps: seq<Step>, i: nat)
    requires i < |Exec(steps).served|
    ensures Stored(steps, Exec(steps).served[i].code, Exec(steps).served[i].row)
  {
    hide Apply, Stored;
    RunFromHistory(steps);
  }

  /**
   When both reads of a call are in, whichever came last, it goes on to cache a record exactly
   if there was a row and its expiry is not past; the record is what was read.
   */
  lemma ReadSettles(s: State, n: nat, step: Step)
    requires n < |s.tasks| && s.tasks[n].Reading? && (step == RowAnswers(n) || step == ClicksAnswer(n))
    ensures var t, code := Apply(s, step).tasks[n], s.tasks[n].code;
            var row := if step.RowAnswers? then Some(if code in s.rows then Some(s.rows[code]) else None) else s.tasks[n].row;
            var clicks := if step.ClicksAnswer? then Some(At(s.counters, code)) else s.tasks[n].clicks;
            if row.None? || clicks.None? then t == Reading(code, row, clicks)
            else if row.value.None? || (row.value.value.expiresAt.Some? && row.value.value.expiresAt.value < s.now)
            then t == Done
            else t == Caching(Record(code, row.value.value, clicks.value))
  {
  }

  /** A call is answered from the cache exactly if its record is there; else it reads, and serves what it caches. */
  lemma CallsServed(s: State, n: nat)
    requires n < |s.tasks|
    ensures s.tasks[n].AskingCache? ==>
              var s', code := Apply(s, CacheAnswers(n)), s.tasks[n].code;
              if code in s.cache && s.cache[code].One?
              then s'.tasks[n] == Done && s'.served == s.served + [s.cache[code].record]
              else s'.tasks[n] == Reading(code, None, None) && s'.served == s.served
    ensures s.tasks[n].Caching? ==>
              var s', r := Apply(s, CacheWritten(n)), s.tasks[n].record;
              s'.tasks[n] == Done && s'.served == s.served + [r] && s'.cache == s.cache[r.code := One(r)]
    ensures s.tasks[n].Incrementing? ==>
              var s', r := Apply(s, IncrementWrites(n)), s.tasks[n].record;
              s'.tasks[n] == Done && s'.served == s.served && s'.cache == s.cache[r.code := One(r)]
    ensures forall code :: CodeOk(code) && code in s.cache && s.cache[code].One? ==>
              var s', r := Apply(s, IncrementReads(code)), s.cache[code].record;
              s'.tasks == s.tasks + [Incrementing(Record(r.code, r.row, r.clicks + 1))] && s'.cache == s.cache
  {
  }

  // ---- exactly when interleaving spoils the cache ----

  /** A row that a suspended call has read and may yet cache or serve. */
  predicate Holds(t: Task, code: string, row: Row) {
    match t
    case Reading(c, Some(Some(r)), _) => c == code && r == row
    case Caching(record) => record.code == code && record.row == row
    case Incrementing(record) => record.code == code && record.row == row
    case _ => false
  }

  predicate Current(s: State, code: string, row: Row) {
    code in s.rows && s.rows[code] == row
  }

  /** Every record cached and every row held is the row stored under its code now. */
  ghost predicate Fresh(s: State) {
    && (forall key :: key in s.cache && s.cache[key].One? ==>
          s.cache[key].record.code == key && Current(s, key, s.cache[key].record.row))
    && (forall n, code, row :: 0 <= n < |s.tasks| && Holds(s.tasks[n], code, row) ==> Current(s, code, row))
  }

  predicate ChangesRow(s: State, step: Step, code: string) {
    match step
    case Inserted(c, row) => c == code && !Current(s, code, row)
    case Deleted(c) => c == code && code in s.rows
    case _ => false
  }

  /** The step changes a row while its record is cached, or while a suspended call holds the row. */
  ghost predicate Overlaps(s: State, step: Step) {
    exists code, row :: ChangesRow(s, step, code) && InUse(s, code, row)
  }

  ghost predicate InUse(s: State, code: string, row: Row) {
    || (code in s.cache && s.cache[code].One? && s.cache[code].record.row == row)
    || HeldBySome(s, code, row)
  }

  ghost predicate HeldBySome(s: State, code: string, row: Row) {
    exists n :: 0 <= n < |s.tasks| && Holds(s.tasks[n], code, row)
  }

  predicate IsWrite(step: Step) { step.Inserted? || step.Deleted? }

  lemma HeldIsCurrent(s: State, n: nat, code: string, row: Row)
    requires Fresh(s) && n < |s.tasks| && Holds(s.tasks[n], code, row)
    ensures Current(s, code, row)
  {
  }

  lemma CacheStaysFresh(s: State, step: Step, key: string)
    requires Fresh(s) && !IsWrite(step)
    requires var s' := Apply(s, step); key in s'.cache && s'.cache[key].One?
    ensures var s' := Apply(s, step); s'.cache[key].record.code == key && Current(s', key, s'.cache[key].record.row)
  {
    if step.CacheWritten? || step.IncrementWrites? {
      var n := step.task;
      if n < |s.tasks| && (s.tasks[n].Caching? || s.tasks[n].Incrementing?) {
        HeldIsCurrent(s, n, s.tasks[n].record.code, s.tasks[n].record.row);
      }
    }
  }

  lemma TasksStayFresh(s: State, step: Step, n: nat, code: string, row: Row)
    requires Fresh(s) && !IsWrite(step)
    requires var s' := Apply(s, step); n < |s'.tasks| && Holds(s'.tasks[n], code, row)
    ensures Current(s, code, row)
  {
    var t := Apply(s, step).tasks[n];
    if n < |s.tasks| && Holds(s.tasks[n], code, row) {
      HeldIsCurrent(s, n, code, row);
    }
  }

  lemma CallsStayFresh(s: State, step: Step)
    requires Fresh(s) && !IsWrite(step)
    ensures Fresh(Apply(s, step))
  {
    var s' := Apply(s, step);
    assert s'.rows == s.rows;
    hide Apply, Holds;
    forall key | key in s'.cache && s'.cache[key].One?
      ensures s'.cache[key].record.code == key && Current(s', key, s'.cache[key].record.row)
    {
      CacheStaysFresh(s, step, key);
    }
    forall n, code, row | 0 <= n < |s'.tasks| && Holds(s'.tasks[n], code, row)
      ensures Current(s', code, row)
    {
      TasksStayFresh(s, step, n, code, row);
    }
  }

  lemma WriteFreshIff(s: State, step: Step)
    requires Fresh(s) && IsWrite(step)
    ensures Fresh(Apply(s, step)) <==> !Overlaps(s, step)
  {
    hide Holds;
    var s' := Apply(s, step);
    assert s'.cache == s.cache && s'.tasks == s.tasks;
    forall code, row | ChangesRow(s, step, code) && InUse(s, code, row)
      ensures !Fresh(s')
    {
      assert Current(s, code, row) && !Current(s', code, row);
    }
    if !Overlaps(s, step) {
      forall code, row | InUse(s, code, row)
        ensures Current(s', code, row)
      {
        assert Current(s, code, row) && !ChangesRow(s, step, code);
      }
      assert forall key :: key in s.cache && s.cache[key].One? ==> InUse(s, key, s.cache[key].record.row);
      forall n, code, row | 0 <= n < |s.tasks| && Holds(s.tasks[n], code, row)
        ensures Current(s', code, row)
      {
        assert HeldBySome(s, code, row) && InUse(s, code, row);
      }
    }
  }

  lemma StepFreshIff(s: State, step: Step)
    requires Fresh(s)
    ensures Fresh(Apply(s, step)) <==> !Overlaps(s, step)
  {
    hide Apply, Fresh, InUse;
    if IsWrite(step) {
      WriteFreshIff(s, step);
    } else {
      CallsStayFresh(s, step);
    }
  }

  /** Nothing is out of date at any moment of the run. */
  ghost predicate FreshThroughout(steps: seq<Step>) {
    Fresh(Exec(steps)) && (steps != [] ==> FreshThroughout(steps[..|steps| - 1]))
  }

  /** No step of the run overlaps. */
  ghost predicate NeverOverlaps(steps: seq<Step>) {
    steps != [] ==>
      && NeverOverlaps(steps[..|steps| - 1])
      && !Overlaps(Exec(steps[..|steps| - 1]), steps[|steps| - 1])
  }

  /**
   Over every run, cached records and held rows are never out of date, if and only if every
   change to a row finds its record neither cached nor held by a suspended call.
   */
  lemma {:induction false} FreshThroughoutIff(steps: seq<Step>)
    ensures FreshThroughout(steps) <==> NeverOverlaps(steps)
  {
    hide Apply, Fresh, Overlaps;
    if steps == [] {
      FreshAtFirst();
    } else {
      FreshThroughoutIff(steps[..|steps| - 1]);
      if FreshThroughout(steps[..|steps| - 1]) {
        StepFreshIff(Exec(steps[..|steps| - 1]), steps[|steps| - 1]);
      }
    }
  }

  lemma FreshAtFirst()
    ensures Fresh(Init())
  {
  }

  /** Records of one code, cached or held. */
  ghost predicate FreshFor(s: State, code: string) {
    && (code in s.cache && s.cache[code].One? ==> Current(s, code, s.cache[code].record.row))
    && (forall n, row :: 0 <= n < |s.tasks| && Holds(s.tasks[n], code, row) ==> Current(s, code, row))
  }

  /**
   Whatever is cached, deleting a row and dropping its key leaves nothing out of date for the
   code exactly when no suspended call holds one of its rows at that moment; one that does
   can cache it, or serve it, afterwards.
   */
  lemma RemovalCleanIff(s: State, code: string)
    ensures FreshFor(Apply(Apply(s, Deleted(code)), KeyDropped(code)), code)
       <==> !exists row :: HeldBySome(s, code, row)
  {
    var s' := Apply(Apply(s, Deleted(code)), KeyDropped(code));
    assert code !in s'.rows && code !in s'.cache && s'.tasks == s.tasks;
    if row :| HeldBySome(s, code, row) {
      var n :| 0 <= n < |s.tasks| && Holds(s.tasks[n], code, row);
      assert Holds(s'.tasks[n], code, row) && !Current(s', code, row);
      assert !FreshFor(s', code);
    } else {
      forall n, row | 0 <= n < |s'.tasks|
        ensures !Holds(s'.tasks[n], code, row)
      {
        assert !HeldBySome(s, code, row);
      }
      assert FreshFor(s', code);
    }
  }

  /**
   Interleaved operations do not keep the cache coherent: a read that overlaps a removal can
   put the removed record back into the cache.
   */
  lemma RemovedRecordCachedAgain(code: string, row: Row) returns (steps: seq<Step>)
    requires CodeOk(code) && row.expiresAt.None?
    ensures code !in Exec(steps).rows && code in Exec(steps).cache
  {
    hide CodeOk, Apply;
    steps := [Inserted(code, row), StartFind(code), CacheAnswers(0), RowAnswers(0), ClicksAnswer(0),
              Deleted(code), KeyDropped(code), CacheWritten(0)];
    var s := ReadOf(code, row);
    var s1 := Apply(Init(), steps[0]);
    var s2 := Apply(s1, steps[1]);
    var s3 := Apply(s2, steps[2]);
    var s4 := Apply(s3, steps[3]);
    assert s == Apply(s4, steps[4]);
    var s6 := Apply(s, steps[5]);
    var s7 := Apply(s6, steps[6]);
    WrittenAfterwards(s, code, row);
    Prefixes(steps);
    assert Exec(steps[..1]) == s1 && Exec(steps[..2]) == s2 && Exec(steps[..3]) == s3 && Exec(steps[..4]) == s4;
    assert Exec(steps[..5]) == s && Exec(steps[..6]) == s6 && Exec(steps[..7]) == s7;
  }

  /** A reader has its record, and is about to cache it. */
  lemma ReadOf(code: string, row: Row) returns (s: State)
    requires CodeOk(code) && row.expiresAt.None?
    ensures s == Apply(Apply(Apply(Apply(Apply(Init(), Inserted(code, row)), StartFind(code)), CacheAnswers(0)),
                             RowAnswers(0)), ClicksAnswer(0))
    ensures s.tasks == [Caching(Record(code, row, 0))]
  {
    hide CodeOk;
    s := Apply(Apply(Apply(Apply(Apply(Init(), Inserted(code, row)), StartFind(code)), CacheAnswers(0)),
                     RowAnswers(0)), ClicksAnswer(0));
  }

  lemma WrittenAfterwards(s: State, code: string, row: Row)
    requires s.tasks == [Caching(Record(code, row, 0))]
    ensures var s' := Apply(Apply(Apply(s, Deleted(code)), KeyDropped(code)), CacheWritten(0));
            code !in s'.rows && code in s'.cache
  {
  }

  lemma Prefixes(steps: seq<Step>)
    ensures forall n {:trigger steps[..n]} :: 0 < n <= |steps| ==>
              Exec(steps[..n]) == Apply(Exec(steps[..n - 1]), steps[n - 1])
    ensures steps[..|steps|] == steps && Exec(steps[..0]) == Init()
  {
    hide Apply;
    forall n {:trigger steps[..n]} | 0 < n <= |steps|
      ensures Exec(steps[..n]) == Apply(Exec(steps[..n - 1]), steps[n - 1])
    {
      assert steps[..n][..n - 1] == steps[..n - 1];
    }
  }
}
