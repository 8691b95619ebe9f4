/** How far behind cached figures and expired links can be, over sequential runs. */
module UrlStaleness {
  import opened Common
  import opened UrlStore
  import opened UrlCoherence

  ghost predicate Lags(value: Cached, counters: map<string, nat>) {
    match value
    case One(r) => r.clicks <= At(counters, r.code)
    case Many(m) => forall c :: c in m ==> m[c].clicks <= At(counters, m[c].code)
  }

  /** No click figure that can still be served is ahead of the counter. */
  ghost predicate Lagging(s: Store) {
    forall key :: Live(s, key) ==> Lags(s.cache[key].value, s.counters)
  }

  lemma CountersGrow(value: Cached, counters: map<string, nat>, more: map<string, nat>)
    requires Lags(value, counters) && forall c :: At(counters, c) <= At(more, c)
    ensures Lags(value, more)
  {
  }

  /** Fewer entries and counters no smaller: what lagged lags. */
  lemma ShrinkLagging(s: Store, s': Store)
    requires Lagging(s) && CacheShrinks(s, s') && forall c :: At(s.counters, c) <= At(s'.counters, c)
    ensures Lagging(s')
  {
    hide Lags;
    forall key | Live(s', key)
      ensures Lags(s'.cache[key].value, s'.counters)
    {
      assert Live(s, key);
      CountersGrow(s.cache[key].value, s.counters, s'.counters);
    }
  }

  /** A value shows a click figure for a code that is not zero. */
  ghost predicate ShowsFigure(value: Cached, code: string) {
    match value
    case One(r) => r.code == code && 0 < r.clicks
    case Many(m) => exists c :: c in m && m[c].code == code && 0 < m[c].clicks
  }

  /** Some live entry that is not dropped shows a figure for the code. */
  ghost predicate ShownElsewhere(s: Store, code: string, dropped: set<string>) {
    exists key :: Live(s, key) && key !in dropped && ShowsFigure(s.cache[key].value, code)
  }

  /** When a counter goes, what still shows a figure for its code is ahead. */
  lemma CounterGoneIff(s: Store, s': Store, code: string, dropped: set<string>)
    requires Lagging(s) && CacheShrinks(s, s') && forall key :: Live(s', key) <==> Live(s, key) && key !in dropped
    requires At(s'.counters, code) == 0 && forall c :: c != code ==> At(s.counters, c) <= At(s'.counters, c)
    ensures Lagging(s') <==> !ShownElsewhere(s, code, dropped)
  {
    hide At;
    if key :| Live(s, key) && key !in dropped && ShowsFigure(s.cache[key].value, code) {
      assert Live(s', key) && !Lags(s'.cache[key].value, s'.counters);
    } else {
      forall key | Live(s', key)
        ensures Lags(s'.cache[key].value, s'.counters)
      {
        assert Live(s, key) && !ShowsFigure(s.cache[key].value, code);
      }
    }
  }

  // ---- exactly which operations let a figure get ahead ----

  /** A removal that deletes the counter while the figure is shown outside the entries it drops. */
  ghost predicate RemovalLeavesFigure(s: Store, code: string, fate: Fate) {
    && fate.selectOk && fate.counterOk && code in s.rows
    && ShownElsewhere(s, code, Shown(code, s.rows[code].userId))
  }

  lemma RemoveLaggingIff(s: Store, code: string, fate: Fate)
    requires Lagging(s)
    ensures Lagging(Remove(s, code, fate).0) <==> !RemovalLeavesFigure(s, code, fate)
  {
    hide Lagging, ShownElsewhere, ListKeys;
    var s' := Remove(s, code, fate).0;
    if fate.selectOk && fate.counterOk && code in s.rows {
      CounterGoneIff(s, s', code, Shown(code, s.rows[code].userId));
    } else {
      ShrinkLagging(s, s');
    }
  }

  /** The same for the removal of an expired row inside `findByShortCode`. */
  ghost predicate FindLeavesFigure(s: Store, code: string, readOk: bool, fate: Fate) {
    && !Live(s, code) && readOk && code in s.rows && Expired(s.rows[code].expiresAt, s.now)
    && RemovalLeavesFigure(s, code, fate)
  }

  lemma FindLaggingIff(s: Store, code: string, readOk: bool, fate: Fate)
    requires Lagging(s)
    ensures Lagging(Find(s, code, readOk, fate).0) <==> !FindLeavesFigure(s, code, readOk, fate)
  {
    hide RemovalLeavesFigure, Remove;
    RemoveLaggingIff(s, code, fate);
  }

  /** The same for the removal of the old code in `update`, which drops the lists of the source's owner too. */
  ghost predicate UpdateLeavesFigure(s: Store, code: string, newCode: string, f: UpdateFate) {
    && UpdateWrites(s, code, newCode, f) && f.landed.counter
    && f.removeFate.selectOk && f.removeFate.counterOk && (code in s.rows || code == newCode)
    && ShownElsewhere(s, code, DroppedByUpdate(s, code, Source(s, code, f.readOk).value))
  }

  function DroppedByUpdate(s: Store, code: string, source: Row): set<string> {
    Shown(code, source.userId) + if code in s.rows then Shown(code, s.rows[code].userId) else {}
  }

  lemma FullUpdateLaggingIff(s1: Store, code: string, newCode: string, row: Row, fate: Fate)
    requires Lagging(s1) && newCode !in s1.rows
    ensures var s' := Forget(Remove(WriteRecord(s1, newCode, row, Landed(true, true)), code, fate).0, ListKeys(row.userId));
            Lagging(s') <==> !(fate.selectOk && fate.counterOk && (code in s1.rows || code == newCode)
                               && ShownElsewhere(s1, code, DroppedByUpdate(s1, code, row)))
  {
    hide Lagging, ShownElsewhere, ListKeys;
    var s2 := WriteRecord(s1, newCode, row, Landed(true, true));
    var s' := Forget(Remove(s2, code, fate).0, ListKeys(row.userId));
    if fate.selectOk && fate.counterOk && code in s2.rows {
      CounterGoneIff(s1, s', code, DroppedByUpdate(s1, code, row));
    } else {
      ShrinkLagging(s1, s');
    }
  }

  lemma FindForUpdate(s: Store, code: string, readOk: bool, fate: Fate)
    ensures var (s1, found) := Find(s, code, readOk, fate);
            && (Source(s, code, readOk).Some? <==> found.Ok? && found.value.One?)
            && (Source(s, code, readOk).Some? ==>
                  && found.value.record.row == Source(s, code, readOk).value
                  && s1.rows == s.rows && s1.counters == s.counters && s1.now == s.now
                  && !FindLeavesFigure(s, code, readOk, fate)
                  && forall key :: key != code ==>
                       (Live(s1, key) <==> Live(s, key)) && (Live(s, key) ==> s1.cache[key] == s.cache[key]))
  {
    hide RemovalLeavesFigure, Remove;
  }

  lemma UpdateLaggingIff(s: Store, code: string, newCode: string, e: Option<Expiration>, f: UpdateFate)
    requires Lagging(s)
    ensures Lagging(Update(s, code, newCode, e, f).0) <==>
              !FindLeavesFigure(s, code, f.readOk, f.expiredFate) && !UpdateLeavesFigure(s, code, newCode, f)
  {
    hide Find, Lagging, ListKeys, NewExpiry, Remove, At, Forget, FindLeavesFigure, ShownElsewhere, Source, WriteRecord;
    FindForUpdate(s, code, f.readOk, f.expiredFate);
    FindLaggingIff(s, code, f.readOk, f.expiredFate);
    var (s1, found) := Find(s, code, f.readOk, f.expiredFate);
    var s' := Update(s, code, newCode, e, f).0;
    if found.Ok? && found.value.One? && f.safe && f.checkOk && newCode !in s1.rows {
      var source := found.value.record.row;
      var row := source.(expiresAt := NewExpiry(s1.now, source, e));
      if Accepted(f.landed) {
        assert f.landed == Landed(true, true);
        FullUpdateLaggingIff(s1, code, newCode, row, f.removeFate);
        assert DroppedByUpdate(s1, code, row) == DroppedByUpdate(s, code, source);
        SameElsewhere(s, s1, code, DroppedByUpdate(s, code, source));
      } else {
        HalfUpdateShrinks(s1, newCode, row, f.landed);
        ShrinkLagging(s1, s');
      }
    } else {
      assert s' == s1;
    }
  }

  lemma HalfUpdateShrinks(s1: Store, newCode: string, row: Row, landed: Landed)
    ensures var s' := WriteRecord(s1, newCode, row, landed);
            CacheShrinks(s1, s') && forall c :: At(s1.counters, c) <= At(s'.counters, c)
  {
  }

  lemma SameElsewhere(s: Store, s1: Store, code: string, dropped: set<string>)
    requires code in dropped
    requires forall key :: key != code ==>
               (Live(s1, key) <==> Live(s, key)) && (Live(s, key) ==> s1.cache[key] == s.cache[key])
    ensures ShownElsewhere(s1, code, dropped) <==> ShownElsewhere(s, code, dropped)
  {
    hide ShowsFigure;
  }

  /** A cached record carries the key it is under. */
  ghost predicate OwnKeys(s: Store) {
    forall key :: Live(s, key) && s.cache[key].value.One? ==> s.cache[key].value.record.code == key
  }

  lemma ShrinkOwnKeys(s: Store, s': Store)
    requires OwnKeys(s) && CacheShrinks(s, s')
    ensures OwnKeys(s')
  {
  }

  lemma FindOwnKeys(s: Store, code: string, readOk: bool, fate: Fate)
    requires OwnKeys(s)
    ensures OwnKeys(Find(s, code, readOk, fate).0)
  {
  }

  lemma TimeOwnKeys(s: Store, time: nat)
    requires OwnKeys(s)
    ensures OwnKeys(s.(now := s.now + time))
  {
    assert forall key :: Live(s.(now := s.now + time), key) ==> Live(s, key);
  }

  lemma StepOwnKeys(s: Store, op: Op)
    requires OwnKeys(s)
    ensures OwnKeys(Apply(s, op))
  {
    hide OwnKeys, Find, CreateLoop, ListKeys, NewExpiry;
    match op
    case DoCreate(url, user, e, safe, tries) =>
      CreateEffect(s, NewRow(s, url, user, e), Attempts(tries));
      ShrinkOwnKeys(s, Apply(s, op));
    case DoFind(code, readOk, fate) => FindOwnKeys(s, code, readOk, fate);
    case DoFindAll(_) => ListOwnKeys(s, ALL, Many(RecordsOf(s.rows, s.counters)));
    case DoFindByUser(u, _) => ListOwnKeys(s, UserKey(u), Many(RecordsOf(Owned(s.rows, u), s.counters)));
    case DoUpdate(code, newCode, e, f) =>
      FindOwnKeys(s, code, f.readOk, f.expiredFate);
      ShrinkOwnKeys(Find(s, code, f.readOk, f.expiredFate).0, Apply(s, op));
    case DoIncrement(code, ok) => IncrementOwnKeys(s, code, ok);
    case TimePasses(time) => TimeOwnKeys(s, time);
    case _ => ShrinkOwnKeys(s, Apply(s, op));
  }

  lemma ListOwnKeys(s: Store, key: string, value: Cached)
    requires OwnKeys(s) && value.Many?
    ensures OwnKeys(SetCache(s, key, value))
  {
  }

  lemma IncrementOwnKeys(s: Store, code: string, ok: bool)
    requires OwnKeys(s)
    ensures OwnKeys(IncrementClicks(s, code, ok))
  {
  }

  lemma IncrementLagging(s: Store, code: string, ok: bool)
    requires OwnKeys(s) && Lagging(s)
    ensures Lagging(IncrementClicks(s, code, ok))
  {
    ShrinkLagging(s, s.(counters := s.counters[code := At(s.counters, code) + 1]));
  }

  /** What keeps every figure behind its counter: no operation removes a counter whose figure is shown elsewhere. */
  ghost predicate OpKeepsFigures(s: Store, op: Op) {
    match op
    case DoFind(code, readOk, fate) => !FindLeavesFigure(s, code, readOk, fate)
    case DoRemove(code, fate) => !RemovalLeavesFigure(s, code, fate)
    case DoUpdate(code, newCode, _, f) =>
      !FindLeavesFigure(s, code, f.readOk, f.expiredFate) && !UpdateLeavesFigure(s, code, newCode, f)
    case _ => true
  }

  lemma StepLaggingIff(s: Store, op: Op)
    requires Lagging(s) && OwnKeys(s)
    ensures Lagging(Apply(s, op)) <==> OpKeepsFigures(s, op)
  {
    hide Remove, Find, CreateLoop, Update, IncrementClicks, FindLeavesFigure, RemovalLeavesFigure, UpdateLeavesFigure;
    match op
    case DoCreate(url, user, e, safe, tries) =>
      CreateEffect(s, NewRow(s, url, user, e), Attempts(tries));
      ShrinkLagging(s, Apply(s, op));
    case DoFind(code, readOk, fate) => FindLaggingIff(s, code, readOk, fate);
    case DoFindAll(_) =>
    case DoFindByUser(_, _) =>
    case DoRemove(code, fate) => RemoveLaggingIff(s, code, fate);
    case DoUpdate(code, newCode, e, f) => UpdateLaggingIff(s, code, newCode, e, f);
    case DoIncrement(code, ok) => IncrementLagging(s, code, ok);
    case ClicksCounted(_, _) => ShrinkLagging(s, Apply(s, op));
    case TimePasses(_) =>
    case Evicted(_) => ShrinkLagging(s, Apply(s, op));
  }

  /** No figure is ahead of its counter at any moment of the run. */
  ghost predicate LaggingThroughout(s: Store, ops: seq<Op>) {
    Lagging(Exec(s, ops)) && (ops != [] ==> LaggingThroughout(s, ops[..|ops| - 1]))
  }

  ghost predicate FiguresKept(s: Store, ops: seq<Op>) {
    ops != [] ==> FiguresKept(s, ops[..|ops| - 1]) && OpKeepsFigures(Exec(s, ops[..|ops| - 1]), ops[|ops| - 1])
  }

  lemma {:induction false} RunOwnKeys(now: int, ttl: nat, ops: seq<Op>)
    ensures OwnKeys(Exec(Empty(now, ttl), ops))
  {
    hide Apply;
    if ops != [] {
      RunOwnKeys(now, ttl, ops[..|ops| - 1]);
      StepOwnKeys(Exec(Empty(now, ttl), ops[..|ops| - 1]), ops[|ops| - 1]);
    }
  }

  lemma NothingLags(now: int, ttl: nat)
    ensures Lagging(Empty(now, ttl))
  {
  }

  /**
   Over every sequential run, no click figure that can be served is ahead of its counter at
   any moment, if and only if no operation removes a counter whose figure a live entry shows
   that the operation does not drop.
   */
  lemma {:induction false} RunLaggingIff(now: int, ttl: nat, ops: seq<Op>)
    ensures LaggingThroughout(Empty(now, ttl), ops) <==> FiguresKept(Empty(now, ttl), ops)
  {
    hide Apply, Lagging, OwnKeys, OpKeepsFigures;
    if ops == [] {
      NothingLags(now, ttl);
    } else {
      RunLaggingIff(now, ttl, ops[..|ops| - 1]);
      RunOwnKeys(now, ttl, ops[..|ops| - 1]);
      if LaggingThroughout(Empty(now, ttl), ops[..|ops| - 1]) {
        StepLaggingIff(Exec(Empty(now, ttl), ops[..|ops| - 1]), ops[|ops| - 1]);
      }
    }
  }

  /** In a coherent cache, a row is shown only where its removal drops it. */
  lemma CoherentShowsNowhereElse(s: Store, code: string)
    requires Coherent(s) && code in s.rows
    ensures !ShownElsewhere(s, code, Shown(code, s.rows[code].userId))
  {
    forall key | Live(s, key) && key !in Shown(code, s.rows[code].userId)
      ensures !ShowsFigure(s.cache[key].value, code)
    {
      assert Agrees(key, s.cache[key].value, s.rows);
      if IsUserKey(key) {
        UserKeyOf(key);
      }
    }
  }

  lemma CoherentKeepsFigures(s: Store, op: Op)
    requires Coherent(s)
    ensures OpKeepsFigures(s, op)
  {
    hide ShownElsewhere, Coherent, ListKeys, Source;
    match op
    case DoFind(code, _, _) => if code in s.rows { CoherentShowsNowhereElse(s, code); }
    case DoRemove(code, _) => if code in s.rows { CoherentShowsNowhereElse(s, code); }
    case DoUpdate(code, _, _, f) =>
      SourceFound(s, code, f.readOk, f.expiredFate);
      if code in s.rows {
        CoherentShowsNowhereElse(s, code);
        assert Source(s, code, f.readOk).Some? ==>
                 DroppedByUpdate(s, code, Source(s, code, f.readOk).value) == Shown(code, s.rows[code].userId);
      }
    case _ =>
  }

  /** In particular no figure gets ahead in a run whose operations are all harmless to the rows shown. */
  lemma {:induction false} RunLagging(now: int, ttl: nat, ops: seq<Op>)
    requires GoodRun(Empty(now, ttl), ops)
    ensures FiguresKept(Empty(now, ttl), ops) && Lagging(Exec(Empty(now, ttl), ops))
  {
    hide Apply, Lagging, OpHarmless, OpKeepsFigures;
    if ops != [] {
      RunLagging(now, ttl, ops[..|ops| - 1]);
      RunCoherent(now, ttl, ops[..|ops| - 1]);
      CoherentKeepsFigures(Exec(Empty(now, ttl), ops[..|ops| - 1]), ops[|ops| - 1]);
    }
    RunLaggingIff(now, ttl, ops);
  }

  // ---- a run in which a figure gets ahead ----

  lemma ExecNext(s: Store, ops: seq<Op>, op: Op)
    ensures Exec(s, ops + [op]) == Apply(Exec(s, ops), op)
  {
    assert (ops + [op])[..|ops|] == ops;
  }

  function Taking(code: string, user: string): Op {
    DoCreate("", Some(user), Forever, true, [Pass(code, Landed(true, true))])
  }

  lemma TakingEffect(s: Store, code: string, user: string)
    ensures Apply(s, Taking(code, user))
         == Forget(WriteRecord(s, code, NewRow(s, "", Some(user), Forever), Landed(true, true)), ListKeys(Some(user)))
  {
    var tries := Taking(code, user).tries;
    assert Attempts(tries) == tries;
  }

  /**
   One user's code is counted and listed, drawn again for another user, and removed: the first
   user's list, which nothing dropped, still shows the figure of a counter that is gone.
   */
  lemma FigureGetsAhead(now: int, ttl: nat, code: string, u: string, v: string, clicks: nat) returns (ops: seq<Op>)
    requires 0 < ttl && 0 < clicks && u != v && code != UserKey(u)
    ensures var s := Exec(Empty(now, ttl), ops);
            && !Lagging(s)
            && FromCache(s, UserKey(u)).Some? && At(s.counters, code) == 0
            && ShowsFigure(FromCache(s, UserKey(u)).value, code)
  {
    hide Exec;
    var fate := Fate(true, true, true);
    var s0 := Empty(now, ttl);
    var a := [Taking(code, u), ClicksCounted(code, clicks), DoFindByUser(u, true)];
    var b := [Taking(code, v), DoRemove(code, fate)];
    assert a == [] + [a[0]] + [a[1]] + [a[2]];
    ExecNext(s0, [], a[0]);
    ExecNext(s0, [] + [a[0]], a[1]);
    ExecNext(s0, [] + [a[0]] + [a[1]], a[2]);
    assert Exec(s0, []) == s0 by { NothingRun(s0); }
    ExecNext(s0, a, b[0]);
    ExecNext(s0, a + [b[0]], b[1]);
    ops := a + [b[0]] + [b[1]];
    ListedFigure(s0, code, u, clicks);
    RetakenAndRemoved(Exec(s0, a), code, u, v, fate);
  }

  lemma NothingRun(s: Store)
    ensures Exec(s, []) == s
  {
  }

  ghost predicate Listed(s: Store, code: string, u: string) {
    && Live(s, UserKey(u)) && ShowsFigure(s.cache[UserKey(u)].value, code)
  }

  lemma ListedFigure(s: Store, code: string, u: string, clicks: nat)
    requires 0 < s.ttl && 0 < clicks && !Live(s, UserKey(u))
    ensures Listed(Apply(Apply(Apply(s, Taking(code, u)), ClicksCounted(code, clicks)), DoFindByUser(u, true)), code, u)
  {
    TakingEffect(s, code, u);
    hide Taking;
    var s2 := Apply(Apply(s, Taking(code, u)), ClicksCounted(code, clicks));
    var records := RecordsOf(Owned(s2.rows, u), s2.counters);
    assert code in records && records[code].code == code && 0 < records[code].clicks;
  }

  lemma RetakenAndRemoved(s: Store, code: string, u: string, v: string, fate: Fate)
    requires Listed(s, code, u) && u != v && code != UserKey(u) && fate == Fate(true, true, true)
    ensures var s' := Apply(Apply(s, Taking(code, v)), DoRemove(code, fate));
            Listed(s', code, u) && At(s'.counters, code) == 0 && !Lagging(s')
  {
    TakingEffect(s, code, v);
    UserKeyFacts(u);
    UserKeyFacts(v);
    hide Taking;
    var s' := Apply(Apply(s, Taking(code, v)), DoRemove(code, fate));
    assert Listed(s', code, u) && At(s'.counters, code) == 0;
    assert !Lags(s'.cache[UserKey(u)].value, s'.counters);
  }

  // ---- expired records do not outstay the TTL ----

  /** No entry outlives the TTL, counted from now and, for a record, from its expiry. */
  ghost predicate Bounded(s: Store) {
    forall key :: Live(s, key) ==> EntryBounded(s, s.cache[key])
  }

  predicate EntryBounded(s: Store, entry: Entry) {
    && entry.until <= s.now + s.ttl
    && (entry.value.One? && entry.value.record.row.expiresAt.Some? ==>
          entry.until <= entry.value.record.row.expiresAt.value + s.ttl)
  }

  /** A record from the cache is served less than the TTL after its expiry, one from the database not after it. */
  predicate InTime(s: Store, code: string, readOk: bool, fate: Fate) {
    var r := Find(s, code, readOk, fate).1;
    r.Ok? && r.value.One? && r.value.record.row.expiresAt.Some? ==>
      var e := r.value.record.row.expiresAt.value;
      if Live(s, code) then s.now < e + s.ttl else s.now <= e
  }

  ghost predicate NoIncrements(ops: seq<Op>) {
    forall i :: 0 <= i < |ops| ==> !ops[i].DoIncrement?
  }

  lemma FindBounded(s: Store, code: string, readOk: bool, fate: Fate)
    requires Bounded(s)
    ensures var s' := Find(s, code, readOk, fate).0; Bounded(s') && s'.ttl == s.ttl && s'.now == s.now
  {
  }

  lemma ShrinkBounded(s: Store, s': Store)
    requires Bounded(s) && CacheShrinks(s, s') && s'.ttl == s.ttl
    ensures Bounded(s')
  {
    forall key | Live(s', key)
      ensures EntryBounded(s', s'.cache[key])
    {
      assert Live(s, key);
    }
  }

  lemma TimeBounded(s: Store, time: nat)
    requires Bounded(s)
    ensures Bounded(s.(now := s.now + time))
  {
    forall key | Live(s.(now := s.now + time), key)
      ensures EntryBounded(s.(now := s.now + time), s.cache[key])
    {
      assert Live(s, key);
    }
  }

  lemma StepBounded(s: Store, op: Op)
    requires Bounded(s) && !op.DoIncrement?
    ensures Bounded(Apply(s, op)) && Apply(s, op).ttl == s.ttl
  {
    hide Bounded, Find, CreateLoop, ListKeys;
    match op
    case DoCreate(url, user, e, safe, tries) =>
      CreateEffect(s, NewRow(s, url, user, e), Attempts(tries));
      ShrinkBounded(s, Apply(s, op));
    case DoFind(code, readOk, fate) => FindBounded(s, code, readOk, fate);
    case DoFindAll(_) => ListBounded(s, ALL, Many(RecordsOf(s.rows, s.counters)));
    case DoFindByUser(u, _) => ListBounded(s, UserKey(u), Many(RecordsOf(Owned(s.rows, u), s.counters)));
    case DoUpdate(code, newCode, e, f) =>
      FindBounded(s, code, f.readOk, f.expiredFate);
      ShrinkBounded(Find(s, code, f.readOk, f.expiredFate).0, Apply(s, op));
    case TimePasses(time) => TimeBounded(s, time);
    case _ => ShrinkBounded(s, Apply(s, op));
  }

  lemma ListBounded(s: Store, key: string, value: Cached)
    requires Bounded(s) && value.Many?
    ensures Bounded(SetCache(s, key, value))
  {
  }

  lemma {:induction false} LaterBounded(s: Store, ops: seq<Op>)
    requires Bounded(s) && NoIncrements(ops)
    ensures Bounded(Exec(s, ops)) && Exec(s, ops).ttl == s.ttl
  {
    hide Apply, Bounded;
    if ops != [] {
      LaterBounded(s, ops[..|ops| - 1]);
      StepBounded(Exec(s, ops[..|ops| - 1]), ops[|ops| - 1]);
    }
  }

  lemma BoundedInTime(s: Store, code: string, readOk: bool, fate: Fate)
    requires Bounded(s)
    ensures InTime(s, code, readOk, fate)
  {
  }

  /**
   Staleness of expired links is bounded: in a run without `incrementClicks`, a record from
   the cache is served less than the TTL after it expired, and one from the database is not
   served after its expiry at all.  This covers rows that `update` copied.
   */
  lemma ServedWithinTtl(now: int, ttl: nat, ops: seq<Op>, code: string, readOk: bool, fate: Fate)
    requires NoIncrements(ops)
    ensures InTime(Exec(Empty(now, ttl), ops), code, readOk, fate)
    ensures Exec(Empty(now, ttl), ops).ttl == ttl && Bounded(Exec(Empty(now, ttl), ops))
  {
    hide InTime, Bounded;
    EmptyBounded(now, ttl);
    LaterBounded(Empty(now, ttl), ops);
    BoundedInTime(Exec(Empty(now, ttl), ops), code, readOk, fate);
  }

  lemma EmptyBounded(now: int, ttl: nat)
    ensures Bounded(Empty(now, ttl))
  {
  }

  /** The record of the code is cached and past its expiry. */
  predicate ExpiredInCache(s: Store, code: string) {
    Live(s, code) && s.cache[code].value.One? && Expired(s.cache[code].value.record.row.expiresAt, s.now)
  }

  lemma IncrementBounded(s: Store, code: string, ok: bool)
    requires Bounded(s) && !(ok && ExpiredInCache(s, code))
    ensures Bounded(IncrementClicks(s, code, ok))
  {
    var s' := IncrementClicks(s, code, ok);
    forall key | Live(s', key)
      ensures EntryBounded(s', s'.cache[key])
    {
      assert key != code ==> Live(s, key);
      assert key == code ==> Live(s, code);
    }
  }

  /** Once the TTL of an expired record has been restarted, it is served too late just before that runs out. */
  lemma IncrementServesLate(s: Store, code: string, fate: Fate)
    requires Bounded(s) && ExpiredInCache(s, code)
    ensures 0 < s.ttl
    ensures !InTime(Exec(IncrementClicks(s, code, true), [TimePasses(s.ttl - 1)]), code, true, fate)
  {
    assert EntryBounded(s, s.cache[code]);
    var s' := IncrementClicks(s, code, true);
    assert Exec(s', [TimePasses(s.ttl - 1)]) == s'.(now := s'.now + (s.ttl - 1)) by {
      assert [TimePasses(s.ttl - 1)][..0] == [];
    }
  }

  /** Some later course without further increments serves some code too late. */
  ghost predicate ServesLate(s: Store) {
    exists later: seq<Op>, code: string, readOk: bool, fate: Fate ::
      NoIncrements(later) && !InTime(Exec(s, later), code, readOk, fate)
  }

  /**
   `incrementClicks` restarts the TTL, so some later reader is served too late after it, if
   and only if the record it found in the cache had expired.
   */
  lemma IncrementServesLateIff(s: Store, code: string, ok: bool)
    requires Bounded(s)
    ensures ServesLate(IncrementClicks(s, code, ok)) <==> ok && ExpiredInCache(s, code)
  {
    hide Bounded, InTime, IncrementClicks, Exec, ExpiredInCache;
    if ok && ExpiredInCache(s, code) {
      var fate := Fate(true, true, true);
      IncrementServesLate(s, code, fate);
      var later := [TimePasses(s.ttl - 1)];
      assert NoIncrements(later) && !InTime(Exec(IncrementClicks(s, code, ok), later), code, true, fate);
    } else {
      IncrementBounded(s, code, ok);
      BoundedNeverLate(IncrementClicks(s, code, ok));
    }
  }

  /** No later course without increments serves a record too late from any moment of the run. */
  ghost predicate NeverLate(s: Store, ops: seq<Op>) {
    !ServesLate(Exec(s, ops)) && (ops != [] ==> NeverLate(s, ops[..|ops| - 1]))
  }

  /** Every increment that went through found its record not expired, or not cached. */
  ghost predicate IncrementsUnexpired(s: Store, ops: seq<Op>) {
    ops != [] ==>
      && IncrementsUnexpired(s, ops[..|ops| - 1])
      && var last := ops[|ops| - 1];
         last.DoIncrement? && last.ok ==> !ExpiredInCache(Exec(s, ops[..|ops| - 1]), last.code)
  }

  lemma BoundedNeverLate(s: Store)
    requires Bounded(s)
    ensures !ServesLate(s)
  {
    hide Bounded, InTime, Exec;
    forall later, c, readOk, fate | NoIncrements(later)
      ensures InTime(Exec(s, later), c, readOk, fate)
    {
      LaterBounded(s, later);
      BoundedInTime(Exec(s, later), c, readOk, fate);
    }
  }

  lemma {:induction false} UnexpiredBounded(now: int, ttl: nat, ops: seq<Op>)
    requires IncrementsUnexpired(Empty(now, ttl), ops)
    ensures Bounded(Exec(Empty(now, ttl), ops))
  {
    hide Apply, Bounded, ExpiredInCache, IncrementClicks;
    if ops == [] {
      EmptyBounded(now, ttl);
    } else {
      var before, last := Exec(Empty(now, ttl), ops[..|ops| - 1]), ops[|ops| - 1];
      UnexpiredBounded(now, ttl, ops[..|ops| - 1]);
      if last.DoIncrement? {
        IncrementBounded(before, last.code, last.ok);
        assert Apply(before, last) == IncrementClicks(before, last.code, last.ok) by { IncrementStep(before, last); }
      } else {
        StepBounded(before, last);
      }
    }
  }

  lemma IncrementStep(s: Store, op: Op)
    requires op.DoIncrement?
    ensures Apply(s, op) == IncrementClicks(s, op.code, op.ok)
  {
  }

  /**
   Over every run with increments, from no moment does a later course without increments serve
   a record too late, if and only if every increment found its record unexpired.
   */
  lemma {:induction false} RunServesInTimeIff(now: int, ttl: nat, ops: seq<Op>)
    ensures NeverLate(Empty(now, ttl), ops) <==> IncrementsUnexpired(Empty(now, ttl), ops)
  {
    hide Apply, Bounded, ExpiredInCache, ServesLate, IncrementClicks;
    if IncrementsUnexpired(Empty(now, ttl), ops) {
      UnexpiredBounded(now, ttl, ops);
      BoundedNeverLate(Exec(Empty(now, ttl), ops));
    }
    if ops != [] {
      var before, last := Exec(Empty(now, ttl), ops[..|ops| - 1]), ops[|ops| - 1];
      RunServesInTimeIff(now, ttl, ops[..|ops| - 1]);
      if IncrementsUnexpired(Empty(now, ttl), ops[..|ops| - 1]) && last.DoIncrement? {
        UnexpiredBounded(now, ttl, ops[..|ops| - 1]);
        IncrementServesLateIff(before, last.code, last.ok);
        IncrementStep(before, last);
      }
    }
  }

  // ---- with increments there is no bound ----

  /** One click each time the entry is about to run out. */
  function Clicking(code: string, ttl: nat, n: nat): seq<Op>
    requires 0 < ttl
  {
    if n == 0 then [] else Clicking(code, ttl, n - 1) + [TimePasses(ttl - 1), DoIncrement(code, true)]
  }

  ghost predicate JustCached(s: Store, code: string, e: int) {
    && Live(s, code) && s.cache[code].until == s.now + s.ttl
    && s.cache[code].value.One? && s.cache[code].value.record.row.expiresAt == Some(e)
  }

  lemma ExecTwo(s: Store, ops: seq<Op>, a: Op, b: Op)
    ensures Exec(s, ops + [a, b]) == Apply(Apply(Exec(s, ops), a), b)
  {
    hide Apply;
    assert (ops + [a, b])[..|ops| + 1] == ops + [a];
    assert (ops + [a])[..|ops|] == ops;
    assert Exec(s, ops + [a]) == Apply(Exec(s, ops), a);
  }

  lemma ClickInTime(s: Store, code: string, e: int)
    requires JustCached(s, code, e) && 0 < s.ttl
    ensures var s' := Apply(Apply(s, TimePasses(s.ttl - 1)), DoIncrement(code, true));
            JustCached(s', code, e) && s'.ttl == s.ttl && s'.now == s.now + (s.ttl - 1)
  {
  }

  lemma {:induction false} ClickingKeeps(s: Store, code: string, e: int, n: nat)
    requires JustCached(s, code, e) && 2 <= s.ttl
    ensures var s' := Exec(s, Clicking(code, s.ttl, n));
            JustCached(s', code, e) && s'.ttl == s.ttl && s.now + n <= s'.now
  {
    hide Apply, JustCached;
    if n != 0 {
      ClickingKeeps(s, code, e, n - 1);
      ClickInTime(Exec(s, Clicking(code, s.ttl, n - 1)), code, e);
      ExecTwo(s, Clicking(code, s.ttl, n - 1), TimePasses(s.ttl - 1), DoIncrement(code, true));
    }
  }

  lemma FirstCached(s: Store, code: string, row: Row, fate: Fate)
    requires !Live(s, code) && 0 < s.ttl && row.expiresAt.Some? && !Expired(row.expiresAt, s.now)
    ensures var s' := Find(CreateLoop(s, row, [Pass(code, Landed(true, true))]).0, code, true, fate).0;
            JustCached(s', code, row.expiresAt.value) && s'.ttl == s.ttl && s'.now == s.now
  {
  }

  lemma OpenFor(now: int, ttl: nat, code: string, fate: Fate)
    requires 0 < ttl
    ensures var ops := [DoCreate("", None, OneDay, true, [Pass(code, Landed(true, true))]), DoFind(code, true, fate)];
            var s := Exec(Empty(now, ttl), ops);
            JustCached(s, code, now + DAY) && s.ttl == ttl && s.now == now
  {
    var s := Empty(now, ttl);
    var a, b := DoCreate("", None, OneDay, true, [Pass(code, Landed(true, true))]), DoFind(code, true, fate);
    ExecTwo(s, [], a, b);
    assert [] + [a, b] == [a, b];
    FirstCached(s, code, NewRow(s, "", None, OneDay), fate);
    hide CreateLoop, Find;
    assert Attempts(a.tries) == a.tries;
  }

  lemma {:induction false} ExecConcat(s: Store, a: seq<Op>, b: seq<Op>)
    ensures Exec(s, a + b) == Exec(Exec(s, a), b)
  {
    hide Apply;
    if b == [] {
      assert a + b == a;
    } else {
      ExecConcat(s, a, b[..|b| - 1]);
      assert (a + b)[..|a + b| - 1] == a + b[..|b| - 1];
    }
  }

  /**
   With a click each time its entry is about to run out, a link is served as late after its
   expiry as one likes, whatever the TTL, if that is at least two units of time.
   */
  lemma ServedArbitrarilyLate(now: int, ttl: nat, code: string, late: nat) returns (ops: seq<Op>)
    requires 2 <= ttl
    ensures var s := Exec(Empty(now, ttl), ops);
            forall readOk, fate :: var r := Find(s, code, readOk, fate).1;
              r.Ok? && r.value.One? && r.value.record.row.expiresAt == Some(now + DAY) && now + DAY + late <= s.now
  {
    hide Apply, Clicking;
    var fate := Fate(true, true, true);
    var open := [DoCreate("", None, OneDay, true, [Pass(code, Landed(true, true))]), DoFind(code, true, fate)];
    OpenFor(now, ttl, code, fate);
    assert 0 <= DAY + late;
    var clicks := Clicking(code, ttl, DAY + late);
    ClickingKeeps(Exec(Empty(now, ttl), open), code, now + DAY, DAY + late);
    ExecConcat(Empty(now, ttl), open, clicks);
    ops := open + clicks;
  }
}
