/**
 When the cache of the URL store agrees with its rows: exactly which operations keep that,
 and so exactly which sequential runs do.
 */
module UrlCoherence {
  import opened Common
  import opened UrlStore

  ghost predicate Mirrors(records: map<string, Record>, rows: map<string, Row>) {
    records.Keys == rows.Keys && forall c :: c in records ==> records[c].code == c && records[c].row == rows[c]
  }

  /** A cached value agrees with the rows on everything but clicks. */
  ghost predicate Agrees(key: string, value: Cached, rows: map<string, Row>) {
    if key == ALL then value.Many? && Mirrors(value.records, rows)
    else if IsUserKey(key) then value.Many? && Mirrors(value.records, Owned(rows, key[|USER_PREFIX|..]))
    else value.One? && key in rows && value.record.code == key && value.record.row == rows[key]
  }

  ghost predicate CodesOk(rows: map<string, Row>) {
    forall c :: c in rows ==> CodeOk(c)
  }

  /** Every entry that can still be served agrees with the rows, and no row has the key of a list. */
  ghost predicate Coherent(s: Store) {
    (forall key :: Live(s, key) ==> Agrees(key, s.cache[key].value, s.rows)) && CodesOk(s.rows)
  }

  lemma UserKeyFacts(u: string)
    ensures IsUserKey(UserKey(u)) && UserKey(u) != ALL && UserKey(u)[|USER_PREFIX|..] == u
  {
    assert UserKey(u)[0] == 'u' && ALL[0] == 'a';
  }

  lemma UserKeyOf(key: string)
    requires IsUserKey(key)
    ensures UserKey(key[|USER_PREFIX|..]) == key
  {
  }

  // ---- a change to the rows, and the entries that show it ----

  function Lookup(rows: map<string, Row>, code: string): Option<Row> {
    if code in rows then Some(rows[code]) else None
  }

  /** The keys under which a row is shown: its code, the list of all, and its owner's list. */
  function Shown(code: string, user: Option<string>): set<string> {
    {code} + ListKeys(user)
  }

  ghost predicate Exposed(s: Store, code: string, rows: map<string, Row>) {
    code in rows && exists key :: key in Shown(code, rows[code].userId) && Live(s, key)
  }

  /** An entry that shows a row can agree with two tables only if both hold that row. */
  lemma ShownOnce(key: string, value: Cached, rows: map<string, Row>, other: map<string, Row>, code: string)
    requires code in rows && CodeOk(code) && key in Shown(code, rows[code].userId)
    requires Agrees(key, value, rows) && Agrees(key, value, other)
    ensures Lookup(other, code) == Lookup(rows, code)
  {
    if key == ALL {
      assert code in value.records;
    } else if key != code {
      var u := rows[code].userId.value;
      UserKeyFacts(u);
      assert code in Owned(rows, u);
      assert code in value.records;
      assert code in Owned(other, u);
    }
  }

  /** An entry that shows no changed row agrees after the change as before. */
  lemma UnshownAgrees(key: string, value: Cached, rows: map<string, Row>, other: map<string, Row>)
    requires Agrees(key, value, rows)
    requires forall c :: Lookup(rows, c) != Lookup(other, c) ==>
               && (c in rows ==> key !in Shown(c, rows[c].userId))
               && (c in other ==> key !in Shown(c, other[c].userId))
    ensures Agrees(key, value, other)
  {
    if key == ALL {
      assert forall c :: Lookup(rows, c) == Lookup(other, c);
      assert forall c :: c in rows <==> Lookup(rows, c).Some?;
      assert rows == other;
    } else if IsUserKey(key) {
      var u := key[|USER_PREFIX|..];
      UserKeyOf(key);
      forall c
        ensures Lookup(Owned(rows, u), c) == Lookup(Owned(other, u), c)
      {
        assert Lookup(rows, c) == Lookup(other, c) || (key !in Shown(c, if c in rows then rows[c].userId else None));
      }
      assert forall c :: c in Owned(rows, u) <==> Lookup(Owned(rows, u), c).Some?;
      assert Owned(rows, u) == Owned(other, u);
    } else {
      assert Lookup(rows, key) == Lookup(other, key);
    }
  }

  ghost predicate CacheShrinks(s: Store, s': Store) {
    s'.now == s.now && forall key :: key in s'.cache ==> key in s.cache && s'.cache[key] == s.cache[key]
  }

  /**
   The principle behind every operation: a change of the rows keeps the cache coherent if and
   only if no code is the key of a list, and no live entry shows a changed row, as it was or
   as it is.
   */
  lemma ChangeCoherentIff(s: Store, s': Store)
    requires Coherent(s) && CacheShrinks(s, s')
    ensures Coherent(s') <==>
              && CodesOk(s'.rows)
              && forall c :: Lookup(s.rows, c) != Lookup(s'.rows, c) ==>
                   !Exposed(s', c, s.rows) && !Exposed(s', c, s'.rows)
  {
    hide Agrees;
    if Coherent(s') {
      forall c | Lookup(s.rows, c) != Lookup(s'.rows, c)
        ensures !Exposed(s', c, s.rows) && !Exposed(s', c, s'.rows)
      {
        Contradicted(s, s', c);
      }
    }
    if CodesOk(s'.rows) && forall c :: Lookup(s.rows, c) != Lookup(s'.rows, c) ==>
                             !Exposed(s', c, s.rows) && !Exposed(s', c, s'.rows) {
      forall key | Live(s', key)
        ensures Agrees(key, s'.cache[key].value, s'.rows)
      {
        UnshownAgrees(key, s.cache[key].value, s.rows, s'.rows);
      }
    }
  }

  lemma Contradicted(s: Store, s': Store, c: string)
    requires Coherent(s) && Coherent(s') && CacheShrinks(s, s') && Lookup(s.rows, c) != Lookup(s'.rows, c)
    ensures !Exposed(s', c, s.rows) && !Exposed(s', c, s'.rows)
  {
    hide Agrees;
    forall key | Live(s', key)
      ensures c in s.rows ==> key !in Shown(c, s.rows[c].userId)
      ensures c in s'.rows ==> key !in Shown(c, s'.rows[c].userId)
    {
      assert Agrees(key, s.cache[key].value, s.rows) && Agrees(key, s.cache[key].value, s'.rows);
      if c in s.rows && key in Shown(c, s.rows[c].userId) {
        ShownOnce(key, s.cache[key].value, s.rows, s'.rows, c);
      }
      if c in s'.rows && key in Shown(c, s'.rows[c].userId) {
        ShownOnce(key, s.cache[key].value, s'.rows, s.rows, c);
      }
    }
  }

  // ---- remove and the reads ----

  lemma RemoveCoherent(s: Store, code: string, fate: Fate)
    requires Coherent(s)
    ensures Coherent(Remove(s, code, fate).0)
  {
    hide Coherent;
    ChangeCoherentIff(s, Remove(s, code, fate).0);
    CoherentCodes(s);
  }

  lemma CoherentCodes(s: Store)
    requires Coherent(s)
    ensures CodesOk(s.rows)
  {
  }

  lemma FindCoherent(s: Store, code: string, readOk: bool, fate: Fate)
    requires Coherent(s)
    ensures Coherent(Find(s, code, readOk, fate).0)
  {
    RemoveCoherent(s, code, fate);
  }

  lemma FindAllCoherent(s: Store, readOk: bool)
    requires Coherent(s)
    ensures Coherent(FindAll(s, readOk).0)
  {
  }

  lemma FindByUserCoherent(s: Store, u: string, readOk: bool)
    requires Coherent(s)
    ensures Coherent(FindByUser(s, u, readOk).0)
  {
    UserKeyFacts(u);
  }

  lemma IncrementCoherent(s: Store, code: string, ok: bool)
    requires Coherent(s)
    ensures Coherent(IncrementClicks(s, code, ok))
  {
  }

  // ---- create ----

  /** The first pass whose record is accepted, or their number. */
  function FirstAccepted(tries: seq<Pass>): (n: nat)
    ensures n <= |tries|
    ensures n < |tries| ==> Accepted(tries[n].landed)
    ensures forall i :: 0 <= i < n ==> !Accepted(tries[i].landed)
  {
    if tries == [] then 0 else if Accepted(tries[0].landed) then 0 else 1 + FirstAccepted(tries[1..])
  }

  /** The codes under which a row comes to stand, also in passes that are then given up. */
  function Landing(tries: seq<Pass>): set<string> {
    if tries == [] then {}
    else
      (if tries[0].landed.row then {tries[0].code} else {})
      + if Accepted(tries[0].landed) then {} else Landing(tries[1..])
  }

  /** The lists that are dropped in the end: none, if no pass is accepted. */
  function Dropped(user: Option<string>, tries: seq<Pass>): set<string> {
    if FirstAccepted(tries) < |tries| then ListKeys(user) else {}
  }

  lemma {:induction false} CreateEffect(s: Store, row: Row, tries: seq<Pass>)
    ensures var (s', r) := CreateLoop(s, row, tries);
            && (forall c :: Lookup(s'.rows, c) == if c in Landing(tries) then Some(row) else Lookup(s.rows, c))
            && (forall c :: At(s'.counters, c) == At(s.counters, c))
            && s'.cache == s.cache - Dropped(row.userId, tries) && s'.now == s.now && s'.ttl == s.ttl
            && (r.Ok? ==> r.value.code in s'.counters)
            && r == if FirstAccepted(tries) < |tries| then Ok(Record(tries[FirstAccepted(tries)].code, row, 0))
                    else Err(ServerError)
    decreases |tries|
  {
    if tries != [] && !Accepted(tries[0].landed) {
      CreateEffect(WriteRecord(s, tries[0].code, row, tries[0].landed), row, tries[1..]);
    }
  }

  /**
   A row can be written under a code: nothing changes, or the code is no list's key and no
   live entry that is not about to be dropped shows the old row or the new one.
   */
  ghost predicate Harmless(s: Store, code: string, row: Row, dropped: set<string>) {
    || Lookup(s.rows, code) == Some(row)
    || (&& CodeOk(code)
        && (forall key :: key in Shown(code, row.userId) && key !in dropped ==> !Live(s, key))
        && (code in s.rows ==>
              forall key :: key in Shown(code, s.rows[code].userId) && key !in dropped ==> !Live(s, key)))
  }

  ghost predicate CreateHarmless(s: Store, row: Row, tries: seq<Pass>) {
    forall c :: c in Landing(tries) ==> Harmless(s, c, row, Dropped(row.userId, tries))
  }

  /**
   INSERT is an upsert and may land in a pass that is then given up, so `create` keeps the
   cache coherent exactly when every write that lands is harmless.
   */
  lemma CreateCoherentIff(s: Store, row: Row, tries: seq<Pass>)
    requires Coherent(s)
    ensures Coherent(CreateLoop(s, row, tries).0) <==> CreateHarmless(s, row, tries)
  {
    hide Coherent, Landing, FirstAccepted, CreateLoop, CodeOk, Dropped;
    var s' := CreateLoop(s, row, tries).0;
    var dropped := Dropped(row.userId, tries);
    CreateEffect(s, row, tries);
    CoherentCodes(s);
    ChangeCoherentIff(s, s');
    assert forall key :: Live(s', key) <==> Live(s, key) && key !in dropped;
    assert forall c :: c in s'.rows <==> Lookup(s'.rows, c).Some?;
    if CreateHarmless(s, row, tries) {
      forall c | Lookup(s.rows, c) != Lookup(s'.rows, c)
        ensures !Exposed(s', c, s.rows) && !Exposed(s', c, s'.rows)
      {
        assert c in Landing(tries) && s'.rows[c] == row;
      }
      forall c | c in s'.rows
        ensures CodeOk(c)
      {
        assert c !in Landing(tries) ==> Lookup(s.rows, c).Some?;
      }
    }
    if Coherent(s') {
      forall c | c in Landing(tries)
        ensures Harmless(s, c, row, dropped)
      {
        assert c in s'.rows && s'.rows[c] == row;
        assert Lookup(s.rows, c) != Some(row) ==> !Exposed(s', c, s.rows) && !Exposed(s', c, s'.rows);
      }
    }
  }

  /** In particular codes that are fresh and no list's key are harmless, if no half of a record lands alone. */
  lemma {:induction false} FreshIsHarmless(s: Store, row: Row, tries: seq<Pass>)
    requires Coherent(s)
    requires forall i :: 0 <= i < |tries| ==>
               CodeOk(tries[i].code) && tries[i].code !in s.rows && (tries[i].landed.row ==> tries[i].landed.counter)
    ensures CreateHarmless(s, row, tries)
  {
    hide CodeOk, Agrees, Coherent;
    forall c | c in Landing(tries)
      ensures Harmless(s, c, row, Dropped(row.userId, tries))
    {
      OnlyAcceptedLands(tries, c);
      FreshNotLive(s, c);
    }
  }

  lemma {:induction false} OnlyAcceptedLands(tries: seq<Pass>, c: string)
    requires forall i :: 0 <= i < |tries| ==> tries[i].landed.row ==> tries[i].landed.counter
    requires c in Landing(tries)
    ensures FirstAccepted(tries) < |tries| && tries[FirstAccepted(tries)].code == c
    decreases |tries|
  {
    if !Accepted(tries[0].landed) {
      OnlyAcceptedLands(tries[1..], c);
    }
  }

  lemma FreshNotLive(s: Store, code: string)
    requires Coherent(s) && CodeOk(code) && code !in s.rows
    ensures !Live(s, code)
  {
  }

  // ---- update ----

  /** The row `update` starts from: the cached record, or the row read if it is not past its expiry. */
  function Source(s: Store, code: string, readOk: bool): Option<Row> {
    if Live(s, code) then
      if s.cache[code].value.One? then Some(s.cache[code].value.record.row) else None
    else if readOk && code in s.rows && !Expired(s.rows[code].expiresAt, s.now) then Some(s.rows[code])
    else None
  }

  predicate UpdateWrites(s: Store, code: string, newCode: string, f: UpdateFate) {
    Source(s, code, f.readOk).Some? && f.safe && f.checkOk && newCode !in s.rows && f.landed.row
  }

  /** The new code is no list's key; and if its counter is refused, so that nothing is dropped, no list is live. */
  ghost predicate UpdateHarmless(s: Store, code: string, newCode: string, f: UpdateFate) {
    UpdateWrites(s, code, newCode, f) ==>
      && CodeOk(newCode)
      && (!f.landed.counter ==> forall key :: key in ListKeys(Source(s, code, f.readOk).value.userId) ==> !Live(s, key))
  }

  lemma SourceFound(s: Store, code: string, readOk: bool, fate: Fate)
    requires Coherent(s)
    ensures var (s1, found) := Find(s, code, readOk, fate);
            && (Source(s, code, readOk).Some? <==> found.Ok? && found.value.One?)
            && s1.now == s.now
            && (Source(s, code, readOk).Some? ==>
                  && code in s.rows && s.rows[code] == Source(s, code, readOk).value == found.value.record.row
                  && s1.rows == s.rows && s1.counters == s.counters
                  && (forall key :: key != code ==> (Live(s1, key) <==> Live(s, key)))
                  && (forall key :: key != code && key in s1.cache ==> key in s.cache && s1.cache[key] == s.cache[key]))
  {
    assert Live(s, code) ==> Agrees(code, s.cache[code].value, s.rows);
  }

  lemma UpdateNotWritten(s: Store, code: string, newCode: string, e: Option<Expiration>, f: UpdateFate)
    requires Coherent(s) && !UpdateWrites(s, code, newCode, f)
    ensures Coherent(Update(s, code, newCode, e, f).0)
  {
    hide CodeOk, Agrees, Remove, ListKeys;
    SourceFound(s, code, f.readOk, f.expiredFate);
    FindCoherent(s, code, f.readOk, f.expiredFate);
    hide Find, Source;
    var s1 := Find(s, code, f.readOk, f.expiredFate).0;
    var s' := Update(s, code, newCode, e, f).0;
    assert s'.rows == s1.rows && s'.cache == s1.cache && s'.now == s1.now;
  }

  /** Half an update: the new row is there and shown by the lists, which are not dropped. */
  lemma HalfUpdateIff(s1: Store, newCode: string, row: Row)
    requires Coherent(s1) && newCode !in s1.rows
    ensures Coherent(WriteRecord(s1, newCode, row, Landed(true, false))) <==>
              CodeOk(newCode) && forall key :: key in ListKeys(row.userId) ==> !Live(s1, key)
  {
    var s' := WriteRecord(s1, newCode, row, Landed(true, false));
    CoherentCodes(s1);
    ChangeCoherentIff(s1, s');
    if CodeOk(newCode) {
      FreshNotLive(s1, newCode);
    }
    hide Coherent, CodeOk, ListKeys;
    assert Lookup(s1.rows, newCode) != Lookup(s'.rows, newCode);
    assert forall c :: c != newCode ==> Lookup(s1.rows, c) == Lookup(s'.rows, c);
    assert forall key :: Live(s', key) <==> Live(s1, key);
  }

  /** A full update drops everything that shows the row under either code. */
  lemma FullUpdateIff(s1: Store, code: string, newCode: string, row: Row, fate: Fate)
    requires Coherent(s1) && newCode !in s1.rows && code in s1.rows && s1.rows[code].userId == row.userId
    ensures var s2 := WriteRecord(s1, newCode, row, Landed(true, true));
            Coherent(Forget(Remove(s2, code, fate).0, ListKeys(row.userId))) <==> CodeOk(newCode)
  {
    var s2 := WriteRecord(s1, newCode, row, Landed(true, true));
    var s' := Forget(Remove(s2, code, fate).0, ListKeys(row.userId));
    CoherentCodes(s1);
    ChangeCoherentIff(s1, s');
    if CodeOk(newCode) {
      FreshNotLive(s1, newCode);
    }
    hide Coherent, CodeOk, ListKeys;
    assert newCode in s'.rows;
    assert forall c :: c in s'.rows ==> c == newCode || c in s1.rows;
    assert forall c :: Lookup(s1.rows, c) != Lookup(s'.rows, c) ==> c == newCode || (c == code && c !in s'.rows);
    assert forall key :: Live(s', key) ==> Live(s1, key) && key !in ListKeys(row.userId);
    assert code !in s'.rows ==> code !in s'.cache;
  }

  lemma UpdateCoherentIff(s: Store, code: string, newCode: string, e: Option<Expiration>, f: UpdateFate)
    requires Coherent(s)
    ensures Coherent(Update(s, code, newCode, e, f).0) <==> UpdateHarmless(s, code, newCode, f)
  {
    if UpdateWrites(s, code, newCode, f) {
      SourceFound(s, code, f.readOk, f.expiredFate);
      FindCoherent(s, code, f.readOk, f.expiredFate);
      CoherentCodes(s);
      var (s1, found) := Find(s, code, f.readOk, f.expiredFate);
      var source := s.rows[code];
      ListKeysAreNoCodes(source.userId, code);
      var row := source.(expiresAt := NewExpiry(s1.now, source, e));
      hide Find, Coherent, CodeOk, Source, ListKeys, NewExpiry, Remove;
      if f.landed.counter {
        FullUpdateIff(s1, code, newCode, row, f.removeFate);
        assert f.landed == Landed(true, true);
      } else {
        HalfUpdateIff(s1, newCode, row);
        assert f.landed == Landed(true, false);
      }
    } else {
      UpdateNotWritten(s, code, newCode, e, f);
    }
  }

  lemma ListKeysAreNoCodes(user: Option<string>, code: string)
    requires CodeOk(code)
    ensures code !in ListKeys(user)
  {
    if user.Some? {
      UserKeyFacts(user.value);
    }
  }

  // ---- over all runs ----

  /** What a caller has to see to before an operation. */
  ghost predicate OpHarmless(s: Store, op: Op) {
    match op
    case DoCreate(url, user, e, safe, tries) => safe ==> CreateHarmless(s, NewRow(s, url, user, e), Attempts(tries))
    case DoUpdate(code, newCode, _, f) => UpdateHarmless(s, code, newCode, f)
    case _ => true
  }

  lemma StepCoherentIff(s: Store, op: Op)
    requires Coherent(s)
    ensures Coherent(Apply(s, op)) <==> OpHarmless(s, op)
  {
    hide Agrees, Remove, Find, FindAll, FindByUser, CreateLoop, Update, IncrementClicks, CreateHarmless, UpdateHarmless;
    match op
    case DoCreate(url, user, e, safe, tries) =>
      CreateCoherentIff(s, NewRow(s, url, user, e), Attempts(tries));
    case DoFind(code, readOk, fate) => FindCoherent(s, code, readOk, fate);
    case DoFindAll(readOk) => FindAllCoherent(s, readOk);
    case DoFindByUser(u, readOk) => FindByUserCoherent(s, u, readOk);
    case DoRemove(code, fate) => RemoveCoherent(s, code, fate);
    case DoUpdate(code, newCode, e, f) => UpdateCoherentIff(s, code, newCode, e, f);
    case DoIncrement(code, ok) => IncrementCoherent(s, code, ok);
    case ClicksCounted(_, _) =>
    case TimePasses(_) =>
    case Evicted(_) =>
  }

  /** The cache is coherent at every moment of the run. */
  ghost predicate CoherentThroughout(s: Store, ops: seq<Op>) {
    Coherent(Exec(s, ops)) && (ops != [] ==> CoherentThroughout(s, ops[..|ops| - 1]))
  }

  /** Every operation of the run is harmless when it is called. */
  ghost predicate GoodRun(s: Store, ops: seq<Op>) {
    ops != [] ==> GoodRun(s, ops[..|ops| - 1]) && OpHarmless(Exec(s, ops[..|ops| - 1]), ops[|ops| - 1])
  }

  /**
   Over every sequential run, all that is cached agrees with the rows at every moment on every
   field but clicks, if and only if every operation is harmless when it is called.
   */
  lemma {:induction false} RunCoherentIff(now: int, ttl: nat, ops: seq<Op>)
    ensures CoherentThroughout(Empty(now, ttl), ops) <==> GoodRun(Empty(now, ttl), ops)
  {
    hide Apply, Agrees, Coherent, OpHarmless;
    if ops == [] {
      EmptyCoherent(now, ttl);
    } else {
      RunCoherentIff(now, ttl, ops[..|ops| - 1]);
      if CoherentThroughout(Empty(now, ttl), ops[..|ops| - 1]) {
        StepCoherentIff(Exec(Empty(now, ttl), ops[..|ops| - 1]), ops[|ops| - 1]);
      }
    }
  }

  lemma EmptyCoherent(now: int, ttl: nat)
    ensures Coherent(Empty(now, ttl))
  {
  }

  lemma RunCoherent(now: int, ttl: nat, ops: seq<Op>)
    requires GoodRun(Empty(now, ttl), ops)
    ensures Coherent(Exec(Empty(now, ttl), ops))
  {
    RunCoherentIff(now, ttl, ops);
  }
}
