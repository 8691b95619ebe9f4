/** What callers of the URL store are told, against what the database holds. */
module UrlAnswers {
  import opened Common
  import opened UrlStore
  import opened UrlCoherence

  // ---- cached reads refine direct reads ----

  /** The answer of the database alone. */
  function Direct(s: Store, code: string): Option<Row> {
    if code in s.rows && !Expired(s.rows[code].expiresAt, s.now) then Some(s.rows[code]) else None
  }

  function RowOf(r: Result<Cached>): Option<Row> {
    if r.Ok? && r.value.One? then Some(r.value.record.row) else None
  }

  /** The click figure that a reader of a stored code is given. */
  function Figure(s: Store, code: string): nat {
    if Live(s, code) && s.cache[code].value.One? then s.cache[code].value.record.clicks else At(s.counters, code)
  }

  /**
   After any run of harmless operations, `findByShortCode` serves only rows that are in the database under that
   code, and it answers as the database alone would, clicks apart, unless the code is cached
   and its row has expired in the meantime.
   */
  lemma FindRefinesDirect(now: int, ttl: nat, ops: seq<Op>, code: string, fate: Fate)
    requires GoodRun(Empty(now, ttl), ops) && CodeOk(code)
    ensures var s := Exec(Empty(now, ttl), ops);
            var r := Find(s, code, true, fate).1;
            && (r.Ok? ==> r.value.One? && r.value.record.code == code && code in s.rows
                          && r.value.record.row == s.rows[code]
                          && r.value.record.clicks == Figure(s, code))
            && (RowOf(r) == Direct(s, code) <==>
                  !(Live(s, code) && code in s.rows && Expired(s.rows[code].expiresAt, s.now)))
  {
    hide Exec;
    var s := Exec(Empty(now, ttl), ops);
    RunCoherent(now, ttl, ops);
    hide GoodRun;
    if Live(s, code) {
      assert Agrees(code, s.cache[code].value, s.rows);
    }
  }

  /** After any run of harmless operations, the list of all and each user's list are the rows of the database, clicks apart. */
  lemma ListsRefineDirect(now: int, ttl: nat, ops: seq<Op>, u: string)
    requires GoodRun(Empty(now, ttl), ops)
    ensures var s := Exec(Empty(now, ttl), ops);
            var (a, b) := (FindAll(s, true).1, FindByUser(s, u, true).1);
            && a.Ok? && a.value.Many? && Mirrors(a.value.records, s.rows)
            && b.Ok? && b.value.Many? && Mirrors(b.value.records, Owned(s.rows, u))
            && (!Live(s, ALL) ==> a.value.records == RecordsOf(s.rows, s.counters))
            && (!Live(s, UserKey(u)) ==> forall c :: c in b.value.records ==>
                  b.value.records[c].clicks == At(s.counters, c))
  {
    hide Exec;
    var s := Exec(Empty(now, ttl), ops);
    RunCoherent(now, ttl, ops);
    hide GoodRun;
    UserKeyFacts(u);
    if Live(s, ALL) {
      assert Agrees(ALL, s.cache[ALL].value, s.rows);
    }
    if Live(s, UserKey(u)) {
      assert Agrees(UserKey(u), s.cache[UserKey(u)].value, s.rows);
    }
  }

  // ---- what create writes and answers ----

  /**
   In any state, `create` refuses an unsafe URL and changes nothing; otherwise it succeeds
   exactly when one of its first three passes lands completely.  It then answers with the URL
   and the user it was given, the present moment, no clicks, and an expiry of one, seven or
   thirty days of 86400000 milliseconds, or none; and it has stored that row.
   */
  lemma CreateAnswers(s: Store, url: string, user: Option<string>, e: Expiration, safe: bool, tries: seq<Pass>)
    ensures var (s', r) := Create(s, url, user, e, safe, tries);
            && (!safe ==> s' == s && r == Err(Unsafe))
            && (r.Ok? <==>
                  safe && exists i :: 0 <= i < |tries| && i < 3 && tries[i].landed.row && tries[i].landed.counter)
            && (safe && r.Err? ==> r.error == ServerError)
            && (r.Ok? ==>
                  var row := r.value.row;
                  && row.originalUrl == url && row.userId == user && row.createdAt == s.now && r.value.clicks == 0
                  && (e == Forever ==> row.expiresAt == None)
                  && (e == OneDay ==> row.expiresAt == Some(s.now + 86400000))
                  && (e == SevenDays ==> row.expiresAt == Some(s.now + 604800000))
                  && (e == ThirtyDays ==> row.expiresAt == Some(s.now + 2592000000))
                  && r.value.code in s'.rows && s'.rows[r.value.code] == row && r.value.code in s'.counters)
  {
    hide CreateLoop, Landing, FirstAccepted;
    if safe {
      var passes := Attempts(tries);
      CreateEffect(s, NewRow(s, url, user, e), passes);
      if FirstAccepted(passes) < |passes| {
        AcceptedLands(passes);
        assert Lookup(Create(s, url, user, e, safe, tries).0.rows, passes[FirstAccepted(passes)].code).Some?;
        assert tries[FirstAccepted(passes)].landed.row;
      }
      assert forall i :: 0 <= i < |passes| ==> passes[i] == tries[i];
    }
  }

  // ---- create is answered by find ----

  /**
   In any state, `create` succeeds exactly when one of its first three passes is accepted.  A
   reader of the new code then gets the response back exactly when the record that is still
   cached for the code is the same, or, without one, when no counter is left over from an
   earlier use of the code.  The rows that landed stand in the table either way.
   */
  lemma CreateAnswersTrulyIff(s: Store, url: string, user: Option<string>, e: Expiration, tries: seq<Pass>, fate: Fate)
    ensures var (s', r) := Create(s, url, user, e, true, tries);
            var passes, row := Attempts(tries), NewRow(s, url, user, e);
            var n := FirstAccepted(passes);
            && (forall c :: Lookup(s'.rows, c) == if c in Landing(passes) then Some(row) else Lookup(s.rows, c))
            && (r.Ok? <==> n < |passes|)
            && (n < |passes| ==>
                  var code, answer := passes[n].code, Record(passes[n].code, row, 0);
                  && r == Ok(answer) && code in Landing(passes)
                  && (Find(s', code, true, fate).1 == Ok(One(answer)) <==>
                        if Live(s, code) && code !in ListKeys(user) then s.cache[code].value == One(answer)
                        else At(s.counters, code) == 0))
  {
    hide CreateLoop, Landing, FirstAccepted, ListKeys;
    var passes, row := Attempts(tries), NewRow(s, url, user, e);
    CreateEffect(s, row, passes);
    var s' := CreateLoop(s, row, passes).0;
    if FirstAccepted(passes) < |passes| {
      var code := passes[FirstAccepted(passes)].code;
      AcceptedLands(passes);
      assert Lookup(s'.rows, code) == Some(row);
      assert Live(s', code) <==> Live(s, code) && code !in ListKeys(user);
    }
  }

  lemma {:induction false} AcceptedLands(tries: seq<Pass>)
    requires FirstAccepted(tries) < |tries|
    ensures tries[FirstAccepted(tries)].code in Landing(tries)
    decreases |tries|
  {
    if !Accepted(tries[0].landed) {
      AcceptedLands(tries[1..]);
    }
  }

  // ---- a row under the key of the list of all ----

  /**
   Nothing keeps `create` from the code `all`, which the generator can draw.  Its row and the
   list of all are then cached under one key, and whichever is read first is served for both.
   */
  lemma AllAsCode(s: Store, row: Row, fate: Fate)
    requires 0 < s.ttl && !Expired(row.expiresAt, s.now)
    ensures var s' := CreateLoop(s, row, [Pass(ALL, Landed(true, true))]).0;
            && Find(FindAll(s', true).0, ALL, true, fate).1 == FindAll(s', true).1
            && FindAll(s', true).1 == Ok(Many(RecordsOf(s'.rows, s'.counters)))
            && FindAll(Find(s', ALL, true, fate).0, true).1 == Find(s', ALL, true, fate).1
            && Find(s', ALL, true, fate).1 == Ok(One(Record(ALL, row, At(s.counters, ALL))))
  {
  }

  // ---- update is a rename ----

  /** What `update` may do to the rows, for each of its answers. */
  ghost predicate Renames(s: Store, code: string, newCode: string, e: Option<Expiration>,
                          rows: map<string, Row>, r: Result<Record>) {
    && rows - {code, newCode} == s.rows - {code, newCode}
    && (newCode in s.rows && newCode != code ==> newCode in rows && rows[newCode] == s.rows[newCode])
    && (newCode in rows && newCode !in s.rows ==> code in s.rows && rows[newCode] == Renamed(s, s.rows[code], e))
    && match r
    case Ok(_) =>
      code in s.rows && newCode !in s.rows && rows == (s.rows - {code})[newCode := Renamed(s, s.rows[code], e)]
    case Err(Conflict) => newCode in s.rows && rows == s.rows
    case Err(NotFound) =>
      rows == s.rows || (code in s.rows && Expired(s.rows[code].expiresAt, s.now) && rows == s.rows - {code})
    case Err(_) => true
  }

  function Renamed(s: Store, source: Row, e: Option<Expiration>): Row {
    Row(source.originalUrl, source.userId, source.createdAt, NewExpiry(s.now, source, e))
  }

  lemma FoundForUpdate(s: Store, code: string, f: UpdateFate)
    requires Coherent(s)
    ensures var (s1, found) := Find(s, code, f.readOk, f.expiredFate);
            && s1.now == s.now
            && (found.Ok? && found.value.Many? ==> s1 == s)
            && (found.Ok? && found.value.One? ==>
                  s1.rows == s.rows && code in s.rows && found.value.record.row == s.rows[code])
            && (found.Err? ==>
                  && found.error != Conflict
                  && (s1.rows == s.rows
                      || (code in s.rows && Expired(s.rows[code].expiresAt, s.now) && s1.rows == s.rows - {code})))
  {
    assert Live(s, code) ==> Agrees(code, s.cache[code].value, s.rows);
  }

  lemma UpdateRenamesFrom(s: Store, code: string, newCode: string, e: Option<Expiration>, f: UpdateFate)
    requires Coherent(s)
    ensures Renames(s, code, newCode, e, Update(s, code, newCode, e, f).0.rows, Update(s, code, newCode, e, f).1)
  {
    hide Find, Coherent, CodeOk, Expired, ListKeys, NewExpiry;
    FoundForUpdate(s, code, f);
    var (s1, found) := Find(s, code, f.readOk, f.expiredFate);
    var rows := Update(s, code, newCode, e, f).0.rows;
    DroppedOthers(s.rows, code, newCode);
    if found.Ok? && found.value.One? && f.safe && f.checkOk && newCode !in s1.rows && f.landed.row {
      var row := Renamed(s, s.rows[code], e);
      var s2 := WriteRecord(s1, newCode, row, f.landed);
      assert rows == (if f.landed.counter then Remove(s2, code, f.removeFate).0.rows else s2.rows);
      MovedOthers(s.rows, code, newCode, row);
    } else {
      assert rows == s1.rows;
    }
  }

  lemma DroppedOthers(rows: map<string, Row>, code: string, newCode: string)
    ensures rows - {code} - {code, newCode} == rows - {code, newCode}
  {
  }

  lemma MovedOthers(rows: map<string, Row>, code: string, newCode: string, row: Row)
    requires code in rows && newCode !in rows
    ensures rows[newCode := row] - {code} == (rows - {code})[newCode := row]
    ensures rows[newCode := row] - {code, newCode} == rows - {code, newCode}
    ensures rows[newCode := row] - {code} - {code, newCode} == rows - {code, newCode}
  {
  }

  /**
   After any run of harmless operations, a successful `update` renames: the row moves to the new code with its URL,
   owner and creation time and with the chosen or the old expiry.  Whatever happens, no third
   row changes, an existing row is never written over, and a row that appears is the one that
   was to be moved.  A conflict changes no row, and a missing source at most removes the
   expired source row.
   */
  lemma UpdateRenames(now: int, ttl: nat, ops: seq<Op>, code: string, newCode: string,
                      e: Option<Expiration>, f: UpdateFate)
    requires GoodRun(Empty(now, ttl), ops)
    ensures var s := Exec(Empty(now, ttl), ops);
            Renames(s, code, newCode, e, Update(s, code, newCode, e, f).0.rows, Update(s, code, newCode, e, f).1)
  {
    hide Exec, GoodRun, Coherent, Update, Renames;
    RunCoherent(now, ttl, ops);
    UpdateRenamesFrom(Exec(Empty(now, ttl), ops), code, newCode, e, f);
  }

  /**
   In any store, a successful `update` renames the row of the code if and only if there is one
   and the row it started from, cached perhaps, would be renamed to the same.  If there is none,
   as after a removal that overlapped a read, the cached record comes back to life under the
   new code; under its own code it does not.
   */
  lemma UpdateRenamesIff(s: Store, code: string, newCode: string, e: Option<Expiration>, f: UpdateFate)
    requires Update(s, code, newCode, e, f).1.Ok?
    ensures Source(s, code, f.readOk).Some? && newCode !in s.rows
    ensures var rows, moved := Update(s, code, newCode, e, f).0.rows, Renamed(s, Source(s, code, f.readOk).value, e);
            && (code in s.rows ==>
                  (rows == (s.rows - {code})[newCode := Renamed(s, s.rows[code], e)]
                   <==> moved == Renamed(s, s.rows[code], e)))
            && (code !in s.rows ==> rows == if code == newCode then s.rows else s.rows[newCode := moved])
  {
    hide NewExpiry, ListKeys, Find, Source;
    FoundSource(s, code, f.readOk, f.expiredFate);
    var (s1, found) := Find(s, code, f.readOk, f.expiredFate);
    assert found.Ok? && found.value.One?;
    var moved := Renamed(s, found.value.record.row, e);
    var s2 := WriteRecord(s1, newCode, moved, f.landed);
    var rows := Update(s, code, newCode, e, f).0.rows;
    assert rows == Remove(s2, code, f.removeFate).0.rows;
    hide Update, Renamed, WriteRecord, Remove;
    if code in s.rows {
      assert rows == (s.rows - {code})[newCode := moved];
      assert rows[newCode] == moved;
    } else {
      assert rows == if code == newCode then s.rows else s.rows[newCode := moved];
    }
  }

  lemma FoundSource(s: Store, code: string, readOk: bool, fate: Fate)
    ensures var (s1, found) := Find(s, code, readOk, fate);
            && (found.Ok? && found.value.One? <==> Source(s, code, readOk).Some?)
            && (Source(s, code, readOk).Some? ==>
                  && found.value.record.row == Source(s, code, readOk).value
                  && s1.rows == s.rows && s1.counters == s.counters && s1.now == s.now)
  {
    hide Remove;
  }

  /** What a removal answers, and what becomes of the row and the counter. */
  lemma RemoveAnswers(s: Store, code: string, fate: Fate)
    ensures var (s', ok) := Remove(s, code, fate);
            && (ok <==> fate.selectOk && (code in s.rows ==> fate.rowOk && fate.counterOk))
            && (ok ==> s'.rows == s.rows - {code})
            && (ok && code in s.rows ==> s'.counters == s.counters - {code} && code !in s'.cache)
            && (fate.selectOk && code in s.rows && !fate.rowOk ==> s'.rows == s.rows)
            && (!fate.selectOk || code !in s.rows ==> s' == s)
  {
  }

  /** Why `findByShortCode` fails: a code without a row, an expired row, or a refused call. */
  lemma FindFailsIff(s: Store, code: string, readOk: bool, fate: Fate)
    ensures var (s', r) := Find(s, code, readOk, fate);
            var past := code in s.rows && s.rows[code].expiresAt.Some? && s.rows[code].expiresAt.value < s.now;
            && (r == Err(NotFound) <==>
                  !Live(s, code) && readOk && (code !in s.rows || (past && fate == Fate(true, true, true))))
            && (r == Err(ServerError) <==>
                  !Live(s, code) && (!readOk || (past && fate != Fate(true, true, true))))
            && (r.Err? ==> r.error == NotFound || r.error == ServerError)
            && (past && r == Err(NotFound) ==> code !in s'.rows)
  {
    hide ListKeys;
  }

  /** The lists are refused exactly when they are not cached and a read is refused. */
  lemma ListsFailIff(s: Store, u: string, readOk: bool)
    ensures FindAll(s, readOk).1.Err? <==> !Live(s, ALL) && !readOk
    ensures FindByUser(s, u, readOk).1.Err? <==> !Live(s, UserKey(u)) && !readOk
    ensures FindAll(s, readOk).1 != Err(NotFound) && FindByUser(s, u, readOk).1 != Err(NotFound)
  {
  }

  /**
   `incrementClicks` counts one click, in the counter and in the record if that is cached, and
   restarts the time to live; a refused call changes nothing.
   */
  lemma IncrementCounts(s: Store, code: string, ok: bool)
    ensures var s' := IncrementClicks(s, code, ok);
            && (!ok ==> s' == s)
            && (ok ==> At(s'.counters, code) == At(s.counters, code) + 1 && s'.rows == s.rows)
            && (forall c :: c != code ==> At(s'.counters, c) == At(s.counters, c))
            && (forall key :: key != code ==> (key in s'.cache <==> key in s.cache))
            && (forall key :: key != code && key in s.cache ==> s'.cache[key] == s.cache[key])
            && (ok && Live(s, code) && s.cache[code].value.One? ==>
                  && code in s'.cache && s'.cache[code].until == s.now + s.ttl && s'.cache[code].value.One?
                  && s'.cache[code].value.record.clicks == s.cache[code].value.record.clicks + 1
                  && s'.cache[code].value.record.row == s.cache[code].value.record.row)
            && (ok && Live(s, code) && s.cache[code].value.Many? ==>
                  code in s'.cache && s'.cache[code] == Entry(s.cache[code].value, s.now + s.ttl))
            && (!Live(s, code) ==> s'.cache == s.cache)
  {
  }

  /** The removal at the end of an update goes through. */
  predicate OldGoes(s: Store, code: string, newCode: string, fate: Fate) {
    fate.selectOk && (code in s.rows || code == newCode ==> fate.rowOk && fate.counterOk)
  }

  /**
   In any store, the exact conditions of each answer of `update`, and the expiry that the new
   row gets: the old one if none was chosen, none, or one, seven or thirty days of 86400000
   milliseconds from now.
   */
  lemma UpdateAnswers(s: Store, code: string, newCode: string, e: Option<Expiration>, f: UpdateFate)
    ensures var (s', r) := Update(s, code, newCode, e, f);
            var source := Source(s, code, f.readOk);
            && (r == Err(NotFound) <==> Find(s, code, f.readOk, f.expiredFate).1 == Err(NotFound))
            && (r == Err(Conflict) <==> source.Some? && f.safe && f.checkOk && newCode in s.rows)
            && (r.Ok? <==>
                  && source.Some? && f.safe && f.checkOk && newCode !in s.rows
                  && f.landed.row && f.landed.counter && OldGoes(s, code, newCode, f.removeFate))
            && (r.Err? ==> r.error == NotFound || r.error == Conflict || r.error == ServerError)
            && (r.Ok? && newCode in s'.rows ==>
                  var row := s'.rows[newCode];
                  && row.originalUrl == source.value.originalUrl && row.userId == source.value.userId
                  && row.createdAt == source.value.createdAt
                  && (e == None ==> row.expiresAt == source.value.expiresAt)
                  && (e == Some(Forever) ==> row.expiresAt == None)
                  && (e == Some(OneDay) ==> row.expiresAt == Some(s.now + 86400000))
                  && (e == Some(SevenDays) ==> row.expiresAt == Some(s.now + 604800000))
                  && (e == Some(ThirtyDays) ==> row.expiresAt == Some(s.now + 2592000000)))
            && (r.Ok? && code in s.rows ==> newCode in s'.rows)
  {
    hide Find, Source, ListKeys, NewExpiry, Remove;
    FoundSource(s, code, f.readOk, f.expiredFate);
    FindFailsIff(s, code, f.readOk, f.expiredFate);
    var (s1, found) := Find(s, code, f.readOk, f.expiredFate);
    if found.Ok? && found.value.One? {
      var source := found.value.record.row;
      ExpiryTold(s.now, source, e);
      var s2 := WriteRecord(s1, newCode, source.(expiresAt := NewExpiry(s1.now, source, e)), f.landed);
      RemoveAnswers(s2, code, f.removeFate);
    }
  }

  lemma ExpiryTold(now: int, source: Row, e: Option<Expiration>)
    ensures e == None ==> NewExpiry(now, source, e) == source.expiresAt
    ensures e == Some(Forever) ==> NewExpiry(now, source, e) == None
    ensures e == Some(OneDay) ==> NewExpiry(now, source, e) == Some(now + 86400000)
    ensures e == Some(SevenDays) ==> NewExpiry(now, source, e) == Some(now + 604800000)
    ensures e == Some(ThirtyDays) ==> NewExpiry(now, source, e) == Some(now + 2592000000)
  {
  }

  /** What the store holds for the two codes once an update has succeeded. */
  lemma UpdatedStore(s: Store, code: string, newCode: string, e: Option<Expiration>, f: UpdateFate)
    requires Coherent(s) && CodeOk(newCode) && Update(s, code, newCode, e, f).1.Ok?
    ensures var (s', r) := Update(s, code, newCode, e, f);
            && code in s.rows && code != newCode && s'.now == s.now
            && code !in s'.rows && code !in s'.cache && code !in s'.counters
            && newCode in s'.rows && newCode in s'.counters && !Live(s', newCode) && At(s'.counters, newCode) == At(s.counters, newCode)
            && s'.rows[newCode] == Renamed(s, s.rows[code], e)
            && r.value == Record(newCode, s.rows[code], Figure(s, code))
  {
    SourceFound(s, code, f.readOk, f.expiredFate);
    FreshOrStored(s, newCode);
    var (s1, found) := Find(s, code, f.readOk, f.expiredFate);
    assert found.Ok? && found.value.One? && newCode !in s1.rows;
    assert found.value.record.clicks == Figure(s, code);
    hide Coherent, CodeOk, Expired, ExpirationDate, Find, IsUserKey, Source, Figure;
    var s2 := WriteRecord(s1, newCode, Renamed(s, s.rows[code], e), f.landed);
    assert code in s2.rows && s2.rows[newCode] == Renamed(s, s.rows[code], e);
  }

  lemma FreshOrStored(s: Store, code: string)
    requires Coherent(s) && CodeOk(code)
    ensures Live(s, code) ==> code in s.rows
  {
  }

  /**
   After a run of harmless operations and a successful `update` the old code is gone, and the response is what a reader of the
   new code gets exactly when the kept or chosen expiry is the old one and not past, and the
   figure the old code was served with is what the new code's own counter says: clicks are not
   carried over.
   */
  lemma UpdateAnswersTrulyIff(now: int, ttl: nat, ops: seq<Op>, code: string, newCode: string,
                              e: Option<Expiration>, f: UpdateFate, fate: Fate)
    requires GoodRun(Empty(now, ttl), ops) && CodeOk(newCode)
    requires Update(Exec(Empty(now, ttl), ops), code, newCode, e, f).1.Ok?
    ensures var s := Exec(Empty(now, ttl), ops);
            var (s', r) := Update(s, code, newCode, e, f);
            && Find(s', code, true, fate).1 == Err(NotFound)
            && code in s.rows
            && (Find(s', newCode, true, fate).1 == Ok(One(r.value)) <==>
                  && NewExpiry(s.now, s.rows[code], e) == s.rows[code].expiresAt
                  && !Expired(s.rows[code].expiresAt, s.now)
                  && At(s.counters, newCode) == Figure(s, code))
  {
    hide Exec, GoodRun, Coherent, Update, Figure, NewExpiry;
    RunCoherent(now, ttl, ops);
    UpdatedStore(Exec(Empty(now, ttl), ops), code, newCode, e, f);
  }
}
