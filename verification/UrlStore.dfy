/**
 The URL store as seen by `UrlsService`: the two database tables, the Redis cache with its
 expiry times, and the clock.  Each operation runs to its end; the database answers each of
 its calls, and a call it refuses has no effect.
 */
module UrlStore {
  import opened Common

  datatype Row = Row(originalUrl: string, userId: Option<string>, createdAt: int, expiresAt: Option<int>)

  /** A row as it is served, with its click figure. */
  datatype Record = Record(code: string, row: Row, clicks: nat)

  /** What is cached under a key: one record, or the list of all records or of one user's. */
  datatype Cached = One(record: Record) | Many(records: map<string, Record>)

  datatype Entry = Entry(value: Cached, until: int)

  datatype Store = Store(
    rows: map<string, Row>,
    counters: map<string, nat>,
    cache: map<string, Entry>,
    now: int,
    ttl: nat)

  datatype Error = NotFound | Conflict | Unsafe | ServerError

  datatype Result<+T> = Ok(value: T) | Err(error: Error)

  datatype Expiration = Forever | OneDay | SevenDays | ThirtyDays

  const RETRY_ATTEMPTS: nat := 3

  function ExpirationDate(now: int, e: Expiration): Option<int> {
    match e
    case Forever => None
    case OneDay => Some(now + DAY)
    case SevenDays => Some(now + 7 * DAY)
    case ThirtyDays => Some(now + 30 * DAY)
  }

  predicate Expired(expiresAt: Option<int>, now: int) {
    expiresAt.Some? && expiresAt.value < now
  }

  // ---- cache keys ----

  const ALL := "all"
  const USER_PREFIX := "user:"

  function UserKey(u: string): string { USER_PREFIX + u }

  predicate IsUserKey(key: string) { USER_PREFIX <= key }

  /** A short code that no list is cached under. */
  predicate CodeOk(code: string) {
    code != ALL && !IsUserKey(code)
  }

  function ListKeys(user: Option<string>): set<string> {
    {ALL} + if user.Some? then {UserKey(user.value)} else {}
  }

  /** An entry that has run out is as good as none. */
  predicate Live(s: Store, key: string) {
    key in s.cache && s.now < s.cache[key].until
  }

  function FromCache(s: Store, key: string): Option<Cached> {
    if Live(s, key) then Some(s.cache[key].value) else None
  }

  function SetCache(s: Store, key: string, value: Cached): Store {
    s.(cache := s.cache[key := Entry(value, s.now + s.ttl)])
  }

  function Forget(s: Store, keys: set<string>): Store {
    s.(cache := s.cache - keys)
  }

  // ---- the tables ----

  function Owned(rows: map<string, Row>, u: string): map<string, Row> {
    map c | c in rows && rows[c].userId == Some(u) :: rows[c]
  }

  function RecordsOf(rows: map<string, Row>, counters: map<string, nat>): map<string, Record> {
    map c | c in rows :: Record(c, rows[c], At(counters, c))
  }

  /** Which of the two writes of a record land; it is accepted when both do. */
  datatype Landed = Landed(row: bool, counter: bool)

  predicate Accepted(l: Landed) { l.row && l.counter }

  /** INSERT writes over an existing row; the counter row comes to exist. */
  function WriteRecord(s: Store, code: string, row: Row, l: Landed): Store {
    s.(rows := if l.row then s.rows[code := row] else s.rows,
       counters := if l.counter then s.counters[code := At(s.counters, code)] else s.counters)
  }

  // ---- operations ----

  /** Which of the three database calls of `remove` go through. */
  datatype Fate = Fate(selectOk: bool, rowOk: bool, counterOk: bool)

  function Remove(s: Store, code: string, fate: Fate): (Store, bool) {
    if !fate.selectOk then (s, false)
    else if code !in s.rows then (s, true)
    else
      (Forget(s, {code} + ListKeys(s.rows[code].userId))
         .(rows := if fate.rowOk then s.rows - {code} else s.rows,
           counters := if fate.counterOk then s.counters - {code} else s.counters),
       fate.rowOk && fate.counterOk)
  }

  function Find(s: Store, code: string, readOk: bool, fate: Fate): (Store, Result<Cached>) {
    var cached := FromCache(s, code);
    if cached.Some? then (s, Ok(cached.value))
    else if !readOk then (s, Err(ServerError))
    else if code !in s.rows then (s, Err(NotFound))
    else if Expired(s.rows[code].expiresAt, s.now) then
      var (s', ok) := Remove(s, code, fate);
      (s', Err(if ok then NotFound else ServerError))
    else
      var value := One(Record(code, s.rows[code], At(s.counters, code)));
      (SetCache(s, code, value), Ok(value))
  }

  function FindAll(s: Store, readOk: bool): (Store, Result<Cached>) {
    var cached := FromCache(s, ALL);
    if cached.Some? then (s, Ok(cached.value))
    else if !readOk then (s, Err(ServerError))
    else
      var value := Many(RecordsOf(s.rows, s.counters));
      (SetCache(s, ALL, value), Ok(value))
  }

  function FindByUser(s: Store, u: string, readOk: bool): (Store, Result<Cached>) {
    var cached := FromCache(s, UserKey(u));
    if cached.Some? then (s, Ok(cached.value))
    else if !readOk then (s, Err(ServerError))
    else
      var value := Many(RecordsOf(Owned(s.rows, u), s.counters));
      (SetCache(s, UserKey(u), value), Ok(value))
  }

  /** A pass of the loop of `create`: a code from the pool, and what lands of its record. */
  datatype Pass = Pass(code: string, landed: Landed)

  function CreateLoop(s: Store, row: Row, tries: seq<Pass>): (Store, Result<Record>)
    decreases |tries|
  {
    if tries == [] then (s, Err(ServerError))
    else
      var (code, landed) := (tries[0].code, tries[0].landed);
      var s' := WriteRecord(s, code, row, landed);
      if Accepted(landed) then (Forget(s', ListKeys(row.userId)), Ok(Record(code, row, 0)))
      else CreateLoop(s', row, tries[1..])
  }

  /** The passes that `create` makes at most. */
  function Attempts(tries: seq<Pass>): seq<Pass> {
    tries[..Min(RETRY_ATTEMPTS, |tries|)]
  }

  function NewRow(s: Store, url: string, user: Option<string>, e: Expiration): Row {
    Row(url, user, s.now, ExpirationDate(s.now, e))
  }

  function Create(s: Store, url: string, user: Option<string>, e: Expiration, safe: bool,
                  tries: seq<Pass>): (Store, Result<Record>) {
    if !safe then (s, Err(Unsafe))
    else CreateLoop(s, NewRow(s, url, user, e), Attempts(tries))
  }

  /** The answers `update` gets on its way. */
  datatype UpdateFate = UpdateFate(readOk: bool, expiredFate: Fate, safe: bool, checkOk: bool, landed: Landed, removeFate: Fate)

  /** The expiry a row gets from `update`: the one chosen, or the one it had. */
  function NewExpiry(now: int, source: Row, e: Option<Expiration>): Option<int> {
    if e.Some? then ExpirationDate(now, e.value) else source.expiresAt
  }

  /** The response carries the expiry the old row had, not the one chosen. */
  function Update(s: Store, code: string, newCode: string, e: Option<Expiration>, f: UpdateFate): (Store, Result<Record>) {
    var (s1, found) := Find(s, code, f.readOk, f.expiredFate);
    if found.Err? then (s1, Err(found.error))
    else if found.value.Many? || !f.safe || !f.checkOk then (s1, Err(ServerError))
    else if newCode in s1.rows then (s1, Err(Conflict))
    else
      var old_ := found.value.record;
      var s2 := WriteRecord(s1, newCode, old_.row.(expiresAt := NewExpiry(s1.now, old_.row, e)), f.landed);
      if !Accepted(f.landed) then (s2, Err(ServerError))
      else
        var (s3, removed) := Remove(s2, code, f.removeFate);
        (Forget(s3, ListKeys(old_.row.userId)),
         if removed then Ok(Record(newCode, old_.row, old_.clicks)) else Err(ServerError))
  }

  function IncrementClicks(s: Store, code: string, ok: bool): Store {
    if !ok then s
    else
      var s' := s.(counters := s.counters[code := At(s.counters, code) + 1]);
      match FromCache(s', code)
      case None => s'
      case Some(One(r)) => SetCache(s', code, One(r.(clicks := r.clicks + 1)))
      case Some(Many(m)) => SetCache(s', code, Many(m))
  }

  // ---- runs ----

  datatype Op =
    | DoCreate(url: string, user: Option<string>, expiration: Expiration, safe: bool, tries: seq<Pass>)
    | DoFind(code: string, readOk: bool, fate: Fate)
    | DoFindAll(readOk: bool)
    | DoFindByUser(userId: string, readOk: bool)
    | DoRemove(code: string, fate: Fate)
    | DoUpdate(code: string, newCode: string, chosen: Option<Expiration>, updateFate: UpdateFate)
    | DoIncrement(code: string, ok: bool)
    | ClicksCounted(code: string, clicks: nat)
    | TimePasses(time: nat)
    | Evicted(key: string)

  function Apply(s: Store, op: Op): Store {
    match op
    case DoCreate(url, user, e, safe, tries) => Create(s, url, user, e, safe, tries).0
    case DoFind(code, readOk, fate) => Find(s, code, readOk, fate).0
    case DoFindAll(readOk) => FindAll(s, readOk).0
    case DoFindByUser(u, readOk) => FindByUser(s, u, readOk).0
    case DoRemove(code, fate) => Remove(s, code, fate).0
    case DoUpdate(code, newCode, e, f) => Update(s, code, newCode, e, f).0
    case DoIncrement(code, ok) => IncrementClicks(s, code, ok)
    case ClicksCounted(code, n) => s.(counters := s.counters[code := At(s.counters, code) + n])
    case TimePasses(time) => s.(now := s.now + time)
    case Evicted(key) => Forget(s, {key})
  }

  function Exec(s: Store, ops: seq<Op>): Store {
    if ops == [] then s else Apply(Exec(s, ops[..|ops| - 1]), ops[|ops| - 1])
  }

  function Empty(now: int, ttl: nat): Store {
    Store(map[], map[], map[], now, ttl)
  }
}
