/**
 `UrlsService`: the code pool and the two stores it works on, changed in place call by call.
 The answers of the database are parameters.  Each method is proved to take the store where
 the operation of `UrlStore` with its name takes it.
 */
module UrlsService {
  import opened Common
  import S = UrlStore

  const ALL_KEY := S.ALL

  function SetOf(keys: seq<string>): set<string> {
    set k | k in keys
  }

  class UrlsService {
    var codePool: seq<string>
    var rows: map<string, S.Row>
    var counters: map<string, nat>
    var cache: map<string, S.Entry>
    var now: int
    const ttl: nat

    constructor (now: int, ttl: nat)
      ensures Store() == S.Empty(now, ttl) && codePool == []
    {
      codePool, rows, counters, cache := [], map[], map[], map[];
      this.now, this.ttl := now, ttl;
    }

    function Store(): S.Store
      reads this
    {
      S.Store(rows, counters, cache, now, ttl)
    }

    // ---- Redis ----

    method GetFromCache(key: string) returns (value: Option<S.Cached>)
      ensures value == S.FromCache(Store(), key)
    {
      if key in cache && now < cache[key].until {
        return Some(cache[key].value);
      }
      return None;
    }

    method SetCache(key: string, value: S.Cached)
      modifies this`cache
      ensures Store() == S.SetCache(old(Store()), key, value)
    {
      cache := cache[key := S.Entry(value, now + ttl)];
    }

    method InvalidateMultipleKeys(keys: seq<string>)
      modifies this`cache
      ensures Store() == S.Forget(old(Store()), SetOf(keys))
    {
      for i := 0 to |keys|
        invariant cache == old(cache) - SetOf(keys[..i])
      {
        assert keys[..i + 1] == keys[..i] + [keys[i]];
        cache := cache - {keys[i]};
      }
      assert keys[..|keys|] == keys;
    }

    /** Drops the list of all and, if there is one, the list of the user. */
    method InvalidateLists(user: Option<string>)
      modifies this`cache
      ensures Store() == S.Forget(old(Store()), S.ListKeys(user))
    {
      var keys := [ALL_KEY];
      if user.Some? {
        keys := keys + [S.UserKey(user.value)];
      }
      assert SetOf(keys) == S.ListKeys(user);
      InvalidateMultipleKeys(keys);
    }

    // ---- the code pool ----

    /** Refills an empty pool with a generated batch, then takes the last code. */
    method GetNextCode(batch: seq<string>) returns (code: string)
      requires batch != []
      modifies this`codePool
      ensures old(codePool) != [] ==> old(codePool) == codePool + [code]
      ensures old(codePool) == [] ==> batch == codePool + [code]
    {
      if |codePool| == 0 {
        codePool := codePool + batch;
      }
      code := codePool[|codePool| - 1];
      codePool := codePool[..|codePool| - 1];
    }

    // ---- operations ----

    /** The two writes go out together, and each may be refused; the caller hears of any refusal. */
    method CreateUrlRecord(code: string, row: S.Row, landed: S.Landed) returns (ok: bool)
      modifies this`rows, this`counters
      ensures Store() == S.WriteRecord(old(Store()), code, row, landed)
      ensures ok <==> S.Accepted(landed)
    {
      if landed.row {
        rows := rows[code := row];
      }
      if landed.counter {
        counters := counters[code := (if code in counters then counters[code] else 0) + 0];
      }
      return landed.row && landed.counter;
    }

    /** The passes of the loop take their codes from the pool, which each empty pass refills. */
    method Create(url: string, user: Option<string>, expiration: S.Expiration, safe: bool,
                  batches: seq<seq<string>>, landings: seq<S.Landed>)
      returns (result: S.Result<S.Record>)
      requires |batches| == |landings| == S.RETRY_ATTEMPTS
      requires forall i :: 0 <= i < |batches| ==> batches[i] != []
      modifies this
      ensures (Store(), result)
           == S.Create(old(Store()), url, user, expiration, safe, Passes(old(codePool), batches, landings))
      ensures forall c :: c in codePool ==> c in old(codePool) || exists i :: 0 <= i < |batches| && c in batches[i]
    {
      if !safe {
        return S.Err(S.Unsafe);
      }
      var createdAt := now;
      var expiresAt := S.ExpirationDate(now, expiration);
      var row := S.Row(url, user, createdAt, expiresAt);
      ghost var passes := Passes(codePool, batches, landings);
      assert S.Attempts(passes) == passes;
      for attempt := 0 to S.RETRY_ATTEMPTS
        invariant now == old(now)
        invariant S.CreateLoop(Store(), row, Passes(codePool, batches[attempt..], landings[attempt..]))
               == S.CreateLoop(old(Store()), row, passes)
        invariant forall c :: c in codePool ==> c in old(codePool) || exists i :: 0 <= i < |batches| && c in batches[i]
      {
        ghost var pool := codePool;
        var code := GetNextCode(batches[attempt]);
        PassesNext(pool, codePool, code, batches, landings, attempt);
        assert codePool <= if pool == [] then batches[attempt] else pool;
        var ok := CreateUrlRecord(code, row, landings[attempt]);
        if ok {
          InvalidateLists(user);
          return S.Ok(S.Record(code, row, 0));
        }
      }
      return S.Err(S.ServerError);
    }

    method Remove(code: string, fate: S.Fate) returns (ok: bool)
      modifies this`rows, this`counters, this`cache
      ensures (Store(), ok) == S.Remove(old(Store()), code, fate)
    {
      if !fate.selectOk {
        return false;
      }
      if code !in rows {
        return true;
      }
      var user := rows[code].userId;
      if fate.rowOk {
        rows := rows - {code};
      }
      if fate.counterOk {
        counters := counters - {code};
      }
      cache := cache - {code};
      cache := cache - {ALL_KEY};
      if user.Some? {
        cache := cache - {S.UserKey(user.value)};
      }
      assert cache == old(cache) - ({code} + S.ListKeys(user));
      return fate.rowOk && fate.counterOk;
    }

    method FindByShortCode(code: string, readOk: bool, fate: S.Fate) returns (result: S.Result<S.Cached>)
      modifies this`rows, this`counters, this`cache
      ensures (Store(), result) == S.Find(old(Store()), code, readOk, fate)
    {
      var cached := GetFromCache(code);
      if cached.Some? {
        return S.Ok(cached.value);
      }
      if !readOk {
        return S.Err(S.ServerError);
      }
      if code !in rows {
        return S.Err(S.NotFound);
      }
      var row := rows[code];
      if S.Expired(row.expiresAt, now) {
        var removed := Remove(code, fate);
        return S.Err(if removed then S.NotFound else S.ServerError);
      }
      var clicks := if code in counters then counters[code] else 0;
      var data := S.One(S.Record(code, row, clicks));
      SetCache(code, data);
      return S.Ok(data);
    }

    method FindAll(readOk: bool) returns (result: S.Result<S.Cached>)
      modifies this`cache
      ensures (Store(), result) == S.FindAll(old(Store()), readOk)
    {
      var cached := GetFromCache(ALL_KEY);
      if cached.Some? {
        return S.Ok(cached.value);
      }
      if !readOk {
        return S.Err(S.ServerError);
      }
      var urls := S.Many(map c | c in rows :: S.Record(c, rows[c], if c in counters then counters[c] else 0));
      assert urls == S.Many(S.RecordsOf(rows, counters));
      SetCache(ALL_KEY, urls);
      return S.Ok(urls);
    }

    method FindByUserId(user: string, readOk: bool) returns (result: S.Result<S.Cached>)
      modifies this`cache
      ensures (Store(), result) == S.FindByUser(old(Store()), user, readOk)
    {
      var key := S.UserKey(user);
      var cached := GetFromCache(key);
      if cached.Some? {
        return S.Ok(cached.value);
      }
      if !readOk {
        return S.Err(S.ServerError);
      }
      var urls := S.Many(map c | c in rows && rows[c].userId == Some(user) ::
                           S.Record(c, rows[c], if c in counters then counters[c] else 0));
      assert urls == S.Many(S.RecordsOf(S.Owned(rows, user), counters));
      SetCache(key, urls);
      return S.Ok(urls);
    }

    method Update(code: string, newCode: string, expiration: Option<S.Expiration>, f: S.UpdateFate)
      returns (result: S.Result<S.Record>)
      modifies this`rows, this`counters, this`cache
      ensures (Store(), result) == S.Update(old(Store()), code, newCode, expiration, f)
    {
      var found := FindByShortCode(code, f.readOk, f.expiredFate);
      if found.Err? {
        return S.Err(found.error);
      }
      if found.value.Many? || !f.safe || !f.checkOk {
        return S.Err(S.ServerError);
      }
      if newCode in rows {
        return S.Err(S.Conflict);
      }
      var oldUrl := found.value.record;
      var expiresAt := if expiration.Some? then S.ExpirationDate(now, expiration.value) else oldUrl.row.expiresAt;
      var ok := CreateUrlRecord(newCode, oldUrl.row.(expiresAt := expiresAt), f.landed);
      if !ok {
        return S.Err(S.ServerError);
      }
      var removed := Remove(code, f.removeFate);
      InvalidateLists(oldUrl.row.userId);
      if !removed {
        return S.Err(S.ServerError);
      }
      return S.Ok(S.Record(newCode, oldUrl.row, oldUrl.clicks));
    }

    method IncrementClicks(code: string, ok: bool)
      modifies this`counters, this`cache
      ensures Store() == S.IncrementClicks(old(Store()), code, ok)
    {
      if !ok {
        return;
      }
      counters := counters[code := (if code in counters then counters[code] else 0) + 1];
      var cached := GetFromCache(code);
      match cached
      case Some(One(r)) => SetCache(code, S.One(r.(clicks := r.clicks + 1)));
      case Some(Many(m)) => SetCache(code, S.Many(m));
      case None =>
    }
  }

  /** The passes that a pool and its refills give, one code for each answer of the database. */
  ghost function Passes(pool: seq<string>, batches: seq<seq<string>>, landings: seq<S.Landed>): (passes: seq<S.Pass>)
    requires |batches| == |landings| && forall i :: 0 <= i < |batches| ==> batches[i] != []
    ensures |passes| == |batches|
    ensures forall i :: 0 <= i < |passes| ==> passes[i].landed == landings[i]
    decreases |batches|
  {
    if batches == [] then []
    else
      var full := if pool == [] then batches[0] else pool;
      [S.Pass(full[|full| - 1], landings[0])] + Passes(full[..|full| - 1], batches[1..], landings[1..])
  }

  lemma PassesNext(pool: seq<string>, rest: seq<string>, code: string, batches: seq<seq<string>>,
                   landings: seq<S.Landed>, i: nat)
    requires i < |batches| == |landings| && forall j :: 0 <= j < |batches| ==> batches[j] != []
    requires pool != [] ==> pool == rest + [code]
    requires pool == [] ==> batches[i] == rest + [code]
    ensures Passes(pool, batches[i..], landings[i..])
         == [S.Pass(code, landings[i])] + Passes(rest, batches[i + 1..], landings[i + 1..])
  {
    assert batches[i..][1..] == batches[i + 1..] && landings[i..][1..] == landings[i + 1..];
    var full := if pool == [] then batches[i] else pool;
    assert full == rest + [code] && full[..|full| - 1] == rest;
  }
}
