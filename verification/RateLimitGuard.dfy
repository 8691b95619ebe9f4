/** `RateLimitGuard`: the Redis counters it changes in place, keyed by address and endpoint. */
module RateLimitGuard {
  import opened Common
  import opened RateLimit

  class RateLimitGuard {
    var counters: map<string, Counter>

    constructor ()
      ensures counters == map[]
    {
      counters := map[];
    }

    function CounterAt(key: string): Option<Counter>
      reads this
    {
      if key in counters then Some(counters[key]) else None
    }

    /** `canActivate` up to its `incr`: `first` says that an `expire` must follow. */
    method CountRequest(key: string, limit: nat, now: int, ghost window: nat, ghost s: State)
      returns (current: nat, first: bool)
      requires s.counter == CounterAt(key) && s.now == now
      modifies this
      ensures var s' := Apply(window, s, Request(limit));
              s'.counter == CounterAt(key) && s'.hits == s.hits + [Hit(now, current, limit)]
      ensures first <==> current == 1
      ensures counters.Keys == old(counters).Keys + {key}
      ensures forall k :: k in old(counters) && k != key ==> counters[k] == old(counters)[k]
    {
      var c := if key in counters then Some(counters[key]) else None;
      if c.Some? && (c.value.until.None? || now < c.value.until.value) {
        current := c.value.count + 1;
        counters := counters[key := c.value.(count := current)];
      } else {
        current := 1;
        counters := counters[key := Counter(1, None)];
      }
      first := current == 1;
    }

    method SetExpiry(key: string, window: nat, now: int, ghost s: State)
      requires s.counter == CounterAt(key) && s.now == now
      requires key in counters && counters[key].until.None?
      modifies this
      ensures Apply(window, s, ExpireRuns).counter == CounterAt(key)
      ensures forall k :: k in old(counters) && k != key ==> k in counters && counters[k] == old(counters)[k]
    {
      counters := counters[key := counters[key].(until := Some(now + window))];
    }

    /**
     `canActivate` when its two Redis calls follow each other.  After any run of the key, the
     request is let through exactly when fewer requests than the limit came since the window
     was opened; requests that come in between the two calls do not change the verdict.
     */
    method CanActivate(key: string, limit: nat, window: nat, now: int,
                       ghost start: int, ghost steps: seq<Step>) returns (allowed: bool)
      requires var s := Exec(window, Init(start), steps); s.counter == CounterAt(key) && s.now == now
      modifies this
      ensures var s := Exec(window, Init(start), steps);
              allowed <==> (if Live(s.counter, now) then SinceOpened(s.hits) else 0) < limit
      ensures var s' := Exec(window, Init(start), steps + if Live(Exec(window, Init(start), steps).counter, now)
                                                          then [Request(limit)] else [Request(limit), ExpireRuns]);
              s'.counter == CounterAt(key) && s'.now == now
      ensures forall k :: k in old(counters) && k != key ==> k in counters && counters[k] == old(counters)[k]
    {
      ghost var s := Exec(window, Init(start), steps);
      AdmittedIff(window, start, steps, limit);
      CountIsSinceOpened(window, start, steps);
      ExecOne(window, Init(start), steps, Request(limit));
      var current, first := CountRequest(key, limit, now, window, s);
      if first {
        ExecOne(window, Init(start), steps + [Request(limit)], ExpireRuns);
        assert steps + [Request(limit)] + [ExpireRuns] == steps + [Request(limit), ExpireRuns];
        SetExpiry(key, window, now, Apply(window, s, Request(limit)));
      }
      if current > limit {
        return false;
      }
      return true;
    }
  }
}
