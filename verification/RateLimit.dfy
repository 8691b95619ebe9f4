/**
 The fixed-window rate limiter on one Redis key.  A request is an atomic `incr`; the `expire`
 of the request that created the key comes later, after any other requests, or never.
 */
module RateLimit {
  import opened Common
  import opened Spacing

  /** A Redis counter; without an expiry it lives on. */
  datatype Counter = Counter(count: nat, until: Option<int>)

  /** One request: when it counted, the count it saw, and the limit of its handler. */
  datatype Hit = Hit(at: int, current: nat, limit: nat)

  datatype State = State(counter: Option<Counter>, now: int, starts: seq<int>, hits: seq<Hit>)

  datatype Step =
    | Request(limit: nat)
    | ExpireRuns
    | TimePasses(time: nat)

  function Init(now: int): State { State(None, now, [], []) }

  predicate Live(c: Option<Counter>, now: int) {
    c.Some? && (c.value.until.None? || now < c.value.until.value)
  }

  function Incr(c: Option<Counter>, now: int): Counter {
    if Live(c, now) then c.value.(count := c.value.count + 1) else Counter(1, None)
  }

  function Expire(c: Counter, now: int, window: nat): Counter {
    c.(until := Some(now + window))
  }

  function Apply(window: nat, s: State, step: Step): State {
    match step
    case Request(limit) =>
      var c := Incr(s.counter, s.now);
      State(Some(c), s.now, if c.count == 1 then s.starts + [s.now] else s.starts,
            s.hits + [Hit(s.now, c.count, limit)])
    case ExpireRuns =>
      if s.counter.Some? && s.counter.value.until.None? then
        s.(counter := Some(Expire(s.counter.value, s.now, window)))
      else s
    case TimePasses(time) => s.(now := s.now + time)
  }

  function Exec(window: nat, s: State, steps: seq<Step>): State {
    if steps == [] then s else Apply(window, Exec(window, s, steps[..|steps| - 1]), steps[|steps| - 1])
  }

  predicate Admitted(h: Hit) { h.current <= h.limit }

  /** The requests of the handlers with one limit that were let through in an interval. */
  function CountAdmitted(hits: seq<Hit>, limit: nat, lo: int, hi: int): nat {
    if hits == [] then 0
    else
      var h := hits[|hits| - 1];
      CountAdmitted(hits[..|hits| - 1], limit, lo, hi)
      + if h.limit == limit && Admitted(h) && lo <= h.at <= hi then 1 else 0
  }

  /** A new window begins only after the last one was open for its full length. */
  ghost predicate Windows(window: nat, s: State) {
    && Spaced(s.starts, window)
    && (s.counter.None? <==> s.starts == [])
    && (s.counter.Some? ==>
          && s.counter.value.count >= 1
          && s.starts[|s.starts| - 1] <= s.now
          && (s.counter.value.until.Some? ==>
                && s.starts[|s.starts| - 1] + window <= s.counter.value.until.value
                && forall i :: 0 <= i < |s.hits| ==> s.hits[i].at < s.counter.value.until.value))
    && (s.counter.None? ==> s.hits == [])
    && forall i :: 0 <= i < |s.hits| ==> s.hits[i].at <= s.now
  }

  /** What can have been admitted in an interval, given where the last window began. */
  ghost predicate Within(s: State, limit: nat, lo: int, hi: int) {
    var a, c := CountAdmitted(s.hits, limit, lo, hi), CountIn(s.starts, lo + 1, hi);
    if s.starts == [] || s.counter.None? then a == 0
    else
      var last, now := s.starts[|s.starts| - 1], Min(limit, s.counter.value.count);
      if last <= lo then c == 0 && a <= now
      else if last <= hi then a <= limit * c + now
      else a <= limit * (c + 1)
  }

  lemma {:induction false} NothingBefore(hits: seq<Hit>, limit: nat, lo: int, hi: int)
    requires forall i :: 0 <= i < |hits| ==> hits[i].at < lo
    ensures CountAdmitted(hits, limit, lo, hi) == 0
  {
    if hits != [] {
      NothingBefore(hits[..|hits| - 1], limit, lo, hi);
    }
  }

  lemma StepWindows(window: nat, s: State, step: Step)
    requires 0 < window && Windows(window, s)
    ensures Windows(window, Apply(window, s, step))
  {
  }

  lemma CountAppend(hits: seq<Hit>, h: Hit, limit: nat, lo: int, hi: int)
    ensures CountAdmitted(hits + [h], limit, lo, hi)
         == CountAdmitted(hits, limit, lo, hi) + if h.limit == limit && Admitted(h) && lo <= h.at <= hi then 1 else 0
  {
    assert (hits + [h])[..|hits|] == hits;
  }

  lemma {:induction false} NoStarts(starts: seq<int>, lo: int, hi: int)
    requires forall i :: 0 <= i < |starts| ==> starts[i] < lo
    ensures CountIn(starts, lo, hi) == 0
  {
    if starts != [] {
      NoStarts(starts[..|starts| - 1], lo, hi);
    }
  }

  lemma StartAppend(starts: seq<int>, at: int, lo: int, hi: int)
    ensures CountIn(starts + [at], lo, hi) == CountIn(starts, lo, hi) + if lo <= at <= hi then 1 else 0
  {
    assert (starts + [at])[..|starts|] == starts;
  }

  lemma Distribute(limit: nat, c: nat)
    ensures limit * (c + 1) == limit * c + limit
  {
  }

  /** Before the interval nothing has been counted yet. */
  lemma EarlyWindow(window: nat, s: State, limit: nat, lo: int, hi: int)
    requires Windows(window, s) && !Live(s.counter, s.now) && s.now <= lo
    ensures CountAdmitted(s.hits, limit, lo, hi) == 0 && CountIn(s.starts, lo + 1, hi) == 0
  {
    NothingBefore(s.hits, limit, lo, hi);
    forall i | 0 <= i < |s.starts|
      ensures s.starts[i] < lo + 1
    {
      if i < |s.starts| - 1 { SpacedBelow(s.starts, window, i); }
    }
    NoStarts(s.starts, lo + 1, hi);
  }

  lemma WithinAtMost(s: State, limit: nat, lo: int, hi: int)
    requires Within(s, limit, lo, hi)
    ensures CountAdmitted(s.hits, limit, lo, hi) <= limit * CountIn(s.starts, lo + 1, hi) + limit
  {
    Distribute(limit, CountIn(s.starts, lo + 1, hi));
    hide CountAdmitted, CountIn;
  }

  lemma NewWindowWithin(window: nat, s: State, limit: nat, of: nat, lo: int, hi: int)
    requires 0 < window && Windows(window, s) && Within(s, limit, lo, hi) && lo <= hi
    requires !Live(s.counter, s.now)
    ensures Within(Apply(window, s, Request(of)), limit, lo, hi)
  {
    hide CountAdmitted, CountIn, Windows;
    var c := CountIn(s.starts, lo + 1, hi);
    CountAppend(s.hits, Hit(s.now, 1, of), limit, lo, hi);
    StartAppend(s.starts, s.now, lo + 1, hi);
    Distribute(limit, c);
    WithinAtMost(s, limit, lo, hi);
    if s.now <= lo {
      EarlyWindow(window, s, limit, lo, hi);
    }
    hide Within;
    var s' := Apply(window, s, Request(of));
    assert s'.hits == s.hits + [Hit(s.now, 1, of)] && s'.starts == s.starts + [s.now];
    assert s'.counter == Some(Counter(1, None));
    NewWithin(s', s, limit, of, lo, hi);
  }

  lemma NewWithin(s': State, s: State, limit: nat, of: nat, lo: int, hi: int)
    requires s'.counter == Some(Counter(1, None)) && s'.starts == s.starts + [s.now] && lo <= hi
    requires var c := CountIn(s.starts, lo + 1, hi);
             && CountIn(s'.starts, lo + 1, hi) == c + (if lo + 1 <= s.now <= hi then 1 else 0)
             && CountAdmitted(s'.hits, limit, lo, hi)
                == CountAdmitted(s.hits, limit, lo, hi) + (if of == limit && 1 <= of && lo <= s.now <= hi then 1 else 0)
             && limit * (c + 1) == limit * c + limit
             && CountAdmitted(s.hits, limit, lo, hi) <= limit * c + limit
             && (s.now <= lo ==> c == 0 && CountAdmitted(s.hits, limit, lo, hi) == 0)
    ensures Within(s', limit, lo, hi)
  {
    hide CountAdmitted, CountIn;
    assert s'.starts[|s'.starts| - 1] == s.now;
  }

  lemma SameWindowWithin(window: nat, s: State, limit: nat, of: nat, lo: int, hi: int)
    requires Windows(window, s) && Within(s, limit, lo, hi) && Live(s.counter, s.now)
    ensures Within(Apply(window, s, Request(of)), limit, lo, hi)
  {
    CountAppend(s.hits, Hit(s.now, s.counter.value.count + 1, of), limit, lo, hi);
  }

  lemma StepWithin(window: nat, s: State, step: Step, limit: nat, lo: int, hi: int)
    requires 0 < window && Windows(window, s) && Within(s, limit, lo, hi) && lo <= hi
    ensures Within(Apply(window, s, step), limit, lo, hi)
  {
    if step.Request? {
      if Live(s.counter, s.now) {
        SameWindowWithin(window, s, limit, step.limit, lo, hi);
      } else {
        NewWindowWithin(window, s, limit, step.limit, lo, hi);
      }
    }
  }

  lemma {:induction false} RunWithin(window: nat, now: int, steps: seq<Step>, limit: nat, lo: int, hi: int)
    requires 0 < window && lo <= hi
    ensures Windows(window, Exec(window, Init(now), steps)) && Within(Exec(window, Init(now), steps), limit, lo, hi)
  {
    if steps != [] {
      var before, last := Exec(window, Init(now), steps[..|steps| - 1]), steps[|steps| - 1];
      RunWithin(window, now, steps[..|steps| - 1], limit, lo, hi);
      StepWindows(window, before, last);
      StepWithin(window, before, last, limit, lo, hi);
    }
  }

  lemma FewWindows(window: nat, c: nat, T: nat, n: nat)
    requires 0 < window && T <= n * window && (c == 0 || (c - 1) * window <= T - 1)
    ensures c <= n
  {
    if n < c {
      Times(window, n, c - 1);
    }
  }

  lemma Times(limit: nat, a: nat, b: nat)
    requires a <= b
    ensures limit * a <= limit * b
  {
  }

  /**
   In any interval of length T a handler with limit L lets through at most L requests for
   each window begun in it and L more: with `n` windows at least as long as the interval, no
   more than (n + 1) * L.  This holds whatever other handlers share the key, however `incr`
   and `expire` are interleaved, and even if an `expire` is delayed or never runs.
   */
  lemma SlidingBound(window: nat, now: int, steps: seq<Step>, limit: nat, from: int, T: nat, n: nat)
    requires 0 < window && T <= n * window
    ensures CountAdmitted(Exec(window, Init(now), steps).hits, limit, from, from + T) <= limit * (n + 1)
  {
    var s := Exec(window, Init(now), steps);
    RunWithin(window, now, steps, limit, from, from + T);
    var c := CountIn(s.starts, from + 1, from + T);
    SpacedCount(s.starts, window, from + 1, from + T);
    FewWindows(window, c, T, n);
    Distribute(limit, c);
    Times(limit, c + 1, n + 1);
  }

  /** In any interval as long as the window, at most twice the limit. */
  lemma TwiceTheLimit(window: nat, now: int, steps: seq<Step>, limit: nat, from: int)
    requires 0 < window
    ensures CountAdmitted(Exec(window, Init(now), steps).hits, limit, from, from + window) <= 2 * limit
  {
    SlidingBound(window, now, steps, limit, from, window, 1);
  }

  // ---- who is admitted, and how tight the bound is ----

  /** The requests that came after a window was opened, the one that opened it included. */
  function SinceOpened(hits: seq<Hit>): nat {
    if hits == [] then 0
    else if hits[|hits| - 1].current == 1 then 1
    else SinceOpened(hits[..|hits| - 1]) + 1
  }

  lemma {:induction false} CountIsSinceOpened(window: nat, now: int, steps: seq<Step>)
    ensures var s := Exec(window, Init(now), steps);
            if s.counter.None? then s.hits == []
            else 0 < s.counter.value.count == SinceOpened(s.hits)
  {
    if steps != [] {
      CountIsSinceOpened(window, now, steps[..|steps| - 1]);
    }
  }

  /**
   After any run, the next request is admitted if and only if fewer requests than its limit
   came since the window was opened, whether those were admitted or not; and the first request
   after the window has closed is admitted unless the limit is zero.
   */
  lemma AdmittedIff(window: nat, now: int, steps: seq<Step>, limit: nat)
    ensures var s := Exec(window, Init(now), steps);
            var s' := Apply(window, s, Request(limit));
            && |s'.hits| == |s.hits| + 1
            && (Admitted(s'.hits[|s.hits|]) <==>
                  (if Live(s.counter, s.now) then SinceOpened(s.hits) else 0) < limit)
  {
    CountIsSinceOpened(window, now, steps);
  }

  function Burst(limit: nat, n: nat): seq<Step> {
    seq(n, _ => Request(limit))
  }

  lemma {:induction false} BurstAdmitted(window: nat, s: State, limit: nat, n: nat, lo: int, hi: int)
    requires !Live(s.counter, s.now) && n <= limit && lo <= s.now <= hi
    ensures var s' := Exec(window, s, Burst(limit, n));
            && s'.now == s.now && s'.counter == (if n == 0 then s.counter else Some(Counter(n, None)))
            && CountAdmitted(s'.hits, limit, lo, hi) == CountAdmitted(s.hits, limit, lo, hi) + n
  {
    if n != 0 {
      BurstAdmitted(window, s, limit, n - 1, lo, hi);
      assert Burst(limit, n)[..n - 1] == Burst(limit, n - 1);
      CountAppend(Exec(window, s, Burst(limit, n - 1)).hits, Hit(s.now, n, limit), limit, lo, hi);
    }
  }

  lemma {:induction false} ExecConcat(window: nat, s: State, a: seq<Step>, b: seq<Step>)
    ensures Exec(window, s, a + b) == Exec(window, Exec(window, s, a), b)
  {
    hide Apply;
    if b == [] {
      assert a + b == a;
    } else {
      ExecConcat(window, s, a, b[..|b| - 1]);
      assert (a + b)[..|a + b| - 1] == a + b[..|b| - 1];
    }
  }

  lemma ExecOne(window: nat, s: State, steps: seq<Step>, step: Step)
    ensures Exec(window, s, steps + [step]) == Apply(window, Exec(window, s, steps), step)
  {
    assert (steps + [step])[..|steps|] == steps;
  }

  lemma ExecTwo(window: nat, s: State, a: Step, b: Step)
    ensures Exec(window, s, [a, b]) == Apply(window, Apply(window, s, a), b)
  {
    hide Apply;
    assert [a, b][..1] == [a] && [a][..0] == [];
    assert Exec(window, s, [a]) == Apply(window, s, a);
  }

  lemma PauseCloses(window: nat, s: State)
    requires s.counter.Some? ==> s.counter.value.until.None?
    ensures var s' := Exec(window, s, [ExpireRuns, TimePasses(window)]);
            && !Live(s'.counter, s'.now) && s'.hits == s.hits && s'.now == s.now + window
            && (s.counter.None? ==> s'.counter.None?)
  {
    ExecTwo(window, s, ExpireRuns, TimePasses(window));
  }

  lemma NothingAtFirst(now: int, limit: nat, lo: int, hi: int)
    ensures !Live(Init(now).counter, now) && CountAdmitted(Init(now).hits, limit, lo, hi) == 0
  {
  }

  /** `n` full windows one after the other, and the full burst of one more. */
  function Bursts(window: nat, limit: nat, n: nat): seq<Step> {
    if n == 0 then Burst(limit, limit)
    else Bursts(window, limit, n - 1) + [ExpireRuns, TimePasses(window)] + Burst(limit, limit)
  }

  lemma {:induction false} BurstsAdmitted(window: nat, now: int, limit: nat, n: nat, hi: int)
    requires now + n * window <= hi
    ensures var s := Exec(window, Init(now), Bursts(window, limit, n));
            && s.now == now + n * window
            && s.counter == (if limit == 0 then None else Some(Counter(limit, None)))
            && CountAdmitted(s.hits, limit, now, hi) == (n + 1) * limit
  {
    hide Exec, CountAdmitted, Live, Burst;
    NothingAtFirst(now, limit, now, hi);
    if n == 0 {
      BurstAdmitted(window, Init(now), limit, limit, now, hi);
    } else {
      var before, pause := Bursts(window, limit, n - 1), [ExpireRuns, TimePasses(window)];
      assert n * window == (n - 1) * window + window;
      BurstsAdmitted(window, now, limit, n - 1, hi);
      var s := Exec(window, Init(now), before);
      PauseCloses(window, s);
      var t := Exec(window, s, pause);
      assert 0 <= n * window;
      BurstAdmitted(window, t, limit, limit, now, hi);
      ExecConcat(window, Init(now), before, pause);
      ExecConcat(window, Init(now), before + pause, Burst(limit, limit));
      Distribute(limit, n);
    }
  }

  /** The bound is tight for every number of windows: so many requests are admitted in `n` window lengths. */
  lemma BoundReached(window: nat, now: int, limit: nat, n: nat) returns (steps: seq<Step>)
    ensures CountAdmitted(Exec(window, Init(now), steps).hits, limit, now, now + n * window) == limit * (n + 1)
  {
    steps := Bursts(window, limit, n);
    BurstsAdmitted(window, now, limit, n, now + n * window);
  }

  /** Without its `expire`, a key at its limit never admits again: the missing call is not harmless. */
  lemma {:induction false} NoExpireNoReset(window: nat, s: State, steps: seq<Step>)
    requires s.counter.Some? && s.counter.value.until.None?
    requires forall i :: 0 <= i < |steps| ==> !steps[i].ExpireRuns?
    ensures var s' := Exec(window, s, steps);
            && s'.counter.Some? && s'.counter.value.until.None? && s.counter.value.count <= s'.counter.value.count
            && |s.hits| <= |s'.hits|
            && forall i :: |s.hits| <= i < |s'.hits| ==> s.counter.value.count < s'.hits[i].current
  {
    if steps != [] {
      NoExpireNoReset(window, s, steps[..|steps| - 1]);
    }
  }
}
