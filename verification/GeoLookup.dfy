/**
 The throttled, cached geo lookup of `ClicksService.getCountryWithCache`, with the request
 to the geo service as a suspension point and any number of calls overlapping.
 */
module GeoLookup {
  import opened Common
  import opened Spacing

  const CACHE_TTL: int := DAY
  const REQUEST_DELAY: nat := 1000
  const UNKNOWN := "Unknown"

  datatype Known = Known(country: string, timestamp: int)

  /** A request under way: the address and what the cache held when the call began. */
  datatype Request = Request(ip: string, cached: Option<Known>) | Finished

  /** An answer a call gave. */
  datatype Answer = Answer(ip: string, country: string)

  datatype State = State(
    countryCache: map<string, Known>,
    lastRequestTime: int,
    now: int,
    requests: seq<Request>,
    starts: seq<int>,
    fromApi: set<(string, string)>,
    answers: seq<Answer>)

  /** A reply of the service carries a country, `Unknown` when it names none; or it fails. */
  datatype Step =
    | Call(ip: string)
    | Reply(request: nat, country: Option<string>)
    | TimePasses(time: nat)

  function Init(now: int): State { State(map[], 0, now, [], [], {}, []) }

  function CachedFor(s: State, ip: string): Option<Known> {
    if ip in s.countryCache then Some(s.countryCache[ip]) else None
  }

  function Fallback(cached: Option<Known>): string {
    if cached.Some? then cached.value.country else UNKNOWN
  }

  /** The call up to its request: the answer, unless a request has to be made. */
  function Begin(s: State, ip: string): (State, Option<string>) {
    var cached := CachedFor(s, ip);
    if cached.Some? && s.now - cached.value.timestamp < CACHE_TTL then (s, Some(cached.value.country))
    else if s.now - s.lastRequestTime < REQUEST_DELAY then (s, Some(Fallback(cached)))
    else (s.(lastRequestTime := s.now, starts := s.starts + [s.now]), None)
  }

  /** The call after its request: a reply is cached, a failure falls back on what the call had read. */
  function Finish(s: State, ip: string, cached: Option<Known>, country: Option<string>): (State, string) {
    match country
    case Some(c) =>
      (s.(countryCache := s.countryCache[ip := Known(c, s.now)], fromApi := s.fromApi + {(ip, c)}), c)
    case None => (s, Fallback(cached))
  }

  function Apply(s: State, step: Step): State {
    match step
    case Call(ip) =>
      var cached := CachedFor(s, ip);
      var (s', answer) := Begin(s, ip);
      if answer.Some? then s'.(answers := s'.answers + [Answer(ip, answer.value)])
      else s'.(requests := s'.requests + [Request(ip, cached)])
    case Reply(n, country) =>
      if n < |s.requests| && s.requests[n].Request? then
        var r := s.requests[n];
        var (s', c) := Finish(s, r.ip, r.cached, country);
        s'.(requests := s'.requests[n := Finished], answers := s'.answers + [Answer(r.ip, c)])
      else s
    case TimePasses(time) => s.(now := s.now + time)
  }

  function ExecFrom(s: State, steps: seq<Step>): State {
    if steps == [] then s else Apply(ExecFrom(s, steps[..|steps| - 1]), steps[|steps| - 1])
  }

  function Exec(now: int, steps: seq<Step>): State { ExecFrom(Init(now), steps) }

  ghost predicate Throttled(s: State) {
    && Spaced(s.starts, REQUEST_DELAY)
    && (s.starts != [] ==> s.lastRequestTime == s.starts[|s.starts| - 1])
  }

  lemma {:induction false} RunThrottled(now: int, steps: seq<Step>)
    ensures Throttled(Exec(now, steps))
  {
    if steps != [] {
      RunThrottled(now, steps[..|steps| - 1]);
    }
  }

  /** In any interval of `T` milliseconds at most `T / 1000 + 1` requests start, however calls overlap. */
  lemma RequestsThrottled(now: int, steps: seq<Step>, from: int, T: nat)
    ensures CountIn(Exec(now, steps).starts, from, from + T) <= T / 1000 + 1
  {
    RunThrottled(now, steps);
    SpacedCount(Exec(now, steps).starts, REQUEST_DELAY, from, from + T);
  }

  ghost predicate ApiBacked(s: State) {
    && (forall ip :: ip in s.countryCache ==> (ip, s.countryCache[ip].country) in s.fromApi)
    && (forall p :: p in s.fromApi ==> p.0 in s.countryCache)
    && (forall n :: 0 <= n < |s.requests| && s.requests[n].Request? && s.requests[n].cached.Some? ==>
          (s.requests[n].ip, s.requests[n].cached.value.country) in s.fromApi)
  }

  lemma StepApiBacked(s: State, step: Step)
    requires ApiBacked(s)
    ensures ApiBacked(Apply(s, step)) && s.fromApi <= Apply(s, step).fromApi
  {
  }

  lemma RunApiBacked(now: int, steps: seq<Step>)
    ensures ApiBacked(Exec(now, steps))
  {
    LaterApiBacked(Init(now), steps);
  }

  lemma {:induction false} LaterApiBacked(s: State, steps: seq<Step>)
    requires ApiBacked(s)
    ensures ApiBacked(ExecFrom(s, steps)) && s.fromApi <= ExecFrom(s, steps).fromApi
  {
    hide Apply, ApiBacked;
    if steps != [] {
      LaterApiBacked(s, steps[..|steps| - 1]);
      StepApiBacked(ExecFrom(s, steps[..|steps| - 1]), steps[|steps| - 1]);
    }
  }

  // ---- exactly which calls start a request ----

  /**
   A call starts a request exactly when the cache holds no country for its address that is less
   than 86400000 milliseconds old, and the last request began at least 1000 milliseconds ago;
   otherwise it answers at once with the country that is cached, however old, or `Unknown`.
   */
  lemma RequestStartsIff(s: State, ip: string)
    ensures var s' := Apply(s, Call(ip));
            if !(ip in s.countryCache && s.now - s.countryCache[ip].timestamp < 86400000)
               && 1000 <= s.now - s.lastRequestTime
            then
              && s'.starts == s.starts + [s.now] && s'.lastRequestTime == s.now && s'.answers == s.answers
              && s'.requests == s.requests + [Request(ip, if ip in s.countryCache then Some(s.countryCache[ip]) else None)]
            else
              && s'.starts == s.starts && s'.requests == s.requests
              && s'.answers
                 == s.answers + [Answer(ip, if ip in s.countryCache then s.countryCache[ip].country else "Unknown")]
  {
  }

  /** A country that the service gave is cached from that moment on, and answered. */
  lemma ReplyCached(s: State, n: nat, country: string)
    requires n < |s.requests| && s.requests[n].Request?
    ensures var s', ip := Apply(s, Reply(n, Some(country))), s.requests[n].ip;
            && s'.countryCache == s.countryCache[ip := Known(country, s.now)]
            && s'.answers == s.answers + [Answer(ip, country)]
  {
  }

  lemma {:induction false} CachedStays(s: State, steps: seq<Step>, ip: string)
    requires ip in s.countryCache && s.countryCache[ip].timestamp <= s.now
    ensures var t := ExecFrom(s, steps);
            && ip in t.countryCache && s.now <= t.now
            && s.countryCache[ip].timestamp <= t.countryCache[ip].timestamp <= t.now
  {
    if steps != [] {
      CachedStays(s, steps[..|steps| - 1], ip);
    }
  }

  /** For a day after a country was cached, in every course, calls for its address start no request. */
  lemma NoRequestForADay(s: State, steps: seq<Step>, ip: string)
    requires ip in s.countryCache && s.countryCache[ip].timestamp <= s.now
    requires ExecFrom(s, steps).now < s.countryCache[ip].timestamp + 86400000
    ensures var t := ExecFrom(s, steps);
            Apply(t, Call(ip)).starts == t.starts && Apply(t, Call(ip)).requests == t.requests
  {
    hide ExecFrom;
    CachedStays(s, steps, ip);
    RequestStartsIff(ExecFrom(s, steps), ip);
  }

  // ---- exactly which calls are safe from the fallback ----

  /** A request keeps what its call had read until it is answered. */
  lemma {:induction false} RequestStays(s: State, steps: seq<Step>, n: nat)
    requires n < |s.requests|
    ensures n < |ExecFrom(s, steps).requests|
    ensures ExecFrom(s, steps).requests[n] == s.requests[n] || ExecFrom(s, steps).requests[n] == Finished
  {
    if steps != [] {
      RequestStays(s, steps[..|steps| - 1], n);
    }
  }

  /**
   Whatever happens afterwards, the call that begins now answers with a country the service
   has given for its address by then: at once, or when its request is replied to.
   */
  ghost predicate CallBacked(s: State, ip: string) {
    var s' := Apply(s, Call(ip));
    if Begin(s, ip).1.Some? then (ip, s'.answers[|s.answers|].country) in s'.fromApi
    else
      forall later: seq<Step>, reply: Option<string> :: ReplyBacked(ExecFrom(s', later), |s.requests|, ip, reply)
  }

  predicate ReplyBacked(t: State, n: nat, ip: string, reply: Option<string>) {
    n < |t.requests| && t.requests[n].Request? ==>
      var u := Apply(t, Reply(n, reply));
      |t.answers| < |u.answers| && (ip, u.answers[|t.answers|].country) in u.fromApi
  }

  lemma KnownReplyBacked(t: State, n: nat, ip: string, reply: Option<string>)
    requires ApiBacked(t)
    requires n < |t.requests| && t.requests[n].Request? ==> t.requests[n].ip == ip && t.requests[n].cached.Some?
    ensures ReplyBacked(t, n, ip, reply)
  {
  }

  lemma KnownCallBacked(s: State, ip: string)
    requires ApiBacked(s) && CachedFor(s, ip).Some?
    ensures CallBacked(s, ip)
  {
    var s' := Apply(s, Call(ip));
    StepApiBacked(s, Call(ip));
    if Begin(s, ip).1.None? {
      assert s'.requests[|s.requests|] == Request(ip, CachedFor(s, ip));
      forall later, reply
        ensures ReplyBacked(ExecFrom(s', later), |s.requests|, ip, reply)
      {
        hide Apply, ApiBacked, ReplyBacked;
        LaterApiBacked(s', later);
        RequestStays(s', later, |s.requests|);
        KnownReplyBacked(ExecFrom(s', later), |s.requests|, ip, reply);
      }
    }
  }

  lemma UnknownCallUnbacked(s: State, ip: string)
    requires ApiBacked(s) && CachedFor(s, ip).None?
    ensures !CallBacked(s, ip)
  {
    assert (ip, UNKNOWN) !in s.fromApi;
    var s' := Apply(s, Call(ip));
    if Begin(s, ip).1.None? {
      assert ExecFrom(s', []) == s' && s'.requests[|s.requests|] == Request(ip, None);
      assert !ReplyBacked(ExecFrom(s', []), |s.requests|, ip, None);
    }
  }

  /**
   After any run, every course backs the answer of a call begun now by the service, if and
   only if the cache holds the address now, if and only if the service has ever given a
   country for it.  Otherwise some course answers `Unknown`.
   */
  lemma BackedIff(now: int, steps: seq<Step>, ip: string)
    ensures CallBacked(Exec(now, steps), ip) <==> CachedFor(Exec(now, steps), ip).Some?
    ensures CachedFor(Exec(now, steps), ip).Some? <==> exists country :: (ip, country) in Exec(now, steps).fromApi
  {
    var s := Exec(now, steps);
    RunApiBacked(now, steps);
    if CachedFor(s, ip).Some? {
      KnownCallBacked(s, ip);
      assert (ip, s.countryCache[ip].country) in s.fromApi;
    } else {
      UnknownCallUnbacked(s, ip);
    }
  }

  /**
   A call that began before its address was looked up gains nothing from it: it can be under way when the address
   becomes known, and it still answers `Unknown` when its own request fails afterwards.
   */
  lemma OverlapHappens(ip: string) returns (steps: seq<Step>)
    ensures var s := Exec(1000, steps);
            && ip in s.countryCache && s.requests != [] && s.requests[0] == Request(ip, None)
            && Apply(s, Reply(0, None)).answers == s.answers + [Answer(ip, UNKNOWN)]
  {
    steps := [Call(ip), TimePasses(1000), Call(ip), Reply(1, Some("Viet Nam"))];
    var s0 := Init(1000);
    var s1 := Apply(s0, steps[0]);
    var s2 := Apply(s1, steps[1]);
    var s3 := Apply(s2, steps[2]);
    assert steps[..4] == steps && steps[..3][..2] == steps[..2] && steps[..2][..1] == steps[..1];
    assert steps[..1][..0] == [];
    assert ExecFrom(s0, steps[..1]) == s1;
    assert ExecFrom(s0, steps[..2]) == s2;
    assert ExecFrom(s0, steps[..3]) == s3;
    assert ExecFrom(s0, steps) == Apply(s3, steps[3]);
  }
}
