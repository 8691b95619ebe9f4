/**
 Click events and the counters kept beside them, one for each link, day and country.  Sums
 are over sets of counter keys, so they do not depend on the order in which rows come back.
 */
module ClickStats {
  import opened Common

  /** The primary key of a counter row. */
  datatype StatKey = StatKey(link: string, day: int, country: string)

  datatype ClickEvent = ClickEvent(link: string, country: string, at: int)

  type Stats = map<StatKey, nat>

  function DayOf(at: int): int { at / DAY }

  function KeyOf(e: ClickEvent): StatKey { StatKey(e.link, DayOf(e.at), e.country) }

  function Stat(stats: Stats, k: StatKey): nat {
    if k in stats then stats[k] else 0
  }

  // ---- sums over sets of keys ----

  ghost function SumOver(stats: Stats, keys: set<StatKey>): nat {
    if keys == {} then 0
    else
      var k :| k in keys;
      Stat(stats, k) + SumOver(stats, keys - {k})
  }

  lemma {:induction false} SumPick(stats: Stats, keys: set<StatKey>, k: StatKey)
    requires k in keys
    ensures SumOver(stats, keys) == Stat(stats, k) + SumOver(stats, keys - {k})
    decreases keys
  {
    var first :| first in keys && SumOver(stats, keys) == Stat(stats, first) + SumOver(stats, keys - {first});
    if first != k {
      SumPick(stats, keys - {first}, k);
      SumPick(stats, keys - {k}, first);
      assert keys - {first} - {k} == keys - {k} - {first};
    }
  }

  lemma SumAdd(stats: Stats, keys: set<StatKey>, k: StatKey)
    requires k !in keys
    ensures SumOver(stats, keys + {k}) == SumOver(stats, keys) + Stat(stats, k)
  {
    SumPick(stats, keys + {k}, k);
    assert keys + {k} - {k} == keys;
  }

  lemma {:induction false} SumUnion(stats: Stats, a: set<StatKey>, b: set<StatKey>)
    requires a !! b
    ensures SumOver(stats, a + b) == SumOver(stats, a) + SumOver(stats, b)
    decreases b
  {
    if b == {} {
      assert a + b == a;
    } else {
      var k :| k in b;
      SumUnion(stats, a, b - {k});
      SumPick(stats, b, k);
      SumPick(stats, a + b, k);
      assert a + b - {k} == a + (b - {k});
    }
  }

  /** The sum of the figures of one day or of all countries. */
  ghost function SumMap(m: map<string, nat>): nat {
    if m == map[] then 0
    else
      var c :| c in m;
      m[c] + SumMap(m - {c})
  }

  lemma {:induction false} SumMapPick(m: map<string, nat>, c: string)
    requires c in m
    ensures SumMap(m) == m[c] + SumMap(m - {c})
    decreases m.Keys
  {
    var first :| first in m && SumMap(m) == m[first] + SumMap(m - {first});
    if first != c {
      assert (m - {first}).Keys == m.Keys - {first} && (m - {c}).Keys == m.Keys - {c};
      SumMapPick(m - {first}, c);
      SumMapPick(m - {c}, first);
      assert m - {first} - {c} == m - {c} - {first};
    }
  }

  lemma SumMapSet(m: map<string, nat>, c: string, n: nat)
    ensures SumMap(m[c := n]) + (if c in m then m[c] else 0) == SumMap(m) + n
  {
    SumMapPick(m[c := n], c);
    if c in m {
      SumMapPick(m, c);
      assert m[c := n] - {c} == m - {c};
    } else {
      assert m[c := n] - {c} == m;
    }
  }

  // ---- the rows of a link ----

  function LinkRows(stats: Stats, link: string): set<StatKey> {
    set k | k in stats && k.link == link
  }

  function DayRows(stats: Stats, link: string, day: int): set<StatKey> {
    set k | k in stats && k.link == link && k.day == day
  }

  // ---- recording clicks, call by call ----

  /** `pending` holds the counter updates of calls that have stored their event. */
  datatype State = State(events: seq<ClickEvent>, stats: Stats, pending: multiset<StatKey>)

  /** An insert may be applied and still be reported as failed; the call then ends there. */
  datatype Step =
    | EventInserted(event: ClickEvent, acknowledged: bool)
    | StatUpdated(key: StatKey, applied: bool)

  function Init(): State { State([], map[], multiset{}) }

  function Apply(s: State, step: Step): State {
    match step
    case EventInserted(e, acknowledged) =>
      State(s.events + [e], s.stats, if acknowledged then s.pending + multiset{KeyOf(e)} else s.pending)
    case StatUpdated(k, applied) =>
      if k in s.pending then
        State(s.events, if applied then s.stats[k := Stat(s.stats, k) + 1] else s.stats, s.pending - multiset{k})
      else s
  }

  function Exec(steps: seq<Step>): State {
    if steps == [] then Init() else Apply(Exec(steps[..|steps| - 1]), steps[|steps| - 1])
  }

  function Matching(events: seq<ClickEvent>, k: StatKey): nat {
    if events == [] then 0
    else Matching(events[..|events| - 1], k) + if KeyOf(events[|events| - 1]) == k then 1 else 0
  }

  /** Nothing was refused on the way. */
  ghost predicate NoFailures(steps: seq<Step>) {
    forall i :: 0 <= i < |steps| ==> !Refused(steps[i])
  }

  ghost predicate Refused(step: Step) {
    match step
    case EventInserted(_, acknowledged) => !acknowledged
    case StatUpdated(_, applied) => !applied
  }

  lemma StepMatches(s: State, step: Step, k: StatKey)
    requires Stat(s.stats, k) + s.pending[k] <= Matching(s.events, k)
    ensures var s' := Apply(s, step); Stat(s'.stats, k) + s'.pending[k] <= Matching(s'.events, k)
    ensures var s' := Apply(s, step);
            !Refused(step) && Stat(s.stats, k) + s.pending[k] == Matching(s.events, k) ==>
              Stat(s'.stats, k) + s'.pending[k] == Matching(s'.events, k)
  {
    if step.EventInserted? {
      assert (s.events + [step.event])[..|s.events|] == s.events;
    }
  }

  /** The clicks on a link from a country on a day, which is 86400000 milliseconds long. */
  function ClicksOn(events: seq<ClickEvent>, link: string, day: int, country: string): nat {
    if events == [] then 0
    else
      var e := events[|events| - 1];
      ClicksOn(events[..|events| - 1], link, day, country)
      + if e.link == link && day * 86400000 <= e.at < (day + 1) * 86400000 && e.country == country then 1 else 0
  }

  lemma {:induction false} MatchingTold(events: seq<ClickEvent>, k: StatKey)
    ensures Matching(events, k) == ClicksOn(events, k.link, k.day, k.country)
  {
    if events != [] {
      MatchingTold(events[..|events| - 1], k);
      var e := events[|events| - 1];
      assert DayOf(e.at) == k.day <==> k.day * 86400000 <= e.at < (k.day + 1) * 86400000;
    }
  }

  /**
   The counter of a link, day and country never exceeds the clicks on the link from that country
   on that day, even with the updates still to come, and is exactly those updates behind if
   nothing is refused.
   */
  lemma CountersCountClicks(steps: seq<Step>, link: string, day: int, country: string)
    ensures var s, k := Exec(steps), StatKey(link, day, country);
            && Stat(s.stats, k) + s.pending[k] <= ClicksOn(s.events, link, day, country)
            && (NoFailures(steps) ==> Stat(s.stats, k) + s.pending[k] == ClicksOn(s.events, link, day, country))
  {
    CountersMatchEvents(steps, StatKey(link, day, country));
    MatchingTold(Exec(steps).events, StatKey(link, day, country));
  }

  lemma {:induction false} RowsPositive(steps: seq<Step>)
    ensures forall k :: k in Exec(steps).stats ==> 0 < Exec(steps).stats[k]
  {
    if steps != [] {
      RowsPositive(steps[..|steps| - 1]);
    }
  }

  /**
   Over every run of overlapping calls, a counter never exceeds the number of stored events
   it stands for, even with the updates still to come; if nothing is refused, it is exactly
   those updates behind.
   */
  lemma {:induction false} CountersMatchEvents(steps: seq<Step>, k: StatKey)
    ensures var s := Exec(steps); Stat(s.stats, k) + s.pending[k] <= Matching(s.events, k)
    ensures var s := Exec(steps); NoFailures(steps) ==> Stat(s.stats, k) + s.pending[k] == Matching(s.events, k)
  {
    if steps != [] {
      var before, last := steps[..|steps| - 1], steps[|steps| - 1];
      CountersMatchEvents(before, k);
      StepMatches(Exec(before), last, k);
      hide Apply, Matching;
      assert NoFailures(steps) ==> NoFailures(before) && !Refused(last);
    }
  }

  // ---- events counted by time against counters summed by day ----

  function CountBetween(events: seq<ClickEvent>, link: string, start: int, end: int): nat {
    if events == [] then 0
    else
      var e := events[|events| - 1];
      CountBetween(events[..|events| - 1], link, start, end) + if e.link == link && start <= e.at <= end then 1 else 0
  }

  ghost function DailyTotals(stats: Stats, link: string, first: int, last: int): nat
    decreases last - first
  {
    if last < first then 0
    else DailyTotals(stats, link, first, last - 1) + SumOver(stats, DayRows(stats, link, last))
  }

  function CountIn(events: seq<ClickEvent>, keys: set<StatKey>): nat {
    if events == [] then 0
    else CountIn(events[..|events| - 1], keys) + if KeyOf(events[|events| - 1]) in keys then 1 else 0
  }

  lemma {:induction false} CountInSplit(events: seq<ClickEvent>, keys: set<StatKey>, k: StatKey)
    requires k in keys
    ensures CountIn(events, keys) == Matching(events, k) + CountIn(events, keys - {k})
    ensures CountIn(events, {}) == 0
  {
    if events != [] {
      CountInSplit(events[..|events| - 1], keys, k);
    }
  }

  /** Exact counters sum to the number of events with one of their keys. */
  lemma {:induction false} ExactSums(stats: Stats, events: seq<ClickEvent>, keys: set<StatKey>)
    requires forall k :: Stat(stats, k) == Matching(events, k)
    ensures SumOver(stats, keys) == CountIn(events, keys)
    decreases keys
  {
    if keys == {} {
      CountInSplit(events, {StatKey("", 0, "")}, StatKey("", 0, ""));
    } else {
      var k :| k in keys;
      SumPick(stats, keys, k);
      CountInSplit(events, keys, k);
      ExactSums(stats, events, keys - {k});
    }
  }

  lemma {:induction false} MatchingAtLeast(events: seq<ClickEvent>, i: nat)
    requires i < |events|
    ensures 0 < Matching(events, KeyOf(events[i]))
  {
    if i < |events| - 1 {
      MatchingAtLeast(events[..|events| - 1], i);
    }
  }

  lemma {:induction false} DayIsInterval(events: seq<ClickEvent>, keys: set<StatKey>, link: string, day: int)
    requires forall i :: 0 <= i < |events| ==>
               (KeyOf(events[i]) in keys <==> events[i].link == link && DayOf(events[i].at) == day)
    ensures CountIn(events, keys) == CountBetween(events, link, day * DAY, day * DAY + DAY - 1)
  {
    if events != [] {
      DayIsInterval(events[..|events| - 1], keys, link, day);
      var e := events[|events| - 1];
      assert DayOf(e.at) == day <==> day * DAY <= e.at <= day * DAY + DAY - 1;
    }
  }

  lemma {:induction false} JoinIntervals(events: seq<ClickEvent>, link: string, a: int, b: int, c: int)
    requires a <= b + 1 && b <= c
    ensures CountBetween(events, link, a, b) + CountBetween(events, link, b + 1, c) == CountBetween(events, link, a, c)
  {
    if events != [] {
      JoinIntervals(events[..|events| - 1], link, a, b, c);
    }
  }

  lemma {:induction false} DailyTotalsCount(stats: Stats, events: seq<ClickEvent>, link: string, first: int, last: int)
    requires forall k :: Stat(stats, k) == Matching(events, k)
    requires first <= last + 1
    ensures DailyTotals(stats, link, first, last) == CountBetween(events, link, first * DAY, last * DAY + DAY - 1)
    decreases last - first
  {
    if last < first {
      EmptyInterval(events, link, first * DAY, last * DAY + DAY - 1);
    } else {
      DailyTotalsCount(stats, events, link, first, last - 1);
      var keys := DayRows(stats, link, last);
      ExactSums(stats, events, keys);
      forall i | 0 <= i < |events|
        ensures KeyOf(events[i]) in keys <==> events[i].link == link && DayOf(events[i].at) == last
      {
        MatchingAtLeast(events, i);
        assert Stat(stats, KeyOf(events[i])) == Matching(events, KeyOf(events[i]));
      }
      DayIsInterval(events, keys, link, last);
      JoinIntervals(events, link, first * DAY, last * DAY - 1, last * DAY + DAY - 1);
    }
  }

  predicate Dated(at: int, start: Option<int>, end: Option<int>) {
    (start.Some? ==> start.value <= at) && (end.Some? ==> at <= end.value)
  }

  function CountDated(events: seq<ClickEvent>, link: string, start: Option<int>, end: Option<int>): nat {
    if events == [] then 0
    else
      var e := events[|events| - 1];
      CountDated(events[..|events| - 1], link, start, end) + if e.link == link && Dated(e.at, start, end) then 1 else 0
  }

  /** `getClickCount`: from the counters when it has no dates, from the events otherwise. */
  ghost function ClickCount(s: State, link: string, start: Option<int>, end: Option<int>): nat {
    if start.None? && end.None? then SumOver(s.stats, LinkRows(s.stats, link))
    else CountDated(s.events, link, start, end)
  }

  lemma {:induction false} DatedIsBetween(events: seq<ClickEvent>, link: string, start: int, end: int)
    ensures CountDated(events, link, Some(start), Some(end)) == CountBetween(events, link, start, end)
  {
    if events != [] {
      DatedIsBetween(events[..|events| - 1], link, start, end);
    }
  }

  /** One date splits the events of a link in two, and two dates cut out what is between them. */
  lemma {:induction false} DatesSplit(events: seq<ClickEvent>, link: string, start: int, end: int)
    requires start <= end + 1
    ensures CountDated(events, link, None, Some(start - 1)) + CountDated(events, link, Some(start), None)
         == CountDated(events, link, None, None)
    ensures CountDated(events, link, Some(start), Some(end)) + CountDated(events, link, Some(end + 1), None)
         == CountDated(events, link, Some(start), None)
    ensures CountDated(events, link, Some(start), Some(end)) == CountBetween(events, link, start, end)
  {
    if events != [] {
      DatesSplit(events[..|events| - 1], link, start, end);
    }
  }

  /**
   `getClickCount` with one date or two: the counts before and from a moment add up to all clicks
   on the link, and the count between two moments and the one after them to the one from the first.
   */
  lemma ClickCountSplits(s: State, link: string, start: int, end: int)
    requires start <= end + 1
    ensures ClickCount(s, link, None, Some(start - 1)) + ClickCount(s, link, Some(start), None)
         == CountDated(s.events, link, None, None)
    ensures ClickCount(s, link, Some(start), Some(end)) + ClickCount(s, link, Some(end + 1), None)
         == ClickCount(s, link, Some(start), None)
    ensures ClickCount(s, link, Some(start), Some(end)) == CountBetween(s.events, link, start, end)
  {
    DatesSplit(s.events, link, start, end);
  }

  lemma {:induction false} AllOfLink(events: seq<ClickEvent>, link: string, keys: set<StatKey>)
    requires forall i :: 0 <= i < |events| ==> (KeyOf(events[i]) in keys <==> events[i].link == link)
    ensures CountIn(events, keys) == CountDated(events, link, None, None)
  {
    if events != [] {
      AllOfLink(events[..|events| - 1], link, keys);
    }
  }

  /** Counters that are nowhere ahead do not sum to more than the events with one of their keys. */
  lemma {:induction false} BehindSums(stats: Stats, events: seq<ClickEvent>, keys: set<StatKey>)
    requires forall k :: Stat(stats, k) <= Matching(events, k)
    ensures SumOver(stats, keys) <= CountIn(events, keys)
    decreases keys
  {
    if keys != {} {
      var k :| k in keys;
      SumPick(stats, keys, k);
      CountInSplit(events, keys, k);
      BehindSums(stats, events, keys - {k});
    }
  }

  lemma {:induction false} SomeOfLink(events: seq<ClickEvent>, link: string, keys: set<StatKey>)
    requires forall k :: k in keys ==> k.link == link
    ensures CountIn(events, keys) <= CountDated(events, link, None, None)
  {
    if events != [] {
      SomeOfLink(events[..|events| - 1], link, keys);
    }
  }

  /** In every run, whatever is refused or under way, the undated count is at most the events of the link. */
  lemma CountersNeverAhead(steps: seq<Step>, link: string)
    ensures var s := Exec(steps); ClickCount(s, link, None, None) <= CountDated(s.events, link, None, None)
  {
    hide Exec, SumOver, CountDated, Matching, Stat;
    var s := Exec(steps);
    forall k
      ensures Stat(s.stats, k) <= Matching(s.events, k)
    {
      CountersMatchEvents(steps, k);
    }
    BehindSums(s.stats, s.events, LinkRows(s.stats, link));
    SomeOfLink(s.events, link, LinkRows(s.stats, link));
  }

  /**
   The two branches of `getClickCount` agree: with no refusal and no call under way, the
   counters of a link sum to the number of its events, and any dates count at most that many.
   */
  lemma CountersSumToEvents(steps: seq<Step>, link: string, start: Option<int>, end: Option<int>)
    requires NoFailures(steps) && Exec(steps).pending == multiset{}
    ensures var s := Exec(steps);
            && ClickCount(s, link, None, None) == CountDated(s.events, link, None, None)
            && ClickCount(s, link, start, end) <= ClickCount(s, link, None, None)
  {
    hide Exec, NoFailures;
    var s := Exec(steps);
    var keys := LinkRows(s.stats, link);
    forall k
      ensures Stat(s.stats, k) == Matching(s.events, k)
    {
      CountersMatchEvents(steps, k);
    }
    ExactSums(s.stats, s.events, keys);
    forall i | 0 <= i < |s.events|
      ensures KeyOf(s.events[i]) in keys <==> s.events[i].link == link
    {
      MatchingAtLeast(s.events, i);
      assert Stat(s.stats, KeyOf(s.events[i])) == Matching(s.events, KeyOf(s.events[i]));
    }
    AllOfLink(s.events, link, keys);
    DatesCountLess(s.events, link, start, end);
  }

  lemma {:induction false} DatesCountLess(events: seq<ClickEvent>, link: string, start: Option<int>, end: Option<int>)
    ensures CountDated(events, link, start, end) <= CountDated(events, link, None, None)
  {
    if events != [] {
      DatesCountLess(events[..|events| - 1], link, start, end);
    }
  }

  lemma {:induction false} EmptyInterval(events: seq<ClickEvent>, link: string, start: int, end: int)
    requires end < start
    ensures CountBetween(events, link, start, end) == 0
  {
    if events != [] {
      EmptyInterval(events[..|events| - 1], link, start, end);
    }
  }

  /**
   With no refusal and no call under way, the daily totals from one date to another are the
   dated click count between the two midnights plus the clicks later on the last day; so the
   dated count never exceeds the totals.
   */
  lemma DatedCountAgainstTotals(steps: seq<Step>, link: string, first: int, last: int)
    requires NoFailures(steps) && Exec(steps).pending == multiset{} && first <= last
    ensures var s := Exec(steps);
            ClickCount(s, link, Some(first * DAY), Some(last * DAY))
            + CountBetween(s.events, link, last * DAY + 1, last * DAY + DAY - 1)
            == DailyTotals(s.stats, link, first, last)
  {
    hide Exec, Matching, CountBetween, DailyTotals, NoFailures;
    var s := Exec(steps);
    forall k
      ensures Stat(s.stats, k) == Matching(s.events, k)
    {
      CountersMatchEvents(steps, k);
    }
    DailyTotalsCount(s.stats, s.events, link, first, last);
    JoinIntervals(s.events, link, first * DAY, last * DAY, last * DAY + DAY - 1);
    DatedIsBetween(s.events, link, first * DAY, last * DAY);
  }
}
