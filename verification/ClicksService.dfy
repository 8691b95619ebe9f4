/**
 `ClicksService`: the fields it updates in place and the loops that build its reports.  The
 rows a query returns are visited in no particular order.
 */
module ClicksService {
  import opened Common
  import opened ClickStats
  import G = GeoLookup

  const BATCH_SIZE: nat := 7

  datatype DayData = DayData(totalClicks: nat, countries: map<string, nat>)

  function CountryRows(rows: set<StatKey>, country: string): set<StatKey> {
    set k | k in rows && k.country == country
  }

  function RowsOfDay(rows: set<StatKey>, day: int): set<StatKey> {
    set k | k in rows && k.day == day
  }

  /** The report over some rows of a link: one entry for each day that has a row. */
  ghost predicate Reports(data: map<int, DayData>, stats: Stats, link: string, rows: set<StatKey>) {
    && (forall d :: d in data <==> RowsOfDay(rows, d) != {})
    && (forall d :: d in data ==> data[d].totalClicks == SumOver(stats, RowsOfDay(rows, d)))
    && (forall d, c :: d in data ==> (c in data[d].countries <==> StatKey(link, d, c) in rows))
    && (forall d, c :: d in data && c in data[d].countries ==> data[d].countries[c] == Stat(stats, StatKey(link, d, c)))
  }

  /** The same report for every day of a range, from one query over all of it. */
  function RangeRows(stats: Stats, link: string, first: int, count: nat): set<StatKey> {
    set k | k in stats && k.link == link && first <= k.day < first + count
  }

  /** The number of days from one moment to another, both ends counted. */
  function DaysIn(start: int, end: int): nat {
    if end < start then 0 else (end - start) / DAY + 1
  }

  lemma RowsOfDayAdd(rows: set<StatKey>, k: StatKey, day: int)
    ensures RowsOfDay(rows + {k}, day) == RowsOfDay(rows, day) + if k.day == day then {k} else {}
  {
  }

  /** Adding one row to the report is what the loop body does. */
  lemma ReportRow(data: map<int, DayData>, stats: Stats, link: string, rows: set<StatKey>, k: StatKey)
    requires Reports(data, stats, link, rows) && k !in rows && k.link == link && k in stats
    ensures var old_ := if k.day in data then data[k.day] else DayData(0, map[]);
            Reports(data[k.day := DayData(old_.totalClicks + stats[k], old_.countries[k.country := stats[k]])],
                    stats, link, rows + {k})
  {
    var old_ := if k.day in data then data[k.day] else DayData(0, map[]);
    var day := DayData(old_.totalClicks + stats[k], old_.countries[k.country := stats[k]]);
    var data' := data[k.day := day];
    forall d
      ensures d in data' <==> RowsOfDay(rows + {k}, d) != {}
      ensures d in data' ==> data'[d].totalClicks == SumOver(stats, RowsOfDay(rows + {k}, d))
    {
      RowsOfDayAdd(rows, k, d);
      SumAdd(stats, RowsOfDay(rows, k.day), k);
      assert SumOver(stats, {}) == 0;
      assert d != k.day ==> RowsOfDay(rows + {k}, d) == RowsOfDay(rows, d);
    }
    forall d, c | d in data'
      ensures c in data'[d].countries <==> StatKey(link, d, c) in rows + {k}
      ensures c in data'[d].countries ==> data'[d].countries[c] == Stat(stats, StatKey(link, d, c))
    {
      assert StatKey(link, d, c) in rows <==> StatKey(link, d, c) in RowsOfDay(rows, d);
      assert k == StatKey(link, k.day, k.country);
    }
  }

  /** The grouping over some rows: one figure for each country that has a row. */
  ghost predicate ByCountry(countryMap: map<string, nat>, stats: Stats, rows: set<StatKey>) {
    && (forall c :: c in countryMap <==> CountryRows(rows, c) != {})
    && (forall c :: c in countryMap ==> countryMap[c] == SumOver(stats, CountryRows(rows, c)))
    && SumMap(countryMap) == SumOver(stats, rows)
  }

  lemma CountryRowsAdd(stats: Stats, rows: set<StatKey>, k: StatKey, c: string)
    requires k !in rows && k in stats
    ensures CountryRows(rows, c) == {} ==> SumOver(stats, CountryRows(rows, c)) == 0
    ensures CountryRows(rows + {k}, c) == {} <==> CountryRows(rows, c) == {} && k.country != c
    ensures SumOver(stats, CountryRows(rows + {k}, c))
         == SumOver(stats, CountryRows(rows, c)) + if k.country == c then stats[k] else 0
  {
    assert CountryRows(rows + {k}, c) == CountryRows(rows, c) + if k.country == c then {k} else {};
    assert k.country == c ==> k in CountryRows(rows + {k}, c);
    assert k.country != c ==> CountryRows(rows + {k}, c) == CountryRows(rows, c);
    SumAdd(stats, CountryRows(rows, c), k);
  }

  lemma CountRow(stats: Stats, countryMap: map<string, nat>, done: set<StatKey>, k: StatKey)
    requires ByCountry(countryMap, stats, done) && k !in done && k in stats
    ensures var current := if k.country in countryMap then countryMap[k.country] else 0;
            ByCountry(countryMap[k.country := current + stats[k]], stats, done + {k})
  {
    hide SumOver, SumMap, CountryRows;
    var current := if k.country in countryMap then countryMap[k.country] else 0;
    var countryMap' := countryMap[k.country := current + stats[k]];
    forall c
      ensures c in countryMap' <==> CountryRows(done + {k}, c) != {}
      ensures c in countryMap' ==> countryMap'[c] == SumOver(stats, CountryRows(done + {k}, c))
    {
      CountryRowsAdd(stats, done, k, c);
    }
    SumAdd(stats, done, k);
    SumMapSet(countryMap, k.country, current + stats[k]);
  }

  /** The `j`-th slice of seven of `count` days from the first one on. */
  ghost predicate SliceOfSeven(days: seq<int>, first: int, count: nat, j: nat) {
    && |days| == (if 7 * j + 7 <= count then 7 else count - 7 * j)
    && forall m :: 0 <= m < |days| ==> days[m] == first + 7 * j + m
  }

  class ClicksService {
    var countryCache: map<string, G.Known>
    var lastRequestTime: int
    var events: seq<ClickEvent>
    var stats: Stats

    constructor ()
      ensures countryCache == map[] && lastRequestTime == 0 && events == [] && stats == map[]
    {
      countryCache, lastRequestTime, events, stats := map[], 0, [], map[];
    }

    /** The fields are what the lookup machine says they are. */
    ghost predicate Shows(s: G.State)
      reads this`countryCache, this`lastRequestTime
    {
      s.countryCache == countryCache && s.lastRequestTime == lastRequestTime
    }

    /** `getCountryWithCache` up to its request, for an address that is not local. */
    method BeginLookup(ip: string, now: int, ghost s: G.State)
      returns (answer: Option<string>, cached: Option<G.Known>)
      requires Shows(s) && s.now == now
      modifies this`lastRequestTime
      ensures Shows(G.Begin(s, ip).0) && answer == G.Begin(s, ip).1 && cached == G.CachedFor(s, ip)
    {
      cached := if ip in countryCache then Some(countryCache[ip]) else None;
      if cached.Some? && now - cached.value.timestamp < G.CACHE_TTL {
        return Some(cached.value.country), cached;
      }
      if now - lastRequestTime < G.REQUEST_DELAY {
        if cached.None? {
          return Some(G.UNKNOWN), cached;
        }
        return Some(cached.value.country), cached;
      }
      lastRequestTime := now;
      return None, cached;
    }

    method FinishLookup(ip: string, cached: Option<G.Known>, reply: Option<string>, now: int, ghost s: G.State)
      returns (country: string)
      requires Shows(s) && s.now == now
      modifies this`countryCache
      ensures Shows(G.Finish(s, ip, cached, reply).0) && country == G.Finish(s, ip, cached, reply).1
    {
      if reply.Some? {
        countryCache := countryCache[ip := G.Known(reply.value, now)];
        return reply.value;
      }
      if cached.Some? {
        return cached.value.country;
      }
      return G.UNKNOWN;
    }

    /**
     `recordClick` once it has a country: the event first.  The insert may be refused, applied or
     not, and the call then ends: the event is owed a counter update exactly if it goes on.
     */
    method StoreEvent(event: ClickEvent, applied: bool, acknowledged: bool, ghost s: State)
      returns (goesOn: bool, ghost s': State)
      requires s.events == events && s.stats == stats && (acknowledged ==> applied)
      modifies this`events
      ensures s' == (if applied then Apply(s, EventInserted(event, acknowledged)) else s)
      ensures s'.events == events && s'.stats == stats
      ensures events == old(events) + if applied then [event] else []
      ensures goesOn <==> acknowledged
      ensures s'.pending
           == s.pending + if goesOn then multiset{StatKey(event.link, event.at / 86400000, event.country)} else multiset{}
    {
      s' := if applied then Apply(s, EventInserted(event, acknowledged)) else s;
      if applied {
        events := events + [event];
      }
      return acknowledged, s';
    }

    /** Then its counter, unless the update is refused without having been applied. */
    method CountEvent(event: ClickEvent, applied: bool, ghost s: State)
      requires s.events == events && s.stats == stats && KeyOf(event) in s.pending
      modifies this`stats
      ensures var s' := Apply(s, StatUpdated(KeyOf(event), applied)); s'.events == events && s'.stats == stats
      ensures var k := StatKey(event.link, event.at / 86400000, event.country);
              Stat(stats, k) == Stat(old(stats), k) + if applied then 1 else 0
      ensures forall k :: k != StatKey(event.link, event.at / 86400000, event.country) ==>
                Stat(stats, k) == Stat(old(stats), k)
    {
      if !applied {
        return;
      }
      var key := StatKey(event.link, event.at / DAY, event.country);
      stats := stats[key := (if key in stats then stats[key] else 0) + 1];
    }

    /** The clicks of a link by country, over all dates. */
    method GetClicksByCountry(link: string) returns (countryMap: map<string, nat>)
      ensures ByCountry(countryMap, stats, LinkRows(stats, link))
      ensures forall s: State :: s.stats == stats ==> SumMap(countryMap) == ClickCount(s, link, None, None)
    {
      countryMap := map[];
      var todo := LinkRows(stats, link);
      ghost var done: set<StatKey> := {};
      while todo != {}
        invariant todo !! done && todo + done == LinkRows(stats, link)
        invariant ByCountry(countryMap, stats, done)
        decreases todo
      {
        var k :| k in todo;
        CountRow(stats, countryMap, done, k);
        hide ByCountry;
        var current := if k.country in countryMap then countryMap[k.country] else 0;
        countryMap := countryMap[k.country := current + stats[k]];
        todo := todo - {k};
        done := done + {k};
      }
      assert done == LinkRows(stats, link);
    }

    /** The days of a range: one after the other from the start, while they begin by the end. */
    method GenerateDates(start: int, end: int) returns (dates: seq<int>)
      ensures |dates| == DaysIn(start, end)
      ensures forall i :: 0 <= i < |dates| ==> dates[i] == DayOf(start) + i
    {
      dates := [];
      var dt := start;
      while dt <= end
        invariant dt == start + |dates| * DAY
        invariant |dates| > 0 ==> start + (|dates| - 1) * DAY <= end
        invariant forall i :: 0 <= i < |dates| ==> dates[i] == DayOf(start) + i
      {
        dates := dates + [dt / DAY];
        dt := dt + DAY;
      }
    }

    /** The report for a range of dates, and the queries made for it: slices of seven days that follow each other. */
    method GetClicksByDateRange(link: string, start: int, end: int)
      returns (dailyData: map<int, DayData>, ghost queries: seq<seq<int>>)
      ensures Reports(dailyData, stats, link, RangeRows(stats, link, DayOf(start), DaysIn(start, end)))
      ensures |queries| == (DaysIn(start, end) + 6) / 7
      ensures forall j :: 0 <= j < |queries| ==> SliceOfSeven(queries[j], DayOf(start), DaysIn(start, end), j)
    {
      hide Reports, SliceOfSeven, RangeRows, DaysIn;
      var dates := GenerateDates(start, end);
      NothingReported(stats, link, DayOf(start));
      dailyData, queries := map[], [];
      ghost var first := DayOf(start);
      var i := 0;
      while i < |dates|
        invariant 0 <= i
        invariant i == 7 * |queries| && (|queries| > 0 ==> 7 * (|queries| - 1) < |dates|)
        invariant forall j :: 0 <= j < |queries| ==> SliceOfSeven(queries[j], first, |dates|, j)
        invariant Reports(dailyData, stats, link, RangeRows(stats, link, first, Min(i, |dates|)))
      {
        var n := Min(i + BATCH_SIZE, |dates|);
        var batchDates := dates[i..n];
        queries := queries + [batchDates];
        var rows := set k | k in stats && k.link == link && k.day in batchDates;
        BatchIsRange(dates, first, i, n);
        SliceNext(dates, first, |queries| - 1);
        RangeGrows(stats, link, first, i, n, rows);
        dailyData := AddRows(dailyData, link, rows, RangeRows(stats, link, first, i));
        i := i + BATCH_SIZE;
      }
    }

    method AddRows(data: map<int, DayData>, link: string, rows: set<StatKey>, ghost done: set<StatKey>)
      returns (dailyData: map<int, DayData>)
      requires Reports(data, stats, link, done) && rows !! done
      requires forall k :: k in rows ==> k in stats && k.link == link
      ensures Reports(dailyData, stats, link, done + rows)
    {
      hide Reports;
      dailyData := data;
      var todo := rows;
      assert done + (rows - todo) == done;
      while todo != {}
        invariant todo <= rows
        invariant Reports(dailyData, stats, link, done + (rows - todo))
        decreases todo
      {
        var k :| k in todo;
        ReportRow(dailyData, stats, link, done + (rows - todo), k);
        assert done + (rows - (todo - {k})) == done + (rows - todo) + {k};
        ghost var before := dailyData;
        if k.day !in dailyData {
          dailyData := dailyData[k.day := DayData(0, map[])];
        }
        var day := dailyData[k.day];
        dailyData := dailyData[k.day := DayData(day.totalClicks + stats[k], day.countries[k.country := stats[k]])];
        assert dailyData == before[k.day := dailyData[k.day]];
        todo := todo - {k};
      }
      assert done + (rows - todo) == done + rows;
    }
  }

  lemma NothingReported(stats: Stats, link: string, first: int)
    ensures Reports(map[], stats, link, RangeRows(stats, link, first, 0))
  {
  }

  lemma SliceNext(dates: seq<int>, first: int, j: nat)
    requires 7 * j < |dates| && forall i :: 0 <= i < |dates| ==> dates[i] == first + i
    ensures SliceOfSeven(dates[7 * j..Min(7 * j + 7, |dates|)], first, |dates|, j)
  {
  }

  lemma RangeGrows(stats: Stats, link: string, first: int, i: nat, n: nat, rows: set<StatKey>)
    requires i <= n
    requires forall k :: k in rows <==> k in stats && k.link == link && first + i <= k.day < first + n
    ensures rows !! RangeRows(stats, link, first, i)
    ensures RangeRows(stats, link, first, n) == RangeRows(stats, link, first, i) + rows
  {
  }

  lemma BatchIsRange(dates: seq<int>, first: int, i: nat, n: nat)
    requires i <= n <= |dates| && forall j :: 0 <= j < |dates| ==> dates[j] == first + j
    ensures forall d :: d in dates[i..n] <==> first + i <= d < first + n
  {
    forall d | first + i <= d < first + n
      ensures d in dates[i..n]
    {
      assert dates[i..n][d - first - i] == d;
    }
  }

  // ---- what the reports say ----

  /** Each day's total is the sum of its own countries. */
  lemma {:induction false} CountriesAddUp(stats: Stats, link: string, day: int, countries: map<string, nat>, rows: set<StatKey>)
    requires forall k :: k in rows ==> k.link == link && k.day == day
    requires forall c :: c in countries <==> StatKey(link, day, c) in rows
    requires forall c :: c in countries ==> countries[c] == Stat(stats, StatKey(link, day, c))
    ensures SumMap(countries) == SumOver(stats, rows)
    decreases rows
  {
    if rows == {} {
      assert countries == map[];
    } else {
      var k :| k in rows;
      assert k == StatKey(link, day, k.country);
      SumPick(stats, rows, k);
      SumMapPick(countries, k.country);
      CountriesAddUp(stats, link, day, countries - {k.country}, rows - {k});
    }
  }

  /**
   The batched report refines one query over the whole range: it has a day exactly when some
   row of that day is in range, and a day's total is the sum of its countries and the sum of
   all the rows of that day.
   */
  lemma RangeReport(data: map<int, DayData>, stats: Stats, link: string, start: int, end: int, day: int)
    requires Reports(data, stats, link, RangeRows(stats, link, DayOf(start), DaysIn(start, end)))
    ensures day in data <==>
              DayOf(start) <= day < DayOf(start) + DaysIn(start, end) && DayRows(stats, link, day) != {}
    ensures day in data ==>
              data[day].totalClicks == SumMap(data[day].countries) == SumOver(stats, DayRows(stats, link, day))
  {
    var rows := RangeRows(stats, link, DayOf(start), DaysIn(start, end));
    if DayOf(start) <= day < DayOf(start) + DaysIn(start, end) {
      assert RowsOfDay(rows, day) == DayRows(stats, link, day);
      if day in data {
        CountriesAddUp(stats, link, day, data[day].countries, RowsOfDay(rows, day));
      }
    } else {
      assert RowsOfDay(rows, day) == {};
    }
  }

  // ---- what the reports say about the clicks ----

  /** The clicks on a link from a country, at any time. */
  function ClicksFrom(events: seq<ClickEvent>, link: string, country: string): nat {
    if events == [] then 0
    else
      var e := events[|events| - 1];
      ClicksFrom(events[..|events| - 1], link, country) + if e.link == link && e.country == country then 1 else 0
  }

  lemma {:induction false} CountryIsClicks(events: seq<ClickEvent>, link: string, country: string, keys: set<StatKey>)
    requires forall i :: 0 <= i < |events| ==>
               (KeyOf(events[i]) in keys <==> events[i].link == link && events[i].country == country)
    ensures CountIn(events, keys) == ClicksFrom(events, link, country)
  {
    if events != [] {
      CountryIsClicks(events[..|events| - 1], link, country, keys);
    }
  }

  lemma SettledExact(steps: seq<Step>)
    requires NoFailures(steps) && Exec(steps).pending == multiset{}
    ensures var s := Exec(steps); forall k :: Stat(s.stats, k) == Matching(s.events, k)
    ensures var s := Exec(steps); forall i :: 0 <= i < |s.events| ==> KeyOf(s.events[i]) in s.stats
  {
    hide Exec, NoFailures, Matching;
    var s := Exec(steps);
    forall k
      ensures Stat(s.stats, k) == Matching(s.events, k)
    {
      CountersMatchEvents(steps, k);
    }
    forall i | 0 <= i < |s.events|
      ensures KeyOf(s.events[i]) in s.stats
    {
      MatchingAtLeast(s.events, i);
      assert Stat(s.stats, KeyOf(s.events[i])) == Matching(s.events, KeyOf(s.events[i]));
    }
  }

  /** With nothing refused or under way, the figure of each country is the number of clicks on the link from there. */
  lemma CountriesCountClicks(steps: seq<Step>, link: string, countryMap: map<string, nat>, country: string)
    requires NoFailures(steps) && Exec(steps).pending == multiset{}
    requires ByCountry(countryMap, Exec(steps).stats, LinkRows(Exec(steps).stats, link))
    ensures (if country in countryMap then countryMap[country] else 0) == ClicksFrom(Exec(steps).events, link, country)
  {
    hide Exec, NoFailures, Matching, SumMap;
    var s := Exec(steps);
    SettledExact(steps);
    var keys := CountryRows(LinkRows(s.stats, link), country);
    ExactSums(s.stats, s.events, keys);
    CountryIsClicks(s.events, link, country, keys);
  }

  /**
   With nothing refused or under way, a day of the report has, in total and for each country,
   the number of clicks of that day on the link.
   */
  lemma ReportCountsClicks(steps: seq<Step>, data: map<int, DayData>, link: string, start: int, end: int,
                           day: int, country: string)
    requires NoFailures(steps) && Exec(steps).pending == multiset{}
    requires Reports(data, Exec(steps).stats, link, RangeRows(Exec(steps).stats, link, DayOf(start), DaysIn(start, end)))
    requires DayOf(start) <= day < DayOf(start) + DaysIn(start, end)
    ensures var s := Exec(steps);
            var clicks := CountBetween(s.events, link, day * 86400000, day * 86400000 + 86399999);
            && (if day in data then data[day].totalClicks else 0) == clicks
            && (if day in data && country in data[day].countries then data[day].countries[country] else 0)
               == ClicksOn(s.events, link, day, country)
  {
    hide Exec, NoFailures, Matching, RangeRows, DayRows, CountBetween, ClicksOn;
    var s := Exec(steps);
    SettledExact(steps);
    RangeReport(data, s.stats, link, start, end, day);
    var rows := DayRows(s.stats, link, day);
    ExactSums(s.stats, s.events, rows);
    DayRowsTold(s, link, day);
    DayIsInterval(s.events, rows, link, day);
    var k := StatKey(link, day, country);
    MatchingTold(s.events, k);
    RowShown(data, s.stats, link, start, end, day, country);
    if day !in data {
      assert rows == {} && SumOver(s.stats, {}) == 0;
    }
  }

  lemma DayRowsTold(s: State, link: string, day: int)
    requires forall i :: 0 <= i < |s.events| ==> KeyOf(s.events[i]) in s.stats
    ensures forall i :: 0 <= i < |s.events| ==>
              (KeyOf(s.events[i]) in DayRows(s.stats, link, day) <==>
                 s.events[i].link == link && DayOf(s.events[i].at) == day)
  {
  }

  lemma RowShown(data: map<int, DayData>, stats: Stats, link: string, start: int, end: int, day: int, country: string)
    requires Reports(data, stats, link, RangeRows(stats, link, DayOf(start), DaysIn(start, end)))
    requires DayOf(start) <= day < DayOf(start) + DaysIn(start, end)
    ensures (if day in data && country in data[day].countries then data[day].countries[country] else 0)
         == Stat(stats, StatKey(link, day, country))
  {
    var rows, k := RangeRows(stats, link, DayOf(start), DaysIn(start, end)), StatKey(link, day, country);
    assert k in stats ==> k in RowsOfDay(rows, day);
  }

  /**
   The last day of a range that has clicks is in the report exactly when the end is not earlier
   in its day than the start is in its own; otherwise that whole day is left out.
   */
  lemma LastDayReportedIff(data: map<int, DayData>, stats: Stats, link: string, start: int, end: int)
    requires Reports(data, stats, link, RangeRows(stats, link, DayOf(start), DaysIn(start, end)))
    requires start <= end && DayRows(stats, link, DayOf(end)) != {}
    ensures DayOf(end) in data <==> start % DAY <= end % DAY
  {
    hide Reports, RangeRows, DayRows;
    RangeReport(data, stats, link, start, end, DayOf(end));
    assert DaysIn(start, end) == (end - start) / DAY + 1;
  }
}
