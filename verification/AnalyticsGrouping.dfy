/**
 `saveAnalyticsBatch`: one detail insert for each event and one daily update for each
 `code:day` key, whose counts must agree.  The calendar day of a timestamp is a parameter.
 */
module AnalyticsGrouping {
  import opened Common
  import opened PipelineModel
  import opened PipelineBuffers

  datatype DeviceClass = Mobile | Tablet | Desktop

  function ClassOf(e: Event): DeviceClass {
    match e.metadata.device
    case Some(d) => if d.isMobile then Mobile else if d.isTablet then Tablet else Desktop
    case None => Desktop
  }

  datatype Detail = Detail(code: string, timestamp: int, userAgent: Option<string>, device: DeviceClass)

  datatype Daily = Daily(code: string, day: string, total: nat, mobile: nat, tablet: nat, desktop: nat)

  function DetailOf(e: Event): Detail {
    Detail(e.shortCode, e.timestamp, e.metadata.userAgent, ClassOf(e))
  }

  function DayKey(e: Event, dayOf: int -> string): string {
    e.shortCode + (":" + dayOf(e.timestamp))
  }

  // ---- splitting a key at its colons ----

  function BeforeColon(text: string): string {
    if text == [] || text[0] == ':' then [] else [text[0]] + BeforeColon(text[1..])
  }

  function AfterColon(text: string): string {
    if text == [] then [] else if text[0] == ':' then text[1..] else AfterColon(text[1..])
  }

  /** The first two parts of `key.split(':')`. */
  function SplitKey(key: string): (string, string) {
    (BeforeColon(key), BeforeColon(AfterColon(key)))
  }

  lemma {:induction false} BeforeColonOf(a: string, b: string)
    requires ':' !in a
    ensures BeforeColon(a + (":" + b)) == a && AfterColon(a + (":" + b)) == b
  {
    var text := a + (":" + b);
    if a != [] {
      assert text[1..] == a[1..] + (":" + b);
      assert a == [a[0]] + a[1..];
      BeforeColonOf(a[1..], b);
    } else {
      assert text == ":" + b;
    }
  }

  lemma {:induction false} NoColon(a: string)
    ensures ':' !in a ==> BeforeColon(a) == a
    ensures ':' !in BeforeColon(a)
  {
    if a != [] {
      NoColon(a[1..]);
      assert a == [a[0]] + a[1..];
    }
  }

  /** Splitting a key gives the code and the day back exactly when the code has no colon. */
  lemma SplitRecoversIff(code: string, day: string)
    requires ':' !in day
    ensures SplitKey(code + (":" + day)) == (code, day) <==> ':' !in code
  {
    NoColon(day);
    NoColon(code + (":" + day));
    if ':' !in code {
      BeforeColonOf(code, day);
    }
  }

  /** What the two parts are for any key: the text up to the first colon, and from there up to the second. */
  lemma SplitTold(key: string)
    ensures var (first, second) := SplitKey(key);
            && ':' !in first && ':' !in second && first <= key
            && (':' !in key ==> first == key && second == "")
            && (':' in key ==>
                  && first + ":" + second <= key
                  && (|first + ":" + second| < |key| ==> key[|first + ":" + second|] == ':'))
  {
    UpToColon(key);
    UpToColon(AfterColon(key));
    NoColon(key);
    NoColon(AfterColon(key));
    var (first, second) := SplitKey(key);
    if ':' in key {
      assert key == first + ":" + AfterColon(key);
      assert key[..|first| + 1] == first + ":";
      assert key[|first| + 1..] == AfterColon(key);
    }
  }

  lemma {:induction false} UpToColon(text: string)
    ensures BeforeColon(text) <= text
    ensures ':' in text ==> text == BeforeColon(text) + ":" + AfterColon(text)
    ensures ':' !in text ==> AfterColon(text) == "" && BeforeColon(text) == text
    ensures |BeforeColon(text)| < |text| ==> text[|BeforeColon(text)|] == ':'
  {
    if text != [] {
      UpToColon(text[1..]);
      assert text == [text[0]] + text[1..];
    }
  }

  // ---- counting ----

  predicate Selected(e: Event, code: string, day: string, dayOf: int -> string) {
    e.shortCode == code && dayOf(e.timestamp) == day
  }

  function CountEvents(batch: seq<Event>, code: string, day: string, dayOf: int -> string, which: set<DeviceClass>): nat {
    if batch == [] then 0
    else
      var e := batch[|batch| - 1];
      CountEvents(batch[..|batch| - 1], code, day, dayOf, which)
      + if Selected(e, code, day, dayOf) && ClassOf(e) in which then 1 else 0
  }

  /** The same count over the detail rows that were inserted. */
  function CountDetails(rows: seq<Detail>, code: string, day: string, dayOf: int -> string, which: set<DeviceClass>): nat {
    if rows == [] then 0
    else
      var r := rows[|rows| - 1];
      CountDetails(rows[..|rows| - 1], code, day, dayOf, which)
      + if r.code == code && dayOf(r.timestamp) == day && r.device in which then 1 else 0
  }

  const ALL_CLASSES: set<DeviceClass> := {Mobile, Tablet, Desktop}

  function CountOf(u: Daily, which: set<DeviceClass>): nat {
    (if Mobile in which then u.mobile else 0) + (if Tablet in which then u.tablet else 0)
    + if Desktop in which then u.desktop else 0
  }

  function Tally(updates: seq<Daily>, code: string, day: string, which: set<DeviceClass>): nat {
    if updates == [] then 0
    else
      var u := updates[|updates| - 1];
      Tally(updates[..|updates| - 1], code, day, which)
      + if u.code == code && u.day == day then CountOf(u, which) else 0
  }

  function OfKey(batch: seq<Event>, key: string, dayOf: int -> string): seq<Event> {
    if batch == [] then []
    else
      OfKey(batch[..|batch| - 1], key, dayOf)
      + if DayKey(batch[|batch| - 1], dayOf) == key then [batch[|batch| - 1]] else []
  }

  function CountClass(events: seq<Event>, device: DeviceClass): nat {
    if events == [] then 0
    else CountClass(events[..|events| - 1], device) + if ClassOf(events[|events| - 1]) == device then 1 else 0
  }

  function DailyOf(key: string, events: seq<Event>): Daily {
    Daily(SplitKey(key).0, SplitKey(key).1, |events|,
          CountClass(events, Mobile), CountClass(events, Tablet), CountClass(events, Desktop))
  }

  // ---- the method ----

  ghost predicate Distinct(keys: seq<string>) {
    forall i, j :: 0 <= i < j < |keys| ==> keys[i] != keys[j]
  }

  ghost predicate KeyOccurs(batch: seq<Event>, key: string, dayOf: int -> string) {
    exists i :: 0 <= i < |batch| && DayKey(batch[i], dayOf) == key
  }

  lemma KeyOccursNext(batch: seq<Event>, i: nat, key: string, dayOf: int -> string)
    requires i < |batch|
    ensures KeyOccurs(batch[..i + 1], key, dayOf) <==> KeyOccurs(batch[..i], key, dayOf) || DayKey(batch[i], dayOf) == key
    ensures OfKey(batch[..i + 1], key, dayOf)
         == OfKey(batch[..i], key, dayOf) + if DayKey(batch[i], dayOf) == key then [batch[i]] else []
  {
    hide DayKey;
    var b := batch[..i + 1];
    assert b[..i] == batch[..i] && b[i] == batch[i];
    if KeyOccurs(batch[..i], key, dayOf) {
      var n :| 0 <= n < i && DayKey(batch[..i][n], dayOf) == key;
      assert DayKey(b[n], dayOf) == key;
    }
    if DayKey(batch[i], dayOf) == key {
      assert DayKey(b[i], dayOf) == key;
    }
    if KeyOccurs(b, key, dayOf) {
      var n :| 0 <= n <= i && DayKey(b[n], dayOf) == key;
      assert n < i ==> DayKey(batch[..i][n], dayOf) == key;
    }
  }

  /** The queries of a batch: details in order, and one update for each key in order of first appearance. */
  ghost predicate QueriesOf(batch: seq<Event>, dayOf: int -> string,
                            details: seq<Detail>, keys: seq<string>, updates: seq<Daily>) {
    && |details| == |batch| && (forall i :: 0 <= i < |batch| ==> details[i] == DetailOf(batch[i]))
    && Distinct(keys)
    && (forall k :: k in keys <==> KeyOccurs(batch, k, dayOf))
    && |updates| == |keys| && forall j :: 0 <= j < |keys| ==> updates[j] == DailyOf(keys[j], OfKey(batch, keys[j], dayOf))
  }

  method GroupByDay(batch: seq<Event>, dayOf: int -> string)
    returns (keys: seq<string>, byDay: map<string, seq<Event>>)
    ensures Distinct(keys) && forall k :: k in keys <==> KeyOccurs(batch, k, dayOf)
    ensures forall k :: k in keys <==> k in byDay
    ensures forall k :: k in byDay ==> byDay[k] == OfKey(batch, k, dayOf)
  {
    hide DayKey, KeyOccurs, OfKey;
    keys, byDay := [], map[];
    forall k
      ensures !KeyOccurs(batch[..0], k, dayOf) && OfKey(batch[..0], k, dayOf) == []
    {
      NothingOccurs(batch, k, dayOf);
    }
    for i := 0 to |batch|
      invariant Distinct(keys) && forall k :: k in keys <==> KeyOccurs(batch[..i], k, dayOf)
      invariant forall k :: k in keys <==> k in byDay
      invariant forall k :: OfKey(batch[..i], k, dayOf) == if k in byDay then byDay[k] else []
    {
      var event := batch[i];
      var key := DayKey(event, dayOf);
      forall k
        ensures KeyOccurs(batch[..i + 1], k, dayOf) <==> KeyOccurs(batch[..i], k, dayOf) || key == k
        ensures OfKey(batch[..i + 1], k, dayOf) == OfKey(batch[..i], k, dayOf) + if key == k then [event] else []
      {
        KeyOccursNext(batch, i, k, dayOf);
      }
      if key !in byDay {
        keys, byDay := keys + [key], byDay[key := []];
      }
      byDay := byDay[key := byDay[key] + [event]];
    }
    assert batch[..|batch|] == batch;
  }

  lemma NothingOccurs(batch: seq<Event>, key: string, dayOf: int -> string)
    ensures !KeyOccurs(batch[..0], key, dayOf) && OfKey(batch[..0], key, dayOf) == []
  {
  }

  // ---- counting by what the metadata says ----

  predicate OnMobile(e: Event) {
    e.metadata.device.Some? && e.metadata.device.value.isMobile
  }

  predicate OnTablet(e: Event) {
    e.metadata.device.Some? && e.metadata.device.value.isTablet && !e.metadata.device.value.isMobile
  }

  predicate OnNeither(e: Event) {
    e.metadata.device == None || e.metadata.device == Some(Device(false, false))
  }

  function CountWhere(events: seq<Event>, p: Event -> bool): nat {
    if events == [] then 0
    else CountWhere(events[..|events| - 1], p) + if p(events[|events| - 1]) then 1 else 0
  }

  lemma {:induction false} ClassesTold(events: seq<Event>)
    ensures CountClass(events, Mobile) == CountWhere(events, OnMobile)
    ensures CountClass(events, Tablet) == CountWhere(events, OnTablet)
    ensures CountClass(events, Desktop) == CountWhere(events, OnNeither)
  {
    if events != [] {
      ClassesTold(events[..|events| - 1]);
    }
  }

  method CountDevices(events: seq<Event>) returns (mobile: nat, tablet: nat, desktop: nat)
    ensures mobile == CountWhere(events, OnMobile) == CountClass(events, Mobile)
    ensures tablet == CountWhere(events, OnTablet) == CountClass(events, Tablet)
    ensures desktop == CountWhere(events, OnNeither) == CountClass(events, Desktop)
  {
    mobile, tablet, desktop := 0, 0, 0;
    for i := 0 to |events|
      invariant mobile == CountWhere(events[..i], OnMobile)
      invariant tablet == CountWhere(events[..i], OnTablet)
      invariant desktop == CountWhere(events[..i], OnNeither)
    {
      assert events[..i + 1][..i] == events[..i];
      var device := events[i].metadata.device;
      if device.Some? && device.value.isMobile {
        mobile := mobile + 1;
      } else if device.Some? && device.value.isTablet {
        tablet := tablet + 1;
      } else {
        desktop := desktop + 1;
      }
    }
    assert events[..|events|] == events;
    ClassesTold(events);
  }

  lemma DailyMade(key: string, events: seq<Event>)
    ensures DailyOf(key, events)
         == Daily(SplitKey(key).0, SplitKey(key).1, |events|,
                  CountClass(events, Mobile), CountClass(events, Tablet), CountClass(events, Desktop))
  {
  }

  method BuildQueries(batch: seq<Event>, dayOf: int -> string)
    returns (details: seq<Detail>, keys: seq<string>, updates: seq<Daily>)
    ensures QueriesOf(batch, dayOf, details, keys, updates)
  {
    hide OfKey, KeyOccurs, DailyOf, CountClass, CountWhere, SplitKey, DetailOf;
    var byDay;
    keys, byDay := GroupByDay(batch, dayOf);
    details := seq(|batch|, i requires 0 <= i < |batch| => DetailOf(batch[i]));
    updates := [];
    for j := 0 to |keys|
      invariant |updates| == j
      invariant forall n :: 0 <= n < j ==> updates[n] == DailyOf(keys[n], OfKey(batch, keys[n], dayOf))
    {
      var events := byDay[keys[j]];
      var (code, day) := SplitKey(keys[j]);
      var mobile, tablet, desktop := CountDevices(events);
      DailyMade(keys[j], events);
      updates := updates + [Daily(code, day, |events|, mobile, tablet, desktop)];
    }
  }

  /**
   What each query says: an insert has the code, the time and the user agent of its event, and
   its device by the metadata, mobile before tablet before desktop; an update has the numbers of
   events of its key whose metadata say mobile, tablet but not mobile, and neither.
   */
  lemma QueriesTold(batch: seq<Event>, dayOf: int -> string, details: seq<Detail>, keys: seq<string>, updates: seq<Daily>)
    requires QueriesOf(batch, dayOf, details, keys, updates)
    ensures forall i :: 0 <= i < |batch| ==>
              var e := batch[i];
              && details[i].code == e.shortCode && details[i].timestamp == e.timestamp
              && details[i].userAgent == e.metadata.userAgent
              && (details[i].device == Mobile <==> OnMobile(e))
              && (details[i].device == Tablet <==> OnTablet(e))
              && (details[i].device == Desktop <==> OnNeither(e))
    ensures forall j :: 0 <= j < |updates| ==>
              var events := OfKey(batch, keys[j], dayOf);
              && updates[j].total == |events|
              && updates[j].mobile == CountWhere(events, OnMobile)
              && updates[j].tablet == CountWhere(events, OnTablet)
              && updates[j].desktop == CountWhere(events, OnNeither)
  {
    hide KeyOccurs, Distinct;
    forall j | 0 <= j < |updates|
      ensures var events := OfKey(batch, keys[j], dayOf);
              && updates[j].mobile == CountWhere(events, OnMobile)
              && updates[j].tablet == CountWhere(events, OnTablet)
              && updates[j].desktop == CountWhere(events, OnNeither)
    {
      ClassesTold(OfKey(batch, keys[j], dayOf));
    }
  }

  /** The events of a key are those whose code, a colon and whose day make it up, in order. */
  lemma {:induction false} OfKeyTold(batch: seq<Event>, key: string, dayOf: int -> string, e: Event)
    ensures e in OfKey(batch, key, dayOf) <==> e in batch && e.shortCode + ":" + dayOf(e.timestamp) == key
  {
    assert e.shortCode + ":" + dayOf(e.timestamp) == DayKey(e, dayOf);
    if batch != [] {
      OfKeyTold(batch[..|batch| - 1], key, dayOf, e);
      assert batch == batch[..|batch| - 1] + [batch[|batch| - 1]];
    }
  }

  // ---- what the queries add up to ----

  lemma {:induction false} ClassesAddUp(events: seq<Event>)
    ensures CountClass(events, Mobile) + CountClass(events, Tablet) + CountClass(events, Desktop) == |events|
  {
    if events != [] {
      ClassesAddUp(events[..|events| - 1]);
    }
  }

  lemma {:induction false} DetailsCount(batch: seq<Event>, rows: seq<Detail>, code: string, day: string,
                                        dayOf: int -> string, which: set<DeviceClass>)
    requires |rows| == |batch| && forall i :: 0 <= i < |batch| ==> rows[i] == DetailOf(batch[i])
    ensures CountDetails(rows, code, day, dayOf, which) == CountEvents(batch, code, day, dayOf, which)
  {
    if batch != [] {
      DetailsCount(batch[..|batch| - 1], rows[..|rows| - 1], code, day, dayOf, which);
    }
  }

  lemma {:induction false} NoneCounted(batch: seq<Event>, code: string, day: string, dayOf: int -> string,
                                       which: set<DeviceClass>)
    requires forall i :: 0 <= i < |batch| ==> !Selected(batch[i], code, day, dayOf)
    ensures CountEvents(batch, code, day, dayOf, which) == 0
  {
    if batch != [] {
      NoneCounted(batch[..|batch| - 1], code, day, dayOf, which);
    }
  }

  ghost predicate ColonFree(batch: seq<Event>, dayOf: int -> string) {
    && (forall i :: 0 <= i < |batch| ==> ':' !in batch[i].shortCode)
    && forall t :: ':' !in dayOf(t)
  }

  /** A key of a colon-free event belongs to one code and one day. */
  lemma KeySelects(e: Event, f: Event, dayOf: int -> string)
    requires ColonFree([e, f], dayOf)
    ensures DayKey(e, dayOf) == DayKey(f, dayOf) <==> Selected(e, f.shortCode, dayOf(f.timestamp), dayOf)
  {
    assert ':' !in [e, f][0].shortCode && ':' !in [e, f][1].shortCode;
    SplitRecoversIff(e.shortCode, dayOf(e.timestamp));
    SplitRecoversIff(f.shortCode, dayOf(f.timestamp));
  }

  lemma {:induction false} OfKeyCounts(batch: seq<Event>, f: Event, dayOf: int -> string, which: set<DeviceClass>)
    requires ColonFree(batch, dayOf) && ':' !in f.shortCode
    ensures var events := OfKey(batch, DayKey(f, dayOf), dayOf);
            CountOf(DailyOf(DayKey(f, dayOf), events), which)
            == CountEvents(batch, f.shortCode, dayOf(f.timestamp), dayOf, which)
  {
    if batch != [] {
      var r, e := batch[..|batch| - 1], batch[|batch| - 1];
      OfKeyCounts(r, f, dayOf, which);
      KeySelects(e, f, dayOf);
      var events := OfKey(r, DayKey(f, dayOf), dayOf);
      assert (events + [e])[..|events|] == events;
      assert events + [] == events;
    }
  }

  lemma UpdateOf(batch: seq<Event>, key: string, e: Event, dayOf: int -> string)
    requires ColonFree([e], dayOf) && DayKey(e, dayOf) == key
    ensures var u := DailyOf(key, OfKey(batch, key, dayOf)); u.code == e.shortCode && u.day == dayOf(e.timestamp)
  {
    assert ':' !in [e][0].shortCode;
    SplitRecoversIff(e.shortCode, dayOf(e.timestamp));
  }

  /** The update of a key concerns exactly the events with that key, and counts them. */
  lemma UpdateCounts(batch: seq<Event>, key: string, f: Event, dayOf: int -> string, which: set<DeviceClass>)
    requires ColonFree(batch, dayOf) && ':' !in f.shortCode && KeyOccurs(batch, key, dayOf)
    ensures var u := DailyOf(key, OfKey(batch, key, dayOf));
            && (u.code == f.shortCode && u.day == dayOf(f.timestamp) <==> key == DayKey(f, dayOf))
            && (key == DayKey(f, dayOf) ==>
                  CountOf(u, which) == CountEvents(batch, f.shortCode, dayOf(f.timestamp), dayOf, which))
  {
    var i :| 0 <= i < |batch| && DayKey(batch[i], dayOf) == key;
    UpdateOf(batch, key, batch[i], dayOf);
    KeySelects(batch[i], f, dayOf);
    OfKeyCounts(batch, f, dayOf, which);
  }

  /** The updates up to `n` count what their keys count, each (code, day) at most once. */
  lemma {:induction false} TallyUpTo(batch: seq<Event>, keys: seq<string>, updates: seq<Daily>, n: nat,
                                     f: Event, dayOf: int -> string, which: set<DeviceClass>)
    requires ColonFree(batch, dayOf) && ':' !in f.shortCode && Distinct(keys)
    requires n <= |keys| == |updates|
    requires forall k :: k in keys <==> KeyOccurs(batch, k, dayOf)
    requires forall j :: 0 <= j < |keys| ==> updates[j] == DailyOf(keys[j], OfKey(batch, keys[j], dayOf))
    ensures Tally(updates[..n], f.shortCode, dayOf(f.timestamp), which)
         == if DayKey(f, dayOf) in keys[..n] then CountEvents(batch, f.shortCode, dayOf(f.timestamp), dayOf, which) else 0
  {
    hide DayKey, OfKey, CountEvents, SplitKey, CountOf, KeyOccurs, ColonFree, DailyOf;
    if n != 0 {
      TallyUpTo(batch, keys, updates, n - 1, f, dayOf, which);
      assert updates[..n][..n - 1] == updates[..n - 1];
      assert keys[..n] == keys[..n - 1] + [keys[n - 1]];
      assert keys[n - 1] in keys;
      UpdateCounts(batch, keys[n - 1], f, dayOf, which);
      assert forall j :: 0 <= j < n - 1 ==> keys[j] != keys[n - 1];
    }
  }

  /**
   Grouped updates refine counting one by one: with colon-free codes, the daily updates add up,
   for every code, day and choice of device classes, to what the detail rows count, and each
   update's device counts add up to its total.
   */
  lemma GroupedIsCounted(batch: seq<Event>, dayOf: int -> string, details: seq<Detail>, keys: seq<string>,
                         updates: seq<Daily>, code: string, day: string, which: set<DeviceClass>)
    requires QueriesOf(batch, dayOf, details, keys, updates) && ColonFree(batch, dayOf)
    ensures Tally(updates, code, day, which) == CountDetails(details, code, day, dayOf, which)
    ensures forall j :: 0 <= j < |updates| ==>
              updates[j].mobile + updates[j].tablet + updates[j].desktop == updates[j].total
  {
    DetailsCount(batch, details, code, day, dayOf, which);
    forall j | 0 <= j < |updates|
      ensures updates[j].mobile + updates[j].tablet + updates[j].desktop == updates[j].total
    {
      ClassesAddUp(OfKey(batch, keys[j], dayOf));
    }
    assert updates[..|keys|] == updates && keys[..|keys|] == keys;
    if i :| 0 <= i < |batch| && Selected(batch[i], code, day, dayOf) {
      TallyUpTo(batch, keys, updates, |keys|, batch[i], dayOf, which);
    } else {
      NoneCounted(batch, code, day, dayOf, which);
      NoUpdateFor(batch, keys, updates, |keys|, code, day, dayOf, which);
    }
  }

  lemma {:induction false} NoUpdateForColon(keys: seq<string>, updates: seq<Daily>, n: nat,
                                            code: string, day: string, which: set<DeviceClass>)
    requires n <= |keys| == |updates| && ':' in code
    requires forall j :: 0 <= j < |keys| ==> updates[j].code == SplitKey(keys[j]).0
    ensures Tally(updates[..n], code, day, which) == 0
  {
    if n != 0 {
      NoUpdateForColon(keys, updates, n - 1, code, day, which);
      assert updates[..n][..n - 1] == updates[..n - 1];
      NoColon(keys[n - 1]);
    }
  }

  lemma {:induction false} DetailCounted(rows: seq<Detail>, i: nat, dayOf: int -> string)
    requires i < |rows|
    ensures 0 < CountDetails(rows, rows[i].code, dayOf(rows[i].timestamp), dayOf, {rows[i].device})
  {
    if i < |rows| - 1 {
      DetailCounted(rows[..|rows| - 1], i, dayOf);
    }
  }

  /** The daily updates of a batch count, for every code, day and choice of classes, what its detail rows do. */
  ghost predicate CountsAgree(details: seq<Detail>, updates: seq<Daily>, dayOf: int -> string) {
    forall code, day, which :: Tally(updates, code, day, which) == CountDetails(details, code, day, dayOf, which)
  }

  /** Exactly the batches without a colon in any code are counted right. */
  lemma GroupedIsCountedIff(batch: seq<Event>, dayOf: int -> string, details: seq<Detail>, keys: seq<string>,
                            updates: seq<Daily>)
    requires QueriesOf(batch, dayOf, details, keys, updates) && forall t :: ':' !in dayOf(t)
    ensures CountsAgree(details, updates, dayOf) <==> forall i :: 0 <= i < |batch| ==> ':' !in batch[i].shortCode
  {
    hide Tally, CountDetails, OfKey, CountOf, SplitKey, KeyOccurs;
    if i :| 0 <= i < |batch| && ':' in batch[i].shortCode {
      var row := details[i];
      var day, which := dayOf(row.timestamp), {row.device};
      DetailCounted(details, i, dayOf);
      NoUpdateForColon(keys, updates, |keys|, row.code, day, which);
      assert updates[..|keys|] == updates;
      assert Tally(updates, row.code, day, which) != CountDetails(details, row.code, day, dayOf, which);
    } else {
      forall code, day, which
        ensures Tally(updates, code, day, which) == CountDetails(details, code, day, dayOf, which)
      {
        GroupedIsCounted(batch, dayOf, details, keys, updates, code, day, which);
      }
    }
  }

  lemma {:induction false} NoUpdateFor(batch: seq<Event>, keys: seq<string>, updates: seq<Daily>, n: nat,
                                       code: string, day: string, dayOf: int -> string, which: set<DeviceClass>)
    requires ColonFree(batch, dayOf) && n <= |keys| == |updates|
    requires forall k :: k in keys <==> KeyOccurs(batch, k, dayOf)
    requires forall j :: 0 <= j < |keys| ==> updates[j] == DailyOf(keys[j], OfKey(batch, keys[j], dayOf))
    requires forall i :: 0 <= i < |batch| ==> !Selected(batch[i], code, day, dayOf)
    ensures Tally(updates[..n], code, day, which) == 0
  {
    if n != 0 {
      NoUpdateFor(batch, keys, updates, n - 1, code, day, dayOf, which);
      assert updates[..n][..n - 1] == updates[..n - 1];
      assert keys[n - 1] in keys;
      var i :| 0 <= i < |batch| && DayKey(batch[i], dayOf) == keys[n - 1];
      UpdateOf(batch, keys[n - 1], batch[i], dayOf);
    }
  }

  lemma LastCounts(batch: seq<Event>, e: Event, code: string, day: string, dayOf: int -> string, which: set<DeviceClass>)
    ensures CountEvents(batch + [e], code, day, dayOf, which)
         == CountEvents(batch, code, day, dayOf, which)
            + if Selected(e, code, day, dayOf) && ClassOf(e) in which then 1 else 0
  {
    assert (batch + [e])[..|batch|] == batch;
  }

  lemma PairLast(batch: seq<Event>)
    requires Paired(batch) && batch != []
    ensures var n := |batch|;
            2 <= n && Paired(batch[..n - 2]) && IsEnriched(batch[n - 2], batch[n - 1])
            && batch == batch[..n - 2] + [batch[n - 2]] + [batch[n - 1]]
  {
    var n := |batch|;
    assert PairEndsAt(batch, n - 1);
    forall i | 0 < i < |batch[..n - 2]| && i % 2 == 1
      ensures PairEndsAt(batch[..n - 2], i)
    {
      assert PairEndsAt(batch, i);
    }
  }

  function RawEvents(batch: seq<Event>): seq<Event> {
    if |batch| < 2 then [] else RawEvents(batch[..|batch| - 2]) + [batch[|batch| - 2]]
  }

  /** Since each event is buffered raw and enriched, every batch counts each event twice. */
  lemma {:induction false} PairsCountTwice(batch: seq<Event>, code: string, day: string, dayOf: int -> string)
    requires Paired(batch)
    ensures CountEvents(batch, code, day, dayOf, ALL_CLASSES)
         == 2 * CountEvents(RawEvents(batch), code, day, dayOf, ALL_CLASSES)
  {
    hide CountEvents, Selected, ClassOf;
    if batch == [] {
      NoneCounted(batch, code, day, dayOf, ALL_CLASSES);
      return;
    }
    PairLast(batch);
    var r, raw, enriched := batch[..|batch| - 2], batch[|batch| - 2], batch[|batch| - 1];
    PairsCountTwice(r, code, day, dayOf);
    LastCounts(r, raw, code, day, dayOf, ALL_CLASSES);
    LastCounts(r + [raw], enriched, code, day, dayOf, ALL_CLASSES);
    LastCounts(RawEvents(r), raw, code, day, dayOf, ALL_CLASSES);
    SelectedAlike(raw, enriched, code, day, dayOf);
  }

  lemma SelectedAlike(raw: Event, enriched: Event, code: string, day: string, dayOf: int -> string)
    requires IsEnriched(raw, enriched)
    ensures Selected(raw, code, day, dayOf) <==> Selected(enriched, code, day, dayOf)
    ensures ClassOf(raw) in ALL_CLASSES && ClassOf(enriched) in ALL_CLASSES
  {
  }

  function EnrichedEvents(batch: seq<Event>): seq<Event> {
    if |batch| < 2 then [] else EnrichedEvents(batch[..|batch| - 2]) + [batch[|batch| - 1]]
  }

  /**
   For every device class, a batch counts the raw copies by the device their producer gave,
   desktop if none, and the enriched copies by what the user agent says.
   */
  lemma {:induction false} PairsCountByClass(batch: seq<Event>, code: string, day: string, dayOf: int -> string,
                                             which: set<DeviceClass>)
    requires Paired(batch)
    ensures CountEvents(batch, code, day, dayOf, which)
         == CountEvents(RawEvents(batch), code, day, dayOf, which)
            + CountEvents(EnrichedEvents(batch), code, day, dayOf, which)
  {
    hide CountEvents, Selected, ClassOf;
    if batch == [] {
      NoneCounted(batch, code, day, dayOf, which);
      return;
    }
    PairLast(batch);
    var r, raw, enriched := batch[..|batch| - 2], batch[|batch| - 2], batch[|batch| - 1];
    PairsCountByClass(r, code, day, dayOf, which);
    LastCounts(r, raw, code, day, dayOf, which);
    LastCounts(r + [raw], enriched, code, day, dayOf, which);
    LastCounts(RawEvents(r), raw, code, day, dayOf, which);
    LastCounts(EnrichedEvents(r), enriched, code, day, dayOf, which);
  }

  /** Without a device from the producer, every raw copy counts as a desktop click. */
  lemma {:induction false} RawCountAsDesktop(batch: seq<Event>, code: string, day: string, dayOf: int -> string)
    requires Paired(batch)
    requires forall i :: 0 <= i < |batch| && i % 2 == 0 ==> batch[i].metadata.device.None?
    ensures CountEvents(RawEvents(batch), code, day, dayOf, {Desktop})
         == CountEvents(RawEvents(batch), code, day, dayOf, ALL_CLASSES)
  {
    hide CountEvents, Selected;
    if batch == [] {
      NoneCounted(batch, code, day, dayOf, ALL_CLASSES);
      NoneCounted(batch, code, day, dayOf, {Desktop});
      return;
    }
    PairLast(batch);
    var r, raw := batch[..|batch| - 2], batch[|batch| - 2];
    RawCountAsDesktop(r, code, day, dayOf);
    LastCounts(RawEvents(r), raw, code, day, dayOf, {Desktop});
    LastCounts(RawEvents(r), raw, code, day, dayOf, ALL_CLASSES);
  }
}
