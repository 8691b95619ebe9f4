/**
 `ClickProcessorService`: its two buffers and its dead-letter `Map`, changed in place.  Each
 method is one stretch between `await` points and is proved to take the step of the machine
 in `PipelineModel` that carries its name; what a suspended call keeps is returned.
 */
module ClickProcessor {
  import opened Common
  import opened PipelineModel
  import opened PipelineFates
  import opened DeadLetterKeys

  /** One entry of the dead-letter `Map`, which is kept in insertion order. */
  datatype Slot = Slot(key: string, event: Event, failures: nat)

  function KindOf(key: string): Kind {
    if CLICK_PREFIX <= key then Click else Analytics
  }

  function ItemOf(slot: Slot): Item {
    Item(KindOf(slot.key), slot.event, slot.failures)
  }

  function ItemsOf(slots: seq<Slot>): (items: seq<Item>)
    ensures |items| == |slots|
    ensures forall i :: 0 <= i < |slots| ==> items[i] == ItemOf(slots[i])
  {
    if slots == [] then [] else ItemsOf(slots[..|slots| - 1]) + [ItemOf(slots[|slots| - 1])]
  }

  /** The key is the one computed from the event itself. */
  ghost predicate SlotOk(slot: Slot) {
    slot.key == KeyText(KeyOf(ItemOf(slot)))
  }

  ghost predicate SlotsOk(slots: seq<Slot>) {
    && (forall i :: 0 <= i < |slots| ==> SlotOk(slots[i]))
    && (forall i, j :: 0 <= i < j < |slots| ==> slots[i].key != slots[j].key)
  }

  function Position(slots: seq<Slot>, key: string): (p: nat)
    ensures p <= |slots|
    ensures p < |slots| ==> slots[p].key == key
    ensures forall i :: 0 <= i < p ==> slots[i].key != key
  {
    if slots == [] then 0
    else if slots[0].key == key then 0
    else 1 + Position(slots[1..], key)
  }

  function MakeSlot(kind: Kind, event: Event, failures: nat): Slot {
    Slot(KeyText(Key(kind, event.shortCode, event.timestamp)), event, failures)
  }

  lemma MakeSlotOk(kind: Kind, event: Event, failures: nat)
    ensures SlotOk(MakeSlot(kind, event, failures))
    ensures ItemOf(MakeSlot(kind, event, failures)) == Item(kind, event, failures)
  {
    PrefixTellsKind(Key(kind, event.shortCode, event.timestamp));
  }

  /** Looking a key up by its text finds the same entry as looking it up by its parts. */
  lemma PositionIsIndex(slots: seq<Slot>, k: Key)
    requires forall i :: 0 <= i < |slots| ==> SlotOk(slots[i])
    ensures Position(slots, KeyText(k)) == IndexOf(ItemsOf(slots), k)
  {
    hide KeyText, KindOf;
    var p, q := Position(slots, KeyText(k)), IndexOf(ItemsOf(slots), k);
    if p < |slots| {
      KeyTextInjective(KeyOf(ItemOf(slots[p])), k);
    }
    if q < |slots| {
      KeyTextInjective(KeyOf(ItemOf(slots[q])), k);
    }
  }

  lemma ItemsUpdate(slots: seq<Slot>, p: nat, x: Slot)
    requires p < |slots|
    ensures ItemsOf(slots[p := x]) == ItemsOf(slots)[p := ItemOf(x)]
  {
  }

  lemma ItemsAppend(slots: seq<Slot>, x: Slot)
    ensures ItemsOf(slots + [x]) == ItemsOf(slots) + [ItemOf(x)]
  {
    assert (slots + [x])[..|slots|] == slots;
  }

  /** `Map.set`: an existing key keeps its place, a new one goes last. */
  function MapSet(slots: seq<Slot>, x: Slot): seq<Slot> {
    var p := Position(slots, x.key);
    if p < |slots| then slots[p := x] else slots + [x]
  }

  lemma MapSetOk(slots: seq<Slot>, x: Slot)
    requires SlotsOk(slots) && SlotOk(x)
    ensures SlotsOk(MapSet(slots, x))
  {
    hide SlotOk;
  }

  lemma MapSetMatches(slots: seq<Slot>, x: Slot)
    requires SlotsOk(slots) && SlotOk(x)
    ensures var k, q := KeyOf(ItemOf(x)), ItemsOf(slots);
            ItemsOf(MapSet(slots, x)) == if IndexOf(q, k) < |q| then q[IndexOf(q, k) := ItemOf(x)] else q + [ItemOf(x)]
  {
    PositionIsIndex(slots, KeyOf(ItemOf(x)));
    hide KeyText, KindOf;
    var p := Position(slots, x.key);
    if p < |slots| {
      ItemsUpdate(slots, p, x);
    } else {
      ItemsAppend(slots, x);
    }
  }

  /** The entry a failed flush leaves under the key of one of its events. */
  function BumpedSlot(slots: seq<Slot>, kind: Kind, event: Event): Slot {
    var p := Position(slots, KeyText(Key(kind, event.shortCode, event.timestamp)));
    if p < |slots| then slots[p].(failures := slots[p].failures + 1) else MakeSlot(kind, event, 1)
  }

  lemma OwnKey(slot: Slot, k: Key)
    requires SlotOk(slot) && slot.key == KeyText(k)
    ensures KeyOf(ItemOf(slot)) == k && KindOf(slot.key) == k.kind
    ensures SlotOk(slot.(failures := slot.failures + 1))
    ensures ItemOf(slot.(failures := slot.failures + 1)) == Failed(ItemOf(slot))
  {
    KeyTextInjective(KeyOf(ItemOf(slot)), k);
    hide KeyText, KindOf;
  }

  lemma BumpedSlotOk(slots: seq<Slot>, kind: Kind, event: Event)
    requires SlotsOk(slots)
    ensures var x, k := BumpedSlot(slots, kind, event), Key(kind, event.shortCode, event.timestamp);
            var p := Position(slots, KeyText(k));
            && SlotOk(x) && KeyOf(ItemOf(x)) == k
            && ItemOf(x) == if p < |slots| then Failed(ItemOf(slots[p])) else Item(kind, event, 1)
  {
    hide KeyText, KindOf, Position, SlotOk, ItemOf, MakeSlot;
    var k := Key(kind, event.shortCode, event.timestamp);
    var p := Position(slots, KeyText(k));
    MakeSlotOk(kind, event, 1);
    if p < |slots| {
      assert SlotOk(slots[p]);
      OwnKey(slots[p], k);
    }
  }

  lemma BumpMatches(slots: seq<Slot>, kind: Kind, event: Event, r: Queued)
    requires SlotsOk(slots) && r.dlq == ItemsOf(slots)
    ensures SlotOk(BumpedSlot(slots, kind, event))
    ensures ItemsOf(MapSet(slots, BumpedSlot(slots, kind, event))) == Bump(r, Item(kind, event, 0)).dlq
  {
    var k := Key(kind, event.shortCode, event.timestamp);
    var x := BumpedSlot(slots, kind, event);
    BumpedSlotOk(slots, kind, event);
    PositionIsIndex(slots, k);
    MapSetMatches(slots, x);
    var q, p := ItemsOf(slots), IndexOf(ItemsOf(slots), k);
    assert p < |slots| ==> q[p] == ItemOf(slots[p]);
    hide KeyText, KindOf, BumpedSlot, MapSet, SlotOk, SlotsOk, IndexOf, ItemsOf, ItemOf, Position;
    assert KeyOf(Item(kind, event, 0)) == k;
    assert Bump(r, Item(kind, event, 0)).dlq == if p < |q| then q[p := ItemOf(x)] else q + [ItemOf(x)];
  }

  lemma PutMatches(slots: seq<Slot>, x: Slot, r: Queued)
    requires SlotsOk(slots) && r.dlq == ItemsOf(slots) && SlotOk(x)
    requires SlotOk(x.(failures := x.failures + 1))
    ensures ItemsOf(MapSet(slots, x.(failures := x.failures + 1))) == Put(r, ItemOf(x)).dlq
  {
    hide KeyText, KindOf;
    MapSetMatches(slots, x.(failures := x.failures + 1));
  }

  // ---- splitting the queue ----

  predicate Open(slot: Slot) {
    slot.failures < DEAD_LETTER_THRESHOLD
  }

  function Kept(slots: seq<Slot>, open: bool): seq<Slot> {
    if slots == [] then []
    else Kept(slots[..|slots| - 1], open) + if Open(slots[|slots| - 1]) == open then [slots[|slots| - 1]] else []
  }

  function OfKind(slots: seq<Slot>, kind: Kind): seq<Slot> {
    if slots == [] then []
    else OfKind(slots[..|slots| - 1], kind) + if KindOf(slots[|slots| - 1].key) == kind then [slots[|slots| - 1]] else []
  }

  lemma {:induction false} OfKindAppend(slots: seq<Slot>, x: Slot, kind: Kind)
    ensures OfKind(slots + [x], kind) == OfKind(slots, kind) + if KindOf(x.key) == kind then [x] else []
  {
    assert (slots + [x])[..|slots|] == slots;
  }

  lemma {:induction false} RetryablesMatch(slots: seq<Slot>, kind: Kind)
    ensures ItemsOf(OfKind(Kept(slots, true), kind)) == Retryable(kind, ItemsOf(slots))
  {
    hide KindOf;
    if slots != [] {
      var r, x := slots[..|slots| - 1], slots[|slots| - 1];
      RetryablesMatch(r, kind);
      var q := ItemsOf(slots);
      assert q[..|q| - 1] == ItemsOf(r) && q[|q| - 1] == ItemOf(x);
      var k := Kept(r, true);
      OfKindAppend(k, x, kind);
      ItemsAppend(OfKind(k, kind), x);
      assert OfKind(k, kind) + [] == OfKind(k, kind) && k + [] == k;
      assert Retryable(kind, ItemsOf(r)) + [] == Retryable(kind, ItemsOf(r));
      hide Kept, OfKind, Retryable, ItemsOf;
    }
  }

  lemma {:induction false} ExhaustedMatch(slots: seq<Slot>)
    ensures ItemsOf(Kept(slots, false)) == Exhausted(ItemsOf(slots))
  {
    hide KindOf;
    if slots != [] {
      var r, x := slots[..|slots| - 1], slots[|slots| - 1];
      ExhaustedMatch(r);
      assert ItemsOf(slots)[..|ItemsOf(r)|] == ItemsOf(r);
      var k := Kept(r, false);
      if Open(x) {
        assert k + [] == k;
      } else {
        ItemsAppend(k, x);
      }
    }
  }

  lemma {:induction false} KeptFrom(slots: seq<Slot>, open: bool)
    ensures forall x :: x in slots && Open(x) == open <==> x in Kept(slots, open)
  {
    if slots != [] {
      KeptFrom(slots[..|slots| - 1], open);
      assert slots == slots[..|slots| - 1] + [slots[|slots| - 1]];
    }
  }

  function KeysOf(slots: seq<Slot>): set<string> {
    set x | x in slots :: x.key
  }

  /** What is left of a `Map` after deleting some keys. */
  function Without(slots: seq<Slot>, gone: set<string>): seq<Slot> {
    if slots == [] then []
    else Without(slots[..|slots| - 1], gone) + if slots[|slots| - 1].key in gone then [] else [slots[|slots| - 1]]
  }

  lemma {:induction false} WithoutTwice(slots: seq<Slot>, a: set<string>, b: set<string>)
    ensures Without(Without(slots, a), b) == Without(slots, a + b)
  {
    if slots != [] {
      var r, x := slots[..|slots| - 1], slots[|slots| - 1];
      WithoutTwice(r, a, b);
      if x.key !in a {
        assert (Without(r, a) + [x])[..|Without(r, a)|] == Without(r, a);
      } else {
        assert Without(r, a) + [] == Without(r, a);
      }
    }
  }

  lemma {:induction false} WithoutNone(slots: seq<Slot>)
    ensures Without(slots, {}) == slots
  {
    if slots != [] {
      WithoutNone(slots[..|slots| - 1]);
    }
  }

  lemma {:induction false} WithoutAll(slots: seq<Slot>, gone: set<string>)
    requires forall i :: 0 <= i < |slots| ==> slots[i].key in gone
    ensures Without(slots, gone) == []
  {
    if slots != [] {
      WithoutAll(slots[..|slots| - 1], gone);
    }
  }

  lemma {:induction false} OfKindFrom(slots: seq<Slot>, kind: Kind)
    ensures forall i :: 0 <= i < |OfKind(slots, kind)| ==>
              OfKind(slots, kind)[i] in slots && KindOf(OfKind(slots, kind)[i].key) == kind
  {
    hide KindOf;
    if slots != [] {
      OfKindFrom(slots[..|slots| - 1], kind);
    }
  }

  class ClickProcessorService {
    var clickBuffer: seq<Event>
    var analyticsBuffer: seq<Event>
    var deadLetterQueue: seq<Slot>

    ghost predicate Valid()
      reads this
    {
      SlotsOk(deadLetterQueue)
    }

    /** The fields are what the step machine says they are. */
    ghost predicate Shows(s: State)
      reads this
    {
      s.clickBuffer == clickBuffer && s.analyticsBuffer == analyticsBuffer && s.dlq == ItemsOf(deadLetterQueue)
    }

    constructor ()
      ensures Valid() && Shows(Init())
    {
      clickBuffer, analyticsBuffer, deadLetterQueue := [], [], [];
    }

    method FlushClickBuffer(ghost s: State) returns (batch: seq<Event>)
      requires Valid() && Shows(s)
      modifies this`clickBuffer
      ensures Valid() && Shows(StartFlush(s, Click))
      ensures StartFlush(s, Click).jobs == s.jobs + if batch == [] then [] else [Flush(Click, batch, 0)]
      ensures |old(clickBuffer)| <= 100 ==> batch == old(clickBuffer) && clickBuffer == []
    {
      if |clickBuffer| == 0 {
        return [];
      }
      var n := Min(BATCH_SIZE, |clickBuffer|);
      batch, clickBuffer := clickBuffer[..n], clickBuffer[n..];
    }

    method FlushAnalyticsBuffer(ghost s: State) returns (batch: seq<Event>)
      requires Valid() && Shows(s)
      modifies this`analyticsBuffer
      ensures Valid() && Shows(StartFlush(s, Analytics))
      ensures StartFlush(s, Analytics).jobs == s.jobs + if batch == [] then [] else [Flush(Analytics, batch, 0)]
      ensures |old(analyticsBuffer)| <= 100 ==> batch == old(analyticsBuffer) && analyticsBuffer == []
    {
      if |analyticsBuffer| == 0 {
        return [];
      }
      var n := Min(BATCH_SIZE, |analyticsBuffer|);
      batch, analyticsBuffer := analyticsBuffer[..n], analyticsBuffer[n..];
    }

    method ProcessClickEvent(event: Event, ghost s: State) returns (batch: seq<Event>)
      requires Valid() && Shows(s)
      modifies this`clickBuffer
      ensures Valid() && Shows(Apply(s, ClickArrives(event)))
      ensures Apply(s, ClickArrives(event)).jobs == s.jobs + if batch == [] then [] else [Flush(Click, batch, 0)]
      ensures |old(clickBuffer)| + 1 < 100 ==> batch == [] && clickBuffer == old(clickBuffer) + [event]
      ensures |old(clickBuffer)| + 1 == 100 ==> batch == old(clickBuffer) + [event] && clickBuffer == []
    {
      ghost var all := clickBuffer + [event];
      assert all[..|all|] == all && all[|all|..] == [];
      clickBuffer := clickBuffer + [event];
      batch := [];
      if |clickBuffer| >= BATCH_SIZE {
        batch := FlushClickBuffer(Pushed(s, Click, [event]));
      }
    }

    method ProcessAnalyticsEvent(event: Event, device: Device, ghost s: State) returns (batch: seq<Event>)
      requires Valid() && Shows(s)
      modifies this`analyticsBuffer
      ensures Valid() && Shows(Apply(s, AnalyticsArrives(event, device)))
      ensures Apply(s, AnalyticsArrives(event, device)).jobs
           == s.jobs + if batch == [] then [] else [Flush(Analytics, batch, 0)]
      ensures |old(analyticsBuffer)| + 2 < 100 ==>
        batch == [] && analyticsBuffer == old(analyticsBuffer) + [event, Enrich(event, device)]
      ensures |old(analyticsBuffer)| + 2 == 100 ==>
        batch == old(analyticsBuffer) + [event, Enrich(event, device)] && analyticsBuffer == []
    {
      ghost var all := analyticsBuffer + [event, Enrich(event, device)];
      assert all[..|all|] == all && all[|all|..] == [];
      analyticsBuffer := analyticsBuffer + [event];
      var enriched := Enrich(event, device);
      analyticsBuffer := analyticsBuffer + [enriched];
      assert analyticsBuffer == old(analyticsBuffer) + [event, enriched];
      batch := [];
      if |analyticsBuffer| >= BATCH_SIZE {
        batch := FlushAnalyticsBuffer(Pushed(s, Analytics, [event, enriched]));
      }
    }

    /** The save call of a flush has failed for good: every event goes to the dead-letter queue. */
    method FlushFailed(kind: Kind, batch: seq<Event>)
      requires Valid()
      modifies this`deadLetterQueue
      ensures Valid()
      ensures ItemsOf(deadLetterQueue) == BumpAll(old(ItemsOf(deadLetterQueue)), Lift(kind, batch)).dlq
    {
      ghost var q := ItemsOf(deadLetterQueue);
      for i := 0 to |batch|
        invariant Valid()
        invariant ItemsOf(deadLetterQueue) == BumpAll(q, Lift(kind, batch[..i])).dlq
      {
        var event := batch[i];
        BumpAllNext(q, kind, batch, i);
        BumpMatches(deadLetterQueue, kind, event, BumpAll(q, Lift(kind, batch[..i])));
        MapSetOk(deadLetterQueue, BumpedSlot(deadLetterQueue, kind, event));
        hide KeyText, KindOf, ItemsOf, BumpAll, SlotsOk, SlotOk, MapSet, Position, Bump;
        var key := KeyText(Key(kind, event.shortCode, event.timestamp));
        var p := Position(deadLetterQueue, key);
        if p < |deadLetterQueue| {
          var existing := deadLetterQueue[p];
          deadLetterQueue := MapSet(deadLetterQueue, existing.(failures := existing.failures + 1));
        } else {
          deadLetterQueue := MapSet(deadLetterQueue, Slot(key, event, 1));
        }
      }
      assert batch[..|batch|] == batch;
    }

    /** Splits the dead-letter queue into what is tried again and what has failed for good, and empties it. */
    method StartDeadLetterQueue(ghost s: State) returns (retryItems: seq<Slot>, failedItems: seq<Slot>)
      requires Valid() && Shows(s)
      modifies this`deadLetterQueue
      ensures Valid() && Shows(StartRetry(s)) && SlotsOk(retryItems)
      ensures s.dlq != [] ==>
        StartRetry(s).jobs == s.jobs
          + [Retry(ItemsOf(OfKind(retryItems, Click)), ItemsOf(OfKind(retryItems, Analytics)), ItemsOf(failedItems), 0)]
      ensures s.dlq == [] ==> retryItems == [] && failedItems == []
    {
      hide KeyText, KindOf, Kept, OfKind, Retryable, Exhausted, Without, SlotOk, ItemsOf;
      retryItems, failedItems := [], [];
      if |deadLetterQueue| == 0 {
        return;
      }
      retryItems, failedItems := SplitQueue();
      ghost var all := deadLetterQueue;
      RetryablesMatch(all, Click);
      RetryablesMatch(all, Analytics);
      ExhaustedMatch(all);
      KeptOk(all);
      DeletedAll(all);
      DeleteKeys(retryItems);
      DeleteKeys(failedItems);
    }

    method SplitQueue() returns (retryItems: seq<Slot>, failedItems: seq<Slot>)
      ensures retryItems == Kept(deadLetterQueue, true) && failedItems == Kept(deadLetterQueue, false)
    {
      retryItems, failedItems := [], [];
      for i := 0 to |deadLetterQueue|
        invariant retryItems == Kept(deadLetterQueue[..i], true)
        invariant failedItems == Kept(deadLetterQueue[..i], false)
      {
        assert deadLetterQueue[..i + 1][..i] == deadLetterQueue[..i];
        if deadLetterQueue[i].failures < DEAD_LETTER_THRESHOLD {
          retryItems := retryItems + [deadLetterQueue[i]];
        } else {
          failedItems := failedItems + [deadLetterQueue[i]];
        }
      }
      assert deadLetterQueue[..|deadLetterQueue|] == deadLetterQueue;
    }

    method DeleteKeys(items: seq<Slot>)
      modifies this`deadLetterQueue
      ensures deadLetterQueue == Without(old(deadLetterQueue), KeysOf(items))
    {
      WithoutNone(deadLetterQueue);
      assert KeysOf(items[..0]) == {};
      for i := 0 to |items|
        invariant deadLetterQueue == Without(old(deadLetterQueue), KeysOf(items[..i]))
      {
        WithoutTwice(old(deadLetterQueue), KeysOf(items[..i]), {items[i].key});
        assert items[..i + 1] == items[..i] + [items[i]];
        assert KeysOf(items[..i + 1]) == KeysOf(items[..i]) + {items[i].key};
        deadLetterQueue := Without(deadLetterQueue, {items[i].key});
      }
      assert items[..|items|] == items;
    }

    /** The retry of one kind has failed for good: its events go back with one failure more. */
    method RetryFailed(kind: Kind, retryItems: seq<Slot>)
      requires Valid() && SlotsOk(retryItems)
      modifies this`deadLetterQueue
      ensures Valid()
      ensures ItemsOf(deadLetterQueue)
           == PutAll(old(ItemsOf(deadLetterQueue)), ItemsOf(OfKind(retryItems, kind))).dlq
    {
      hide KeyText, KindOf, ItemsOf, PutAll, SlotsOk, SlotOk, OfKind, MapSet, Position, Put;
      ghost var q := ItemsOf(deadLetterQueue);
      assert PutAll(q, ItemsOf([])).dlq == q by { NothingPut(q); }
      var events := OfKind(retryItems, kind);
      OfKindFrom(retryItems, kind);
      for i := 0 to |events|
        invariant Valid()
        invariant ItemsOf(deadLetterQueue) == PutAll(q, ItemsOf(events[..i])).dlq
      {
        var event := events[i].event;
        RetriedSlot(retryItems, events[i]);
        RetryStep(deadLetterQueue, q, events, i);
        var key := KeyText(Key(kind, event.shortCode, event.timestamp));
        var found := Position(retryItems, key);
        var failures := if found < |retryItems| then retryItems[found].failures else 0;
        deadLetterQueue := MapSet(deadLetterQueue, Slot(key, event, failures + 1));
      }
      assert events[..|events|] == events;
    }

    /** Groups a batch by short code, so that each code needs one update. */
    method CountClicks(batch: seq<Event>) returns (clickCounts: map<string, nat>)
      ensures clickCounts.Keys == Codes(Lift(Click, batch))
      ensures forall c :: c in clickCounts ==> clickCounts[c] == ClicksFor(c, Lift(Click, batch))
    {
      clickCounts := map[];
      for i := 0 to |batch|
        invariant clickCounts.Keys == Codes(Lift(Click, batch[..i]))
        invariant forall c :: At(clickCounts, c) == ClicksFor(c, Lift(Click, batch[..i]))
      {
        var code := batch[i].shortCode;
        assert Lift(Click, batch[..i + 1]) == Lift(Click, batch[..i]) + [Item(Click, batch[i], 0)];
        assert Lift(Click, batch[..i + 1])[..i] == Lift(Click, batch[..i]);
        CodesAppend(Lift(Click, batch[..i]), Item(Click, batch[i], 0));
        var count := if code in clickCounts then clickCounts[code] else 0;
        clickCounts := clickCounts[code := count + 1];
      }
      assert batch[..|batch|] == batch;
    }
  }

  lemma BumpAllNext(q: seq<Item>, kind: Kind, batch: seq<Event>, i: nat)
    requires i < |batch|
    ensures BumpAll(q, Lift(kind, batch[..i + 1])) == Bump(BumpAll(q, Lift(kind, batch[..i])), Item(kind, batch[i], 0))
  {
    assert Lift(kind, batch[..i + 1])[..i] == Lift(kind, batch[..i]);
  }

  lemma NothingPut(q: seq<Item>)
    ensures PutAll(q, ItemsOf([])).dlq == q
  {
  }

  lemma PutAllNext(q: seq<Item>, slots: seq<Slot>, i: nat)
    requires i < |slots|
    ensures PutAll(q, ItemsOf(slots[..i + 1])) == Put(PutAll(q, ItemsOf(slots[..i])), ItemOf(slots[i]))
  {
    assert ItemsOf(slots[..i + 1])[..i] == ItemsOf(slots[..i]);
  }

  lemma RetryStep(slots: seq<Slot>, q: seq<Item>, events: seq<Slot>, i: nat)
    requires SlotsOk(slots) && i < |events| && ItemsOf(slots) == PutAll(q, ItemsOf(events[..i])).dlq
    requires SlotOk(events[i]) && SlotOk(events[i].(failures := events[i].failures + 1))
    ensures var slots' := MapSet(slots, events[i].(failures := events[i].failures + 1));
            SlotsOk(slots') && ItemsOf(slots') == PutAll(q, ItemsOf(events[..i + 1])).dlq
  {
    hide KeyText, KindOf, ItemsOf, PutAll, Put, MapSet, SlotOk, SlotsOk;
    PutAllNext(q, events, i);
    PutMatches(slots, events[i], PutAll(q, ItemsOf(events[..i])));
    MapSetOk(slots, events[i].(failures := events[i].failures + 1));
  }

  /** A retried event is found again under the key computed from it, with its own failure count. */
  lemma RetriedSlot(retryItems: seq<Slot>, x: Slot)
    requires SlotsOk(retryItems) && x in retryItems
    ensures x.key == KeyText(Key(KindOf(x.key), x.event.shortCode, x.event.timestamp))
    ensures SlotOk(x) && SlotOk(x.(failures := x.failures + 1))
    ensures var p := Position(retryItems, x.key); p < |retryItems| && retryItems[p] == x
  {
    FoundIt(retryItems, x);
    hide KeyText, KindOf, Position;
    var j :| 0 <= j < |retryItems| && retryItems[j] == x;
    assert SlotOk(retryItems[j]);
  }

  lemma CodesAppend(items: seq<Item>, x: Item)
    requires x.kind.Click?
    ensures Codes(items + [x]) == Codes(items) + {x.event.shortCode}
  {
    assert forall i :: i in items + [x] <==> i in items || i == x;
  }

  lemma {:induction false} KeptOk(slots: seq<Slot>)
    requires SlotsOk(slots)
    ensures SlotsOk(Kept(slots, true))
  {
    hide KeyText, KindOf;
    if slots != [] {
      KeptOk(slots[..|slots| - 1]);
      KeptFrom(slots[..|slots| - 1], true);
      var r, x := Kept(slots[..|slots| - 1], true), slots[|slots| - 1];
      assert forall i :: 0 <= i < |r| ==> r[i] in slots[..|slots| - 1];
    }
  }

  /** Deleting the keys of both halves leaves nothing. */
  lemma DeletedAll(all: seq<Slot>)
    ensures Without(Without(all, KeysOf(Kept(all, true))), KeysOf(Kept(all, false))) == []
  {
    KeptFrom(all, true);
    KeptFrom(all, false);
    WithoutTwice(all, KeysOf(Kept(all, true)), KeysOf(Kept(all, false)));
    forall i | 0 <= i < |all|
      ensures all[i].key in KeysOf(Kept(all, true)) + KeysOf(Kept(all, false))
    {
      assert all[i] in Kept(all, true) || all[i] in Kept(all, false);
    }
    WithoutAll(all, KeysOf(Kept(all, true)) + KeysOf(Kept(all, false)));
  }

  /** `find` among the retried items hits the item itself, because keys are its own and unique. */
  lemma FoundIt(retryItems: seq<Slot>, x: Slot)
    requires SlotsOk(retryItems) && x in retryItems
    ensures var p := Position(retryItems, x.key); p < |retryItems| && retryItems[p] == x
  {
    hide KeyText, KindOf;
    var i :| 0 <= i < |retryItems| && retryItems[i] == x;
    var p := Position(retryItems, x.key);
    assert p <= i;
    assert retryItems[p].key == retryItems[i].key;
  }
}
