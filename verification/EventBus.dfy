/** The in-process event bus: a bounded queue of trading tickets beside a map of
    coalesced pending events, two low-priority lanes with a bounded retained
    list each, and a wake flag for the general consumer.

    The functions give the bus as a value and one transition per uninterrupted
    stretch of code; the class of module EventBus performs the same stretches in place. */
module EventBusModel {
  import opened Prelude

  datatype Event = Event(
    mergeKey: Option<string>,
    dedupeKey: Option<string>,
    idempotencyKey: Option<string>,
    eventId: Option<string>,
    traceId: Option<string>,
    objectTag: string  // the text built from the object's address when every key is missing
  )

  datatype Publication = Publication(priority: int, event: Event)

  datatype Lane = Trading | Maintenance | Persistence

  datatype Retained = Retained(key: string, event: Event)

  datatype LowLane = LowLane(capacity: nat, queue: seq<Event>, retained: seq<Retained>) {
    predicate Full() { |queue| >= capacity }

    function Backlog(): seq<Event> { queue + EventsOf(retained) }
  }

  datatype BusState = BusState(
    tradingCapacity: nat,
    tickets: seq<string>,
    pending: map<string, Event>,
    maintenance: LowLane,
    persistence: LowLane,
    retainedCapacity: nat,
    paused: bool,
    wake: bool,
    sinkBound: bool,
    outbox: seq<Publication>
  ) {
    predicate TradingFull() { |tickets| >= tradingCapacity }
  }

  function FirstTruthy(candidates: seq<Option<string>>, otherwise: string): string {
    if candidates == [] then otherwise
    else if Truthy(candidates[0]) then candidates[0].value
    else FirstTruthy(candidates[1..], otherwise)
  }

  function TradingKey(e: Event): string {
    FirstTruthy([e.mergeKey, e.eventId], e.objectTag)
  }

  function Identity(e: Event): string {
    FirstTruthy([e.mergeKey, e.dedupeKey, e.idempotencyKey, e.eventId, e.traceId], e.objectTag)
  }

  function LaneOf(priority: int): Lane {
    if priority <= 1 then Trading else if priority == 2 then Maintenance else Persistence
  }

  function EventsOf(items: seq<Retained>): (events: seq<Event>)
    ensures |events| == |items|
  {
    if items == [] then [] else [items[0].event] + EventsOf(items[1..])
  }

  // ---- low-priority lanes ----

  /** Position of the first retained item with this key, or the length. */
  function SlotOf(items: seq<Retained>, key: string): (i: nat)
    ensures i <= |items|
    ensures forall j :: 0 <= j < i ==> items[j].key != key
    ensures i < |items| ==> items[i].key == key
  {
    if items == [] then 0
    else if items[0].key == key then 0
    else 1 + SlotOf(items[1..], key)
  }

  /** Keep an event that found no room: replace its namesake, else evict the oldest when full. */
  function Retain(items: seq<Retained>, capacity: nat, e: Event): seq<Retained>
    requires capacity > 0
  {
    var item := Retained(Identity(e), e);
    var i := SlotOf(items, item.key);
    if i < |items| then items[i := item]
    else (if |items| >= capacity then items[1..] else items) + [item]
  }

  /** Hand the oldest retained event to the queue. */
  function MoveOne(l: LowLane): LowLane
    requires l.retained != []
  {
    l.(queue := l.queue + [l.retained[0].event], retained := l.retained[1..])
  }

  /** Move retained events while the queue has room. */
  function FlushLane(l: LowLane): LowLane
    decreases |l.retained|
  {
    if l.retained == [] || l.Full() then l else FlushLane(MoveOne(l))
  }

  function Flush(b: BusState): BusState {
    if b.paused then b
    else
      var m, p := FlushLane(b.maintenance), FlushLane(b.persistence);
      b.(maintenance := m, persistence := p,
         wake := b.wake || m.queue != b.maintenance.queue || p.queue != b.persistence.queue)
  }

  // ---- publishing ----

  function Mirror(b: BusState, pub: Publication): BusState {
    if b.sinkBound then b.(outbox := b.outbox + [pub]) else b
  }

  /** An event whose key is already pending replaces the pending one; no new ticket. */
  function Coalesce(b: BusState, pub: Publication): BusState {
    Mirror(b.(pending := b.pending[TradingKey(pub.event) := pub.event], wake := true), pub)
  }

  /** The put and everything after it, which run without a suspension. */
  function Enqueue(b: BusState, pub: Publication): BusState {
    var key := TradingKey(pub.event);
    Mirror(b.(tickets := b.tickets + [key], pending := b.pending[key := pub.event], wake := true), pub)
  }

  function PublishLowLane(l: LowLane, paused: bool, retainedCapacity: nat, e: Event): LowLane
    requires retainedCapacity > 0
  {
    if paused || l.Full() then l.(retained := Retain(l.retained, retainedCapacity, e))
    else l.(queue := l.queue + [e])
  }

  function PublishLow(b: BusState, pub: Publication): BusState
    requires LaneOf(pub.priority) != Trading && b.retainedCapacity > 0
  {
    if LaneOf(pub.priority) == Maintenance then
      Mirror(b.(maintenance := PublishLowLane(b.maintenance, b.paused, b.retainedCapacity, pub.event), wake := true), pub)
    else if b.sinkBound then
      Mirror(b, pub)  // a bound sink is the persistence lane's only consumer
    else
      b.(persistence := PublishLowLane(b.persistence, b.paused, b.retainedCapacity, pub.event), wake := true)
  }

  function PublishNowait(b: BusState, pub: Publication): BusState
    requires b.retainedCapacity > 0
  {
    if LaneOf(pub.priority) != Trading then PublishLow(b, pub)
    else if TradingKey(pub.event) in b.pending then Coalesce(b, pub)
    else if b.TradingFull() then Mirror(b, pub)
    else Enqueue(b, pub)
  }

  /** A blocking publish suspends only on a trading event with a new key and a full queue. */
  predicate MustBlock(b: BusState, pub: Publication) {
    LaneOf(pub.priority) == Trading && TradingKey(pub.event) !in b.pending && b.TradingFull()
  }

  // ---- consuming ----

  /** Take tickets until one still has a pending event. */
  function PopTicket(tickets: seq<string>, pending: map<string, Event>): (seq<string>, map<string, Event>, Option<Event>)
  {
    if tickets == [] then ([], pending, None)
    else if tickets[0] in pending then (tickets[1..], pending - {tickets[0]}, Some(pending[tickets[0]]))
    else PopTicket(tickets[1..], pending)
  }

  function PopTrading(b: BusState): (BusState, Option<Event>) {
    var (tickets, pending, e) := PopTicket(b.tickets, b.pending);
    (b.(tickets := tickets, pending := pending), e)
  }

  function PopReady(b: BusState): (BusState, Option<Event>) {
    var (t, e) := PopTrading(b);
    if e.Some? then (t, e)
    else if t.maintenance.queue != [] then
      (t.(maintenance := t.maintenance.(queue := t.maintenance.queue[1..])), Some(t.maintenance.queue[0]))
    else if t.persistence.queue != [] then
      (t.(persistence := t.persistence.(queue := t.persistence.queue[1..])), Some(t.persistence.queue[0]))
    else (t, None)
  }

  /** One turn of the general consumer; without an event it clears the wake flag and suspends. */
  function NextEvent(b: BusState): (BusState, Option<Event>) {
    var (next, e) := PopReady(Flush(b));
    if e.Some? then (next, e) else (next.(wake := false), None)
  }

  /** One turn of the trading consumer; without an event it suspends on the empty queue. */
  function NextTrading(b: BusState): (BusState, Option<Event>) {
    var (next, e) := PopTrading(b);
    if e.Some? then (Flush(next), e) else (next, None)
  }

  function NextMaintenance(b: BusState): (BusState, Option<Event>) {
    if b.maintenance.queue == [] then (b, None)
    else (Flush(b.(maintenance := b.maintenance.(queue := b.maintenance.queue[1..]))), Some(b.maintenance.queue[0]))
  }

  function NextPersistence(b: BusState): (BusState, Option<Event>) {
    if b.persistence.queue == [] then (b, None)
    else (Flush(b.(persistence := b.persistence.(queue := b.persistence.queue[1..]))), Some(b.persistence.queue[0]))
  }

  function Pause(b: BusState): BusState { b.(paused := true) }

  function Resume(b: BusState): BusState { Flush(b.(paused := false)).(wake := true) }

  // ---- what events are taken for one another ----

  /** In the trading lane events with a merge key stand for one another exactly when it is the same; without merge keys
      the event's own id decides. A retained event gives way to one of the same merge key; only where neither has one to
      the same dedupe key, then idempotency key, then event id, then trace. */
  lemma KeysInFields(e: Event, f: Event)
    ensures Truthy(e.mergeKey) && Truthy(f.mergeKey) ==>
              && (TradingKey(e) == TradingKey(f) <==> e.mergeKey == f.mergeKey)
              && (Identity(e) == Identity(f) <==> e.mergeKey == f.mergeKey)
    ensures !Truthy(e.mergeKey) && !Truthy(f.mergeKey) ==>
              && (Truthy(e.eventId) && Truthy(f.eventId) ==> (TradingKey(e) == TradingKey(f) <==> e.eventId == f.eventId))
              && (Truthy(e.dedupeKey) && Truthy(f.dedupeKey) ==> (Identity(e) == Identity(f) <==> e.dedupeKey == f.dedupeKey))
              && (!Truthy(e.dedupeKey) && !Truthy(f.dedupeKey) ==>
                    && (Truthy(e.idempotencyKey) && Truthy(f.idempotencyKey) ==>
                          (Identity(e) == Identity(f) <==> e.idempotencyKey == f.idempotencyKey))
                    && (!Truthy(e.idempotencyKey) && !Truthy(f.idempotencyKey) ==>
                          && (Truthy(e.eventId) && Truthy(f.eventId) ==> (Identity(e) == Identity(f) <==> e.eventId == f.eventId))
                          && (!Truthy(e.eventId) && !Truthy(f.eventId) && Truthy(e.traceId) && Truthy(f.traceId) ==>
                                (Identity(e) == Identity(f) <==> e.traceId == f.traceId))))
  {
    TradingKeyIs(e);
    TradingKeyIs(f);
    IdentityIs(e);
    IdentityIs(f);
    hide TradingKey, Identity;
  }

  function Or(k: Option<string>, otherwise: string): string { if Truthy(k) then k.value else otherwise }

  lemma FirstOf(k: Option<string>, rest: seq<Option<string>>, otherwise: string)
    ensures FirstTruthy([k] + rest, otherwise) == Or(k, FirstTruthy(rest, otherwise))
  {
    assert ([k] + rest)[1..] == rest;
  }

  lemma TradingKeyIs(e: Event)
    ensures TradingKey(e) == Or(e.mergeKey, Or(e.eventId, e.objectTag))
  {
    FirstOf(e.mergeKey, [e.eventId], e.objectTag);
    FirstOf(e.eventId, [], e.objectTag);
    assert [e.mergeKey, e.eventId] == [e.mergeKey] + [e.eventId] && [e.eventId] == [e.eventId] + [];
  }

  lemma IdentityIs(e: Event)
    ensures Identity(e) == Or(e.mergeKey, Or(e.dedupeKey, Or(e.idempotencyKey, Or(e.eventId, Or(e.traceId, e.objectTag)))))
  {
    var t4: seq<Option<string>> := [e.traceId];
    var t3, t2, t1 := [e.eventId] + t4, [e.idempotencyKey, e.eventId, e.traceId], [e.dedupeKey, e.idempotencyKey, e.eventId, e.traceId];
    FirstOf(e.traceId, [], e.objectTag);
    FirstOf(e.eventId, t4, e.objectTag);
    FirstOf(e.idempotencyKey, t3, e.objectTag);
    FirstOf(e.dedupeKey, t2, e.objectTag);
    FirstOf(e.mergeKey, t1, e.objectTag);
    assert [e.traceId] + [] == t4 && t2 == [e.idempotencyKey] + t3 && t1 == [e.dedupeKey] + t2;
    assert [e.mergeKey, e.dedupeKey, e.idempotencyKey, e.eventId, e.traceId] == [e.mergeKey] + t1;
    hide FirstTruthy;
  }

  // ---- what every reachable bus satisfies ----

  ghost predicate LaneBounded(l: LowLane, retainedCapacity: nat) {
    && 0 < l.capacity && |l.queue| <= l.capacity
    && |l.retained| <= retainedCapacity
    && forall i, j :: 0 <= i < j < |l.retained| ==> l.retained[i].key != l.retained[j].key
  }

  ghost predicate Bounded(b: BusState) {
    && 0 < b.tradingCapacity && |b.tickets| <= b.tradingCapacity
    && 0 < b.retainedCapacity
    && LaneBounded(b.maintenance, b.retainedCapacity)
    && LaneBounded(b.persistence, b.retainedCapacity)
  }

  /** Every pending event can still be reached through a ticket. */
  ghost predicate Ticketed(b: BusState) {
    && (forall k :: k in b.pending ==> k in b.tickets)
    && (forall k :: k in b.pending ==> TradingKey(b.pending[k]) == k)
  }

  /** With the wake flag clear there is nothing a general consumer could be given. */
  ghost predicate Quiet(b: BusState) {
    !b.wake ==>
      && b.tickets == [] && b.maintenance.queue == [] && b.persistence.queue == []
      && (!b.paused ==> b.maintenance.retained == [] && b.persistence.retained == [])
  }

  ghost predicate Sound(b: BusState) {
    Bounded(b) && Ticketed(b) && Quiet(b)
  }

  // ---- lane laws ----

  /** A retained list keeps its bound and its distinct keys and holds the new event; every other
      item survives unless the list was full, the key new, and the item the oldest. */
  lemma RetainKeepsLane(items: seq<Retained>, capacity: nat, e: Event)
    requires 0 < capacity && |items| <= capacity
    requires forall i, j :: 0 <= i < j < |items| ==> items[i].key != items[j].key
    ensures var r := Retain(items, capacity, e);
      && |r| <= capacity
      && (forall i, j :: 0 <= i < j < |r| ==> r[i].key != r[j].key)
      && Retained(Identity(e), e) in r
      && (forall x :: x in r ==> x in items || x == Retained(Identity(e), e))
      && (forall x :: x in items && x.key != Identity(e) ==>
            x in r || (x == items[0] && |items| == capacity && forall y :: y in items ==> y.key != Identity(e)))
  {
    var r := Retain(items, capacity, e);
    var i := SlotOf(items, Identity(e));
    assert r[if i < |items| then i else |r| - 1] == Retained(Identity(e), e);
    forall x | x in items && x.key != Identity(e) && (x != items[0] || |items| < capacity || i < |items|)
      ensures x in r
    {
      var j :| 0 <= j < |items| && items[j] == x;
      assert r[if i < |items| || |items| < capacity then j else j - 1] == x;
    }
  }

  /** A flush neither loses, duplicates nor reorders an event, never overfills the queue and
      stops only when nothing is retained or no room is left. */
  lemma {:induction false} FlushLaneConserves(l: LowLane, retainedCapacity: nat)
    requires LaneBounded(l, retainedCapacity)
    ensures var f := FlushLane(l);
      && f.Backlog() == l.Backlog()
      && LaneBounded(f, retainedCapacity)
      && (f.retained == [] || f.Full())
      && |f.queue| >= |l.queue| && (|f.queue| == |l.queue| ==> f == l)
    decreases |l.retained|
  {
    if l.retained != [] && !l.Full() {
      var m := MoveOne(l);
      FlushLaneConserves(m, retainedCapacity);
      assert m.Backlog() == l.Backlog();
    }
  }

  /** A flush touches only the low lanes and the wake flag; a lane is left empty exactly when
      it had nothing queued and nothing it was free to move. */
  lemma FlushFrame(b: BusState)
    requires Bounded(b)
    ensures var f := Flush(b);
      && f.tickets == b.tickets && f.pending == b.pending && f.paused == b.paused
      && f.outbox == b.outbox && f.sinkBound == b.sinkBound
      && (f.maintenance.queue == [] <==> b.maintenance.queue == [] && (b.paused || b.maintenance.retained == []))
      && (f.persistence.queue == [] <==> b.persistence.queue == [] && (b.paused || b.persistence.retained == []))
  {
    FlushLaneConserves(b.maintenance, b.retainedCapacity);
    FlushLaneConserves(b.persistence, b.retainedCapacity);
  }

  lemma FlushKeepsSound(b: BusState)
    requires Bounded(b)
    ensures Bounded(Flush(b))
    ensures Ticketed(b) ==> Ticketed(Flush(b))
    ensures Quiet(b) ==> Quiet(Flush(b))
    ensures !b.paused ==> (Flush(b).maintenance.queue == [] ==> Flush(b).maintenance.retained == [])
    ensures !b.paused ==> (Flush(b).persistence.queue == [] ==> Flush(b).persistence.retained == [])
  {
    FlushLaneConserves(b.maintenance, b.retainedCapacity);
    FlushLaneConserves(b.persistence, b.retainedCapacity);
  }

  /** The trading pop comes back empty exactly when nothing is pending; otherwise it hands out
      the event of some pending key and forgets that key alone. */
  lemma {:induction false} PopTicketExact(tickets: seq<string>, pending: map<string, Event>)
    requires forall k :: k in pending ==> k in tickets
    ensures var (t, p, e) := PopTicket(tickets, pending);
      && (e.None? <==> pending == map[])
      && (forall k :: k in p ==> k in t)
      && |t| <= |tickets| && (e.None? ==> t == [] && p == pending)
      && (e.Some? ==> exists k :: k in pending && pending[k] == e.value && p == pending - {k})
  {
    if tickets == [] {
      assert pending == map[];
    } else if tickets[0] in pending {
      forall k | k in pending - {tickets[0]} ensures k in tickets[1..] {
        var i :| 0 <= i < |tickets| && tickets[i] == k;
        assert tickets[1..][i - 1] == k;
      }
    } else {
      forall k | k in pending ensures k in tickets[1..] {
        var i :| 0 <= i < |tickets| && tickets[i] == k;
        assert tickets[1..][i - 1] == k;
      }
      PopTicketExact(tickets[1..], pending);
    }
  }

  // ---- every transition keeps the bus sound ----

  lemma PublishLowKeepsSound(b: BusState, pub: Publication)
    requires Sound(b) && LaneOf(pub.priority) != Trading
    ensures Sound(PublishLow(b, pub))
  {
    PublishLowKeepsLane(b.maintenance, b.paused, b.retainedCapacity, pub.event);
    PublishLowKeepsLane(b.persistence, b.paused, b.retainedCapacity, pub.event);
  }

  lemma PublishLowKeepsLane(l: LowLane, paused: bool, retainedCapacity: nat, e: Event)
    requires LaneBounded(l, retainedCapacity) && 0 < retainedCapacity
    ensures LaneBounded(PublishLowLane(l, paused, retainedCapacity, e), retainedCapacity)
  {
    RetainKeepsLane(l.retained, retainedCapacity, e);
  }

  lemma EnqueueKeepsSound(b: BusState, pub: Publication)
    requires Sound(b) && !b.TradingFull()
    ensures Sound(Enqueue(b, pub))
  {
    var n := Enqueue(b, pub);
    assert n.tickets[|b.tickets|] == TradingKey(pub.event);
    forall k | k in n.pending ensures k in n.tickets {
      if k in b.pending {
        var i :| 0 <= i < |b.tickets| && b.tickets[i] == k;
        assert n.tickets[i] == k;
      }
    }
  }

  lemma PublishNowaitKeepsSound(b: BusState, pub: Publication)
    requires Sound(b)
    ensures Sound(PublishNowait(b, pub))
  {
    if LaneOf(pub.priority) != Trading {
      PublishLowKeepsSound(b, pub);
    } else if TradingKey(pub.event) !in b.pending && !b.TradingFull() {
      EnqueueKeepsSound(b, pub);
    }
  }

  lemma PopTradingKeepsSound(b: BusState)
    requires Bounded(b) && Ticketed(b)
    ensures var (n, e) := PopTrading(b);
      && Bounded(n) && Ticketed(n) && (Quiet(b) ==> Quiet(n))
      && (e.None? <==> b.pending == map[])
  {
    PopTicketExact(b.tickets, b.pending);
  }

  lemma NextTradingKeepsSound(b: BusState)
    requires Sound(b)
    ensures var (n, e) := NextTrading(b); Sound(n) && (e.None? <==> b.pending == map[])
  {
    PopTradingKeepsSound(b);
    FlushKeepsSound(PopTrading(b).0);
  }

  lemma PopReadyKeepsSound(b: BusState)
    requires Sound(b)
    ensures Bounded(PopReady(b).0) && Ticketed(PopReady(b).0)
    ensures PopReady(b).1.Some? ==> Sound(PopReady(b).0)
  {
    PopTradingKeepsSound(b);
  }

  /** Trading first: a low lane is served only with nothing pending. */
  lemma PopReadyExact(b: BusState)
    requires Sound(b)
    ensures PopReady(b).1.None? <==> b.pending == map[] && b.maintenance.queue == [] && b.persistence.queue == []
    ensures PopReady(b).1.None? ==> PopReady(b).0 == b.(tickets := [])
    ensures b.pending != map[] ==>
      exists k :: k in b.pending && PopReady(b).1 == Some(b.pending[k]) && PopReady(b).0.pending == b.pending - {k}
  {
    PopTicketExact(b.tickets, b.pending);
  }

  lemma NextEventKeepsSound(b: BusState)
    requires Sound(b)
    ensures Sound(NextEvent(b).0)
  {
    var f := Flush(b);
    FlushKeepsSound(b);
    PopReadyKeepsSound(f);
    PopReadyExact(f);
  }

  /** The general consumer suspends exactly when nothing is pending, no low queue holds an event
      and, unless paused, nothing is retained. While anything is pending it hands out a pending
      event and nothing else. */
  lemma NextEventSuspendsExactly(b: BusState)
    requires Sound(b)
    ensures NextEvent(b).1.None? <==>
            && b.pending == map[] && b.maintenance.queue == [] && b.persistence.queue == []
            && (b.paused || (b.maintenance.retained == [] && b.persistence.retained == []))
    ensures b.pending != map[] ==>
      exists k :: k in b.pending && NextEvent(b).1 == Some(b.pending[k]) && NextEvent(b).0.pending == b.pending - {k}
  {
    var f := Flush(b);
    FlushKeepsSound(b);
    FlushFrame(b);
    PopReadyExact(f);
    assert NextEvent(b).1 == PopReady(f).1 && NextEvent(b).0.pending == PopReady(f).0.pending;
  }

  lemma NextLowKeepsSound(b: BusState)
    requires Sound(b)
    ensures Sound(NextMaintenance(b).0) && Sound(NextPersistence(b).0)
  {
    if b.maintenance.queue != [] {
      FlushKeepsSound(b.(maintenance := b.maintenance.(queue := b.maintenance.queue[1..])));
    }
    if b.persistence.queue != [] {
      FlushKeepsSound(b.(persistence := b.persistence.(queue := b.persistence.queue[1..])));
    }
  }

  lemma ResumeKeepsSound(b: BusState)
    requires Sound(b)
    ensures Sound(Resume(b)) && Resume(b).wake && !Resume(b).paused
  {
    FlushKeepsSound(b.(paused := false));
  }

  /** The pending map never outgrows the queue, so the drift warning, which asks for more than
      one and a half capacities, cannot fire. */
  lemma PendingNeverOutgrowsQueue(b: BusState)
    requires Sound(b)
    ensures |b.pending| <= |b.tickets| <= b.tradingCapacity
    ensures !(|b.pending| > b.tradingCapacity * 3 / 2)
  {
    DistinctMembersFit(b.pending.Keys, b.tickets);
    assert |b.pending| == |b.pending.Keys|;
  }
}
