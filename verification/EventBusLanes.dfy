/** What the low-priority lanes do with every event published into them: which one an overfull lane gives up, and
    exactly when consumers receive a lane's events in the order they were published, each once. */
module EventBusLanes {
  import opened Prelude
  import opened EventBusModel
  import opened EventBusRuns

  // ---- one publish ----

  function DropAt<T>(s: seq<T>, i: nat): seq<T>
    requires i < |s|
  {
    s[..i] + s[i + 1..]
  }

  predicate Retains(l: LowLane, paused: bool) { paused || l.Full() }

  ghost predicate HasNamesake(l: LowLane, e: Event) {
    exists x :: x in l.retained && x.key == Identity(e)
  }

  /** The place in the backlog of the event a lane gives up for a new one: none while the queue takes it, else the
      retained namesake's, else the oldest retained one's once the list is full. */
  function GivenUp(l: LowLane, paused: bool, retainedCapacity: nat, e: Event): Option<nat> {
    if !Retains(l, paused) then None
    else if SlotOf(l.retained, Identity(e)) < |l.retained| then Some(|l.queue| + SlotOf(l.retained, Identity(e)))
    else if |l.retained| >= retainedCapacity then Some(|l.queue|)
    else None
  }

  lemma {:induction false} EventsAt(items: seq<Retained>, i: nat)
    requires i < |items|
    ensures EventsOf(items)[i] == items[i].event
  {
    if i > 0 {
      EventsAt(items[1..], i - 1);
    }
  }

  lemma EventsOfAppend(items: seq<Retained>, x: Retained)
    ensures EventsOf(items + [x]) == EventsOf(items) + [x.event]
  {
    forall i | 0 <= i <= |items| ensures EventsOf(items + [x])[i] == (EventsOf(items) + [x.event])[i] {
      EventsAt(items + [x], i);
      if i < |items| {
        EventsAt(items, i);
      }
    }
  }

  lemma EventsOfReplace(items: seq<Retained>, i: nat, x: Retained)
    requires i < |items|
    ensures EventsOf(items[i := x]) == EventsOf(items)[i := x.event]
  {
    var r, f := EventsOf(items[i := x]), EventsOf(items)[i := x.event];
    forall j | 0 <= j < |items| ensures r[j] == f[j] {
      EventsAt(items[i := x], j);
      EventsAt(items, j);
    }
  }

  lemma SlotExactly(items: seq<Retained>, key: string)
    ensures SlotOf(items, key) < |items| <==> exists x :: x in items && x.key == key
  {
    var i := SlotOf(items, key);
    if i < |items| {
      assert items[i] in items;
    }
  }

  /** Where the new event stands in the backlog. */
  function PlacedAt(l: LowLane, paused: bool, retainedCapacity: nat, e: Event): nat {
    if !Retains(l, paused) then |l.queue|
    else if SlotOf(l.retained, Identity(e)) < |l.retained| then |l.queue| + SlotOf(l.retained, Identity(e))
    else if |l.retained| >= retainedCapacity && l.retained != [] then |l.queue| + |l.retained| - 1
    else |l.queue| + |l.retained|
  }

  lemma NewBacklog(l: LowLane, paused: bool, retainedCapacity: nat, e: Event)
    requires 0 < retainedCapacity
    ensures var q, r, slot := l.queue, EventsOf(l.retained), SlotOf(l.retained, Identity(e));
      PublishLowLane(l, paused, retainedCapacity, e).Backlog() ==
        if !Retains(l, paused) then q + [e] + r
        else if slot < |r| then q + r[slot := e]
        else if |r| >= retainedCapacity then q + (r[1..] + [e])
        else q + (r + [e])
  {
    var item, slot := Retained(Identity(e), e), SlotOf(l.retained, Identity(e));
    if slot < |l.retained| {
      EventsOfReplace(l.retained, slot, item);
    } else if |l.retained| >= retainedCapacity {
      EventsOfAppend(l.retained[1..], item);
    } else {
      EventsOfAppend(l.retained, item);
    }
    hide Identity, SlotOf;
  }

  lemma DropMiddle<T>(a: seq<T>, x: T, b: seq<T>)
    ensures DropAt(a + [x] + b, |a|) == a + b
  {}

  lemma DropReplaced<T>(a: seq<T>, r: seq<T>, i: nat, x: T)
    requires i < |r|
    ensures DropAt(a + r[i := x], |a| + i) == DropAt(a + r, |a| + i)
  {}

  lemma DropEvicted<T>(a: seq<T>, r: seq<T>, x: T)
    requires r != []
    ensures DropAt(a + (r[1..] + [x]), |a| + |r| - 1) == DropAt(a + r, |a|)
  {}

  lemma DropLast<T>(a: seq<T>, r: seq<T>, x: T)
    ensures DropAt(a + (r + [x]), |a| + |r|) == a + r
  {}

  lemma QueueStaysInFront(l: LowLane, paused: bool, retainedCapacity: nat, e: Event)
    requires 0 < retainedCapacity
    ensures l.queue <= PublishLowLane(l, paused, retainedCapacity, e).queue
  {
    hide Retain;
  }

  /** Publishing into a lane puts the new event behind everything queued, takes away nothing but the one event the
      lane gives up, and leaves all others in their order. */
  lemma PublishConserves(l: LowLane, paused: bool, retainedCapacity: nat, e: Event)
    requires 0 < retainedCapacity
    ensures var n := PublishLowLane(l, paused, retainedCapacity, e);
      var at, gone := PlacedAt(l, paused, retainedCapacity, e), GivenUp(l, paused, retainedCapacity, e);
      && l.queue <= n.queue
      && |l.queue| <= at < |n.Backlog()| && n.Backlog()[at] == e
      && (gone.Some? ==> |l.queue| <= gone.value < |l.Backlog()|)
      && DropAt(n.Backlog(), at) == if gone.Some? then DropAt(l.Backlog(), gone.value) else l.Backlog()
  {
    hide PublishLowLane, SlotOf, Identity, EventsOf, DropAt;
    QueueStaysInFront(l, paused, retainedCapacity, e);
    NewBacklog(l, paused, retainedCapacity, e);
    var q, r, slot := l.queue, EventsOf(l.retained), SlotOf(l.retained, Identity(e));
    if !Retains(l, paused) {
      DropMiddle(q, e, r);
    } else if slot < |r| {
      DropReplaced(q, r, slot, e);
    } else if |r| >= retainedCapacity {
      DropEvicted(q, r, e);
    } else {
      DropLast(q, r, e);
    }
  }

  /** The publish keeps the lane in publication order with nothing lost: a retained event needs a new identity and
      room in the list, a queued one must have nothing waiting that it would overtake. */
  ghost predicate FitsLane(l: LowLane, paused: bool, retainedCapacity: nat, e: Event) {
    if Retains(l, paused) then !HasNamesake(l, e) && |l.retained| < retainedCapacity
    else forall x :: x in l.retained ==> x.event == e
  }

  lemma AlikeCommute<T(!new)>(s: seq<T>, x: T)
    requires forall y :: y in s ==> y == x
    ensures [x] + s == s + [x]
  {
    forall i | 0 <= i <= |s| ensures ([x] + s)[i] == (s + [x])[i] {
      if i < |s| {
        assert s[i] in s;
      }
      if i > 0 {
        assert s[i - 1] in s;
      }
    }
  }

  lemma {:induction false} CommutingAlike<T(!new)>(s: seq<T>, x: T)
    requires [x] + s == s + [x]
    ensures forall y :: y in s ==> y == x
  {
    if s != [] {
      var t := s[1..];
      assert s[0] == ([x] + s)[0] == x && s == [x] + t;
      assert ([x] + s)[1..] == s && (s + [x])[1..] == t + [x];
      CommutingAlike(t, x);
      assert forall y :: y in s <==> y == s[0] || y in t;
    }
  }

  lemma CommutesExactly<T(!new)>(s: seq<T>, x: T)
    ensures [x] + s == s + [x] <==> forall y :: y in s ==> y == x
  {
    if forall y :: y in s ==> y == x {
      AlikeCommute(s, x);
    } else if [x] + s == s + [x] {
      CommutingAlike(s, x);
    }
  }

  lemma EventsAllAre(items: seq<Retained>, e: Event)
    ensures (forall y :: y in EventsOf(items) ==> y == e) <==> forall x :: x in items ==> x.event == e
  {
    if forall y :: y in EventsOf(items) ==> y == e {
      forall x | x in items ensures x.event == e {
        var i :| 0 <= i < |items| && items[i] == x;
        EventsAt(items, i);
        assert EventsOf(items)[i] in EventsOf(items);
      }
    } else {
      var i :| 0 <= i < |items| && EventsOf(items)[i] != e;
      EventsAt(items, i);
      assert items[i] in items;
    }
  }

  lemma QueuedAppendsExactly(q: seq<Event>, r: seq<Event>, e: Event)
    ensures q + [e] + r == q + r + [e] <==> forall y :: y in r ==> y == e
  {
    CommutesExactly(r, e);
    assert q + [e] + r == q + ([e] + r) && q + r + [e] == q + (r + [e]);
    SameTails(q, [e] + r, r + [e]);
  }

  /** Publishing appends to the backlog if and only if the publish fits. */
  lemma PublishAppendsExactly(l: LowLane, paused: bool, retainedCapacity: nat, e: Event)
    requires 0 < retainedCapacity
    ensures PublishLowLane(l, paused, retainedCapacity, e).Backlog() == l.Backlog() + [e] <==> FitsLane(l, paused, retainedCapacity, e)
  {
    hide PublishLowLane, SlotOf, Identity, EventsOf;
    NewBacklog(l, paused, retainedCapacity, e);
    SlotExactly(l.retained, Identity(e));
    var q, r, slot := l.queue, EventsOf(l.retained), SlotOf(l.retained, Identity(e));
    if !Retains(l, paused) {
      QueuedAppendsExactly(q, r, e);
      EventsAllAre(l.retained, e);
    } else if slot < |r| {
      assert |q + r[slot := e]| == |q + r|;
    } else if |r| >= retainedCapacity {
      assert |q + (r[1..] + [e])| == |q + r|;
    } else {
      assert q + (r + [e]) == q + r + [e];
    }
  }

  lemma SameTails<T>(q: seq<T>, a: seq<T>, b: seq<T>)
    ensures q + a == q + b <==> a == b
  {
    if q + a == q + b {
      assert a == (q + a)[|q|..] && b == (q + b)[|q|..];
    }
  }

  // ---- one step of the bus ----

  function LaneIn(b: BusState, lane: Lane): LowLane
    requires lane != Trading
  {
    if lane == Maintenance then b.maintenance else b.persistence
  }

  /** The event a step publishes into the lane: priority 2 goes to maintenance, any later one to persistence unless a
      bound sink takes it. */
  function PutInto(b: BusState, a: Action, lane: Lane): Option<Event>
    requires lane != Trading
  {
    if !a.PublishNow? && !a.PublishBegin? then None
    else if lane == Maintenance && a.pub.priority == 2 then Some(a.pub.event)
    else if lane == Persistence && a.pub.priority > 2 && !b.sinkBound then Some(a.pub.event)
    else None
  }

  /** A general consumer could be given an event of this lane. */
  predicate Servable(b: BusState, lane: Lane)
    requires lane != Trading
  {
    LaneIn(b, lane).queue != [] || (!b.paused && LaneIn(b, lane).retained != [])
  }

  /** The event of the lane a step hands to its consumer: the general consumer turns to maintenance with nothing
      pending and to persistence with no maintenance either. */
  function HandedFrom(b: BusState, a: Action, lane: Lane): Option<Event>
    requires lane != Trading
  {
    match a
    case ServeMaintenance => if lane == Maintenance then NextMaintenance(b).1 else None
    case ServePersistence => if lane == Persistence then NextPersistence(b).1 else None
    case ServeAny(_) =>
      if b.pending == map[] && (lane == Maintenance <==> Servable(b, Maintenance)) then NextEvent(b).1 else None
    case _ => None
  }

  /** A serve that takes the head of this lane, or none. */
  ghost predicate Took(l: LowLane, n: LowLane, given: Option<Event>) {
    l.Backlog() == (if given.Some? then [given.value] else []) + n.Backlog()
  }

  lemma FlushKeepsBacklog(b: BusState, lane: Lane)
    requires lane != Trading && Bounded(b)
    ensures LaneIn(Flush(b), lane).Backlog() == LaneIn(b, lane).Backlog()
    ensures LaneIn(Flush(b), lane).queue == [] <==> !Servable(b, lane)
  {
    FlushLaneConserves(b.maintenance, b.retainedCapacity);
    FlushLaneConserves(b.persistence, b.retainedCapacity);
    FlushFrame(b);
    hide FlushLane;
  }

  lemma PopHead(l: LowLane)
    requires l.queue != []
    ensures Took(l, l.(queue := l.queue[1..]), Some(l.queue[0]))
  {
    assert l.queue == [l.queue[0]] + l.queue[1..];
  }

  lemma NextLowTakes(b: BusState, lane: Lane)
    requires Sound(b) && lane != Trading
    ensures Took(LaneIn(b, lane), LaneIn(NextMaintenance(b).0, lane), HandedFrom(b, ServeMaintenance, lane))
    ensures Took(LaneIn(b, lane), LaneIn(NextPersistence(b).0, lane), HandedFrom(b, ServePersistence, lane))
    ensures NextMaintenance(b).1.None? <==> b.maintenance.queue == []
    ensures NextPersistence(b).1.None? <==> b.persistence.queue == []
  {
    hide Flush, Ticketed, Quiet;
    if b.maintenance.queue != [] {
      PopHead(b.maintenance);
      FlushKeepsBacklog(b.(maintenance := b.maintenance.(queue := b.maintenance.queue[1..])), lane);
    }
    if b.persistence.queue != [] {
      PopHead(b.persistence);
      FlushKeepsBacklog(b.(persistence := b.persistence.(queue := b.persistence.queue[1..])), lane);
    }
  }

  lemma TookNothing(l: LowLane)
    ensures Took(l, l, None)
  {
    assert [] + l.Backlog() == l.Backlog();
  }

  lemma PopReadyTakes(b: BusState, lane: Lane)
    requires Ticketed(b) && lane != Trading
    ensures var (n, e) := PopReady(b);
      var mine := b.pending == map[] && (lane == Maintenance <==> b.maintenance.queue != []);
      Took(LaneIn(b, lane), LaneIn(n, lane), if mine then e else None)
  {
    PopTicketExact(b.tickets, b.pending);
    hide PopTicket, Took, Ticketed;
    TookNothing(b.maintenance);
    TookNothing(b.persistence);
    if b.maintenance.queue != [] {
      PopHead(b.maintenance);
    }
    if b.persistence.queue != [] {
      PopHead(b.persistence);
    }
  }

  lemma TookFrom(l: LowLane, f: LowLane, n: LowLane, given: Option<Event>)
    requires f.Backlog() == l.Backlog() && Took(f, n, given)
    ensures Took(l, n, given)
  {
    hide EventsOf;
  }

  lemma NextEventIs(b: BusState)
    ensures var f := Flush(b);
      && NextEvent(b).1 == PopReady(f).1
      && NextEvent(b).0.maintenance == PopReady(f).0.maintenance && NextEvent(b).0.persistence == PopReady(f).0.persistence
  {
    hide Flush, PopReady;
  }

  lemma NextEventTakes(b: BusState, c: nat, lane: Lane)
    requires Sound(b) && lane != Trading
    ensures Took(LaneIn(b, lane), LaneIn(NextEvent(b).0, lane), HandedFrom(b, ServeAny(c), lane))
  {
    hide Flush, PopReady, NextEvent, Took, EventsOf, Servable;
    var f := Flush(b);
    assert Bounded(b) && Ticketed(b) by { assert Sound(b); }
    FlushKeepsBacklog(b, lane);
    FlushKeepsBacklog(b, Maintenance);
    FlushFrame(b);
    FlushKeepsSound(b);
    hide Sound, Ticketed, Bounded, Quiet;
    PopReadyTakes(f, lane);
    NextEventIs(b);
    TookFrom(LaneIn(b, lane), LaneIn(f, lane), LaneIn(NextEvent(b).0, lane), HandedFrom(b, ServeAny(c), lane));
  }

  lemma NextTradingTakes(b: BusState, lane: Lane)
    requires Sound(b) && lane != Trading
    ensures LaneIn(NextTrading(b).0, lane).Backlog() == LaneIn(b, lane).Backlog()
  {
    var (n, e) := PopTrading(b);
    PopTradingKeepsSound(b);
    FlushKeepsBacklog(n, lane);
    hide Flush, PopTicket;
  }

  lemma PublishReaches(b: BusState, a: Action, lane: Lane)
    requires b.retainedCapacity > 0 && lane != Trading && (a.PublishNow? || a.PublishBegin?)
    ensures MovesLane(b, PublishNowait(b, a.pub), a, lane)
    ensures a.PublishBegin? && MustBlock(b, a.pub) ==> MovesLane(b, b, a, lane)
  {
    hide PublishLowLane, EventsOf, TradingKey;
  }

  lemma StillMoves(b: BusState, n: BusState, a: Action, lane: Lane)
    requires b.retainedCapacity > 0 && lane != Trading && !a.PublishNow? && !a.PublishBegin?
    requires Took(LaneIn(b, lane), LaneIn(n, lane), HandedFrom(b, a, lane))
    ensures MovesLane(b, n, a, lane)
  {
    hide LaneIn, HandedFrom, Took;
  }

  lemma UntouchedMoves(b: BusState, n: BusState, a: Action, lane: Lane)
    requires b.retainedCapacity > 0 && lane != Trading && (a.PublishFinish? || a.PauseLow? || a.ResumeLow? || a.ServeTrading?)
    requires LaneIn(b, lane).Backlog() == LaneIn(n, lane).Backlog()
    ensures MovesLane(b, n, a, lane)
  {
    hide LaneIn, EventsOf;
  }

  /** Every step of the bus either publishes into the lane, hands out its head, or leaves its backlog as it is. */
  lemma StepMovesLane(w: World, a: Action, lane: Lane)
    requires Inv(w) && Enabled(w, a) && lane != Trading
    ensures Steps(w, a)
    ensures MovesLane(w.bus, Step(w, a).bus, a, lane)
  {
    StepsFrom(w, a);
    var b := w.bus;
    assert Sound(b);
    hide Inv, Sound, PublishLowLane, PublishNowait, NextEvent, NextTrading, NextMaintenance, NextPersistence, Flush, PopTicket,
         MovesLane, Took, HandedFrom, Resume, Pause;
    match a
    case PublishNow(pub) => PublishReaches(b, a, lane);
    case PublishBegin(p, pub) => PublishReaches(b, a, lane);
    case PublishFinish(p) => FinishTakes(b, w.ledger.log[w.ledger.blocked[p]], p, lane);
    case ServeAny(c) => NextEventTakes(b, c, lane); AnyBus(w, c); StillMoves(b, NextEvent(b).0, a, lane);
    case ServeTrading => NextTradingTakes(b, lane); TradingBus(w); UntouchedMoves(b, NextTrading(b).0, a, lane);
    case ServeMaintenance => NextLowTakes(b, lane); StillMoves(b, NextMaintenance(b).0, a, lane);
    case ServePersistence => NextLowTakes(b, lane); StillMoves(b, NextPersistence(b).0, a, lane);
    case PauseLow => PauseTakes(b, lane);
    case ResumeLow => ResumeTakes(b, lane); UntouchedMoves(b, Resume(b), a, lane);
  }

  lemma FinishTakes(b: BusState, pub: Publication, p: nat, lane: Lane)
    requires b.retainedCapacity > 0 && lane != Trading
    ensures MovesLane(b, Enqueue(b, pub), PublishFinish(p), lane)
  {
    UntouchedMoves(b, Enqueue(b, pub), PublishFinish(p), lane);
    hide MovesLane;
  }

  lemma PauseTakes(b: BusState, lane: Lane)
    requires b.retainedCapacity > 0 && lane != Trading
    ensures MovesLane(b, Pause(b), PauseLow, lane)
  {
    UntouchedMoves(b, Pause(b), PauseLow, lane);
    hide MovesLane;
  }

  /** The step is defined. */
  ghost predicate Steps(w: World, a: Action) {
    && |w.ledger.fate| == |w.ledger.log| && w.bus.retainedCapacity > 0 && Enabled(w, a)
    && forall p :: p in w.ledger.blocked ==> w.ledger.blocked[p] < |w.ledger.log|
  }

  lemma StepsFrom(w: World, a: Action)
    requires Inv(w) && Enabled(w, a)
    ensures Steps(w, a)
  {}

  /** What the step makes of a lane, told of the lane alone. */
  ghost predicate Moves(l: LowLane, n: LowLane, paused: bool, retainedCapacity: nat, put: Option<Event>, given: Option<Event>)
    requires 0 < retainedCapacity
  {
    if put.Some? then n == PublishLowLane(l, paused, retainedCapacity, put.value) && given.None? else Took(l, n, given)
  }

  ghost predicate MovesLane(b: BusState, after: BusState, a: Action, lane: Lane)
    requires lane != Trading && b.retainedCapacity > 0
  {
    Moves(LaneIn(b, lane), LaneIn(after, lane), b.paused, b.retainedCapacity, PutInto(b, a, lane), HandedFrom(b, a, lane))
  }

  lemma ResumeTakes(b: BusState, lane: Lane)
    requires Sound(b) && lane != Trading
    ensures LaneIn(Resume(b), lane).Backlog() == LaneIn(b, lane).Backlog()
  {
    FlushKeepsBacklog(b.(paused := false), lane);
    hide Flush;
  }

  lemma TradingBus(w: World)
    ensures ServeTradingOnce(w).bus == NextTrading(w.bus).0
  {
    hide NextTrading;
  }

  lemma AnyBus(w: World, c: nat)
    ensures ServeAnyTo(w, c).bus == NextEvent(w.bus).0
  {
    hide NextEvent;
  }

  // ---- whole runs ----

  function Maybe<T>(e: Option<T>): seq<T> { if e.Some? then [e.value] else [] }

  /** At every point of the run what the lane's consumers have been handed, followed by what the lane still holds, is
      what is due: the backlog it started with followed by every event published into it. */
  ghost predicate InOrderThroughout(w: World, run: seq<Action>, lane: Lane, handed: seq<Event>, due: seq<Event>)
    requires Inv(w) && Legal(w, run) && lane != Trading
    decreases |run|
  {
    && handed + LaneIn(w.bus, lane).Backlog() == due
    && (run != [] ==>
          (StepKeepsInv(w, run[0]);
           InOrderThroughout(Step(w, run[0]), run[1..], lane, handed + Maybe(HandedFrom(w.bus, run[0], lane)),
                             due + Maybe(PutInto(w.bus, run[0], lane)))))
  }

  ghost predicate PutFits(b: BusState, a: Action, lane: Lane)
    requires lane != Trading
  {
    var put := PutInto(b, a, lane);
    put.Some? ==> FitsLane(LaneIn(b, lane), b.paused, b.retainedCapacity, put.value)
  }

  ghost predicate FitThroughout(w: World, run: seq<Action>, lane: Lane)
    requires Inv(w) && Legal(w, run) && lane != Trading
    decreases |run|
  {
    run != [] ==> PutFits(w.bus, run[0], lane) && (StepKeepsInv(w, run[0]); FitThroughout(Step(w, run[0]), run[1..], lane))
  }

  lemma MoveInOrderExactly(l: LowLane, n: LowLane, paused: bool, retainedCapacity: nat, put: Option<Event>,
                           given: Option<Event>, handed: seq<Event>)
    requires 0 < retainedCapacity && Moves(l, n, paused, retainedCapacity, put, given)
    ensures handed + Maybe(given) + n.Backlog() == handed + l.Backlog() + Maybe(put) <==>
            (put.Some? ==> FitsLane(l, paused, retainedCapacity, put.value))
  {
    hide PublishLowLane, FitsLane, EventsOf;
    var have, held := n.Backlog(), l.Backlog();
    if put.Some? {
      PublishAppendsExactly(l, paused, retainedCapacity, put.value);
      assert handed + Maybe(given) == handed;
      assert handed + held + [put.value] == handed + (held + [put.value]);
      SameTails(handed, have, held + [put.value]);
    } else {
      assert handed + Maybe(given) + have == handed + (Maybe(given) + have);
      assert handed + held + Maybe(put) == handed + held;
    }
  }

  lemma StepInOrderExactly(w: World, a: Action, lane: Lane, handed: seq<Event>)
    requires Inv(w) && Enabled(w, a) && lane != Trading && Steps(w, a)
    ensures handed + Maybe(HandedFrom(w.bus, a, lane)) + LaneIn(Step(w, a).bus, lane).Backlog() ==
              handed + LaneIn(w.bus, lane).Backlog() + Maybe(PutInto(w.bus, a, lane))
            <==> PutFits(w.bus, a, lane)
  {
    StepMovesLane(w, a, lane);
    hide Inv, Steps, Step, PutInto, HandedFrom, PublishLowLane, FitsLane, LaneIn, Maybe, Took;
    MoveInOrderExactly(LaneIn(w.bus, lane), LaneIn(Step(w, a).bus, lane), w.bus.paused, w.bus.retainedCapacity,
                       PutInto(w.bus, a, lane), HandedFrom(w.bus, a, lane), handed);
  }

  /** Over every interleaving a lane's consumers are handed its events in the order they were published, each once and
      none lost, if and only if every publish into the lane fits it at its moment. */
  lemma {:induction false} RunInOrderExactly(w: World, run: seq<Action>, lane: Lane, handed: seq<Event>, due: seq<Event>)
    requires Inv(w) && Legal(w, run) && lane != Trading
    requires handed + LaneIn(w.bus, lane).Backlog() == due
    ensures InOrderThroughout(w, run, lane, handed, due) <==> FitThroughout(w, run, lane)
    decreases |run|
  {
    if run != [] {
      StepsFrom(w, run[0]);
      StepKeepsInv(w, run[0]);
      StepInOrderExactly(w, run[0], lane, handed);
      hide Step, PutFits, HandedFrom, PutInto, LaneIn, Maybe;
      if PutFits(w.bus, run[0], lane) {
        RunInOrderExactly(Step(w, run[0]), run[1..], lane, handed + Maybe(HandedFrom(w.bus, run[0], lane)),
                          due + Maybe(PutInto(w.bus, run[0], lane)));
      }
    }
  }

  ghost function HandedAll(w: World, run: seq<Action>, lane: Lane): seq<Event>
    requires Inv(w) && Legal(w, run) && lane != Trading
    decreases |run|
  {
    if run == [] then []
    else
      StepKeepsInv(w, run[0]);
      Maybe(HandedFrom(w.bus, run[0], lane)) + HandedAll(Step(w, run[0]), run[1..], lane)
  }

  ghost function PutAll(w: World, run: seq<Action>, lane: Lane): seq<Event>
    requires Inv(w) && Legal(w, run) && lane != Trading
    decreases |run|
  {
    if run == [] then []
    else
      StepKeepsInv(w, run[0]);
      Maybe(PutInto(w.bus, run[0], lane)) + PutAll(Step(w, run[0]), run[1..], lane)
  }

  /** The event a step's publish makes the lane give up. */
  function LostBy(b: BusState, a: Action, lane: Lane): Option<Event>
    requires lane != Trading
  {
    LostFor(LaneIn(b, lane), b.paused, b.retainedCapacity, PutInto(b, a, lane))
  }

  function LostFor(l: LowLane, paused: bool, retainedCapacity: nat, put: Option<Event>): Option<Event> {
    if put.None? then None
    else
      var gone := GivenUp(l, paused, retainedCapacity, put.value);
      if gone.Some? && gone.value < |l.Backlog()| then Some(l.Backlog()[gone.value]) else None
  }

  ghost function LostAll(w: World, run: seq<Action>, lane: Lane): seq<Event>
    requires Inv(w) && Legal(w, run) && lane != Trading
    decreases |run|
  {
    if run == [] then []
    else
      StepKeepsInv(w, run[0]);
      Maybe(LostBy(w.bus, run[0], lane)) + LostAll(Step(w, run[0]), run[1..], lane)
  }

  lemma DropCounts<T>(s: seq<T>, i: nat)
    requires i < |s|
    ensures multiset(s) == multiset(DropAt(s, i)) + multiset{s[i]}
  {
    assert s == s[..i] + [s[i]] + s[i + 1..];
  }

  lemma MoveConserves(l: LowLane, n: LowLane, paused: bool, retainedCapacity: nat, put: Option<Event>, given: Option<Event>)
    requires 0 < retainedCapacity && Moves(l, n, paused, retainedCapacity, put, given)
    ensures multiset(l.Backlog()) + multiset(Maybe(put)) ==
            multiset(n.Backlog()) + multiset(Maybe(given)) + multiset(Maybe(LostFor(l, paused, retainedCapacity, put)))
  {
    hide PublishLowLane, EventsOf, GivenUp, PlacedAt, DropAt;
    if put.Some? {
      var at, gone := PlacedAt(l, paused, retainedCapacity, put.value), GivenUp(l, paused, retainedCapacity, put.value);
      PublishConserves(l, paused, retainedCapacity, put.value);
      DropCounts(n.Backlog(), at);
      if gone.Some? {
        DropCounts(l.Backlog(), gone.value);
      }
    }
  }

  lemma StepConserves(w: World, a: Action, lane: Lane)
    requires Inv(w) && Enabled(w, a) && lane != Trading && Steps(w, a)
    ensures multiset(LaneIn(w.bus, lane).Backlog()) + multiset(Maybe(PutInto(w.bus, a, lane))) ==
            multiset(LaneIn(Step(w, a).bus, lane).Backlog()) + multiset(Maybe(HandedFrom(w.bus, a, lane)))
              + multiset(Maybe(LostBy(w.bus, a, lane)))
  {
    StepMovesLane(w, a, lane);
    hide Inv, Steps, Step, PutInto, HandedFrom, PublishLowLane, LaneIn, LostFor, Maybe, Took;
    MoveConserves(LaneIn(w.bus, lane), LaneIn(Step(w, a).bus, lane), w.bus.paused, w.bus.retainedCapacity,
                  PutInto(w.bus, a, lane), HandedFrom(w.bus, a, lane));
  }

  lemma ChainCounts(a: multiset<Event>, n: multiset<Event>, end: multiset<Event>, p: seq<Event>, ps: seq<Event>,
                    h: seq<Event>, hs: seq<Event>, x: seq<Event>, xs: seq<Event>)
    requires a + multiset(p) == n + multiset(h) + multiset(x)
    requires n + multiset(ps) == end + multiset(hs) + multiset(xs)
    ensures a + multiset(p + ps) == end + multiset(h + hs) + multiset(x + xs)
  {
    var before, after := a + multiset(p + ps), end + multiset(h + hs) + multiset(x + xs);
    forall e: Event ensures before[e] == after[e] {
      assert (a + multiset(p))[e] == (n + multiset(h) + multiset(x))[e];
      assert (n + multiset(ps))[e] == (end + multiset(hs) + multiset(xs))[e];
    }
  }

  /** Over every interleaving nothing is duplicated and nothing disappears but what overfull retained lists gave up:
      what was held and published is what was handed out, given up or is still held. */
  lemma {:induction false} RunConserves(w: World, run: seq<Action>, lane: Lane)
    requires Inv(w) && Legal(w, run) && lane != Trading
    ensures multiset(LaneIn(w.bus, lane).Backlog()) + multiset(PutAll(w, run, lane)) ==
            multiset(LaneIn(Run(w, run).bus, lane).Backlog()) + multiset(HandedAll(w, run, lane)) + multiset(LostAll(w, run, lane))
    decreases |run|
  {
    if run != [] {
      StepsFrom(w, run[0]);
      StepKeepsInv(w, run[0]);
      StepConserves(w, run[0], lane);
      hide Inv, Legal, Step, LostBy, HandedFrom, PutInto, LaneIn, Maybe;
      var next, rest := Step(w, run[0]), run[1..];
      assert Run(w, run) == Run(next, rest);
      RunConserves(next, rest, lane);
      ChainCounts(multiset(LaneIn(w.bus, lane).Backlog()), multiset(LaneIn(next.bus, lane).Backlog()),
                  multiset(LaneIn(Run(w, run).bus, lane).Backlog()),
                  Maybe(PutInto(w.bus, run[0], lane)), PutAll(next, rest, lane),
                  Maybe(HandedFrom(w.bus, run[0], lane)), HandedAll(next, rest, lane),
                  Maybe(LostBy(w.bus, run[0], lane)), LostAll(next, rest, lane));
    }
  }

  lemma InOrderOn(w: World, run: seq<Action>, lane: Lane, handed: seq<Event>, due: seq<Event>)
    requires Inv(w) && Legal(w, run) && lane != Trading && InOrderThroughout(w, run, lane, handed, due)
    requires run != [] && Steps(w, run[0]) && Inv(Step(w, run[0])) && Legal(Step(w, run[0]), run[1..])
    ensures InOrderThroughout(Step(w, run[0]), run[1..], lane, handed + Maybe(HandedFrom(w.bus, run[0], lane)),
                              due + Maybe(PutInto(w.bus, run[0], lane)))
  {}

  /** So on such a run the consumers have received a front part of what is due, and the lane holds the rest. */
  lemma {:induction false} InOrderDelivers(w: World, run: seq<Action>, lane: Lane, handed: seq<Event>, due: seq<Event>)
    requires Inv(w) && Legal(w, run) && lane != Trading && InOrderThroughout(w, run, lane, handed, due)
    ensures handed + HandedAll(w, run, lane) + LaneIn(Run(w, run).bus, lane).Backlog() == due + PutAll(w, run, lane)
    decreases |run|
  {
    if run == [] {
      assert handed + HandedAll(w, run, lane) == handed && due + PutAll(w, run, lane) == due;
    } else {
      StepsFrom(w, run[0]);
      StepKeepsInv(w, run[0]);
      InOrderOn(w, run, lane, handed, due);
      var next, rest := Step(w, run[0]), run[1..];
      var given, put := Maybe(HandedFrom(w.bus, run[0], lane)), Maybe(PutInto(w.bus, run[0], lane));
      assert HandedAll(w, run, lane) == given + HandedAll(next, rest, lane);
      assert PutAll(w, run, lane) == put + PutAll(next, rest, lane);
      assert Run(w, run) == Run(next, rest);
      hide *;
      InOrderDelivers(next, rest, lane, handed + given, due + put);
      Regroup(handed, given, HandedAll(next, rest, lane));
      Regroup(due, put, PutAll(next, rest, lane));
    }
  }

  lemma Regroup<T>(a: seq<T>, b: seq<T>, c: seq<T>)
    ensures a + (b + c) == a + b + c
  {}

  /** From a fresh bus: consumers receive a lane's events as they were published, the rest waiting in order, if and
      only if every publish fits. */
  lemma LowLaneInOrderExactly(b: BusState, run: seq<Action>, lane: Lane)
    requires FreshBus(b) && Inv(InitWorld(b)) && Legal(InitWorld(b), run) && lane != Trading
    ensures var w := InitWorld(b);
      && (InOrderThroughout(w, run, lane, [], LaneIn(b, lane).Backlog()) <==> FitThroughout(w, run, lane))
      && (FitThroughout(w, run, lane) ==>
            HandedAll(w, run, lane) + LaneIn(Run(w, run).bus, lane).Backlog() == LaneIn(b, lane).Backlog() + PutAll(w, run, lane))
  {
    var w, held := InitWorld(b), LaneIn(b, lane).Backlog();
    hide Inv, Legal, Run, InOrderThroughout, FitThroughout, HandedAll, PutAll, LaneIn;
    assert [] + held == held;
    RunInOrderExactly(w, run, lane, [], held);
    if FitThroughout(w, run, lane) {
      InOrderDelivers(w, run, lane, [], held);
      assert [] + HandedAll(w, run, lane) == HandedAll(w, run, lane);
    }
  }

  // ---- who lets events overtake ----

  /** Nothing is retained while the queue has room for it. */
  ghost predicate Settled(l: LowLane, paused: bool) {
    !paused ==> l.retained == [] || l.Full()
  }

  lemma FlushSettles(b: BusState, lane: Lane)
    requires Bounded(b) && lane != Trading
    ensures Settled(LaneIn(Flush(b), lane), Flush(b).paused)
  {
    FlushLaneConserves(b.maintenance, b.retainedCapacity);
    FlushLaneConserves(b.persistence, b.retainedCapacity);
    hide FlushLane;
  }

  lemma PublishKeepsSettled(l: LowLane, paused: bool, retainedCapacity: nat, e: Event)
    requires 0 < retainedCapacity && Settled(l, paused)
    ensures Settled(PublishLowLane(l, paused, retainedCapacity, e), paused)
  {
    hide Retain;
  }

  lemma NextLowSettles(b: BusState, lane: Lane)
    requires Sound(b) && lane != Trading && Settled(LaneIn(b, lane), b.paused)
    ensures Settled(LaneIn(NextMaintenance(b).0, lane), NextMaintenance(b).0.paused)
    ensures Settled(LaneIn(NextPersistence(b).0, lane), NextPersistence(b).0.paused)
  {
    if b.maintenance.queue != [] {
      FlushSettles(b.(maintenance := b.maintenance.(queue := b.maintenance.queue[1..])), lane);
    }
    if b.persistence.queue != [] {
      FlushSettles(b.(persistence := b.persistence.(queue := b.persistence.queue[1..])), lane);
    }
    hide Flush, Ticketed;
  }

  lemma NextTradingSettles(b: BusState, lane: Lane)
    requires Sound(b) && lane != Trading && Settled(LaneIn(b, lane), b.paused)
    ensures Settled(LaneIn(NextTrading(b).0, lane), NextTrading(b).0.paused)
  {
    PopTradingKeepsSound(b);
    FlushSettles(PopTrading(b).0, lane);
    hide Flush, PopTicket;
  }

  lemma NextEventSettles(b: BusState, c: nat, lane: Lane)
    requires Sound(b) && lane != Trading && HandedFrom(b, ServeAny(c), lane).None?
    ensures Settled(LaneIn(NextEvent(b).0, lane), NextEvent(b).0.paused)
  {
    var f := Flush(b);
    FlushKeepsBacklog(b, Maintenance);
    FlushFrame(b);
    FlushKeepsSound(b);
    FlushSettles(b, lane);
    PopTicketExact(f.tickets, f.pending);
    hide Flush, PopTicket, Sound, Ticketed, Bounded, Quiet;
  }

  lemma PublishSettles(b: BusState, pub: Publication, lane: Lane)
    requires b.retainedCapacity > 0 && lane != Trading && Settled(LaneIn(b, lane), b.paused)
    ensures Settled(LaneIn(PublishNowait(b, pub), lane), PublishNowait(b, pub).paused)
  {
    PublishKeepsSettled(LaneIn(b, lane), b.paused, b.retainedCapacity, pub.event);
    hide PublishLowLane;
  }

  /** Only the general consumer leaves room in a queue while events are retained: it flushes before it takes an event,
      not after. */
  lemma StepKeepsSettled(w: World, a: Action, lane: Lane)
    requires Inv(w) && Enabled(w, a) && lane != Trading && Settled(LaneIn(w.bus, lane), w.bus.paused)
    requires a.ServeAny? ==> HandedFrom(w.bus, a, lane).None?
    ensures Steps(w, a) && Settled(LaneIn(Step(w, a).bus, lane), Step(w, a).bus.paused)
  {
    StepsFrom(w, a);
    var b := w.bus;
    assert Sound(b);
    hide Inv, Sound, PublishLowLane, PublishNowait, NextEvent, NextTrading, NextMaintenance, NextPersistence, Flush, PopTicket, HandedFrom;
    match a
    case PublishNow(pub) => PublishSettles(b, pub, lane);
    case PublishBegin(p, pub) => PublishSettles(b, pub, lane);
    case PublishFinish(p) =>
    case ServeAny(c) => NextEventSettles(b, c, lane); AnyBus(w, c);
    case ServeTrading => NextTradingSettles(b, lane); TradingBus(w);
    case ServeMaintenance => NextLowSettles(b, lane);
    case ServePersistence => NextLowSettles(b, lane);
    case PauseLow =>
    case ResumeLow => ResumeSettles(b, lane);
  }

  lemma ResumeSettles(b: BusState, lane: Lane)
    requires Sound(b) && lane != Trading
    ensures Settled(LaneIn(Resume(b), lane), Resume(b).paused)
  {
    FlushSettles(b.(paused := false), lane);
    hide Flush;
  }

  /** No general consumer takes from the lane, and every event that has to be retained is new there and finds room. */
  ghost predicate RoomyThroughout(w: World, run: seq<Action>, lane: Lane)
    requires Inv(w) && Legal(w, run) && lane != Trading
    decreases |run|
  {
    run != [] ==>
      && Roomy(w.bus, run[0], lane)
      && (StepKeepsInv(w, run[0]); RoomyThroughout(Step(w, run[0]), run[1..], lane))
  }

  ghost predicate Roomy(b: BusState, a: Action, lane: Lane)
    requires lane != Trading
  {
    var l, put := LaneIn(b, lane), PutInto(b, a, lane);
    && (a.ServeAny? ==> HandedFrom(b, a, lane).None?)
    && (put.Some? && Retains(l, b.paused) ==> !HasNamesake(l, put.value) && |l.retained| < b.retainedCapacity)
  }

  lemma RoomyFits(b: BusState, a: Action, lane: Lane)
    requires lane != Trading && Settled(LaneIn(b, lane), b.paused) && Roomy(b, a, lane)
    ensures PutFits(b, a, lane)
  {
    hide PutInto, HandedFrom, LaneIn;
  }

  /** So with a lane's own consumer nothing overtakes: all that can go wrong is a retained list that replaces or evicts. */
  lemma {:induction false} OwnConsumerKeepsOrder(w: World, run: seq<Action>, lane: Lane)
    requires Inv(w) && Legal(w, run) && lane != Trading && Settled(LaneIn(w.bus, lane), w.bus.paused) && RoomyThroughout(w, run, lane)
    ensures FitThroughout(w, run, lane)
    decreases |run|
  {
    if run != [] {
      RoomyFits(w.bus, run[0], lane);
      StepKeepsSettled(w, run[0], lane);
      StepKeepsInv(w, run[0]);
      hide Step, PutFits, Roomy, LaneIn, Settled;
      OwnConsumerKeepsOrder(Step(w, run[0]), run[1..], lane);
    }
  }

  function Note(id: string): Publication { Publication(2, Event(Some(id), None, None, Some(id), None, "")) }

  /** A maintenance queue of one, with two events published and the general consumer served once: the third event,
      published after the second, is handed out before it. */
  lemma GeneralConsumerLetsOvertake()
    ensures var bus := BusState(1, [], map[], LowLane(1, [], []), LowLane(1, [], []), 1, false, false, false, []);
      var held := PublishNowait(PublishNowait(bus, Note("a")), Note("b"));
      var (roomy, first) := NextEvent(held);
      var late := PublishNowait(roomy, Note("c"));
      && first == Some(Note("a").event)
      && !FitsLane(roomy.maintenance, false, 1, Note("c").event)
      && NextMaintenance(late).1 == Some(Note("c").event)
      && NextMaintenance(NextMaintenance(late).0).1 == Some(Note("b").event)
  {
    var a, b, c := Note("a").event, Note("b").event, Note("c").event;
    assert Identity(a) == "a" && Identity(b) == "b" && Identity(c) == "c";
    var full := LowLane(1, [a], [Retained("b", b)]);
    var bus := BusState(1, [], map[], LowLane(1, [], []), LowLane(1, [], []), 1, false, false, false, []);
    var held := PublishNowait(PublishNowait(bus, Note("a")), Note("b"));
    assert held.maintenance == full;
    assert FlushLane(full) == full;
    var (roomy, first) := NextEvent(held);
    assert roomy.maintenance == LowLane(1, [], [Retained("b", b)]) && !roomy.paused;
    var late := PublishNowait(roomy, Note("c"));
    assert late.maintenance == LowLane(1, [c], [Retained("b", b)]);
    assert late.maintenance.(queue := []).retained[0] == Retained("b", b);
    assert roomy.maintenance.retained[0] in roomy.maintenance.retained;
    assert FlushLane(LowLane(1, [], [Retained("b", b)])) == LowLane(1, [b], []) by {
      assert MoveOne(LowLane(1, [], [Retained("b", b)])) == LowLane(1, [b], []);
    }
  }
}
