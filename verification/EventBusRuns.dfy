/** Whole runs of the event bus: publishers, suspended publishers and consumers interleave at
    their suspension points, and a ledger follows what becomes of every publish call. */
module EventBusRuns {
  import opened Prelude
  import opened EventBusModel

  datatype Fate =
    | Waiting                // the event its key would hand out now
    | Delivered(at: nat)     // handed to a consumer, at this place in the delivery order
    | Superseded             // replaced by a later write under the same key
    | Dropped                // found the trading queue full and was only mirrored
    | Blocked(publisher: nat)
    | LowPriority

  datatype Ledger = Ledger(
    log: seq<Publication>,    // publish calls, in the order they started
    fate: seq<Fate>,
    owner: map<string, nat>,  // pending key -> the publish call whose event it holds
    blocked: map<nat, nat>,   // suspended publisher -> its publish call
    delivered: seq<nat>,      // publish calls whose event was handed out, in order
    handed: seq<Event>,       // the trading events consumers received
    servedAt: seq<nat>,       // how many publish calls had started at each delivery
    mirrored: seq<nat>        // publish calls handed to the outbox
  )

  datatype World = World(
    bus: BusState,
    ledger: Ledger,
    suspended: set<nat>,      // general consumers waiting for the wake flag
    births: seq<nat>,         // for each queued ticket, the publish call that created it
    servedBirths: seq<nat>    // the same for the ticket behind each delivery
  )

  datatype Action =
    | PublishNow(pub: Publication)
    | PublishBegin(publisher: nat, pub: Publication)
    | PublishFinish(publisher: nat)
    | ServeAny(consumer: nat)
    | ServeTrading
    | ServeMaintenance
    | ServePersistence
    | PauseLow
    | ResumeLow

  predicate Trades(pub: Publication) { LaneOf(pub.priority) == Trading }

  function Key(pub: Publication): string { TradingKey(pub.event) }

  /** Which steps the scheduler may take: a suspended consumer or publisher cannot act, and a
      suspended put resumes only with room in the queue. */
  predicate Enabled(w: World, a: Action) {
    match a
    case PublishBegin(p, _) => p !in w.ledger.blocked
    case PublishFinish(p) => p in w.ledger.blocked && !w.bus.TradingFull()
    case ServeAny(c) => c !in w.suspended
    case _ => true
  }

  // ---- the ledger ----

  function Start(l: Ledger, pub: Publication, f: Fate): Ledger {
    l.(log := l.log + [pub], fate := l.fate + [f])
  }

  function StartBlocked(l: Ledger, pub: Publication, p: nat): Ledger {
    Start(l, pub, Blocked(p)).(blocked := l.blocked[p := |l.log|])
  }

  function Release(l: Ledger, p: nat): Ledger
    requires p in l.blocked && l.blocked[p] < |l.fate|
  {
    l.(fate := l.fate[l.blocked[p] := Dropped], blocked := l.blocked - {p})
  }

  /** Publish call i now holds its key; whoever held it before is superseded. */
  function Own(l: Ledger, i: nat): Ledger
    requires i < |l.log| && |l.fate| == |l.log|
  {
    var k := Key(l.log[i]);
    var cleared := if k in l.owner && l.owner[k] < |l.fate| then l.fate[l.owner[k] := Superseded] else l.fate;
    l.(fate := cleared[i := Waiting], owner := l.owner[k := i])
  }

  function Hand(l: Ledger, e: Event): Ledger
    requires TradingKey(e) in l.owner && l.owner[TradingKey(e)] < |l.fate|
  {
    var i := l.owner[TradingKey(e)];
    l.(fate := l.fate[i := Delivered(|l.delivered|)],
       owner := l.owner - {TradingKey(e)},
       delivered := l.delivered + [i],
       handed := l.handed + [e],
       servedAt := l.servedAt + [|l.log|])
  }

  function MirrorEntry(l: Ledger, i: nat): Ledger { l.(mirrored := l.mirrored + [i]) }

  /** The ledger entry of a publish call that runs to its end at once. */
  function Published(l: Ledger, pub: Publication, own: bool): Ledger
    requires |l.fate| == |l.log|
  {
    var s := MirrorEntry(Start(l, pub, if Trades(pub) then Dropped else LowPriority), |l.log|);
    if own then Own(s, |l.log|) else s
  }

  /** The ledger entry a finishing publish makes. */
  function Finished(l: Ledger, p: nat): Ledger
    requires p in l.blocked && l.blocked[p] < |l.log| && |l.fate| == |l.log|
  {
    var i := l.blocked[p];
    Own(MirrorEntry(Release(l, p), i), i)
  }

  /** Each trading publish call has exactly one fate, and each fate points back at its evidence:
      a waiting call is the one its pending key would hand out, a delivered call stands in the
      delivery list at its place, a blocked call belongs to a suspended publisher. */
  ghost predicate Accounted(l: Ledger, pending: map<string, Event>) {
    |l.fate| == |l.log| && OwnersHold(l, pending) && FatesTraced(l)
  }

  ghost predicate OwnersHold(l: Ledger, pending: map<string, Event>)
    requires |l.fate| == |l.log|
  {
    && (forall k :: k in l.owner <==> k in pending)
    && (forall k :: k in l.owner ==>
          && l.owner[k] < |l.log| && Trades(l.log[l.owner[k]]) && Key(l.log[l.owner[k]]) == k
          && l.fate[l.owner[k]] == Waiting
          && l.log[l.owner[k]].event == pending[k])
  }

  ghost predicate FatesTraced(l: Ledger)
    requires |l.fate| == |l.log|
  {
    && (forall i :: 0 <= i < |l.log| && l.fate[i] == Waiting ==> Key(l.log[i]) in l.owner && l.owner[Key(l.log[i])] == i)
    && (forall i :: 0 <= i < |l.log| ==> (l.fate[i] == LowPriority <==> !Trades(l.log[i])))
    && (forall p :: p in l.blocked ==> l.blocked[p] < |l.log| && l.fate[l.blocked[p]] == Blocked(p))
    && (forall i :: 0 <= i < |l.log| && l.fate[i].Blocked? ==> l.fate[i].publisher in l.blocked && l.blocked[l.fate[i].publisher] == i)
  }

  /** The deliveries are exactly the calls marked delivered, each once and with its own event. */
  ghost predicate DeliveriesExact(l: Ledger) {
    && |l.fate| == |l.log|
    && |l.handed| == |l.delivered| == |l.servedAt|
    && (forall j :: 0 <= j < |l.delivered| ==>
          && l.delivered[j] < |l.log| && l.fate[l.delivered[j]] == Delivered(j)
          && l.handed[j] == l.log[l.delivered[j]].event
          && l.delivered[j] < l.servedAt[j] <= |l.log|)
    && (forall i :: 0 <= i < |l.log| && l.fate[i].Delivered? ==> l.fate[i].at < |l.delivered| && l.delivered[l.fate[i].at] == i)
  }

  /** Every publish call is mirrored exactly once, except those still suspended. */
  ghost predicate MirroredOnce(l: Ledger, sinkBound: bool, outbox: seq<Publication>) {
    && |l.fate| == |l.log|
    && NoDup(l.mirrored)
    && (forall j :: 0 <= j < |l.mirrored| ==> l.mirrored[j] < |l.log|)
    && (forall i :: 0 <= i < |l.log| ==> (i in l.mirrored <==> !l.fate[i].Blocked?))
    && (sinkBound ==>
          && |outbox| == |l.mirrored|
          && forall j :: 0 <= j < |l.mirrored| ==> outbox[j] == l.log[l.mirrored[j]])
  }

  lemma StartKeepsBooks(l: Ledger, pending: map<string, Event>, pub: Publication)
    requires Accounted(l, pending)
    ensures Accounted(Start(l, pub, if Trades(pub) then Dropped else LowPriority), pending)
  {}

  lemma StartBlockedKeepsBooks(l: Ledger, pending: map<string, Event>, pub: Publication, p: nat)
    requires Accounted(l, pending) && p !in l.blocked && Trades(pub)
    ensures Accounted(StartBlocked(l, pub, p), pending)
  {}

  lemma ReleaseKeepsBooks(l: Ledger, pending: map<string, Event>, p: nat)
    requires Accounted(l, pending) && p in l.blocked
    ensures Accounted(Release(l, p), pending)
  {}

  lemma OwnKeepsOwners(l: Ledger, pending: map<string, Event>, i: nat)
    requires Accounted(l, pending) && i < |l.log| && Trades(l.log[i])
    ensures |Own(l, i).fate| == |l.log| && OwnersHold(Own(l, i), pending[Key(l.log[i]) := l.log[i].event])
  {
    var n := Own(l, i);
    forall k | k in n.owner
      ensures n.owner[k] < |n.log| && Trades(n.log[n.owner[k]]) && Key(n.log[n.owner[k]]) == k && n.fate[n.owner[k]] == Waiting
    {
      if k != Key(l.log[i]) {
        assert Key(l.log[l.owner[k]]) == k;
      }
    }
  }

  lemma OwnKeepsFates(l: Ledger, pending: map<string, Event>, i: nat)
    requires Accounted(l, pending) && i < |l.log| && l.fate[i] == Dropped
    ensures |Own(l, i).fate| == |l.log| && FatesTraced(Own(l, i))
  {
    var n := Own(l, i);
    var k := Key(l.log[i]);
    forall j | 0 <= j < |n.log|
      ensures n.fate[j] == Waiting ==> Key(n.log[j]) in n.owner && n.owner[Key(n.log[j])] == j
      ensures n.fate[j] == LowPriority <==> l.fate[j] == LowPriority
      ensures n.fate[j].Blocked? <==> l.fate[j].Blocked?
      ensures n.fate[j].Blocked? ==> n.fate[j] == l.fate[j]
    {
      if j != i && (k !in l.owner || j != l.owner[k]) {
        assert n.fate[j] == l.fate[j];
      }
    }
  }

  lemma OwnKeepsBooks(l: Ledger, pending: map<string, Event>, i: nat)
    requires Accounted(l, pending) && i < |l.log| && l.fate[i] == Dropped
    ensures Accounted(Own(l, i), pending[Key(l.log[i]) := l.log[i].event])
  {
    OwnKeepsOwners(l, pending, i);
    OwnKeepsFates(l, pending, i);
  }

  lemma HandKeepsOwners(l: Ledger, pending: map<string, Event>, k: string)
    requires Accounted(l, pending) && k in pending && TradingKey(pending[k]) == k
    ensures |Hand(l, pending[k]).fate| == |l.log| && OwnersHold(Hand(l, pending[k]), pending - {k})
  {
    hide FatesTraced;
    var n := Hand(l, pending[k]);
    forall j | j in n.owner ensures n.owner[j] != l.owner[k] {
      assert Key(l.log[l.owner[j]]) == j;
    }
  }

  lemma HandKeepsFates(l: Ledger, pending: map<string, Event>, k: string)
    requires Accounted(l, pending) && k in pending && TradingKey(pending[k]) == k
    ensures |Hand(l, pending[k]).fate| == |l.log| && FatesTraced(Hand(l, pending[k]))
  {
    assert l.owner[k] < |l.log| && Trades(l.log[l.owner[k]]) && l.fate[l.owner[k]] == Waiting && Key(l.log[l.owner[k]]) == k;
    hide OwnersHold;
  }

  lemma HandKeepsBooks(l: Ledger, pending: map<string, Event>, k: string)
    requires Accounted(l, pending) && k in pending && TradingKey(pending[k]) == k
    ensures Accounted(Hand(l, pending[k]), pending - {k})
  {
    HandKeepsOwners(l, pending, k);
    HandKeepsFates(l, pending, k);
    hide OwnersHold, FatesTraced, Hand;
  }

  /** Owned keys name calls that are waiting. */
  ghost predicate OwnersWait(l: Ledger) {
    |l.fate| == |l.log| && forall k :: k in l.owner ==> l.owner[k] < |l.log| && l.fate[l.owner[k]] == Waiting
  }

  lemma OwnKeepsDeliveries(l: Ledger, i: nat)
    requires DeliveriesExact(l) && OwnersWait(l) && i < |l.log| && !l.fate[i].Delivered?
    ensures DeliveriesExact(Own(l, i))
  {}

  lemma HandKeepsDeliveries(l: Ledger, e: Event)
    requires DeliveriesExact(l) && OwnersWait(l) && TradingKey(e) in l.owner
    requires l.log[l.owner[TradingKey(e)]].event == e
    ensures DeliveriesExact(Hand(l, e))
  {}

  lemma StartKeepsMirror(l: Ledger, sinkBound: bool, outbox: seq<Publication>, pub: Publication, f: Fate)
    requires MirroredOnce(l, sinkBound, outbox) && !f.Blocked?
    ensures MirroredOnce(MirrorEntry(Start(l, pub, f), |l.log|), sinkBound, if sinkBound then outbox + [pub] else outbox)
  {
    var n := MirrorEntry(Start(l, pub, f), |l.log|);
    assert n.mirrored[|l.mirrored|] == |l.log|;
    forall i | 0 <= i < |l.log| && i in l.mirrored ensures i in n.mirrored {
      var j :| 0 <= j < |l.mirrored| && l.mirrored[j] == i;
      assert n.mirrored[j] == i;
    }
  }

  lemma FinishKeepsMirror(l: Ledger, sinkBound: bool, outbox: seq<Publication>, p: nat)
    requires MirroredOnce(l, sinkBound, outbox) && p in l.blocked && l.blocked[p] < |l.log|
    requires l.fate[l.blocked[p]] == Blocked(p)
    ensures var i := l.blocked[p];
      MirroredOnce(MirrorEntry(Release(l, p), i), sinkBound, if sinkBound then outbox + [l.log[i]] else outbox)
  {
    var k := l.blocked[p];
    var n := MirrorEntry(Release(l, p), k);
    assert n.mirrored[|l.mirrored|] == k;
    forall i | 0 <= i < |l.log| && i in l.mirrored ensures i in n.mirrored {
      var j :| 0 <= j < |l.mirrored| && l.mirrored[j] == i;
      assert n.mirrored[j] == i;
    }
  }

  lemma LedgerKeepsMirror(l: Ledger, sinkBound: bool, outbox: seq<Publication>, i: nat, e: Event)
    requires MirroredOnce(l, sinkBound, outbox)
    requires forall k :: k in l.owner ==> l.owner[k] < |l.log| && l.fate[l.owner[k]] == Waiting
    ensures i < |l.log| && !l.fate[i].Blocked? ==> MirroredOnce(Own(l, i), sinkBound, outbox)
    ensures TradingKey(e) in l.owner ==> MirroredOnce(Hand(l, e), sinkBound, outbox)
  {}

  // ---- the world ----

  /** A set wake flag resumes every suspended consumer. */
  function WithBus(w: World, b: BusState): World {
    w.(bus := b, suspended := if b.wake then {} else w.suspended)
  }

  /** Tickets leave from the front, so the traces of those left are the last ones. */
  function TraceLeft(w: World, b: BusState): seq<nat> {
    if |b.tickets| <= |w.births| then w.births[|w.births| - |b.tickets|..] else w.births
  }

  /** The event ends up pending under its key. */
  predicate TakesKey(b: BusState, pub: Publication) {
    Trades(pub) && (Key(pub) in b.pending || !b.TradingFull())
  }

  /** A publish call that runs to its end without suspending. */
  function PublishAtOnce(w: World, pub: Publication): World
    requires |w.ledger.fate| == |w.ledger.log| && w.bus.retainedCapacity > 0
  {
    var b := PublishNowait(w.bus, pub);
    WithBus(w, b).(ledger := Published(w.ledger, pub, TakesKey(w.bus, pub)),
                   births := if |b.tickets| > |w.bus.tickets| then w.births + [|w.ledger.log|] else w.births)
  }

  /** The bus moved to b and a consumer received e from the trading lane. */
  function Handed(w: World, b: BusState, e: Event): World {
    if TradingKey(e) !in w.ledger.owner || w.ledger.owner[TradingKey(e)] >= |w.ledger.fate| || |b.tickets| >= |w.births| then
      WithBus(w, b)
    else
      WithBus(w, b).(ledger := Hand(w.ledger, e), births := TraceLeft(w, b),
                     servedBirths := w.servedBirths + [w.births[|w.births| - |b.tickets| - 1]])
  }

  /** A suspended put found room. */
  function FinishPublish(w: World, p: nat): World
    requires p in w.ledger.blocked && w.ledger.blocked[p] < |w.ledger.log| && |w.ledger.fate| == |w.ledger.log|
  {
    var i := w.ledger.blocked[p];
    WithBus(w, Enqueue(w.bus, w.ledger.log[i])).(ledger := Finished(w.ledger, p), births := w.births + [i])
  }

  function ServeAnyTo(w: World, c: nat): World {
    var (b, e) := NextEvent(w.bus);
    if w.bus.pending != map[] && e.Some? then Handed(w, b, e.value)
    else
      var n := WithBus(w, b).(births := TraceLeft(w, b));
      if e.Some? then n else n.(suspended := n.suspended + {c})
  }

  function ServeTradingOnce(w: World): World {
    var (b, e) := NextTrading(w.bus);
    if e.Some? then Handed(w, b, e.value) else WithBus(w, b).(births := TraceLeft(w, b))
  }

  function Step(w: World, a: Action): World
    requires |w.ledger.fate| == |w.ledger.log| && w.bus.retainedCapacity > 0
    requires forall p :: p in w.ledger.blocked ==> w.ledger.blocked[p] < |w.ledger.log|
    requires Enabled(w, a)
  {
    match a
    case PublishNow(pub) => PublishAtOnce(w, pub)
    case PublishBegin(p, pub) =>
      if MustBlock(w.bus, pub) then w.(ledger := StartBlocked(w.ledger, pub, p)) else PublishAtOnce(w, pub)
    case PublishFinish(p) => FinishPublish(w, p)
    case ServeAny(c) => ServeAnyTo(w, c)
    case ServeTrading => ServeTradingOnce(w)
    case ServeMaintenance => WithBus(w, NextMaintenance(w.bus).0)
    case ServePersistence => WithBus(w, NextPersistence(w.bus).0)
    case PauseLow => WithBus(w, Pause(w.bus))
    case ResumeLow => WithBus(w, Resume(w.bus))
  }

  // ---- what holds at every point of every interleaving ----

  /** The bus is sound and no consumer is suspended while the wake flag is set. */
  ghost predicate Awake(w: World) {
    Sound(w.bus) && (w.suspended != {} ==> !w.bus.wake)
  }

  ghost predicate Inv(w: World) {
    Awake(w) && LedgerOk(w)
  }

  /** The ledger half of the invariant. */
  ghost predicate LedgerOk(w: World) {
    && Accounted(w.ledger, w.bus.pending)
    && DeliveriesExact(w.ledger)
    && MirroredOnce(w.ledger, w.bus.sinkBound, w.bus.outbox)
    && |w.births| == |w.bus.tickets|
  }

  ghost predicate FreshBus(b: BusState) {
    Sound(b) && b.tickets == [] && b.pending == map[] && b.outbox == []
  }

  function InitWorld(b: BusState): World {
    World(b, Ledger([], [], map[], map[], [], [], [], []), {}, [], [])
  }

  // ---- one step ----

  /** What a turn of a trading or general consumer does to the trading half of the bus. */
  ghost predicate Served(b: BusState, next: BusState, e: Option<Event>) {
    && |next.tickets| <= |b.tickets|
    && next.outbox == b.outbox && next.sinkBound == b.sinkBound
    && (e.None? ==> next.pending == b.pending)
    && (e.Some? ==> TradingKey(e.value) in b.pending && b.pending[TradingKey(e.value)] == e.value
                    && next.pending == b.pending - {TradingKey(e.value)} && |next.tickets| < |b.tickets|)
  }

  lemma {:induction false} PopTicketShrinks(tickets: seq<string>, pending: map<string, Event>)
    ensures var (t, p, e) := PopTicket(tickets, pending);
      |t| <= |tickets| && (e.Some? ==> |t| < |tickets|)
  {
    if tickets != [] && tickets[0] !in pending {
      PopTicketShrinks(tickets[1..], pending);
    }
  }

  lemma TradingServed(b: BusState)
    requires Ticketed(b)
    ensures Served(b, NextTrading(b).0, NextTrading(b).1)
  {
    PopTicketExact(b.tickets, b.pending);
    PopTicketShrinks(b.tickets, b.pending);
  }

  lemma ReadyServed(b: BusState)
    requires Ticketed(b)
    ensures Served(b, PopReady(b).0, if b.pending != map[] then PopReady(b).1 else None)
  {
    PopTicketExact(b.tickets, b.pending);
    PopTicketShrinks(b.tickets, b.pending);
  }

  lemma AnyServed(b: BusState)
    requires Ticketed(b) && Bounded(b)
    ensures Served(b, NextEvent(b).0, if b.pending != map[] then NextEvent(b).1 else None)
  {
    var f := Flush(b);
    FlushFrame(b);
    ReadyServed(f);
    assert NextEvent(b).1 == PopReady(f).1;
    assert NextEvent(b).0 == PopReady(f).0 || NextEvent(b).0 == PopReady(f).0.(wake := false);
  }

  lemma StepKeepsAwake(w: World, a: Action)
    requires Awake(w) && Enabled(w, a) && |w.ledger.fate| == |w.ledger.log|
    requires forall p :: p in w.ledger.blocked ==> w.ledger.blocked[p] < |w.ledger.log|
    ensures Awake(Step(w, a))
  {
    hide PublishNowait, Enqueue, NextEvent, NextTrading, NextMaintenance, NextPersistence, Pause, Resume, Sound;
    match a
    case PublishNow(pub) => PublishNowaitKeepsSound(w.bus, pub);
    case PublishBegin(p, pub) => PublishNowaitKeepsSound(w.bus, pub);
    case PublishFinish(p) => EnqueueKeepsSound(w.bus, w.ledger.log[w.ledger.blocked[p]]);
    case ServeAny(c) => NextEventKeepsSound(w.bus); SuspendsUnwoken(w.bus);
    case ServeTrading => NextTradingKeepsSound(w.bus);
    case ServeMaintenance => NextLowKeepsSound(w.bus);
    case ServePersistence => NextLowKeepsSound(w.bus);
    case PauseLow => PauseKeepsSound(w.bus);
    case ResumeLow => ResumeKeepsSound(w.bus);
  }

  /** A consumer that suspends leaves the wake flag clear. */
  lemma SuspendsUnwoken(b: BusState)
    ensures NextEvent(b).1.None? ==> !NextEvent(b).0.wake
  {
    hide Flush, PopReady;
  }

  lemma PauseKeepsSound(b: BusState)
    requires Sound(b)
    ensures Sound(Pause(b))
  {}

  lemma StartKeepsDeliveries(l: Ledger, pub: Publication, f: Fate)
    requires DeliveriesExact(l) && !f.Delivered?
    ensures DeliveriesExact(Start(l, pub, f))
  {}

  lemma PublishKeepsBooks(l: Ledger, pending: map<string, Event>, pub: Publication, own: bool)
    requires Accounted(l, pending) && DeliveriesExact(l) && (own ==> Trades(pub))
    ensures var n := Published(l, pub, own);
      && Accounted(n, if own then pending[Key(pub) := pub.event] else pending) && DeliveriesExact(n)
  {
    var f := if Trades(pub) then Dropped else LowPriority;
    var s := MirrorEntry(Start(l, pub, f), |l.log|);
    StartKeepsBooks(l, pending, pub);
    assert Accounted(s, pending);
    StartKeepsDeliveries(l, pub, f);
    assert DeliveriesExact(s);
    if own {
      OwnKeepsBooks(s, pending, |l.log|);
      OwnKeepsDeliveries(s, |l.log|);
    }
  }

  lemma PublishKeepsMirror(l: Ledger, pending: map<string, Event>, sinkBound: bool, outbox: seq<Publication>, pub: Publication, own: bool)
    requires Accounted(l, pending) && MirroredOnce(l, sinkBound, outbox) && (own ==> Trades(pub))
    ensures MirroredOnce(Published(l, pub, own), sinkBound, if sinkBound then outbox + [pub] else outbox)
  {
    var f := if Trades(pub) then Dropped else LowPriority;
    StartKeepsMirror(l, sinkBound, outbox, pub, f);
    if own {
      LedgerKeepsMirror(MirrorEntry(Start(l, pub, f), |l.log|), sinkBound, if sinkBound then outbox + [pub] else outbox,
                        |l.log|, pub.event);
    }
  }

  /** What a publish call that does not suspend leaves on the bus. */
  lemma PublishOutcome(b: BusState, pub: Publication)
    requires b.retainedCapacity > 0
    ensures var n := PublishNowait(b, pub);
      && n.pending == (if TakesKey(b, pub) then b.pending[Key(pub) := pub.event] else b.pending)
      && n.tickets == (if TakesKey(b, pub) && Key(pub) !in b.pending then b.tickets + [Key(pub)] else b.tickets)
      && n.sinkBound == b.sinkBound && n.outbox == (if b.sinkBound then b.outbox + [pub] else b.outbox)
  {}

  lemma PublishKeepsLedger(w: World, pub: Publication)
    requires Inv(w)
    ensures LedgerOk(PublishAtOnce(w, pub))
  {
    PublishOutcome(w.bus, pub);
    PublishKeepsBooks(w.ledger, w.bus.pending, pub, TakesKey(w.bus, pub));
    PublishKeepsMirror(w.ledger, w.bus.pending, w.bus.sinkBound, w.bus.outbox, pub, TakesKey(w.bus, pub));
  }

  lemma BlockKeepsLedger(w: World, p: nat, pub: Publication)
    requires Inv(w) && p !in w.ledger.blocked && MustBlock(w.bus, pub)
    ensures var n := w.(ledger := StartBlocked(w.ledger, pub, p));
      && Accounted(n.ledger, n.bus.pending) && DeliveriesExact(n.ledger)
      && MirroredOnce(n.ledger, n.bus.sinkBound, n.bus.outbox)
  {
    StartBlockedKeepsBooks(w.ledger, w.bus.pending, pub, p);
    StartKeepsDeliveries(w.ledger, pub, Blocked(p));
  }

  lemma FinishedKeepsBooks(l: Ledger, pending: map<string, Event>, p: nat)
    requires Accounted(l, pending) && p in l.blocked
    ensures var pub := l.log[l.blocked[p]]; Accounted(Finished(l, p), pending[Key(pub) := pub.event])
  {
    var i := l.blocked[p];
    ReleaseKeepsBooks(l, pending, p);
    var r := MirrorEntry(Release(l, p), i);
    assert Accounted(r, pending);
    OwnKeepsBooks(r, pending, i);
  }

  lemma FinishedKeepsDeliveries(l: Ledger, pending: map<string, Event>, p: nat)
    requires Accounted(l, pending) && DeliveriesExact(l) && p in l.blocked
    ensures DeliveriesExact(Finished(l, p))
  {
    var i := l.blocked[p];
    ReleaseKeepsBooks(l, pending, p);
    var r := MirrorEntry(Release(l, p), i);
    assert DeliveriesExact(r) && OwnersWait(r) && r.fate[i] == Dropped;
    hide DeliveriesExact, Accounted, OwnersWait;
    OwnKeepsDeliveries(r, i);
  }

  lemma FinishedKeepsMirror(l: Ledger, pending: map<string, Event>, sinkBound: bool, outbox: seq<Publication>, p: nat)
    requires Accounted(l, pending) && MirroredOnce(l, sinkBound, outbox) && p in l.blocked
    ensures MirroredOnce(Finished(l, p), sinkBound, if sinkBound then outbox + [l.log[l.blocked[p]]] else outbox)
  {
    var i := l.blocked[p];
    FinishKeepsMirror(l, sinkBound, outbox, p);
    ReleaseKeepsBooks(l, pending, p);
    var r := MirrorEntry(Release(l, p), i);
    assert OwnersWait(r) && r.fate[i] == Dropped;
    hide MirroredOnce, Accounted;
    LedgerKeepsMirror(r, sinkBound, if sinkBound then outbox + [l.log[i]] else outbox, i, l.log[i].event);
  }

  lemma FinishKeepsLedger(w: World, p: nat)
    requires Inv(w) && Enabled(w, PublishFinish(p))
    ensures LedgerOk(FinishPublish(w, p))
  {
    FinishedKeepsBooks(w.ledger, w.bus.pending, p);
    FinishedKeepsDeliveries(w.ledger, w.bus.pending, p);
    FinishedKeepsMirror(w.ledger, w.bus.pending, w.bus.sinkBound, w.bus.outbox, p);
    hide Finished, DeliveriesExact, MirroredOnce, Awake;
  }

  /** A handed event is the one its key's owner published. */
  lemma HandedIs(w: World, b: BusState, e: Event)
    requires Inv(w) && Served(w.bus, b, Some(e))
    ensures TradingKey(e) in w.ledger.owner && w.ledger.owner[TradingKey(e)] < |w.ledger.log|
    ensures w.ledger.log[w.ledger.owner[TradingKey(e)]].event == e && OwnersWait(w.ledger)
    ensures var n := Handed(w, b, e); n.ledger == Hand(w.ledger, e) && n.bus == b && |n.births| == |b.tickets|
  {
    assert Accounted(w.ledger, w.bus.pending);
    hide Awake, DeliveriesExact, MirroredOnce, FatesTraced, Hand;
  }

  lemma HandedKeepsLedger(w: World, b: BusState, e: Event)
    requires Inv(w) && Served(w.bus, b, Some(e))
    ensures var n := Handed(w, b, e);
      && n.ledger == Hand(w.ledger, e)
      && Accounted(n.ledger, b.pending) && DeliveriesExact(n.ledger)
      && MirroredOnce(n.ledger, b.sinkBound, b.outbox) && |n.births| == |b.tickets|
  {
    HandedIs(w, b, e);
    hide Handed, Awake, Accounted, DeliveriesExact, MirroredOnce, Hand;
    HandKeepsBooks(w.ledger, w.bus.pending, TradingKey(e));
    HandKeepsDeliveries(w.ledger, e);
    LedgerKeepsMirror(w.ledger, w.bus.sinkBound, w.bus.outbox, 0, e);
  }

  lemma ServeAnyKeepsLedger(w: World, c: nat)
    requires Inv(w)
    ensures LedgerOk(ServeAnyTo(w, c))
  {
    AnyServed(w.bus);
    var (b, e) := NextEvent(w.bus);
    if w.bus.pending != map[] && e.Some? {
      HandedKeepsLedger(w, b, e.value);
    }
  }

  lemma ServeTradingKeepsLedger(w: World)
    requires Inv(w)
    ensures LedgerOk(ServeTradingOnce(w))
  {
    TradingServed(w.bus);
    var (b, e) := NextTrading(w.bus);
    if e.Some? {
      HandedKeepsLedger(w, b, e.value);
    }
  }

  lemma StepKeepsLedger(w: World, a: Action)
    requires Inv(w) && Enabled(w, a)
    ensures LedgerOk(Step(w, a))
  {
    match a
    case PublishNow(pub) => PublishKeepsLedger(w, pub);
    case PublishBegin(p, pub) =>
      if MustBlock(w.bus, pub) {
        BlockKeepsLedger(w, p, pub);
      } else {
        PublishKeepsLedger(w, pub);
      }
    case PublishFinish(p) => FinishKeepsLedger(w, p);
    case ServeAny(c) => ServeAnyKeepsLedger(w, c);
    case ServeTrading => ServeTradingKeepsLedger(w);
    case _ =>
  }

  // ---- whole runs ----

  ghost predicate Legal(w: World, run: seq<Action>)
    requires Inv(w)
    decreases |run|
  {
    run != [] ==>
      && Enabled(w, run[0])
      && (StepKeepsInv(w, run[0]); Legal(Step(w, run[0]), run[1..]))
  }

  ghost function Run(w: World, run: seq<Action>): (end: World)
    requires Inv(w) && Legal(w, run)
    ensures Inv(end)
    decreases |run|
  {
    if run == [] then w
    else
      StepKeepsInv(w, run[0]);
      Run(Step(w, run[0]), run[1..])
  }

  lemma StepKeepsInv(w: World, a: Action)
    requires Inv(w) && Enabled(w, a)
    ensures Inv(Step(w, a))
  {
    StepKeepsAwake(w, a);
    StepKeepsLedger(w, a);
  }

  lemma InitHolds(b: BusState)
    requires FreshBus(b)
    ensures Inv(InitWorld(b))
  {}

  /** Under every interleaving no pending event is stranded, the pending map stays within the
      queue's capacity, and a suspended consumer never sits beside an event it could be given. */
  lemma EveryInterleavingIsSafe(b: BusState, run: seq<Action>)
    requires FreshBus(b) && Inv(InitWorld(b)) && Legal(InitWorld(b), run)
    ensures var w := Run(InitWorld(b), run);
      && (forall k :: k in w.bus.pending ==> k in w.bus.tickets)
      && |w.bus.pending| <= w.bus.tradingCapacity
      && (NextTrading(w.bus).1.None? <==> w.bus.pending == map[])
      && (w.suspended != {} ==> NextEvent(w.bus).1.None?)
  {
    var w := Run(InitWorld(b), run);
    PendingNeverOutgrowsQueue(w.bus);
    NextTradingKeepsSound(w.bus);
    NextEventSuspendsExactly(w.bus);
  }

  // ---- runs without blocking publishers ----

  predicate NonBlocking(a: Action) { !a.PublishBegin? && !a.PublishFinish? }

  ghost predicate Increasing(s: seq<nat>) {
    forall i, j :: 0 <= i < j < |s| ==> s[i] < s[j]
  }

  /** One ticket per pending key. */
  ghost predicate OneTicketEach(b: BusState) {
    NoDup(b.tickets) && (forall k :: k in b.tickets <==> k in b.pending)
  }

  /** Tickets stand and leave in the order of the publish calls that created them. */
  ghost predicate FirstComeFirstServed(w: World) {
    && |w.births| == |w.bus.tickets|
    && |w.servedBirths| == |w.ledger.delivered|
    && Increasing(w.servedBirths + w.births)
    && (forall j :: 0 <= j < |w.births| ==>
          w.births[j] < |w.ledger.log| && Key(w.ledger.log[w.births[j]]) == w.bus.tickets[j])
    && (forall j :: 0 <= j < |w.servedBirths| ==>
          && w.servedBirths[j] < |w.ledger.log| && w.ledger.delivered[j] < |w.ledger.log|
          && Key(w.ledger.log[w.servedBirths[j]]) == Key(w.ledger.log[w.ledger.delivered[j]]))
  }

  /** No call from position `from` up to `to` publishes under this key. */
  ghost predicate Silent(log: seq<Publication>, key: string, from: nat, to: nat) {
    to <= |log| && forall i :: from <= i < to && Trades(log[i]) ==> Key(log[i]) != key
  }

  /** What is pending, and what was handed out, was the latest publication under its key. */
  ghost predicate LatestWins(l: Ledger) {
    && |l.delivered| == |l.servedAt|
    && (forall k :: k in l.owner ==> l.owner[k] < |l.log| && Silent(l.log, k, l.owner[k] + 1, |l.log|))
    && (forall j :: 0 <= j < |l.delivered| ==>
          l.delivered[j] < |l.log| && Silent(l.log, Key(l.log[l.delivered[j]]), l.delivered[j] + 1, l.servedAt[j]))
  }

  /** Nothing is suspended, and the outbox mirrors the publish calls one for one, in order. */
  ghost predicate MirroredInOrder(l: Ledger) {
    l.blocked == map[] && |l.mirrored| == |l.log| && forall j :: 0 <= j < |l.log| ==> l.mirrored[j] == j
  }

  /** Keys leave in order of first publication, each with its newest event. */
  ghost predicate Orderly(w: World) {
    OneTicketEach(w.bus) && FirstComeFirstServed(w) && LatestWins(w.ledger)
  }

  ghost predicate LatestValueFifo(w: World) {
    Orderly(w) && MirroredInOrder(w.ledger)
  }

  /** A publish call that creates no ticket, or one at the back, keeps the order. */
  lemma PublishKeepsOrder(w: World, n: World, pub: Publication)
    requires FirstComeFirstServed(w)
    requires n.ledger.log == w.ledger.log + [pub] && n.ledger.delivered == w.ledger.delivered
    requires n.servedBirths == w.servedBirths
    requires || (n.births == w.births && n.bus.tickets == w.bus.tickets)
             || (n.births == w.births + [|w.ledger.log|] && n.bus.tickets == w.bus.tickets + [Key(pub)])
    ensures FirstComeFirstServed(n)
  {
    var before := w.servedBirths + w.births;
    forall j | 0 <= j < |before| ensures before[j] < |w.ledger.log| {
      if j >= |w.servedBirths| {
        assert before[j] == w.births[j - |w.servedBirths|];
      }
    }
    if n.births != w.births {
      assert n.servedBirths + n.births == before + [|w.ledger.log|];
    }
  }

  lemma PublishKeepsOneTicketEach(b: BusState, pub: Publication)
    requires OneTicketEach(b) && b.retainedCapacity > 0
    ensures OneTicketEach(PublishNowait(b, pub))
  {
    var n := PublishNowait(b, pub);
    if Trades(pub) && Key(pub) !in b.pending && !b.TradingFull() {
      assert n.tickets[|b.tickets|] == Key(pub);
      forall k | k in b.pending ensures k in n.tickets {
        var i :| 0 <= i < |b.tickets| && b.tickets[i] == k;
        assert n.tickets[i] == k;
      }
    }
  }

  lemma StillSilent(log: seq<Publication>, pub: Publication, key: string, from: nat, to: nat)
    requires Silent(log, key, from, to)
    ensures Silent(log + [pub], key, from, to)
    ensures to == |log| && !(Trades(pub) && Key(pub) == key) ==> Silent(log + [pub], key, from, |log| + 1)
  {}

  /** Starting a call under a key that is not pending changes nothing that is pending or was delivered. */
  lemma StartKeepsLatest(l: Ledger, pub: Publication, f: Fate)
    requires LatestWins(l) && (Trades(pub) ==> Key(pub) !in l.owner)
    ensures LatestWins(Start(l, pub, f))
  {
    var n := Start(l, pub, f);
    forall k | k in n.owner ensures n.owner[k] < |n.log| && Silent(n.log, k, n.owner[k] + 1, |n.log|) {
      StillSilent(l.log, pub, k, l.owner[k] + 1, |l.log|);
    }
    StartKeepsDelivered(l, pub);
  }

  ghost predicate DeliveredLatest(l: Ledger, log: seq<Publication>) {
    && |l.delivered| == |l.servedAt|
    && forall j :: 0 <= j < |l.delivered| ==>
         l.delivered[j] < |log| && Silent(log, Key(log[l.delivered[j]]), l.delivered[j] + 1, l.servedAt[j])
  }

  lemma StartKeepsDelivered(l: Ledger, pub: Publication)
    requires DeliveredLatest(l, l.log)
    ensures DeliveredLatest(l, l.log + [pub])
  {
    forall j | 0 <= j < |l.delivered|
      ensures Silent(l.log + [pub], Key((l.log + [pub])[l.delivered[j]]), l.delivered[j] + 1, l.servedAt[j])
    {
      StillSilent(l.log, pub, Key(l.log[l.delivered[j]]), l.delivered[j] + 1, l.servedAt[j]);
    }
  }

  lemma PublishKeepsLatest(l: Ledger, pub: Publication, own: bool)
    requires LatestWins(l) && |l.fate| == |l.log|
    requires own || (Trades(pub) ==> Key(pub) !in l.owner)
    ensures LatestWins(Published(l, pub, own))
  {
    var n := Published(l, pub, own);
    StartKeepsDelivered(l, pub);
    forall k | k in n.owner ensures n.owner[k] < |n.log| && Silent(n.log, k, n.owner[k] + 1, |n.log|) {
      if k in l.owner && (!own || k != Key(pub)) {
        StillSilent(l.log, pub, k, l.owner[k] + 1, |l.log|);
      }
    }
  }

  lemma PublishKeepsMirrorOrder(l: Ledger, pub: Publication, own: bool)
    requires MirroredInOrder(l) && |l.fate| == |l.log|
    ensures MirroredInOrder(Published(l, pub, own))
  {}

  lemma HandedKeepsLatest(l: Ledger, e: Event)
    requires LatestWins(l) && |l.fate| == |l.log|
    requires TradingKey(e) in l.owner && Key(l.log[l.owner[TradingKey(e)]]) == TradingKey(e)
    ensures LatestWins(Hand(l, e)) && (MirroredInOrder(l) ==> MirroredInOrder(Hand(l, e)))
  {}

  lemma PopHeadKeepsOneTicketEach(b: BusState, next: BusState)
    requires OneTicketEach(b) && b.tickets != []
    requires next.tickets == b.tickets[1..] && next.pending == b.pending - {b.tickets[0]}
    ensures OneTicketEach(next)
  {
    forall x | x in next.pending ensures x in next.tickets {
      var i :| 0 <= i < |b.tickets| && b.tickets[i] == x;
      assert next.tickets[i - 1] == x;
    }
  }

  /** The front ticket moves from the queue to the served ones. */
  lemma FrontMovesOver(served: seq<nat>, births: seq<nat>, log: seq<Publication>, tickets: seq<string>, delivered: seq<nat>, i: nat)
    requires births != [] && |births| == |tickets| && |served| == |delivered| && Increasing(served + births)
    requires forall j :: 0 <= j < |births| ==> births[j] < |log| && Key(log[births[j]]) == tickets[j]
    requires i < |log| && Key(log[i]) == tickets[0]
    ensures Increasing((served + [births[0]]) + births[1..])
    ensures forall j :: 0 <= j < |births[1..]| ==> births[1..][j] < |log| && Key(log[births[1..][j]]) == tickets[1..][j]
    ensures Key(log[births[0]]) == Key(log[i])
  {
    assert (served + [births[0]]) + births[1..] == served + births;
  }

  lemma HandedTraces(w: World, b: BusState, e: Event)
    requires TradingKey(e) in w.ledger.owner && w.ledger.owner[TradingKey(e)] < |w.ledger.fate|
    requires |w.births| == |w.bus.tickets| && w.bus.tickets != [] && b.tickets == w.bus.tickets[1..]
    ensures var n := Handed(w, b, e);
      && n.births == w.births[1..] && n.servedBirths == w.servedBirths + [w.births[0]]
      && n.bus == b && n.ledger == Hand(w.ledger, e)
  {
    hide Hand;
  }

  lemma OwnerOf(w: World, e: Event) returns (i: nat)
    requires Inv(w) && TradingKey(e) in w.bus.pending
    ensures TradingKey(e) in w.ledger.owner && i == w.ledger.owner[TradingKey(e)] < |w.ledger.log|
    ensures |w.ledger.fate| == |w.ledger.log| && Key(w.ledger.log[i]) == TradingKey(e)
  {
    i := w.ledger.owner[TradingKey(e)];
  }

  lemma HandedKeepsOrder(w: World, b: BusState, e: Event)
    requires Inv(w) && FirstComeFirstServed(w) && w.bus.tickets != []
    requires b.tickets == w.bus.tickets[1..] && TradingKey(e) == w.bus.tickets[0] && TradingKey(e) in w.bus.pending
    ensures FirstComeFirstServed(Handed(w, b, e)) && Handed(w, b, e).ledger == Hand(w.ledger, e)
  {
    hide Inv, Handed, Increasing;
    var i := OwnerOf(w, e);
    HandedTraces(w, b, e);
    FrontMovesOver(w.servedBirths, w.births, w.ledger.log, w.bus.tickets, w.ledger.delivered, i);
  }

  lemma HandedKeepsOrderly(w: World, b: BusState, e: Event)
    requires Inv(w) && Orderly(w)
    requires w.bus.tickets != [] && b.tickets == w.bus.tickets[1..]
    requires TradingKey(e) == w.bus.tickets[0] && b.pending == w.bus.pending - {w.bus.tickets[0]}
    ensures Orderly(Handed(w, b, e)) && (MirroredInOrder(w.ledger) ==> MirroredInOrder(Handed(w, b, e).ledger))
  {
    PopHeadKeepsOneTicketEach(w.bus, b);
    HandedKeepsOrder(w, b, e);
    HandedKeepsLatest(w.ledger, e);
    hide FirstComeFirstServed, LatestWins, MirroredInOrder, OneTicketEach, Hand;
  }

  /** With one ticket per key, both consumers are given the event of the front ticket. */
  lemma FrontTicketServed(b: BusState)
    requires OneTicketEach(b) && b.tickets != []
    ensures NextTrading(b).1 == Some(b.pending[b.tickets[0]]) && NextEvent(b).1 == Some(b.pending[b.tickets[0]])
    ensures NextTrading(b).0.tickets == NextEvent(b).0.tickets == b.tickets[1..]
    ensures NextTrading(b).0.pending == NextEvent(b).0.pending == b.pending - {b.tickets[0]}
  {
    assert b.tickets[0] in b.pending;
  }

  /** An idle lane leaves the ledger and the traces alone. */
  lemma NothingToServe(w: World, c: nat)
    requires w.bus.tickets == [] && w.bus.pending == map[] && |w.births| == 0
    ensures var n := ServeAnyTo(w, c);
      n.ledger == w.ledger && n.births == [] && n.servedBirths == w.servedBirths && n.bus.tickets == [] && n.bus.pending == map[]
    ensures var n := ServeTradingOnce(w);
      n.ledger == w.ledger && n.births == [] && n.servedBirths == w.servedBirths && n.bus.tickets == [] && n.bus.pending == map[]
  {}

  /** With one ticket per key, both turns hand out the front ticket's event. */
  lemma BothHandFront(w: World, c: nat)
    requires OneTicketEach(w.bus) && w.bus.tickets != []
    ensures w.bus.tickets[0] in w.bus.pending
    ensures ServeAnyTo(w, c) == Handed(w, NextEvent(w.bus).0, w.bus.pending[w.bus.tickets[0]])
    ensures ServeTradingOnce(w) == Handed(w, NextTrading(w.bus).0, w.bus.pending[w.bus.tickets[0]])
  {
    assert w.bus.tickets[0] in w.bus.pending;
    FrontTicketServed(w.bus);
    hide Handed, NextEvent, NextTrading, OneTicketEach;
  }

  lemma ServeKeepsOrderly(w: World, c: nat)
    requires Inv(w) && Orderly(w)
    ensures Orderly(ServeAnyTo(w, c)) && Orderly(ServeTradingOnce(w))
    ensures MirroredInOrder(w.ledger) ==>
              MirroredInOrder(ServeAnyTo(w, c).ledger) && MirroredInOrder(ServeTradingOnce(w).ledger)
  {
    if w.bus.tickets == [] {
      IdleKeepsOrderly(w, c);
    } else {
      BothHandFront(w, c);
      FrontTicketServed(w.bus);
      var e := w.bus.pending[w.bus.tickets[0]];
      assert TradingKey(e) == w.bus.tickets[0];
      hide Inv, Orderly, MirroredInOrder, NextEvent, NextTrading, ServeAnyTo, ServeTradingOnce, Handed;
      HandedKeepsOrderly(w, NextEvent(w.bus).0, e);
      HandedKeepsOrderly(w, NextTrading(w.bus).0, e);
    }
  }

  lemma IdleStaysOrderly(w: World, n: World)
    requires Orderly(w) && w.bus.tickets == [] && w.births == []
    requires n.ledger == w.ledger && n.births == [] && n.servedBirths == w.servedBirths && n.bus.tickets == [] && n.bus.pending == map[]
    ensures Orderly(n)
  {
    hide LatestWins, Trades, Key;
  }

  lemma IdleKeepsOrderly(w: World, c: nat)
    requires Inv(w) && Orderly(w) && w.bus.tickets == []
    ensures Orderly(ServeAnyTo(w, c)) && Orderly(ServeTradingOnce(w))
    ensures ServeAnyTo(w, c).ledger == w.ledger == ServeTradingOnce(w).ledger
  {
    assert w.bus.pending == map[] && w.births == [];
    hide ServeAnyTo, ServeTradingOnce, Inv, Orderly;
    NothingToServe(w, c);
    IdleStaysOrderly(w, ServeAnyTo(w, c));
    IdleStaysOrderly(w, ServeTradingOnce(w));
  }

  lemma PublishKeepsOrderly(w: World, pub: Publication)
    requires Inv(w) && Orderly(w)
    ensures Orderly(PublishAtOnce(w, pub)) && (MirroredInOrder(w.ledger) ==> MirroredInOrder(PublishAtOnce(w, pub).ledger))
  {
    PublishOutcome(w.bus, pub);
    PublishKeepsOneTicketEach(w.bus, pub);
    PublishKeepsOrder(w, PublishAtOnce(w, pub), pub);
    PublishKeepsLatest(w.ledger, pub, TakesKey(w.bus, pub));
    hide LatestWins, FirstComeFirstServed, OneTicketEach;
    if MirroredInOrder(w.ledger) {
      PublishKeepsMirrorOrder(w.ledger, pub, TakesKey(w.bus, pub));
    }
    hide MirroredInOrder, PublishNowait, Published;
  }

  /** Steps on the low lanes leave the trading lane and the ledger alone. */
  lemma LowStepsKeepLane(w: World, a: Action)
    requires a.ServeMaintenance? || a.ServePersistence? || a.PauseLow? || a.ResumeLow?
    requires Inv(w)
    ensures var n := Step(w, a);
      && n.bus.tickets == w.bus.tickets && n.bus.pending == w.bus.pending
      && n.ledger == w.ledger && n.births == w.births && n.servedBirths == w.servedBirths
  {
    hide Inv;
  }

  lemma StepKeepsFifo(w: World, a: Action)
    requires Inv(w) && LatestValueFifo(w) && Enabled(w, a) && NonBlocking(a)
    ensures LatestValueFifo(Step(w, a))
  {
    match a
    case PublishNow(pub) => PublishKeepsOrderly(w, pub);
    case ServeAny(c) => ServeKeepsOrderly(w, c);
    case ServeTrading => ServeKeepsOrderly(w, 0);
    case _ => LowStepsKeepLane(w, a);
  }

  /** Without blocking publishers the trading lane is a first-come queue of distinct keys whose
      deliveries are the newest event of their key, and the outbox is the publish log itself. */
  lemma {:induction false} NonBlockingRunKeepsFifo(w: World, run: seq<Action>)
    requires Inv(w) && LatestValueFifo(w) && Legal(w, run)
    requires forall a :: a in run ==> NonBlocking(a)
    ensures LatestValueFifo(Run(w, run))
    ensures Run(w, run).bus.sinkBound ==> Run(w, run).bus.outbox == Run(w, run).ledger.log
    decreases |run|
  {
    if run != [] {
      StepKeepsInv(w, run[0]);
      StepKeepsFifo(w, run[0]);
      NonBlockingRunKeepsFifo(Step(w, run[0]), run[1..]);
    }
  }

  lemma FreshIsOrderly(b: BusState)
    requires FreshBus(b)
    ensures OneTicketEach(b) && FirstComeFirstServed(InitWorld(b))
  {
    hide Sound, Silent;
  }

  lemma FreshLedger(b: BusState)
    ensures LatestWins(InitWorld(b).ledger) && MirroredInOrder(InitWorld(b).ledger)
  {
    hide Silent;
  }

  lemma FreshIsFifo(b: BusState)
    requires FreshBus(b)
    ensures Inv(InitWorld(b)) && LatestValueFifo(InitWorld(b))
  {
    InitHolds(b);
    FreshIsOrderly(b);
    FreshLedger(b);
    hide Inv, FreshBus, OneTicketEach, FirstComeFirstServed, LatestWins, MirroredInOrder;
  }

  /** The same from a fresh bus. */
  lemma NonBlockingRunIsLatestValueFifo(b: BusState, run: seq<Action>)
    requires FreshBus(b) && Inv(InitWorld(b)) && Legal(InitWorld(b), run)
    requires forall a :: a in run ==> NonBlocking(a)
    ensures var w := Run(InitWorld(b), run);
      LatestValueFifo(w) && (w.bus.sinkBound ==> w.bus.outbox == w.ledger.log)
  {
    FreshIsFifo(b);
    NonBlockingRunKeepsFifo(InitWorld(b), run);
  }

  // ---- the trading lane as a plain list ----

  datatype Entry = Entry(key: string, event: Event)

  /** The pending events in ticket order. */
  function LaneOfBus(b: BusState): (lane: seq<Entry>)
    requires forall k :: k in b.tickets ==> k in b.pending
    ensures |lane| == |b.tickets|
  {
    seq(|b.tickets|, i requires 0 <= i < |b.tickets| => Entry(b.tickets[i], b.pending[b.tickets[i]]))
  }

  /** The reference queue: one entry a key, a later event takes its namesake's place. */
  function PutLatest(lane: seq<Entry>, capacity: nat, e: Entry): (r: seq<Entry>)
    ensures |r| <= |lane| + 1
  {
    if lane == [] then (if capacity > 0 then [e] else [])
    else if lane[0].key == e.key then [e] + lane[1..]
    else [lane[0]] + PutLatest(lane[1..], if capacity > 0 then capacity - 1 else 0, e)
  }

  lemma {:induction false} PutLatestAppends(lane: seq<Entry>, capacity: nat, e: Entry)
    requires forall i :: 0 <= i < |lane| ==> lane[i].key != e.key
    ensures PutLatest(lane, capacity, e) == if |lane| < capacity then lane + [e] else lane
  {
    if lane != [] {
      PutLatestAppends(lane[1..], if capacity > 0 then capacity - 1 else 0, e);
    }
  }

  lemma {:induction false} PutLatestReplaces(lane: seq<Entry>, capacity: nat, e: Entry, at: nat)
    requires at < |lane| && lane[at].key == e.key
    requires forall i :: 0 <= i < at ==> lane[i].key != e.key
    ensures PutLatest(lane, capacity, e) == lane[at := e]
  {
    if at > 0 {
      PutLatestReplaces(lane[1..], if capacity > 0 then capacity - 1 else 0, e, at - 1);
    }
  }

  lemma LaneReplaced(b: BusState, n: BusState, e: Entry, at: nat)
    requires OneTicketEach(b) && at < |b.tickets| && b.tickets[at] == e.key
    requires n.tickets == b.tickets && n.pending == b.pending[e.key := e.event]
    ensures forall k :: k in n.tickets ==> k in n.pending
    ensures LaneOfBus(n) == LaneOfBus(b)[at := e]
  {}

  lemma LaneExtended(b: BusState, n: BusState, e: Entry)
    requires OneTicketEach(b) && e.key !in b.tickets
    requires n.tickets == b.tickets + [e.key] && n.pending == b.pending[e.key := e.event]
    ensures forall k :: k in n.tickets ==> k in n.pending
    ensures LaneOfBus(n) == LaneOfBus(b) + [e]
  {}

  /** A non-blocking publish does to the tickets and the pending map exactly what putting does to
      the plain list. */
  lemma PublishRefinesList(b: BusState, pub: Publication)
    requires OneTicketEach(b) && b.retainedCapacity > 0
    ensures var n := PublishNowait(b, pub);
      && OneTicketEach(n)
      && LaneOfBus(n) == if Trades(pub) then PutLatest(LaneOfBus(b), b.tradingCapacity, Entry(Key(pub), pub.event)) else LaneOfBus(b)
  {
    hide PublishNowait, PutLatest;
    PublishOutcome(b, pub);
    PublishKeepsOneTicketEach(b, pub);
    var lane, e, n := LaneOfBus(b), Entry(Key(pub), pub.event), PublishNowait(b, pub);
    if Trades(pub) && Key(pub) in b.pending {
      var at :| 0 <= at < |b.tickets| && b.tickets[at] == Key(pub);
      PutLatestReplaces(lane, b.tradingCapacity, e, at);
      LaneReplaced(b, n, e, at);
    } else if Trades(pub) {
      PutLatestAppends(lane, b.tradingCapacity, e);
      if !b.TradingFull() {
        LaneExtended(b, n, e);
      } else {
        assert LaneOfBus(n) == lane;
      }
    } else {
      assert LaneOfBus(n) == lane;
    }
  }

  /** And a turn of the trading consumer takes the list's head. */
  lemma ServeRefinesList(b: BusState)
    requires OneTicketEach(b)
    ensures b.tickets == [] ==> NextTrading(b) == (b, None)
    ensures b.tickets != [] ==>
      && NextTrading(b).1 == Some(LaneOfBus(b)[0].event)
      && OneTicketEach(NextTrading(b).0) && LaneOfBus(NextTrading(b).0) == LaneOfBus(b)[1..]
  {
    if b.tickets == [] {
      assert b.pending == map[];
    } else {
      FrontTicketServed(b);
      PopHeadKeepsOneTicketEach(b, NextTrading(b).0);
    }
  }

  // ---- what blocking publishers break ----

  function Named(key: string, id: string): Publication {
    Publication(0, Event(Some(key), None, None, Some(id), None, ""))
  }

  function TwoSlotBus(): BusState {
    BusState(2, [], map[], LowLane(1, [], []), LowLane(1, [], []), 1, false, false, false, [])
  }

  /** A publisher that suspended early resumes late: the queue then holds two tickets for one key
      and the older event has replaced the newer one. */
  lemma SuspendedPublisherOverwritesNewer()
    ensures var stale, latest := Named("k", "old"), Named("k", "new");
      var full := PublishNowait(PublishNowait(TwoSlotBus(), Named("a", "1")), Named("b", "2"));
      && MustBlock(full, stale)
      && var later := PublishNowait(NextTrading(full).0, latest);
         && later.pending["k"] == latest.event
         && var roomy := NextTrading(later).0;
            && !roomy.TradingFull()
            && Enqueue(roomy, stale).tickets == ["k", "k"]
            && Enqueue(roomy, stale).pending == map["k" := stale.event]
  {
    var a, b, latest := Named("a", "1"), Named("b", "2"), Named("k", "new");
    var full := PublishNowait(PublishNowait(TwoSlotBus(), a), b);
    assert full.tickets == ["a", "b"] && full.pending == map["a" := a.event, "b" := b.event];
    var later := PublishNowait(NextTrading(full).0, latest);
    assert later.tickets == ["b", "k"] && later.pending == map["b" := b.event, "k" := latest.event];
    var roomy := NextTrading(later).0;
    assert roomy.tickets == ["k"] && roomy.pending == map["k" := latest.event];
  }
}
