/** The event bus as the object the program shares: the same transitions, done in place. */
module EventBus {
  import opened Prelude
  import M = EventBusModel

  /** Hand retained events over one at a time while the queue has room. */
  method DrainRetained(lane: M.LowLane) returns (result: M.LowLane, moved: bool)
    ensures result == M.FlushLane(lane)
    ensures moved <==> result.queue != lane.queue
  {
    result, moved := lane, false;
    while result.retained != [] && !result.Full()
      invariant M.FlushLane(result) == M.FlushLane(lane)
      invariant |result.queue| >= |lane.queue| && (moved <==> |result.queue| > |lane.queue|)
      invariant !moved ==> result == lane
      decreases |result.retained|
    {
      var item := result.retained[0];
      result := result.(queue := result.queue + [item.event], retained := result.retained[1..]);
      moved := true;
    }
  }

  /** Scan the retained list for the key; replace in place, else evict the oldest and append. */
  method RetainInList(items: seq<M.Retained>, capacity: nat, e: M.Event) returns (r: seq<M.Retained>)
    requires capacity > 0
    ensures r == M.Retain(items, capacity, e)
  {
    var key := M.Identity(e);
    var index := 0;
    while index < |items|
      invariant 0 <= index <= |items|
      invariant forall j :: 0 <= j < index ==> items[j].key != key
    {
      if items[index].key == key {
        r := items[index := M.Retained(key, e)];
        return;
      }
      index := index + 1;
    }
    r := items;
    if |r| >= capacity {
      r := r[1..];
    }
    r := r + [M.Retained(key, e)];
  }

  class EventBus {
    const tradingCapacity: nat
    const retainedCapacity: nat
    const sinkBound: bool
    var tickets: seq<string>
    var pending: map<string, M.Event>
    var maintenance: M.LowLane
    var persistence: M.LowLane
    var paused: bool
    var wake: bool
    var outbox: seq<M.Publication>  // what the bound persistence sink has been handed

    function View(): M.BusState
      reads this
    {
      M.BusState(tradingCapacity, tickets, pending, maintenance, persistence,
                 retainedCapacity, paused, wake, sinkBound, outbox)
    }

    ghost predicate Valid()
      reads this
    {
      M.Sound(View())
    }

    /** A capacity of 0 stands for "not given" and takes the default. */
    constructor (maxSize: nat, trading: nat, maintenanceSize: nat, persistenceSize: nat, retained: nat, sink: bool)
      ensures Valid() && sinkBound == sink && outbox == [] && pending == map[] && !wake && !paused
      ensures tradingCapacity == if trading > 0 then trading else if maxSize > 0 then maxSize else 1000
      ensures maintenance.capacity == if maintenanceSize > 0 then maintenanceSize else if maxSize > 0 then maxSize else 1000
      ensures persistence.capacity == if persistenceSize > 0 then persistenceSize else if maxSize > 0 then maxSize else 5000
      ensures retained > 0 ==> retainedCapacity == retained
      ensures retained == 0 ==>
        && retainedCapacity in {tradingCapacity, maintenance.capacity, persistence.capacity}
        && tradingCapacity <= retainedCapacity
        && maintenance.capacity <= retainedCapacity && persistence.capacity <= retainedCapacity
    {
      var t := if trading > 0 then trading else if maxSize > 0 then maxSize else 1000;
      var m := if maintenanceSize > 0 then maintenanceSize else if maxSize > 0 then maxSize else 1000;
      var p := if persistenceSize > 0 then persistenceSize else if maxSize > 0 then maxSize else 5000;
      tradingCapacity := t;
      var widest := if t >= m && t >= p then t else if m >= p then m else p;
      retainedCapacity := if retained > 0 then retained else widest;
      sinkBound := sink;
      tickets, pending, outbox := [], map[], [];
      maintenance, persistence := M.LowLane(m, [], []), M.LowLane(p, [], []);
      paused, wake := false, false;
    }

    method MirrorToOutbox(pub: M.Publication)
      modifies this`outbox
      ensures View() == M.Mirror(old(View()), pub)
    {
      if sinkBound {
        outbox := outbox + [pub];
      }
    }

    method FlushRetained()
      modifies this`maintenance, this`persistence, this`wake
      ensures View() == M.Flush(old(View()))
    {
      if paused {
        return;
      }
      var m, mMoved := DrainRetained(maintenance);
      var p, pMoved := DrainRetained(persistence);
      maintenance, persistence := m, p;
      if mMoved || pMoved {
        wake := true;
      }
    }

    method PublishLow(pub: M.Publication)
      requires M.LaneOf(pub.priority) != M.Trading && retainedCapacity > 0
      modifies this
      ensures View() == M.PublishLow(old(View()), pub)
    {
      var lane := M.LaneOf(pub.priority);
      if lane == M.Persistence && sinkBound {
        MirrorToOutbox(pub);
        return;
      }
      var target := if lane == M.Maintenance then maintenance else persistence;
      if paused || target.Full() {
        var kept := RetainInList(target.retained, retainedCapacity, pub.event);
        target := target.(retained := kept);
      } else {
        target := target.(queue := target.queue + [pub.event]);
      }
      if lane == M.Maintenance {
        maintenance := target;
      } else {
        persistence := target;
      }
      MirrorToOutbox(pub);
      wake := true;
    }

    method PublishNowait(pub: M.Publication)
      requires Valid()
      modifies this
      ensures Valid() && View() == M.PublishNowait(old(View()), pub)
    {
      if M.LaneOf(pub.priority) == M.Trading {
        var key := M.TradingKey(pub.event);
        if key in pending {
          pending := pending[key := pub.event];
          MirrorToOutbox(pub);
          wake := true;
        } else if |tickets| < tradingCapacity {
          tickets := tickets + [key];
          pending := pending[key := pub.event];
          MirrorToOutbox(pub);
          wake := true;
        } else {
          MirrorToOutbox(pub);
        }
      } else {
        PublishLow(pub);
      }
      M.PublishNowaitKeepsSound(old(View()), pub);
    }

    /** The stretch of a blocking publish up to its only suspension. */
    method PublishBegin(pub: M.Publication) returns (suspended: bool)
      requires Valid()
      modifies this
      ensures Valid()
      ensures suspended <==> M.MustBlock(old(View()), pub)
      ensures View() == if suspended then old(View()) else M.PublishNowait(old(View()), pub)
    {
      if M.LaneOf(pub.priority) == M.Trading && M.TradingKey(pub.event) !in pending && |tickets| >= tradingCapacity {
        return true;
      }
      PublishNowait(pub);
      return false;
    }

    /** The stretch after the suspension: the put finds room and the write follows at once. */
    method PublishFinish(pub: M.Publication)
      requires Valid() && |tickets| < tradingCapacity
      modifies this
      ensures Valid() && View() == M.Enqueue(old(View()), pub)
    {
      var key := M.TradingKey(pub.event);
      tickets := tickets + [key];
      pending := pending[key := pub.event];
      MirrorToOutbox(pub);
      wake := true;
      M.EnqueueKeepsSound(old(View()), pub);
    }

    method PopTrading() returns (event: Option<M.Event>)
      modifies this`tickets, this`pending
      ensures (View(), event) == M.PopTrading(old(View()))
    {
      event := None;
      while tickets != []
        invariant M.PopTicket(tickets, pending) == M.PopTicket(old(tickets), old(pending))
        invariant pending == old(pending) && event == None
        decreases |tickets|
      {
        var key := tickets[0];
        tickets := tickets[1..];
        if key in pending {
          event := Some(pending[key]);
          pending := pending - {key};
          return;
        }
      }
    }

    method PopReady() returns (event: Option<M.Event>)
      modifies this
      ensures (View(), event) == M.PopReady(old(View()))
    {
      event := PopTrading();
      if event.None? {
        if maintenance.queue != [] {
          event := Some(maintenance.queue[0]);
          maintenance := maintenance.(queue := maintenance.queue[1..]);
        } else if persistence.queue != [] {
          event := Some(persistence.queue[0]);
          persistence := persistence.(queue := persistence.queue[1..]);
        }
      }
    }

    method NextEvent() returns (event: Option<M.Event>)
      requires Valid()
      modifies this
      ensures Valid() && (View(), event) == M.NextEvent(old(View()))
    {
      ghost var before := View();
      FlushRetained();
      ghost var flushed := View();
      event := PopReady();
      assert (View(), event) == M.PopReady(flushed);
      if event.None? {
        wake := false;
      }
      assert (View(), event) == M.NextEvent(before);
      M.NextEventKeepsSound(before);
    }

    method NextTrading() returns (event: Option<M.Event>)
      requires Valid()
      modifies this
      ensures Valid() && (View(), event) == M.NextTrading(old(View()))
    {
      event := PopTrading();
      if event.Some? {
        FlushRetained();
      }
      M.NextTradingKeepsSound(old(View()));
    }

    method NextMaintenance() returns (event: Option<M.Event>)
      requires Valid()
      modifies this
      ensures Valid() && (View(), event) == M.NextMaintenance(old(View()))
    {
      event := None;
      if maintenance.queue != [] {
        event := Some(maintenance.queue[0]);
        maintenance := maintenance.(queue := maintenance.queue[1..]);
        FlushRetained();
      }
      M.NextLowKeepsSound(old(View()));
    }

    method NextPersistence() returns (event: Option<M.Event>)
      requires Valid()
      modifies this
      ensures Valid() && (View(), event) == M.NextPersistence(old(View()))
    {
      event := None;
      if persistence.queue != [] {
        event := Some(persistence.queue[0]);
        persistence := persistence.(queue := persistence.queue[1..]);
        FlushRetained();
      }
      M.NextLowKeepsSound(old(View()));
    }

    method PauseLowPriority()
      requires Valid()
      modifies this`paused
      ensures Valid() && View() == M.Pause(old(View()))
    {
      paused := true;
    }

    method ResumeLowPriority()
      requires Valid()
      modifies this
      ensures Valid() && View() == M.Resume(old(View()))
    {
      paused := false;
      FlushRetained();
      wake := true;
      M.ResumeKeepsSound(old(View()));
    }
  }
}
